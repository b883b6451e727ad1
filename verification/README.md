# Verified model of the application's hard parts

This Dafny project models the parts of the application whose correctness is not visible from reading one
function: the incremental walker over streamed tool arguments and the Markdown it is turned into, the
owner-per-key protocol of MCP sessions, the life of the stages a streamed answer opens, deferred stage
closing, JSON Merge Patch with its guard, the JSON-schema converter over cyclic graphs, optimistic editing
of stored files, bounded reading, searching and listing of files, UTF-8-safe truncation of web pages, and
the diff that tells a conversation what its contexts offer.

`dafny verify dfyconfig.toml` checks the whole project.

How the parts are modelled:

- Objects that change in place are classes with the source's fields; each method is proved against a
  function on a value (`View()` gives that value), and the laws are lemmas about the function.
- Protocols of concurrent tasks are state machines: a world, labels for the stretches of work between two
  awaits, and theorems over all runs. Cancellation, transport failures and other writers are labels.
- Text is a sequence of code points, lone surrogates included, as in Python (`PyText`).
- Calls into foreign code are either steps with any outcome (every UI call may raise, every listing may
  fail) or functions nothing is known about: `Json.NumberText` (how a number read is printed again),
  `ParameterFormat.ReprOf` (`str` of a value that is not a string), `ArgumentStreamer.LenientHex` (what
  `int(…, 16)` makes of four characters that are not hex digits), `ContextEntries.GuessMime` and
  `ContextEntries.TitleOf`.

| module | what it is |
|---|---|
| Wrappers, Sequences, PyText, Utf8 | optional values; laws of sequences; Python text and its searching; RFC 3629 |
| Json, JsonLoads, JsonSyntax, JsonReading, JsonSpellings, JsonLayout, JsonDumpsProofs, JsonRoundTrip | `json.dumps(…, indent=4)`, `json.loads`, the legal texts of RFC 8259, and their laws |
| ArgumentStreamer, ArgumentStreamerProofs | the streamer and what it emits |
| ParameterFormat, ParameterMarkdown, ArgumentPresenter, ArgumentPresenterProofs, StaticAgreementProofs, ConfigAgreementProofs | the static rendering, the live one, and when they agree |
| SessionManager, SessionProgress, StageLifecycle, StageCloseRegistry, StageCloseRuns, EditFile, EditRuns | the protocols |
| JsonMergePatch, MergePaths, SchemaConverter, SchemaVariants | the recursive transformations |
| LinePaging, SearchWindows, FolderListing, WebTruncation, ContextEntries, ContextOffers, ContextHistory | the bounded loops |

Where the code does less than its documentation or its callers expect, the exact condition is proved and
a concrete witness or family is given:

- An escaped surrogate pair is streamed as two characters where `json.loads` gives one
  (`StreamedStringIsLoaded`); printed as JSON the two look alike (`PairsPrintAlike`), in Markdown they differ
  wherever the value is shown (`PairInValueShows`).
- An object with a repeated key streams differently from its static dump: always in JSON
  (`JsonModeMatchesStatic`), in Markdown unless the key is ignored (`ConfigModeMatchesStatic`).
- A fenced string parameter never streams like its static rendering (`FencedStringShows`).
- A caller cancelled while its session opens can leave an owner that closing never reaches
  (`NoOrphanIffNoOverwrite`, `CancelledOpenLeavesOrphan`).
- A caller still queued on a lock when the manager closes starts an owner that this closing never tells to stop
  (`ClosedForGoodIffNobodyQueued`, `QueuedCallerIsMissed`).
- A call started after closing, on a session handed out late, does not learn that its owner has ended
  (`CallWatchesItsSession`, `ClosingEndsCalls`, `LateCallIsMissed`).
- A stage is lost when building the presentation of a stage just opened raises, or when two tool calls
  share an id (`RunStream`).
- A hook keyed to a wrapper that is never deferred does not run (`FlushCounts`).
- The merge guard also rejects a `type` inside an array, which no merge could show (`GuardAlsoRejectsArrays`).
- A text with a beginning that is also its end can occur twice, overlapping, and still be counted once and
  edited (`UnambiguousIffUnbordered`).
- A negative `context_lines`, which nothing rejects, can print lines far from any match (`NegativeContext`).
- `list_folder` with a depth bound below one still lists depth one (`ListingOfTree`).
- The web cap is kept only if the notice itself fits it (`LoadedStaysBelowCap`), and a page shown whole can
  be mistaken for one with a notice, although the docstring of `split_truncation_notice` rules that out
  (`WholePageIsSplit`).

## Model

| member | source | states |
|---|---|---|
| ArgumentStreamer.FeedConcat | src/quickapp/common/chat_completion_stream/json_object_argument_streamer.py:66-74 | Feeding two texts one after the other gives the state and the events of feeding them joined, from any state. |
| ArgumentStreamer.ChunkingIsIrrelevant | src/quickapp/common/chat_completion_stream/json_object_argument_streamer.py:66-74 | For every input, malformed or not, and every split into chunks, the events and the final state are those of one feed. |
| ArgumentStreamerProofs.ConsumeKeepsGrammar | src/quickapp/common/chat_completion_stream/json_object_argument_streamer.py:76-156 | One character, in any consistent state, emits only events the grammar `(KeyReady StringChars* ValueComplete)* ObjectDone?` allows next, with the latest key, and keeps the invariant that in a nested value the depth is the height of the bracket stack. |
| ArgumentStreamerProofs.EventsFollowGrammar | src/quickapp/common/chat_completion_stream/json_object_argument_streamer.py:66-217 | On every input in any chunks the whole event stream stays inside that grammar: keys match the latest `KeyReady`, the pieces of a string concatenate to its completed value, nothing follows `ObjectDone`. |
| ArgumentStreamerProofs.JunkIsSkipped | src/quickapp/common/chat_completion_stream/json_object_argument_streamer.py:90-125 | Malformed input: between members everything but a quote or a closing brace is skipped, and after a key everything but a colon. |
| ArgumentStreamerProofs.NoObjectTellsNothing | src/quickapp/common/chat_completion_stream/json_object_argument_streamer.py:76-88 | A text whose first character besides spaces is no opening brace gives no event, whatever follows and however it is cut. |
| ArgumentStreamerProofs.RunsNested | src/quickapp/common/chat_completion_stream/json_object_argument_streamer.py:171-199 | Every legal value inside a nested value, with any brackets and quotes in its strings, is buffered verbatim, emits nothing, and leaves the bracket stack as it was. |
| ArgumentStreamerProofs.RunsContainer | src/quickapp/common/chat_completion_stream/json_object_argument_streamer.py:171-217 | A top-level array or object gives one `ValueComplete` whose value is the one its exact text stands for. |
| ArgumentStreamerProofs.RunsScalar | src/quickapp/common/chat_completion_stream/json_object_argument_streamer.py:200-217 | A number, constant or boolean is complete only at the delimiter behind it, which is then read as usual. |
| ArgumentStreamerProofs.RunsString | src/quickapp/common/chat_completion_stream/json_object_argument_streamer.py:158-169 | A string value emits one piece per written character, escapes decoded, and then the whole. |
| ArgumentStreamerProofs.LegalObjectEvents | src/quickapp/common/chat_completion_stream/json_object_argument_streamer.py:66-255 | For every legal text of every JSON object (any padding, escapes, nesting), every split into chunks, and anything after it: exactly the members in order, each `KeyReady`, its pieces, `ValueComplete` with its value, then one `ObjectDone`, and the streamer is done. Which characters its strings are is `UnitsByPlace`. |
| ArgumentStreamerProofs.StreamedStringIsLoaded | src/quickapp/common/chat_completion_stream/json_object_argument_streamer.py:219-255 | The streamed value of a string is the one `json.loads` gives if and only if the literal has no escaped surrogate pair (section 7 of RFC 8259). |
| ArgumentStreamerProofs.SurrogatePairDiffers | src/quickapp/common/chat_completion_stream/json_object_argument_streamer.py:219-255 | `"\uD83D\uDE00"` is streamed as two characters and loaded as one. |
| JsonSpellings.SimpleEscapes | src/quickapp/common/chat_completion_stream/json_object_argument_streamer.py:239-248 | The eight simple escapes of section 7 of RFC 8259 and the character each stands for, and no others. |
| JsonSpellings.DecodesEscape | src/quickapp/common/chat_completion_stream/json_object_argument_streamer.py:232-248 | After a backslash the streamer reads each of the eight as its character and anything else but `u` as itself. |
| JsonSpellings.Hex4Spells | src/quickapp/common/chat_completion_stream/json_object_argument_streamer.py:221-230 | A `\u` escape is exactly four hexadecimal digits of either case and stands for the number they spell. |
| JsonSpellings.UnitsByPlace | src/quickapp/common/chat_completion_stream/json_object_argument_streamer.py:219-255 | The streamed value of a literal is, place by place, what its plain characters, simple escapes and hexadecimal escapes stand for. |
| JsonSpellings.RespelledLiteral | src/quickapp/common/chat_completion_stream/json_object_argument_streamer.py:219-255 | Writing items of a literal in another way for the same code unit, such as `\/` as `/`, changes neither its streamed nor its loaded value. |
| JsonSpellings.SpellingIsIrrelevant | src/quickapp/common/chat_completion_stream/json_object_argument_streamer.py:66-255 | Two texts of one object that differ in padding and in how characters are escaped, in any chunks: the same events, and the same value from `json.loads`. |
| JsonSpellings.NumbersAreNumerals | src/quickapp/common/chat_completion_stream/json_object_argument_streamer.py:208-217 | What is read as a number is exactly the grammar of section 6 of RFC 8259: a sign, an integer without a leading zero, a fraction, an exponent. |
| JsonSyntax.ParseSyntax | src/quickapp/common/chat_completion_stream/json_object_argument_streamer.py:208-217 | The `json.loads` that finishes a raw value reads every legal text, followed by anything, as the value the text stands for. |
| JsonSyntax.LoadsLegalText | src/quickapp/common/chat_completion_stream/json_object_argument_streamer.py:208-217 | Round trip of the reader used for finished raw values: every legal JSON text, padded or not, loads as its value. |
| JsonReading.LoadsExactlyLegalText | src/quickapp/common/chat_completion_stream/json_object_argument_streamer.py:208-217 | Loading succeeds with a value exactly on the legal texts that stand for it, and fails exactly on all others: every text is accounted for. |
| JsonReading.RawIsLoadedOrKept | src/quickapp/common/chat_completion_stream/json_object_argument_streamer.py:208-217 | A finished raw value is the value its text stands for, and the text itself, as a string, exactly when it stands for none. |
| ArgumentStreamer.JsonObjectArgumentStreamer.FeedChunk | src/quickapp/common/chat_completion_stream/json_object_argument_streamer.py:66-74 | The streamer object, fed a chunk, returns the events of `Feed` and reaches its state; it stops reading once done. |
| ArgumentStreamer.JsonObjectArgumentStreamer.ConsumeChar | src/quickapp/common/chat_completion_stream/json_object_argument_streamer.py:76-156 | One character changes every field as `Consume` says. |
| ArgumentStreamer.JsonObjectArgumentStreamer.ConsumeTopStringChar | src/quickapp/common/chat_completion_stream/json_object_argument_streamer.py:158-169 | A character of a top-level string, its pieces joined at the closing quote. |
| ArgumentStreamer.JsonObjectArgumentStreamer.ConsumeRawChar | src/quickapp/common/chat_completion_stream/json_object_argument_streamer.py:171-206 | A character of a raw value: nested brackets and embedded strings, or a scalar and its delimiter. |
| ArgumentStreamer.JsonObjectArgumentStreamer.FinishRawValue | src/quickapp/common/chat_completion_stream/json_object_argument_streamer.py:208-217 | A finished raw value is loaded, or kept as a string when it is not JSON. |
| ArgumentStreamer.JsonObjectArgumentStreamer.ConsumeStringChar | src/quickapp/common/chat_completion_stream/json_object_argument_streamer.py:219-255 | The escape flags and the hex buffer, one character at a time; `DecodesEscape` and `UnitsByPlace` say what comes out. |
| ArgumentPresenterProofs.PresentIsOneFeed | src/quickapp/common/chat_completion_stream/argument_stream_presentation.py:81-104 | However the text is cut, the presenter shows what the events of the whole text and one `finish` show. |
| ArgumentPresenterProofs.ApplyKeepsFences | src/quickapp/common/chat_completion_stream/argument_stream_presentation.py:106-151 | Every event keeps the agreement between the presenter’s flags and the fences open in what it has appended, in both modes. |
| ArgumentPresenterProofs.FencesAlwaysBalance | src/quickapp/common/chat_completion_stream/argument_stream_presentation.py:81-104 | Any input, malformed or cut anywhere, in any chunks, in either mode: after `finish` every fence opened was closed exactly once, and whatever was shown is reported as streamed. |
| ArgumentPresenterProofs.ReportedIffStreamed | src/quickapp/common/chat_completion_stream/argument_stream_presentation.py:87-151 | On any input in any chunks, in either mode, the body is reported as streamed, so that the static dump is left out, exactly if something was shown or the object came to its end. |
| ArgumentPresenterProofs.FinishIsFinal | src/quickapp/common/chat_completion_stream/argument_stream_presentation.py:81-104 | After `finish` nothing is shown any more, neither by further chunks nor by finishing again. |
| ArgumentPresenterProofs.JsonModeShowsDelivered | src/quickapp/common/chat_completion_stream/argument_stream_presentation.py:87-104 | JSON_OBJECT mode on any input: what is shown is the request block of one object of exactly the delivered members, a string that was cut kept as far as it came; nothing if nothing came. |
| JsonDumpsProofs.EscapeConcat | src/quickapp/common/chat_completion_stream/argument_stream_presentation.py:248-251 | Escaping piece by piece is escaping the whole string. |
| JsonDumpsProofs.ReindentDumps | src/quickapp/common/chat_completion_stream/argument_stream_presentation.py:229-245 | Replacing each newline of a printed value by a newline and four spaces prints the value one level deeper, for all values and levels. |
| JsonDumpsProofs.PairsPrintAlike | src/quickapp/common/chat_completion_stream/argument_stream_presentation.py:248-251 | A surrogate pair split over two escapes and the character it stands for print the same ASCII. |
| JsonLayout.Layout | src/quickapp/common/chat_completion_stream/argument_stream_presentation.py:229-245 | Printed with an indent of four, the elements and members of every value stand each on a line of its own, four spaces for each level, joined by commas, `: ` behind a key, and an empty list or dict has no line break. |
| JsonLayout.EscapedCharIs | src/quickapp/common/chat_completion_stream/argument_stream_presentation.py:248-251 | In a printed string a character with a simple escape is written as that, the slash excepted, a printable ASCII one as it is, any other as the lower-case hexadecimal escape of its code unit or of its surrogate pair. |
| JsonLayout.EscapedIsAscii | src/quickapp/common/chat_completion_stream/argument_stream_presentation.py:248-251 | A printed string is printable ASCII, and one that is so already, without quotes and backslashes, is printed as it stands. |
| JsonRoundTrip.DumpsIsReloaded | src/quickapp/common/chat_completion_stream/argument_stream_presentation.py:141-151 | Every printed value, and so the block shown for any members, delivered whole or cut short, loads as that value with numbers by the numeral printed, lone surrogate pairs joined and objects made dicts. |
| JsonRoundTrip.RoundTripIffStable | src/quickapp/common/chat_completion_stream/argument_stream_presentation.py:229-251 | Printing and loading gives the value back if and only if its numerals print as themselves, no string or key has a lone surrogate pair and no object repeats a key. |
| StaticAgreementProofs.JsonModeMatchesStatic | src/quickapp/mcp_tooling/_mcp_stage_wrapper.py:21-26 | For every legal object text and every chunking, the streamed block equals the static `json.dumps(…, indent=4)` block of the loaded arguments if and only if no top-level key repeats. |
| StaticAgreementProofs.DictWeight | src/quickapp/mcp_tooling/_mcp_stage_wrapper.py:21-26 | A dict prints strictly shorter than the pairs it was built from as soon as a key repeats: why repeated keys must show. |
| ConfigAgreementProofs.ConfigModeShowsDelivered | src/quickapp/common/chat_completion_stream/argument_stream_presentation.py:87-209 | CONFIG_MAP mode on any input, malformed or cut anywhere, in any chunks: the header exactly if something is shown, each delivered parameter in arrival order, and what came of a string that was cut, its fence closed. |
| ConfigAgreementProofs.StreamedParameterIsStatic | src/quickapp/common/chat_completion_stream/argument_stream_presentation.py:161-209 | A parameter is streamed as the static dump renders it if and only if it is not a non-empty, unreplaced string with a `format`, whose fixed streaming fence the static fence never equals. |
| ConfigAgreementProofs.FencedStringShows | src/quickapp/common/parameter_stage_format.py:62-108 | The fixed streaming fence and the computed static fence make the two texts differ at that parameter, whatever follows. |
| ConfigAgreementProofs.PairInValueShows | src/quickapp/common/parameter_stage_format.py:62-99 | An escaped surrogate pair in a string value that is shown makes the two texts differ at that parameter, whatever follows. |
| ConfigAgreementProofs.DictRenders | src/quickapp/common/parameter_stage_format.py:83-99 | A dict renders as the pairs it is built from when every repeated key is ignored, and with fewer carriage returns otherwise. |
| ConfigAgreementProofs.ConfigModeMatchesStatic | src/quickapp/common/parameter_stage_format.py:83-99 | Every complete object whose top-level keys have no escaped surrogate pair streams, in any chunks, exactly as the static rendering of its loaded arguments in arrival order if and only if every repeated key is ignored, no non-empty unreplaced string has a `format`, and every string value with an escaped surrogate pair is ignored or replaced; in display order that rendering is `render_config_map_parameters`. |
| ParameterFormat.OrderSorts | src/quickapp/common/parameter_stage_format.py:72-80 | The display order is sorted. |
| ParameterFormat.OrderIsStable | src/quickapp/common/parameter_stage_format.py:72-80 | The parameters of any one order stay exactly as they came, so none is lost or made up. |
| ParameterFormat.OrderedStays | src/quickapp/common/parameter_stage_format.py:72-80 | Parameters already in display order are not moved. |
| ParameterFormat.LongestRunBounds | src/quickapp/common/utils.py:37-48 | No run of backticks in the fenced text is longer than the one the fence length is computed from. |
| ParameterFormat.LongestRunOccurs | src/quickapp/common/utils.py:37-48 | A run of exactly that length occurs. |
| ParameterMarkdown.FenceSurvivesText | src/quickapp/common/utils.py:37-48 | The fence around a text is one the text cannot close: three backticks or more, more in a row than anywhere in the text, and no more than that takes. |
| ParameterMarkdown.ShownParameter | src/quickapp/common/parameter_stage_format.py:48-69 | A parameter is its name, prefix, value and suffix on a line of its own; `ShownName` and `ShownValue` say which name and which value. |
| ParameterMarkdown.NoConfigIsPlain | src/quickapp/common/parameter_stage_format.py:92-98 | A parameter without a configuration is rendered as under one that says nothing. |
| ParameterMarkdown.EmptyIsNone | src/quickapp/common/parameter_stage_format.py:48-69 | An empty name, prefix, suffix or replacement is none, and a parameter’s place in the order does not show in its text. |
| ParameterMarkdown.ReplacedValueIsHidden | src/quickapp/common/parameter_stage_format.py:62-69 | What is shown in the place of a value keeps the value out of the text. |
| ParameterMarkdown.DumpShowsTheRest | src/quickapp/common/parameter_stage_format.py:83-99 | The dump is the header and, in display order, the parameters that are not ignored; the ignored ones leave no trace. |
| ParameterMarkdown.NoConfigIsOrderZero | src/quickapp/common/parameter_stage_format.py:72-80 | A parameter without a configuration stands where order zero stands. |
| ArgumentPresenter.StreamingArgumentPresenter.FeedArguments | src/quickapp/common/chat_completion_stream/argument_stream_presentation.py:81-85 | The presenter object passes a chunk to its streamer and applies the events, nothing once finished. |
| ArgumentPresenter.StreamingArgumentPresenter.FinishStream | src/quickapp/common/chat_completion_stream/argument_stream_presentation.py:87-104 | The end of the stream: open string, fence and JSON block are closed once. |
| ArgumentPresenter.StreamingArgumentPresenter.ApplyEvent | src/quickapp/common/chat_completion_stream/argument_stream_presentation.py:106-151 | One event changes flags and output as `Apply` says. |
| ArgumentPresenter.StreamingArgumentPresenter.OnConfigStringChars | src/quickapp/common/chat_completion_stream/argument_stream_presentation.py:161-178 | String pieces of a configured parameter: header, name, prefix and fence before the first. |
| ArgumentPresenter.StreamingArgumentPresenter.OnConfigValueComplete | src/quickapp/common/chat_completion_stream/argument_stream_presentation.py:180-209 | A completed configured parameter: ignored, the end of a streamed string, or the whole value. |
| ArgumentPresenter.StreamingArgumentPresenter.OnJsonStringChars | src/quickapp/common/chat_completion_stream/argument_stream_presentation.py:219-227 | Escaped pieces of a JSON string, its key before the first. |
| ArgumentPresenter.StreamingArgumentPresenter.OnJsonValueComplete | src/quickapp/common/chat_completion_stream/argument_stream_presentation.py:229-245 | A JSON member closed or printed whole, one level deep. |
| SessionManager.StepKeepsConsistent | src/quickapp/mcp_tooling/_mcp_session_manager.py:66-155 | Every step of every task keeps handles, locks, waiting callers and owners consistent. |
| SessionManager.StepCovers | src/quickapp/mcp_tooling/_mcp_session_manager.py:66-108 | One step leaves an owner running outside the table and untold exactly when a caller replaces a handle whose owner is still opening. |
| SessionManager.NoOrphanIffNoOverwrite | src/quickapp/mcp_tooling/_mcp_session_manager.py:66-155 | In every interleaving, cancellations included: no owner is ever left running outside the table without a shutdown signal if and only if no caller replaces a handle that is still opening. |
| SessionManager.PatientRunsLeaveNoOrphan | src/quickapp/mcp_tooling/_mcp_session_manager.py:77-94 | Without a caller cancelled while its owner is opening, no run leaves such an owner. |
| SessionManager.CancelledOpenLeavesOrphan | src/quickapp/mcp_tooling/_mcp_session_manager.py:77-94 | A run with one such cancellation after which two owners hold the same key and closing reaches only one. |
| SessionManager.OneLiveSessionPerKey | src/quickapp/mcp_tooling/_mcp_session_manager.py:66-94 | While every running owner is covered, each key has at most one live owner, so callers share its session. |
| SessionManager.HandedSessionIsOpen | src/quickapp/mcp_tooling/_mcp_session_manager.py:78-94 | A session handed out is of the asked key, open, not failed, and its owner is parked unless the manager is closing it. |
| SessionProgress.ErrorsComeFromOwners | src/quickapp/mcp_tooling/_mcp_session_manager.py:77-94 | In every interleaving from an empty manager, a caller is given an error only if an owner of its key has failed. |
| SessionProgress.EveryCallerGetsTheSession | src/quickapp/mcp_tooling/_mcp_session_manager.py:66-94 | In every interleaving without a failure, a cancellation or closing: one owner at most is started for each key, and once no caller and no opening owner has a step left, every caller has the open session of the one owner of the key it asked for. |
| SessionProgress.WaitingCanAdvance | src/quickapp/mcp_tooling/_mcp_session_manager.py:77-94 | Whatever happened before, while somebody waits a caller or an opening owner can take a step: no interleaving deadlocks. |
| SessionProgress.AdvanceIsBounded | src/quickapp/mcp_tooling/_mcp_session_manager.py:77-94 | Every run takes at most four such steps for each call, besides those ahead at its start. |
| SessionProgress.EverybodyCanBeAnswered | src/quickapp/mcp_tooling/_mcp_session_manager.py:77-94 | From every consistent world a run of such steps alone leaves nobody waiting. |
| SessionProgress.AnswersAreFinal | src/quickapp/mcp_tooling/_mcp_session_manager.py:66-94 | Over every run a caller keeps its answer once it has one, and until then waits for the key it asked for. |
| SessionProgress.FailedOpenRaises | src/quickapp/mcp_tooling/_mcp_session_manager.py:89-108 | An owner may fail at any time while it opens, and exactly its caller is then given an error. |
| SessionProgress.DeadSessionIsReplaced | src/quickapp/mcp_tooling/_mcp_session_manager.py:78-87 | When a parked owner fails, the next caller of its key neither gets that session nor an error: it starts a new owner. |
| SessionProgress.CancelLeavesNoLock | src/quickapp/mcp_tooling/_mcp_session_manager.py:77-94 | A caller may be cancelled whenever it waits; it leaves no lock behind, and nothing else changes. |
| SessionManager.FailureIsForGood | src/quickapp/mcp_tooling/_mcp_session_manager.py:96-108 | A failed handle never gets a session again, over every later run. |
| SessionManager.FailedOpenIsNotMemoized | src/quickapp/mcp_tooling/_mcp_session_manager.py:89-92 | A failed open reaches its caller, frees the key, and the next caller in line opens a new session. |
| SessionManager.CloseAllTellsEveryOwner | src/quickapp/mcp_tooling/_mcp_session_manager.py:144-149 | Closing empties the table and has told every owner still running. |
| SessionManager.StepKeepsTold | src/quickapp/mcp_tooling/_mcp_session_manager.py:66-155 | Once all running owners are told, a step of any task keeps it so if and only if it does not start another owner. |
| SessionManager.ToldAfterClosing | src/quickapp/mcp_tooling/_mcp_session_manager.py:144-149 | After closing, in every interleaving of all tasks: every running owner stays told if and only if no caller starts one. |
| SessionManager.ClosedForGoodIffNobodyQueued | src/quickapp/mcp_tooling/_mcp_session_manager.py:77-87 | No interleaving without new calls leaves a running owner untold after closing, if and only if nobody was queued on a lock when closing took its snapshot. |
| SessionManager.QueuedCallerIsMissed | src/quickapp/mcp_tooling/_mcp_session_manager.py:77-87 | A run without cancellation, replacement or later calls, in which a queued caller’s owner ends up parked and was never told. |
| SessionManager.UntoldOutsideTheTable | src/quickapp/mcp_tooling/_mcp_session_manager.py:96-108 | An owner outside the table that was not told can never be told by anything that happens later: it ends only by failing. |
| SessionManager.StepUsesWork | src/quickapp/mcp_tooling/_mcp_session_manager.py:96-108 | A step of any task: an owner’s own step uses up work, and only a caller that starts an owner adds any. |
| SessionManager.OwnerStepsAreBounded | src/quickapp/mcp_tooling/_mcp_session_manager.py:144-155 | In every run of all tasks the owner steps taken and still to come are at most the work there was and two for each owner started. |
| SessionManager.ToldOwnerIsNeverBlocked | src/quickapp/mcp_tooling/_mcp_session_manager.py:96-108 | A told owner stays told, and after any run of all tasks it has ended or can take its next step. |
| SessionManager.OwnersDrain | src/quickapp/mcp_tooling/_mcp_session_manager.py:144-155 | With all owners told there is a run of their own steps that ends them all. |
| SessionManager.EndedOwnerIsNoticed | src/quickapp/mcp_tooling/_mcp_session_manager.py:110-142 | However an owner ends, a call in flight on it, cancelled or not, ends too: with the owner’s error if and only if it has one, and as closed only if the manager told it to stop; a call that finished keeps its own result. |
| SessionManager.FailureReachesCalls | src/quickapp/mcp_tooling/_mcp_session_manager.py:110-142 | A transport failure turns every waiting call on the handle into that error, and no later step changes this. |
| SessionManager.CallWatchesItsSession | src/quickapp/mcp_tooling/_mcp_session_manager.py:120-126 | A call started as soon as its session is handed out watches that session’s handle, except exactly when closing has told the handle by then: it then watches none. |
| SessionManager.ClosingEndsCalls | src/quickapp/mcp_tooling/_mcp_session_manager.py:110-155 | Closing with nobody queued, then any interleaving without new calls in which the owners take all their steps: a call still waits if and only if it runs and was started without a table entry. |
| SessionManager.LateCallIsMissed | src/quickapp/mcp_tooling/_mcp_session_manager.py:110-142 | A run in which a caller resumes after closing, gets its session, and its call waits although the owner has ended. |
| SessionManager.McpSessionManager.GetSession | src/quickapp/mcp_tooling/_mcp_session_manager.py:66-77 | A call creates the key’s lock if there is none and queues for it. |
| SessionManager.McpSessionManager.AcquireLock | src/quickapp/mcp_tooling/_mcp_session_manager.py:77-87 | Under the lock: the live session, or a new handle and owner; consistency is kept. What callers get in the end is `EveryCallerGetsTheSession` and `ErrorsComeFromOwners`. |
| SessionManager.McpSessionManager.OnReady | src/quickapp/mcp_tooling/_mcp_session_manager.py:87-94 | When the owner has reported: the session, or its error with the handle dropped. |
| SessionManager.McpSessionManager.CloseEverything | src/quickapp/mcp_tooling/_mcp_session_manager.py:144-149 | The table is emptied and its owners told. |
| StageLifecycle.OwnedOnce | src/quickapp/common/chat_completion_stream/choice_ui_stream_sink.py:52-76 | When nothing is tracked any more, each opened stage was handed to close at most once, is adopted under at most one id, never both, and unless lost is one of the two. |
| StageLifecycle.MoveToolToAdopted | src/quickapp/common/chat_completion_stream/stream_result.py:128-129 | Adopting moves a tracked stage under its id; the stage adopted under that id before, if any, is the only one lost. |
| StageLifecycle.MoveAdoptedToClosed | src/quickapp/common/chat_completion_stream/stream_result.py:131-144 | Closing an adopted stage takes it out of the adopted ones and loses none. |
| StageLifecycle.ChatStreamAccumulator.AppendToolCallDelta | src/quickapp/common/chat_completion_stream/stream_result.py:115-119 | The id of a call is the concatenation of the id parts of its deltas, absent while none came; no other call changes. |
| StageLifecycle.IdsAreJoined | src/quickapp/common/chat_completion_stream/stream_result.py:115-119 | After a whole stream the id of an index is all its id parts in order, joined, and absent exactly if none came. |
| StageLifecycle.ChatStreamAccumulator.CloseRemainingAdoptedToolStages | src/quickapp/common/chat_completion_stream/stream_result.py:131-144 | Empties the adopted stages, each handed to close once with the given status, none lost. |
| StageLifecycle.ChoiceUiSink.StreamStageDelta | src/quickapp/common/chat_completion_stream/choice_ui_stream_sink.py:340-409 | A reasoning stage is opened, kept or closed as the delta says, whatever its UI calls do; none is lost. |
| StageLifecycle.ChoiceUiSink.StreamToolCallDelta | src/quickapp/common/chat_completion_stream/choice_ui_stream_sink.py:141-160 | A tool-call delta loses a stage exactly when presenting a stage it just opened raises, and raises exactly then, or when a late presentation or feeding the presenter raises; the suppressed indexes are exactly the earlier ones and this one if a suppressed name is shown here; a new index is tracked exactly if its stage opened and nothing raised; a tracked index keeps its stage or, suppressed by a late name, has it closed. |
| StageLifecycle.ChoiceUiSink.StreamToolCallDeltas | src/quickapp/common/chat_completion_stream/choice_ui_stream_sink.py:83-102 | The tool calls of a delta: if none raises, every index whose delta opens a stage has one or is suppressed; earlier stages stay or are suppressed, new ones come from deltas that open, and only suppressed names suppress; a stage is lost exactly when one raises while presenting a stage it just opened. |
| StageLifecycle.ChoiceUiSink.ApplyCustom | src/quickapp/common/chat_completion_stream/choice_ui_stream_sink.py:119-127 | The stage entries of a delta: it stops at the first write that raises; until then every entry that opens a stage leaves it there unless this or a later entry ends it; earlier stages stay unless an entry ends them, new ones come from entries that open, and each close has the status of an entry. |
| StageLifecycle.ChoiceUiSink.OpenNewToolStage | src/quickapp/common/chat_completion_stream/choice_ui_stream_sink.py:162-201 | A first delta: suppressed, not opened, or opened and tracked, unless building its presentation raises. |
| StageLifecycle.ChoiceUiSink.ApplyLateFunctionName | src/quickapp/common/chat_completion_stream/choice_ui_stream_sink.py:203-240 | A late name either suppresses the index and closes its stage or leaves the stage in place under that name, the name counting as shown unless showing it raised; it raises exactly when building the presenter does. |
| StageLifecycle.ChoiceUiSink.PublishAdoptedToolStages | src/quickapp/common/chat_completion_stream/choice_ui_stream_sink.py:282-321 | All tool stages are handed over or, without an id, closed; none is lost if and only if the tracked indexes have distinct ids, and then each is adopted under its own id. |
| StageLifecycle.ChoiceUiSink.AdoptToolStage | src/quickapp/common/chat_completion_stream/choice_ui_stream_sink.py:282-321 | Handing one stage over loses exactly what was adopted under the id before. |
| StageLifecycle.ChoiceUiSink.CloseAllStreamingStages | src/quickapp/common/chat_completion_stream/choice_ui_stream_sink.py:427-429 | Every reasoning stage is handed to close once, even if closing raises. |
| StageLifecycle.ChoiceUiSink.CloseAllToolStages | src/quickapp/common/chat_completion_stream/choice_ui_stream_sink.py:431-444 | Every tool stage is handed to close once, even if closing raises. |
| StageLifecycle.ChoiceUiSink.OnDelta | src/quickapp/common/chat_completion_stream/choice_ui_stream_sink.py:83-102 | A delta on which no call raises gives every tool call that opens a stage its stage, unless its name is suppressed, and every stage entry its stage unless it is ended; it fails only if one of its calls is one that raises; tool calls or shown content close all reasoning stages, as completed; without tool calls no tool stage changes; a stage is lost exactly when presenting a stage it just opened raises. |
| StageLifecycle.ChoiceUiSink.OnStreamSuccess | src/quickapp/common/chat_completion_stream/choice_ui_stream_sink.py:107-111 | After success nothing is tracked and closes are completed ones; each stage without an id is closed, no stage is lost if and only if ids are distinct, and then each is adopted under its id. |
| StageLifecycle.ChoiceUiSink.OnStreamFailure | src/quickapp/common/chat_completion_stream/choice_ui_stream_sink.py:113-117 | After failure nothing is tracked, every close is a failed one, and no stage is lost. |
| StageLifecycle.ForwardDelta | src/quickapp/common/chat_completion_stream/chat_stream_sink_factory.py:42-44 | The accumulator has recorded all of a delta’s ids whether or not a later sink raises; tool calls get their stages and stages are lost as by the delta. |
| StageLifecycle.RunStream | src/quickapp/common/chat_completion_stream/handler.py:74-107 | Every stream of deltas, with any UI call raising anywhere: at its end nothing is tracked, and a stream that failed, which takes a call that raises, adopts nothing. On success every index whose stage opens was tracked unless its name is suppressed, and every tracked stage is closed if it has no id and, ids being distinct, adopted under its id. No stage is lost if and only if no presentation of a just-opened stage raised and, on success, the tracked calls have distinct ids. |
| StageCloseRegistry.SyncTwice | src/quickapp/common/stage_close_registry.py:49-67 | Syncing twice is syncing once with all messages, the later ones winning. |
| StageCloseRegistry.FlushOrder | src/quickapp/common/stage_close_registry.py:92-103 | For each wrapper: keyed hooks, then queued hooks in order, then its one exit, last. |
| StageCloseRegistry.FlushCounts | src/quickapp/common/stage_close_registry.py:69-105 | A flush exits each pending wrapper exactly once and no other; a keyed hook runs exactly once if its wrapper is pending and never otherwise. |
| StageCloseRegistry.QueuedRunsOnce | src/quickapp/common/stage_close_registry.py:69-105 | Every queued hook of a pending wrapper runs exactly once. |
| StageCloseRuns.DictsHoldWhatWasAsked | src/quickapp/common/stage_close_registry.py:28-67 | After any sequence of registrations, deferrals and syncs: a wrapper is pending exactly when it was deferred or got a hook, with all its hooks in the order of registration; an id stands for the last hook registered for it or synced to it. |
| StageCloseRuns.EveryHookRuns | src/quickapp/common/stage_close_registry.py:28-105 | Whatever the calls before a flush, each hook registered for a wrapper runs exactly once, at its place in the order of registration. |
| StageCloseRuns.KeyedHookRuns | src/quickapp/common/stage_close_registry.py:28-105 | And the hook an id stands for runs exactly once if its wrapper was deferred or got a hook, and else never. |
| StageCloseRuns.ToolMessageIsLast | src/quickapp/common/stage_close_registry.py:49-67 | The tool message a sync takes for an id is the last one with that id. |
| StageCloseRuns.FailuresAreThoseRaised | src/quickapp/common/stage_close_registry.py:69-105 | The failures reported for a flush are those of its calls that raised, each as often as it was made. |
| StageCloseRegistry.DeferredStageCloseRegistry.RegisterStageUiBeforeClose | src/quickapp/common/stage_close_registry.py:28-44 | A keyed hook replaces the one of its id; an unkeyed one is queued behind the wrapper’s others. |
| StageCloseRegistry.DeferredStageCloseRegistry.DeferClose | src/quickapp/common/stage_close_registry.py:46-47 | The wrapper is pending afterwards; hooks it already has stay. |
| StageCloseRegistry.DeferredStageCloseRegistry.SyncDeferredStageUiWithToolMessages | src/quickapp/common/stage_close_registry.py:49-67 | Each keyed hook follows the last tool message of its id; no id changes its wrapper. |
| StageCloseRegistry.DeferredStageCloseRegistry.Flush | src/quickapp/common/stage_close_registry.py:69-105 | Whatever raises: all of that is done in that order, exactly the calls that raised are reported, and nothing is left, so a second flush does nothing. |
| JsonMergePatch.DoMerge | src/quickapp/config/json_merge_patch.py:39-52 | The merge loop computes MergePatch of section 2 of RFC 7396, on all JSON values. |
| JsonMergePatch.RejectTypeDiscriminator | src/quickapp/config/json_merge_patch.py:24-36 | The guard raises if and only if a `type` key occurs anywhere, with the path that leads to one. |
| MergePaths.PathIsSpelled | src/quickapp/config/json_merge_patch.py:24-36 | An error path is spelled step after step, each with its slash (`StepIsSpelled`), an index in its decimal digits (`IndexIsSpelled`). |
| JsonMergePatch.ApplyMergePatch | src/quickapp/config/json_merge_patch.py:16-21 | A patch is rejected exactly then, and otherwise applied. |
| JsonMergePatch.MergeTwice | src/quickapp/config/json_merge_patch.py:39-52 | Merging the same patch twice is merging it once. |
| MergePaths.MergedAt | src/quickapp/config/json_merge_patch.py:39-52 | The merge at every path of keys: where the patch’s objects end without the key the target’s value stays, `null` removes, anything else replaces, and what is left are merged objects. |
| JsonMergePatch.KeptAt | src/quickapp/config/json_merge_patch.py:16-52 | With no `type` key on a key path of the patch, every object of the result has the `type` the target has at that path, and none where the target has none. |
| JsonMergePatch.KeepsDiscriminatorsIff | src/quickapp/config/json_merge_patch.py:16-52 | A patch keeps the `type` entries of all targets at all paths if and only if no key path of it holds one. |
| JsonMergePatch.EffectOf | src/quickapp/config/json_merge_patch.py:39-52 | For every patch that holds one, a target and a path where it shows. |
| JsonMergePatch.AcceptedPatchKeepsDiscriminators | src/quickapp/config/json_merge_patch.py:16-36 | An accepted patch never adds, removes or changes a `type` entry, at any depth of any target. |
| JsonMergePatch.GuardAlsoRejectsArrays | src/quickapp/config/json_merge_patch.py:24-36 | The guard rejects more than that: a `type` inside an array could never show. |
| SchemaConverter.BuildSchemaFromDefinition | src/quickapp/common/json_schema_converter.py:68-147 | Terminates on every closed graph whose `items` chains end, by (expansion still allowed, properties not yet seen, length of the `items` chain), and computes `Build`, the shared seen-set included. |
| SchemaConverter.ConvertProperties | src/quickapp/common/json_schema_converter.py:150-204 | The property loop over the mutated seen-set computes `Convert`. |
| SchemaConverter.ConvertProperty | src/quickapp/common/json_schema_converter.py:150-204 | A property met again is expanded once more on a fresh set and truncated inside that expansion. |
| SchemaConverter.ConvertSchemaToProperties | src/quickapp/common/json_schema_converter.py:207-237 | The conversion starts from an empty seen-set with one expansion allowed. |
| SchemaConverter.PickVariant | src/quickapp/common/json_schema_converter.py:54-65 | The first variant with a type other than null, or the first one when there is none. |
| SchemaVariants.VariantsConvertAsUnion | src/quickapp/common/json_schema_converter.py:91-118 | A definition with variants converts exactly as the plain definition whose dict is the union of the representative’s and its own: its own key wins, any other key is the representative’s; same schema or refusal, same dicts met. |
| SchemaVariants.OptionalConvertsAsVariant | src/quickapp/common/json_schema_converter.py:91-118 | A definition that is nothing but a choice, such as a model or `null`, converts exactly as the variant that represents it. |
| SchemaVariants.OneRepresents | src/quickapp/common/json_schema_converter.py:54-65 | Of each non-empty list of variants exactly one represents all: the first with a type other than `null`, or the first when none has one. |
| SchemaVariants.NestedVariantsConvert | src/quickapp/common/json_schema_converter.py:91-180 | When the representative has variants too, an object takes its properties from the definition, else from the representative, else from the representative’s representative, its description only from the first two. |
| SchemaVariants.RootConvertsAsUnion | src/quickapp/common/json_schema_converter.py:150-180 | The root’s variants are merged in the same way before its properties are walked. |
| SchemaVariants.PlainRootConverts | src/quickapp/common/json_schema_converter.py:150-204 | A root without variants is its properties, converted from an empty set with one expansion allowed; absent ones read as none. |
| SchemaVariants.NoVariantIsRefused | src/quickapp/common/json_schema_converter.py:91-96 | Variant keys of which neither leads to a non-empty list are refused. |
| SchemaVariants.TypesConvertAsOne | src/quickapp/common/json_schema_converter.py:42-51 | A list of types converts as its first type that is not `null`; with none, or without a type, a definition converts as an object if it has properties and else as a string. |
| SchemaVariants.ObjectConverts | src/quickapp/common/json_schema_converter.py:126-136 | An object is its description and its converted properties, absent ones read as none; it fails exactly if they do. |
| SchemaVariants.ArrayConverts | src/quickapp/common/json_schema_converter.py:137-147 | An array is its description and its converted items, absent ones read as a string; it fails exactly if they do. |
| SchemaVariants.OtherIsRefused | src/quickapp/common/json_schema_converter.py:82-147 | A reference left in place and any type but the six are refused. |
| SchemaConverter.BuildShows | src/quickapp/common/json_schema_converter.py:68-147 | Every converted definition has the kind, the description and all property names, in order, of the definition its variant settles on, and the seen-set grows by exactly the property dicts met. |
| SchemaConverter.ConvertShows | src/quickapp/common/json_schema_converter.py:150-204 | Each field shows its own property in full unless its dict was met before on this expansion; then it is expanded once more on its own, and is the opaque object exactly when no expansion is left. |
| SchemaConverter.ConversionKeepsNames | src/quickapp/common/json_schema_converter.py:207-237 | A successful conversion keeps exactly the input’s property names, in order, at every level, and truncates nothing but property dicts met before on the same expansion. |
| SchemaConverter.OpaqueIsReachedElsewhere | src/quickapp/common/json_schema_converter.py:150-204 | A property is truncated only if its dict is also reached on a path that does not lead through it. |
| SchemaConverter.UnsharedIsNeverTruncated | src/quickapp/common/json_schema_converter.py:207-237 | A schema in which no property dict is reached on two paths is converted with no opaque stand-in at any depth. |
| SchemaConverter.RankExistsIffItemsEnd | src/quickapp/common/json_schema_converter.py:120-147 | The measure exists if and only if following `items` from every dict comes to an end: no other cycle matters. |
| PyText.Find | src/quickapp/dial_files_tooling/_edit_file_tool.py:36-36 | The leftmost occurrence, or none when there is none. |
| EditFile.CountZero | src/quickapp/dial_files_tooling/_edit_file_tool.py:36-38 | The count is zero exactly when the text does not occur. |
| EditFile.PlannedWrite | src/quickapp/dial_files_tooling/_edit_file_tool.py:36-45 | What is written is the content with its leftmost occurrence replaced, and every other occurrence overlaps that one. |
| EditFile.CountIsMost | src/quickapp/dial_files_tooling/_edit_file_tool.py:36-38 | No choice of occurrences without an overlap has more of them than the count, and `CountPlaces` gives one with as many. |
| EditFile.RefusedExactlyWhen | src/quickapp/dial_files_tooling/_edit_file_tool.py:24-45 | Equal texts, no occurrence, and two that do not overlap are refused, each with its own error, and nothing else: an edit of a single occurrence is always written. |
| EditFile.UnambiguousIffUnbordered | src/quickapp/dial_files_tooling/_edit_file_tool.py:36-45 | Every accepted edit meant the only occurrence if and only if no proper beginning of the searched text is also its end; for each searched text with one there is a content with two occurrences that is edited. |
| EditFile.OverlapIsCountedOnce | src/quickapp/dial_files_tooling/_edit_file_tool.py:36-45 | The smallest such edit: `aa` in `aaa`. |
| EditFile.StateHolder.GetFileData | src/quickapp/common/state_holder.py:32-41 | Cached data of a URL; empty data counts as missing. |
| EditFile.StateHolder.StoreFileData | src/quickapp/common/state_holder.py:43-58 | Data is replaced, metadata only if given, the content type only if one that is not empty was given or comes with the metadata. |
| EditFile.StateHolder.GetContentType | src/quickapp/common/state_holder.py:64-66 | The remembered content type of a URL. |
| EditFile.StateHolder.InvalidateFileData | src/quickapp/common/state_holder.py:68-72 | Data, metadata and content type of one URL are dropped. |
| EditFile.StepKeepsConsistent | src/quickapp/dial_core_services/dial_file_service.py:71-121 | Every step, other writers’ included, keeps this: cached or held content whose ETag is still the stored one is the stored content. |
| EditFile.AcceptedEditSawTheStoredContent | src/quickapp/dial_files_tooling/_edit_file_tool.py:33-51 | In every interleaving with other writers, with metadata and bytes fetched separately or cached: an accepted edit with an ETag replaced one occurrence in exactly the content stored at that moment; without one it created and overwrote nothing; no other file changed. |
| EditFile.FreshEditIsAccepted | src/quickapp/dial_core_services/dial_file_service.py:92-121 | A planned edit of an existing file is accepted exactly when it carries the stored ETag, and then its content is the stored one. |
| EditRuns.UndisturbedEditIsWritten | src/quickapp/dial_files_tooling/_edit_file_tool.py:33-51 | A fetched edit that nobody disturbs is written under a new ETag; no other file and no other copy changes, and the request’s own copy of the file is gone. |
| EditRuns.CachedEditIsWritten | src/quickapp/dial_files_tooling/_edit_file_tool.py:33-51 | So is one from the request’s own copy if the copy’s ETag is the stored one. |
| EditRuns.DisturbedEditIsNeverWritten | src/quickapp/dial_core_services/dial_file_service.py:92-121 | Once somebody else has written or deleted a file, an edit planned from an earlier read under an ETag is never accepted, over every later run, the old content being put back included. |
| EditRuns.DroppedCopyIsReadAfresh | src/quickapp/dial_core_services/dial_file_service.py:71-90 | A request that drops its copy reads what is stored. |
| EditRuns.CacheAnswersTheLast | src/quickapp/common/state_holder.py:32-72 | After any history of stores and drops the holder answers the last data stored since the last drop unless it is empty, the last metadata given, and the last type told, given or from the metadata, that is not empty. |
| PyText.DigitsSpell | src/quickapp/dial_files_tooling/_read_file_lines_tool.py:48-49 | A number in a notice is written in the decimal digits that spell it, without a leading zero. |
| LinePaging.LinesAreReadable | src/quickapp/dial_files_tooling/_utils.py:21-29 | A rendered line stays below the output cap for every line shorter than ten to the five thousandth characters. |
| LinePaging.TruncatedLineTells | src/quickapp/dial_files_tooling/_utils.py:21-29 | A line of up to two thousand characters stays; a longer one keeps so many and says in digits how many more there are and which tool reads them. |
| LinePaging.RefusedExactlyWhen | src/quickapp/dial_files_tooling/_read_file_lines_tool.py:22-25 | A negative start and an end before the start are refused, each by its own name, and every other call is answered with its page. |
| LinePaging.Slice | src/quickapp/dial_files_tooling/_read_file_lines_tool.py:29-29 | The slice is the lines from the start on, before the end and the end of the file. |
| LinePaging.CapOutput | src/quickapp/dial_files_tooling/_utils.py:32-42 | Capped text is a prefix within the cap, marked as cut exactly when the text was longer; it is cut at the last newline up to the cap, or at the cap when there is none after the first character. |
| LinePaging.CappedPage | src/quickapp/dial_files_tooling/_read_file_lines_tool.py:38-49 | A capped page is one or more whole lines, cut at a newline, and its notice names the next line. |
| LinePaging.BreakIsBoundary | src/quickapp/dial_files_tooling/_read_file_lines_tool.py:44-48 | A newline of the rendered text always stands between two whole lines. |
| LinePaging.NoticeIsAccepted | src/quickapp/dial_files_tooling/_read_file_lines_tool.py:22-30 | The call a notice asks for is never rejected and moves forward inside the same slice. |
| LinePaging.PagesAreTheSlice | src/quickapp/dial_files_tooling/_read_file_lines_tool.py:22-49 | Following the notices ends, and the pages put together are every line of the requested slice once, in order, as `truncate_line` renders it. |
| LinePaging.PagesFitTheCap | src/quickapp/dial_files_tooling/_read_file_lines_tool.py:38-49 | No page is longer than the cap. |
| SearchWindows.MergeOneKeeps | src/quickapp/dial_files_tooling/_search_in_file_tool.py:171-178 | One turn of the merge loop keeps windows in bounds, sorted, at least one line apart, and covering exactly the lines near the matches so far. |
| SearchWindows.MergeWindows | src/quickapp/dial_files_tooling/_search_in_file_tool.py:170-178 | The loop’s windows are separated and cover exactly the lines within the context distance of some match. |
| SearchWindows.PrintedNumbers | src/quickapp/dial_files_tooling/_search_in_file_tool.py:179-185 | A line number is printed exactly when a window covers the line. |
| SearchWindows.NumbersIncrease | src/quickapp/dial_files_tooling/_search_in_file_tool.py:179-185 | Separated windows print each line once, in file order. |
| SearchWindows.PrintMatches | src/quickapp/dial_files_tooling/_search_in_file_tool.py:170-186 | The printed lines are exactly those near a match if and only if the context size works: always when it is not negative. |
| SearchWindows.NegativeContext | src/quickapp/dial_files_tooling/_search_in_file_tool.py:173-185 | A negative context size works exactly when for each match the window’s end does not fall before the file, where a slice would count from the back, or still comes before the window’s start when it does. |
| FolderListing.ListFolder | src/quickapp/dial_core_services/dial_file_service.py:188-216 | The queue loop ends on every store, cyclic ones included, and every depth bound, and lists level by level up to the bound, or fails at the first folder that cannot be read. |
| FolderListing.ListItems | src/quickapp/dial_core_services/dial_file_service.py:202-215 | One folder’s items go to the results in order, its folders to the queue unless the bound is reached. |
| FolderListing.FailureNamesTheCulprit | src/quickapp/dial_core_services/dial_file_service.py:198-200 | A failure names a URL that is missing or is a file; a listing succeeds only if the folder asked for is one. |
| FolderListing.ByDepthIsWalk | src/quickapp/dial_core_services/dial_file_service.py:188-216 | Depth by depth or folder by folder, the same nodes are met, each as often. |
| FolderListing.ListingOfTree | src/quickapp/dial_core_services/dial_file_service.py:188-216 | A folder tree is listed completely: exactly the nodes at depth one to the bound that an ordinary walk meets, each once, shallower ones first, folder URLs ending in a slash. A bound below one still lists depth one. |
| FolderListing.NothingTwice | src/quickapp/dial_core_services/dial_file_service.py:188-216 | No URL is listed twice when the tree has none twice. |
| Utf8.DecodeIsInverse | src/quickapp/web_tooling/_web_fetch_tool.py:196-201 | Strict decoding succeeds with a text exactly when the text has no surrogates and encodes to the data (sections 3 and 4 of RFC 3629). |
| Utf8.CutText | src/quickapp/web_tooling/_web_fetch_tool.py:138-139 | Cutting encoded text at any byte and ignoring errors keeps the longest prefix of whole characters that fits. |
| WebTruncation.HeadUsesBudget | src/quickapp/web_tooling/_web_fetch_tool.py:135-140 | The head is a prefix of the page’s text, within the budget, at most three bytes short of it. |
| WebTruncation.LoadedStaysBelowCap | src/quickapp/web_tooling/_web_fetch_tool.py:113-140 | What is loaded stays strictly below the cap in bytes if and only if the page is below it or the reserved notice fits it. |
| WebTruncation.LoadsExactlyText | src/quickapp/web_tooling/_web_fetch_tool.py:113-129 | A page is refused exactly when it is not UTF-8; a missing or empty type is plain text; below the cap the page is shown as it is. |
| WebTruncation.NoticeTells | src/quickapp/web_tooling/_truncation.py:11-16 | The notice names the page’s size in digits and its content type. |
| WebTruncation.TruncatedPage | src/quickapp/web_tooling/_web_fetch_tool.py:113-140 | A page at or over a cap that fits the notice: the notice and a proper prefix of the page, at most four bytes short of the cap, and the two split apart again exactly if the content type has no blank line. |
| WebTruncation.SplitUndoesCompose | src/quickapp/web_tooling/_truncation.py:21-40 | Splitting a composed content gives back exactly notice and head if and only if the content type has no blank line. |
| WebTruncation.WholePageIsSplit | src/quickapp/web_tooling/_truncation.py:28-40 | A page shown whole is split by mistake exactly when it starts like a notice and has a blank line. |
| ContextEntries.EntriesAreFirstOffers | src/quickapp/attachment_processing/_context_entries.py:56-86 | Entries have distinct URLs, one for each offered URL, with the facts of its first offer and the status those facts have against what was seen. |
| ContextOffers.OneContextOffers | src/quickapp/attachment_processing/_context_entries.py:105-180 | A context offers itself, an empty description read as none, and then each child its folder lists, in order; it fails exactly when it is a folder whose listing fails. |
| ContextOffers.OffersConcat | src/quickapp/attachment_processing/_context_entries.py:150-180 | The offers of several contexts are those of each in order, and one failure fails them all. |
| ContextOffers.FilesUrlIsListed | src/quickapp/attachment_processing/_context_entries.py:119-125 | A folder is listed under its URL without the `metadata/` before `files/`, and under its URL as it is otherwise. |
| ContextOffers.ExpandedAreListedFiles | src/quickapp/attachment_processing/_context_entries.py:105-147 | The expanded files are exactly the listed children that are no folders. |
| ContextEntries.AppendContextEntry | src/quickapp/attachment_processing/_context_entries.py:56-86 | A URL already present adds nothing; otherwise one entry, new, updated or unchanged. |
| ContextEntries.ListFolderChildren | src/quickapp/attachment_processing/_context_entries.py:89-102 | A listing is asked for once per URL and depth and then kept; the cache never changes an answer. |
| ContextEntries.ExpandFolderContext | src/quickapp/attachment_processing/_context_entries.py:105-147 | A folder and its children are appended in order, its files collected; a failing listing is the only failure. |
| ContextEntries.RemovedOnes | src/quickapp/attachment_processing/_context_entries.py:183-193 | One removed entry for each URL seen before and gone, in any order. |
| ContextEntries.BuildContextEntries | src/quickapp/attachment_processing/_context_entries.py:150-198 | The response is the diff of what is offered against what was seen; it fails exactly when a listing does, and then leaves the file set as it was. |
| ContextEntries.ReplayRebuilds | src/quickapp/attachment_processing/_context_entries.py:56-198 | Applying the statuses to the previous view never misfits (new is absent, updated present and different, unchanged present and equal, removed present) and rebuilds exactly the current view. |
| ContextEntries.SilentIffUnchanged | src/quickapp/attachment_processing/_attachment_notification_injector.py:63-64 | Nothing is announced if and only if what is offered is what was seen. |
| ContextEntries.ExtractSeen | src/quickapp/attachment_processing/_context_entries.py:217-236 | The reverse scan over the history, tool contents met before their calls; `ScanIsTheLatestAnswer` says what it finds. |
| ContextHistory.ScanIsTheLatestAnswer | src/quickapp/attachment_processing/_context_entries.py:217-236 | What a history tells is the answer to the latest context call that got a readable one, the first such call of that message, the answer being the first after the call; without any, nothing. |
| ContextHistory.QuietKeepsSeen | src/quickapp/attachment_processing/_context_entries.py:217-236 | Later messages that make no context call and answer none still without an answer change nothing of what the history tells. |
| ContextHistory.NextTurnTellsOffers | src/quickapp/attachment_processing/_attachment_notification_injector.py:46-74 | After a transformation and any such messages the same offers are told still, so the next transformation announces nothing. |
| ContextEntries.InjectedIsRead | src/quickapp/attachment_processing/_context_entries.py:201-236 | After an injection the scan finds exactly the injected response, whatever the history and the call id. |
| ContextEntries.ResponseTellsOffers | src/quickapp/attachment_processing/_context_entries.py:201-214 | What a response leaves in view, removed entries dropped, is what was offered. |
| ContextEntries.UnusedToolsTellNothing | src/quickapp/attachment_processing/_context_entries.py:239-256 | A history without context-tool calls tells nothing, so not activating loses nothing. |
| ContextEntries.Transform | src/quickapp/attachment_processing/_attachment_notification_injector.py:46-74 | After one request’s transformation the history tells exactly what the contexts offer, and nothing was added if and only if it did already: a second transformation adds nothing, nor does one after messages that keep quiet about contexts (`NextTurnTellsOffers`). |

## Left out

- ConfigModeMatchesStatic: does not compare objects with an escaped surrogate pair in a top-level key, whose streamed parameters are looked up under other names than the loaded ones; `ConfigModeShowsDelivered` gives their text.
- ArgumentStreamerProofs.LegalObjectEvents: its values of numbers are the numerals written, because Python's conversion to int or float is foreign code.
- LoadsLegalText: does not model Python's recursion limit on deeply nested texts, nor its limit on the digits of an int.
- ArgumentPresenter.StreamingArgumentPresenter.FeedArguments: the append callback is taken not to raise; `StageLifecycle` has the raising one.
- RunStream: does not model stage content, names, attachments, nesting under a parent or usage, only which stages exist and where they go; the presenter's own output is `ArgumentPresenter`.
- McpSessionManager: its methods are the stretches between awaits; the event loop's fairness and the order in which waiters get a lock are left open, so the theorems hold for every order.
- FailureReachesCalls: says what a call in flight sees once it is resumed, not when the event loop resumes it; cancellation from outside the call is not modelled.
- DoMerge: works on values, so sharing between the result and its inputs after `deepcopy` is not modelled; inputs cannot change.
- BuildSchemaFromDefinition: does not model defaults, enums and required lists, which are copied as they stand.
- ConvertSchemaToProperties: starts after dereferencing (`dereference_refs` is foreign code).
- AcceptedEditSawTheStoredContent: does not model the size limit, undecodable bytes and permission errors, which end an edit before its write; other writers, `copy` and `move` among them, are arbitrary puts and deletes.
- LinePaging.PagesAreTheSlice: takes lines as `splitlines` gives them, with no newline inside and shorter than ten to the five thousandth characters, which `LinesAreReadable` shows is enough.
- PrintMatches: gives line numbers; the text of a line is `truncate_line` of it, and fencing and the folder search around it are not modelled.
- ListFolder: takes the storage service as a map that does not change during the listing.
- LoadIntoContext: the fetch itself, saving to the workspace and unique file names are not modelled; a content type with lone surrogates, on which encoding the notice would raise, is encoded as if it were allowed.
- ContextEntries.Transform: a tool message's content is a response or it is not; writing and reading the response as JSON is pydantic's and `json`'s work. The call id is a parameter.
- ImmediateStageCloseRegistry, the stage-wrapper sink, attachments and usage: one call passed on each, easy claims only.
- HTTP, SSE, dependency injection, configuration, logging, prompts, stage titles and timing: wiring and data.
