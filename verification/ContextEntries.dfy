/**
 The context diff: what the configured files and folders offer now against what the conversation was last
 told, injected as a tool message when they differ, and read back from the history the next time.
 */
module ContextEntries {
  import opened PyText
  import opened Sequences
  import opened Wrappers

  const FOLDER_METADATA_MIME := "application/vnd.dial.metadata+json"
  const AVAILABLE_CONTEXT_TOOL := "internal_attachments_available_context"
  const GET_CONTENT_TOOL := "internal_attachments_get_content"

  /** `mimetypes.guess_type` on a URL's last segment, empty when it finds nothing; the title of a URL. */
  const GuessMime: Text -> Text
  const TitleOf: Text -> Text

  datatype Status = New | Removed | Updated

  datatype Entry = Entry(title: Text, url: Text, mime: Text, description: Option<Text>, status: Option<Status>)

  datatype Context =
    | FileContext(url: Text, description: Option<Text>)
    | FolderContext(url: Text, mime: Text, description: Option<Text>, maxDepth: int)
    | UserDefined

  datatype Child = Child(url: Text, isFolder: bool)

  /** What the folder provider answers by listing URL and depth; a missing answer is an exception. */
  type Listings = map<(Text, int), seq<Child>>

  type Seen = map<Text, Entry>

  /** What an entry tells about its URL. */
  datatype Facts = Facts(mime: Text, description: Option<Text>)

  type View = map<Text, Facts>

  // --- what the contexts offer --------------------------------------------

  datatype Offer = Offer(url: Text, facts: Facts)

  function OrNone(description: Option<Text>): Option<Text> {
    if description == Some([]) then None else description
  }

  /** `metadata_folder_url_to_files_url`. */
  function FilesUrl(url: Text): Text {
    if HasPrefix(url, Lit("metadata/files/")) then url[|"metadata/"|..] else url
  }

  function ListingKey(ctx: Context): (Text, int)
    requires ctx.FolderContext?
  {
    (FilesUrl(ctx.url), ctx.maxDepth)
  }

  function ChildOffer(child: Child): Offer {
    Offer(child.url, Facts(if child.isFolder then Lit(FOLDER_METADATA_MIME) else GuessMime(child.url), None))
  }

  function ChildOffers(children: seq<Child>): (r: seq<Offer>)
    ensures |r| == |children|
    ensures forall i :: 0 <= i < |children| ==> r[i] == ChildOffer(children[i])
  {
    seq(|children|, i requires 0 <= i < |children| => ChildOffer(children[i]))
  }

  function OffersOf(ctx: Context, known: Listings): Option<seq<Offer>> {
    match ctx
    case FileContext(url, description) => Some([Offer(url, Facts(GuessMime(url), OrNone(description)))])
    case FolderContext(url, mime, description, _) =>
      if ListingKey(ctx) in known then
        Some([Offer(url, Facts(mime, OrNone(description)))] + ChildOffers(known[ListingKey(ctx)]))
      else None
    case UserDefined => Some([])
  }

  /** Everything offered, in order; absent when a listing fails. */
  function AllOffers(contexts: seq<Context>, known: Listings): Option<seq<Offer>> {
    if contexts == [] then Some([])
    else
      var first, rest := OffersOf(contexts[0], known), AllOffers(contexts[1..], known);
      if first.None? || rest.None? then None else Some(first.value + rest.value)
  }

  /** The files the folder contexts expand to. */
  function ExpandedFiles(contexts: seq<Context>, known: Listings): set<Text> {
    if contexts == [] then {}
    else
      (if contexts[0].FolderContext? && ListingKey(contexts[0]) in known then
         FilesAmong(known[ListingKey(contexts[0])])
       else {})
      + ExpandedFiles(contexts[1..], known)
  }

  function FilesAmong(children: seq<Child>): set<Text> {
    set c | c in children && !c.isFolder :: c.url
  }

  function UrlsOf(offers: seq<Offer>): set<Text> { set o | o in offers :: o.url }

  /** The view the offers amount to: the first offer of a URL counts. */
  function ViewOf(offers: seq<Offer>): View {
    if offers == [] then map[] else ViewOf(offers[1..])[offers[0].url := offers[0].facts]
  }

  // --- the entries --------------------------------------------------------

  function StatusOf(offer: Offer, seen: Seen): Option<Status> {
    if offer.url !in seen then Some(New)
    else if FactsOf(seen[offer.url]) != offer.facts then Some(Updated)
    else None
  }

  function FactsOf(e: Entry): Facts { Facts(e.mime, e.description) }

  function EntryFor(offer: Offer, seen: Seen): Entry {
    Entry(TitleOf(offer.url), offer.url, offer.facts.mime, offer.facts.description, StatusOf(offer, seen))
  }

  /** The entries of offers whose URLs have none yet. */
  function Entries(offers: seq<Offer>, current: set<Text>, seen: Seen): seq<Entry> {
    if offers == [] then []
    else if offers[0].url in current then Entries(offers[1..], current, seen)
    else [EntryFor(offers[0], seen)] + Entries(offers[1..], current + {offers[0].url}, seen)
  }

  predicate DistinctUrls(entries: seq<Entry>) {
    forall i, j :: 0 <= i < j < |entries| ==> entries[i].url != entries[j].url
  }

  /** The entries of URLs no longer offered, in some order. */
  predicate RemovedEntries(entries: seq<Entry>, gone: set<Text>, seen: Seen) {
    && DistinctUrls(entries)
    && (forall i :: 0 <= i < |entries| ==>
          && entries[i].url in gone && entries[i].url in seen
          && entries[i] == seen[entries[i].url].(status := Some(Removed)))
    && (forall u :: u in gone ==> exists i :: 0 <= i < |entries| && entries[i].url == u)
  }

  /** A response: the entries of the offers, then those of the URLs seen before and gone. */
  predicate IsDiff(entries: seq<Entry>, offers: seq<Offer>, seen: Seen) {
    var n := |Entries(offers, {}, seen)|;
    && n <= |entries| && entries[..n] == Entries(offers, {}, seen)
    && RemovedEntries(entries[n..], seen.Keys - UrlsOf(offers), seen)
  }

  predicate WellKeyed(seen: Seen) { forall u :: u in seen ==> seen[u].url == u }

  // --- replaying a response -----------------------------------------------

  function SeenView(seen: Seen): View { map u | u in seen :: FactsOf(seen[u]) }

  /** What a reader who believed `view` makes of one entry; absent when the entry contradicts the view. */
  function ApplyEntry(view: View, e: Entry): Option<View> {
    match e.status
    case None => if e.url in view && view[e.url] == FactsOf(e) then Some(view) else None
    case Some(New) => if e.url !in view then Some(view[e.url := FactsOf(e)]) else None
    case Some(Updated) =>
      if e.url in view && view[e.url] != FactsOf(e) then Some(view[e.url := FactsOf(e)]) else None
    case Some(Removed) => if e.url in view && view[e.url] == FactsOf(e) then Some(view - {e.url}) else None
  }

  function Replay(view: View, entries: seq<Entry>): Option<View>
    decreases entries
  {
    if entries == [] then Some(view)
    else
      var next := ApplyEntry(view, entries[0]);
      if next.None? then None else Replay(next.value, entries[1..])
  }

  lemma {:induction false} EntriesAreFirstOffers(offers: seq<Offer>, current: set<Text>, seen: Seen)
    ensures var es := Entries(offers, current, seen);
      && DistinctUrls(es)
      && (forall i :: 0 <= i < |es| ==>
            && es[i].url !in current && es[i].url in ViewOf(offers) && FactsOf(es[i]) == ViewOf(offers)[es[i].url]
            && es[i].status == StatusOf(Offer(es[i].url, FactsOf(es[i])), seen))
      && (forall u :: u in ViewOf(offers) && u !in current ==> exists i :: 0 <= i < |es| && es[i].url == u)
    decreases offers
  {
    if offers != [] {
      var o := offers[0];
      if o.url in current {
        EntriesAreFirstOffers(offers[1..], current, seen);
      } else {
        EntriesAreFirstOffers(offers[1..], current + {o.url}, seen);
        var es, rest := Entries(offers, current, seen), Entries(offers[1..], current + {o.url}, seen);
        assert es == [EntryFor(o, seen)] + rest;
        forall u | u in ViewOf(offers) && u !in current ensures exists i :: 0 <= i < |es| && es[i].url == u {
          if u == o.url {
            assert es[0].url == u;
          } else {
            var i :| 0 <= i < |rest| && rest[i].url == u;
            assert es[i + 1].url == u;
          }
        }
      }
    }
  }

  lemma {:induction false} UrlsAreViewed(offers: seq<Offer>)
    ensures ViewOf(offers).Keys == UrlsOf(offers)
    decreases offers
  {
    if offers != [] {
      UrlsAreViewed(offers[1..]);
      assert offers == [offers[0]] + offers[1..];
    }
  }

  /** What an entry leaves behind in a view. */
  predicate Applied(view: View, e: Entry) {
    if e.status == Some(Removed) then e.url !in view else e.url in view && view[e.url] == FactsOf(e)
  }

  predicate Touches(entries: seq<Entry>, u: Text) { exists i :: 0 <= i < |entries| && entries[i].url == u }

  lemma RestTouches(entries: seq<Entry>, u: Text)
    requires entries != []
    ensures Touches(entries[1..], u) ==> Touches(entries, u)
  {
    if i :| 0 <= i < |entries[1..]| && entries[1..][i].url == u {
      assert entries[i + 1].url == u;
    }
  }

  /** Entries of distinct URLs that each fit the view apply independently of one another. */
  lemma {:induction false} ReplayDistinct(view: View, entries: seq<Entry>)
    requires DistinctUrls(entries)
    requires forall i :: 0 <= i < |entries| ==> ApplyEntry(view, entries[i]).Some?
    ensures Replay(view, entries).Some?
    ensures forall i :: 0 <= i < |entries| ==> Applied(Replay(view, entries).value, entries[i])
    ensures forall u :: !Touches(entries, u) ==>
      && (u in Replay(view, entries).value <==> u in view)
      && (u in view ==> Replay(view, entries).value[u] == view[u])
    decreases entries
  {
    if entries != [] {
      var next, rest := ApplyEntry(view, entries[0]).value, entries[1..];
      forall i | 0 <= i < |rest| ensures ApplyEntry(next, rest[i]).Some? {
        assert rest[i] == entries[i + 1];
      }
      ReplayDistinct(next, rest);
      var end := Replay(next, rest).value;
      assert !Touches(rest, entries[0].url);
      forall i | 0 <= i < |entries| ensures Applied(end, entries[i]) {
        if i > 0 { assert rest[i - 1] == entries[i]; }
      }
      forall u | !Touches(entries, u) ensures (u in end <==> u in view) && (u in view ==> end[u] == view[u]) {
        RestTouches(entries, u);
        assert entries[0].url != u;
      }
    }
  }

  /** An entry that fits what was seen and says what is offered. */
  predicate Tells(e: Entry, view: View, offered: View) {
    && ApplyEntry(view, e).Some?
    && (if e.url in offered then e.status != Some(Removed) && FactsOf(e) == offered[e.url]
        else e.status == Some(Removed))
  }

  predicate AllTell(entries: seq<Entry>, view: View, offered: View) {
    forall i :: 0 <= i < |entries| ==> Tells(entries[i], view, offered)
  }

  lemma KeptTell(offers: seq<Offer>, seen: Seen)
    ensures AllTell(Entries(offers, {}, seen), SeenView(seen), ViewOf(offers))
    ensures DistinctUrls(Entries(offers, {}, seen))
    ensures forall u :: Touches(Entries(offers, {}, seen), u) <==> u in ViewOf(offers)
  {
    EntriesAreFirstOffers(offers, {}, seen);
    hide Entries, ViewOf;
  }

  lemma GoneTell(gone: seq<Entry>, offers: seq<Offer>, seen: Seen)
    requires RemovedEntries(gone, seen.Keys - UrlsOf(offers), seen)
    ensures AllTell(gone, SeenView(seen), ViewOf(offers))
    ensures DistinctUrls(gone)
    ensures forall u :: Touches(gone, u) <==> u in seen && u !in ViewOf(offers)
  {
    UrlsAreViewed(offers);
    hide ViewOf, UrlsOf;
    forall u ensures Touches(gone, u) <==> u in seen && u !in ViewOf(offers) {
      if u in seen && u !in ViewOf(offers) { assert u in seen.Keys - UrlsOf(offers); }
    }
  }

  /** The URLs of a response are distinct, they are those offered or seen, and each entry tells the truth. */
  lemma DiffTells(entries: seq<Entry>, offers: seq<Offer>, seen: Seen)
    requires IsDiff(entries, offers, seen)
    ensures DistinctUrls(entries)
    ensures AllTell(entries, SeenView(seen), ViewOf(offers))
    ensures forall u :: Touches(entries, u) <==> u in ViewOf(offers) || u in seen
  {
    hide Entries, ViewOf, UrlsOf, RemovedEntries, Touches, DistinctUrls, AllTell, SeenView;
    var kept := Entries(offers, {}, seen);
    var gone := entries[|kept|..];
    assert entries == kept + gone;
    KeptTell(offers, seen);
    GoneTell(gone, offers, seen);
    JoinDistinct(kept, gone);
    JoinTells(kept, gone, SeenView(seen), ViewOf(offers));
  }

  lemma JoinTells(a: seq<Entry>, b: seq<Entry>, view: View, offered: View)
    requires AllTell(a, view, offered) && AllTell(b, view, offered)
    ensures AllTell(a + b, view, offered)
  {
    hide Tells;
  }

  lemma JoinDistinct(a: seq<Entry>, b: seq<Entry>)
    requires DistinctUrls(a) && DistinctUrls(b) && forall u :: !(Touches(a, u) && Touches(b, u))
    ensures DistinctUrls(a + b)
    ensures forall u :: Touches(a + b, u) <==> Touches(a, u) || Touches(b, u)
  {
    forall i, j | 0 <= i < |a| && 0 <= j < |b| ensures a[i].url != b[j].url {
      assert Touches(a, a[i].url) && Touches(b, b[j].url);
    }
    forall u ensures Touches(a + b, u) <==> Touches(a, u) || Touches(b, u) {
      if i :| 0 <= i < |a| && a[i].url == u { assert (a + b)[i].url == u; }
      if i :| 0 <= i < |b| && b[i].url == u { assert (a + b)[|a| + i].url == u; }
    }
  }

  /** Replaying a response on what was seen never misfits, and rebuilds exactly what is offered now. */
  lemma ReplayRebuilds(entries: seq<Entry>, offers: seq<Offer>, seen: Seen)
    requires IsDiff(entries, offers, seen) && WellKeyed(seen)
    ensures Replay(SeenView(seen), entries) == Some(ViewOf(offers))
  {
    DiffTells(entries, offers, seen);
    ReplayDistinct(SeenView(seen), entries);
    hide Replay, ViewOf, IsDiff;
    var end := Replay(SeenView(seen), entries).value;
    forall u ensures u in end <==> u in ViewOf(offers)
             ensures u in end ==> end[u] == ViewOf(offers)[u] {
      if Touches(entries, u) {
        var i :| 0 <= i < |entries| && entries[i].url == u;
        assert Applied(end, entries[i]);
      }
    }
    assert end == ViewOf(offers);
  }

  /** `current_urls == set(seen_entries) and not any(e.status for e in entries)`. */
  predicate Silent(entries: seq<Entry>, current: set<Text>, seen: Seen) {
    current == seen.Keys && forall i :: 0 <= i < |entries| ==> entries[i].status == None
  }

  /** Nothing is announced exactly when what is offered is what was seen. */
  lemma SilentIffUnchanged(entries: seq<Entry>, offers: seq<Offer>, seen: Seen)
    requires IsDiff(entries, offers, seen) && WellKeyed(seen)
    ensures Silent(entries, UrlsOf(offers), seen) <==> SeenView(seen) == ViewOf(offers)
  {
    DiffTells(entries, offers, seen);
    ReplayRebuilds(entries, offers, seen);
    UrlsAreViewed(offers);
    hide ViewOf, IsDiff, Entries, UrlsOf;
    if Silent(entries, UrlsOf(offers), seen) {
      ReplayOfNothing(SeenView(seen), entries);
    }
    if SeenView(seen) == ViewOf(offers) {
      assert SeenView(seen).Keys == seen.Keys;
      forall i | 0 <= i < |entries| ensures entries[i].status == None {
        assert Touches(entries, entries[i].url);
      }
    }
  }

  lemma {:induction false} ReplayOfNothing(view: View, entries: seq<Entry>)
    requires forall i :: 0 <= i < |entries| ==> entries[i].status == None
    requires Replay(view, entries).Some?
    ensures Replay(view, entries).value == view
    decreases entries
  {
    if entries != [] { ReplayOfNothing(view, entries[1..]); }
  }

  // --- the history --------------------------------------------------------

  /** A tool message's content: a context response, or anything else. */
  datatype Content = Response(entries: seq<Entry>) | OtherContent

  datatype Call = Call(name: Option<string>, id: string)

  /** A message; `content` is absent when it is empty. */
  datatype Message = Assistant(calls: seq<Call>) | Tool(id: string, content: Option<Content>) | OtherMessage

  /** The entries a response leaves in view, by URL. */
  function ParseEntries(entries: seq<Entry>): Seen {
    if entries == [] then map[]
    else
      var last := entries[|entries| - 1];
      var before := ParseEntries(entries[..|entries| - 1]);
      if last.status == Some(Removed) then before else before[last.url := last]
  }

  /** `_parse_tool_response`. */
  function ParseResponse(content: Content): Option<Seen> {
    if content.Response? then Some(ParseEntries(content.entries)) else None
  }

  function FromCalls(calls: seq<Call>, contents: map<string, Content>): Option<Seen> {
    if calls == [] then None
    else if calls[0].name == Some(AVAILABLE_CONTEXT_TOOL) && calls[0].id in contents
         && ParseResponse(contents[calls[0].id]).Some? then ParseResponse(contents[calls[0].id])
    else FromCalls(calls[1..], contents)
  }

  /** The scan from the newest message to the oldest, the tool contents met so far in hand. */
  function Scan(messages: seq<Message>, contents: map<string, Content>): Seen {
    if messages == [] then map[]
    else
      var last, before := messages[|messages| - 1], messages[..|messages| - 1];
      match last
      case Tool(id, content) => Scan(before, if id != "" && content.Some? then contents[id := content.value] else contents)
      case Assistant(calls) =>
        var found := FromCalls(calls, contents);
        if found.Some? then found.value else Scan(before, contents)
      case OtherMessage => Scan(before, contents)
  }

  /** `extract_seen_entries_from_messages`. */
  method ExtractSeen(messages: seq<Message>) returns (seen: Seen)
    ensures seen == Scan(messages, map[])
  {
    var toolContents: map<string, Content> := map[];
    var n := |messages|;
    assert messages[..n] == messages;
    while n > 0
      invariant 0 <= n <= |messages|
      invariant Scan(messages, map[]) == Scan(messages[..n], toolContents)
    {
      n := n - 1;
      assert messages[..n + 1][..n] == messages[..n];
      match messages[n]
      case Tool(id, content) =>
        if id != "" && content.Some? { toolContents := toolContents[id := content.value]; }
      case Assistant(calls) =>
        for i := 0 to |calls|
          invariant FromCalls(calls, toolContents) == FromCalls(calls[i..], toolContents)
        {
          if calls[i].name == Some(AVAILABLE_CONTEXT_TOOL) && calls[i].id in toolContents {
            var result := ParseResponse(toolContents[calls[i].id]);
            if result.Some? { return result.value; }
          }
        }
      case OtherMessage =>
    }
    seen := map[];
  }

  lemma {:induction false} ParsedEntries(entries: seq<Entry>)
    requires DistinctUrls(entries)
    ensures WellKeyed(ParseEntries(entries))
    ensures forall u :: u in ParseEntries(entries) <==>
      exists i :: 0 <= i < |entries| && entries[i].url == u && entries[i].status != Some(Removed)
    ensures forall i :: 0 <= i < |entries| && entries[i].status != Some(Removed) ==>
      entries[i].url in ParseEntries(entries) && ParseEntries(entries)[entries[i].url] == entries[i]
    decreases entries
  {
    if entries != [] {
      var k := |entries| - 1;
      var before := entries[..k];
      ParsedEntries(before);
      forall u ensures u in ParseEntries(entries) <==>
          exists i :: 0 <= i < |entries| && entries[i].url == u && entries[i].status != Some(Removed)
      {
        if u in ParseEntries(before) {
          var i :| 0 <= i < |before| && before[i].url == u && before[i].status != Some(Removed);
          assert entries[i] == before[i];
        }
        if i :| 0 <= i < |entries| && entries[i].url == u && entries[i].status != Some(Removed) {
          if i < k { assert before[i] == entries[i]; }
        }
      }
      forall i | 0 <= i < |entries| && entries[i].status != Some(Removed)
        ensures entries[i].url in ParseEntries(entries) && ParseEntries(entries)[entries[i].url] == entries[i]
      {
        if i < k { assert before[i] == entries[i]; }
      }
    }
  }

  lemma {:induction false} ParsedAreKeyed(entries: seq<Entry>)
    ensures WellKeyed(ParseEntries(entries))
    decreases entries
  {
    if entries != [] { ParsedAreKeyed(entries[..|entries| - 1]); }
  }

  lemma {:induction false} CallsAreKeyed(calls: seq<Call>, contents: map<string, Content>)
    ensures FromCalls(calls, contents).Some? ==> WellKeyed(FromCalls(calls, contents).value)
    decreases calls
  {
    if calls != [] {
      CallsAreKeyed(calls[1..], contents);
      if calls[0].id in contents && contents[calls[0].id].Response? {
        ParsedAreKeyed(contents[calls[0].id].entries);
      }
    }
  }

  lemma {:induction false} ScanIsKeyed(messages: seq<Message>, contents: map<string, Content>)
    ensures WellKeyed(Scan(messages, contents))
    decreases messages
  {
    if messages != [] {
      var last, before := messages[|messages| - 1], messages[..|messages| - 1];
      ScanIsKeyed(before, contents);
      if last.Tool? && last.content.Some? { ScanIsKeyed(before, contents[last.id := last.content.value]); }
      if last.Assistant? { CallsAreKeyed(last.calls, contents); }
    }
  }

  /** The pair of messages a response is injected as. */
  function Pair(id: string, entries: seq<Entry>): seq<Message> {
    [Assistant([Call(Some(AVAILABLE_CONTEXT_TOOL), id)]), Tool(id, Some(Response(entries)))]
  }

  /** After an injection the history tells exactly what was injected. */
  lemma InjectedIsRead(messages: seq<Message>, id: string, entries: seq<Entry>)
    requires id != ""
    ensures Scan(messages + Pair(id, entries), map[]) == ParseEntries(entries)
  {
    var all, call := messages + Pair(id, entries), Call(Some(AVAILABLE_CONTEXT_TOOL), id);
    var contents: map<string, Content> := map[id := Response(entries)];
    assert all[..|all| - 1] == messages + [Assistant([call])];
    assert Scan(all, map[]) == Scan(messages + [Assistant([call])], contents);
    assert FromCalls([call], contents) == Some(ParseEntries(entries));
  }

  /** What the history tells after a response is what is offered. */
  lemma ResponseTellsOffers(entries: seq<Entry>, offers: seq<Offer>, seen: Seen)
    requires IsDiff(entries, offers, seen) && WellKeyed(seen)
    ensures SeenView(ParseEntries(entries)) == ViewOf(offers)
  {
    DiffTells(entries, offers, seen);
    ParsedEntries(entries);
    hide ViewOf, IsDiff, ParseEntries;
    var view := SeenView(ParseEntries(entries));
    forall u ensures u in view <==> u in ViewOf(offers)
             ensures u in view ==> view[u] == ViewOf(offers)[u] {
      if u in ViewOf(offers) { assert Touches(entries, u); }
    }
    assert view == ViewOf(offers);
  }

  // --- building the response ----------------------------------------------

  /** The request's cache of folder listings, and the files the contexts expand to. */
  class ExpandedContextFileUrls {
    var urls: set<Text>
    var populated: bool
    var folderChildren: Listings

    constructor ()
      ensures urls == {} && !populated && folderChildren == map[]
    {
      urls, populated, folderChildren := {}, false, map[];
    }
  }

  /** The answers a request works with: the cached ones, and the provider's for the rest. */
  ghost function Known(listings: Listings, cache: ExpandedContextFileUrls): Listings
    reads cache`folderChildren
  {
    listings + cache.folderChildren
  }

  /** `_append_context_entry`. */
  method AppendContextEntry(offer: Offer, seen: Seen, current: set<Text>, entries: seq<Entry>)
    returns (newCurrent: set<Text>, newEntries: seq<Entry>)
    ensures newCurrent == current + {offer.url}
    ensures newEntries == entries + Entries([offer], current, seen)
  {
    if offer.url in current { return current, entries; }
    newCurrent := current + {offer.url};
    var status := Some(New);
    if offer.url in seen {
      var prev := seen[offer.url];
      status := if prev.description != offer.facts.description || prev.mime != offer.facts.mime
                then Some(Updated) else None;
    }
    newEntries := entries
                + [Entry(TitleOf(offer.url), offer.url, offer.facts.mime, offer.facts.description, status)];
  }

  /** `_list_folder_children`: a listing is asked for once and then kept. */
  method ListFolderChildren(filesUrl: Text, maxDepth: int, listings: Listings, cache: ExpandedContextFileUrls)
    returns (children: Option<seq<Child>>)
    modifies cache`folderChildren
    ensures Known(listings, cache) == old(Known(listings, cache))
    ensures children == if (filesUrl, maxDepth) in old(Known(listings, cache))
                        then Some(old(Known(listings, cache))[(filesUrl, maxDepth)]) else None
    ensures children.Some? ==> (filesUrl, maxDepth) in cache.folderChildren
  {
    var key := (filesUrl, maxDepth);
    if key in cache.folderChildren { return Some(cache.folderChildren[key]); }
    if key !in listings { return None; }
    children := Some(listings[key]);
    cache.folderChildren := cache.folderChildren[key := listings[key]];
    assert Known(listings, cache) == old(Known(listings, cache));
  }

  lemma {:induction false} EntriesConcat(a: seq<Offer>, b: seq<Offer>, current: set<Text>, seen: Seen)
    ensures Entries(a + b, current, seen) == Entries(a, current, seen) + Entries(b, current + UrlsOf(a), seen)
    decreases a
  {
    if a == [] {
      assert a + b == b && current + UrlsOf(a) == current;
    } else {
      var o := a[0];
      assert (a + b)[1..] == a[1..] + b && a == [o] + a[1..];
      assert UrlsOf(a) == {o.url} + UrlsOf(a[1..]);
      EntriesConcat(a[1..], b, if o.url in current then current else current + {o.url}, seen);
      assert current + {o.url} + UrlsOf(a[1..]) == current + UrlsOf(a);
      if o.url in current { assert current + UrlsOf(a[1..]) == current + UrlsOf(a); }
    }
  }

  lemma UrlsConcat(a: seq<Offer>, b: seq<Offer>)
    ensures UrlsOf(a + b) == UrlsOf(a) + UrlsOf(b)
  {
  }

  /** Appending one more offer's entry. */
  lemma EntriesSnoc(offers: seq<Offer>, offer: Offer, seen: Seen)
    ensures Entries(offers + [offer], {}, seen)
         == Entries(offers, {}, seen) + Entries([offer], UrlsOf(offers), seen)
    ensures UrlsOf(offers + [offer]) == UrlsOf(offers) + {offer.url}
  {
    EntriesConcat(offers, [offer], {}, seen);
    assert {} + UrlsOf(offers) == UrlsOf(offers);
    UrlsConcat(offers, [offer]);
  }

  /** The loop over a folder's children; `before` are the offers handled so far. */
  method AppendChildren(children: seq<Child>, ghost before: seq<Offer>, seen: Seen,
                        current: set<Text>, entries: seq<Entry>, files: set<Text>)
    returns (newCurrent: set<Text>, newEntries: seq<Entry>, newFiles: set<Text>)
    requires current == UrlsOf(before) && entries == Entries(before, {}, seen)
    ensures newCurrent == UrlsOf(before + ChildOffers(children))
    ensures newEntries == Entries(before + ChildOffers(children), {}, seen)
    ensures newFiles == files + FilesAmong(children)
  {
    hide Entries, UrlsOf;
    newCurrent, newEntries, newFiles := current, entries, files;
    ghost var done := before;
    for i := 0 to |children|
      invariant done == before + ChildOffers(children[..i])
      invariant newCurrent == UrlsOf(done) && newEntries == Entries(done, {}, seen)
      invariant newFiles == files + FilesAmong(children[..i])
    {
      var offer := ChildOffer(children[i]);
      if !children[i].isFolder { newFiles := newFiles + {children[i].url}; }
      newCurrent, newEntries := AppendContextEntry(offer, seen, newCurrent, newEntries);
      EntriesSnoc(done, offer, seen);
      done := done + [offer];
      ChildrenSnoc(children, i);
    }
    assert children[..|children|] == children;
  }

  lemma ChildrenSnoc(children: seq<Child>, i: nat)
    requires i < |children|
    ensures ChildOffers(children[..i + 1]) == ChildOffers(children[..i]) + [ChildOffer(children[i])]
    ensures FilesAmong(children[..i + 1])
         == FilesAmong(children[..i]) + if children[i].isFolder then {} else {children[i].url}
  {
    assert children[..i + 1] == children[..i] + [children[i]];
  }

  /** `_expand_folder_context`; `before` are the offers handled so far. */
  method ExpandFolderContext(ctx: Context, ghost before: seq<Offer>, listings: Listings, seen: Seen,
                             current: set<Text>, entries: seq<Entry>, files: set<Text>, cache: ExpandedContextFileUrls)
    returns (ok: bool, newCurrent: set<Text>, newEntries: seq<Entry>, newFiles: set<Text>)
    requires ctx.FolderContext?
    requires current == UrlsOf(before) && entries == Entries(before, {}, seen)
    modifies cache`folderChildren
    ensures Known(listings, cache) == old(Known(listings, cache))
    ensures ok <==> OffersOf(ctx, old(Known(listings, cache))).Some?
    ensures ok ==> var all := before + OffersOf(ctx, old(Known(listings, cache))).value;
      newCurrent == UrlsOf(all) && newEntries == Entries(all, {}, seen)
    ensures ok ==> newFiles == files + FilesAmong(old(Known(listings, cache))[ListingKey(ctx)])
  {
    hide Entries, UrlsOf, FilesAmong;
    var own := Offer(ctx.url, Facts(ctx.mime, OrNone(ctx.description)));
    newCurrent, newEntries := AppendContextEntry(own, seen, current, entries);
    EntriesSnoc(before, own, seen);
    newFiles := files;
    var children := ListFolderChildren(FilesUrl(ctx.url), ctx.maxDepth, listings, cache);
    ok := children.Some?;
    if !ok { return; }
    newCurrent, newEntries, newFiles :=
      AppendChildren(children.value, before + [own], seen, newCurrent, newEntries, newFiles);
    Associative(before, [own], ChildOffers(children.value));
  }

  lemma {:induction false} OffersSnoc(contexts: seq<Context>, ctx: Context, known: Listings)
    ensures AllOffers(contexts + [ctx], known)
         == if AllOffers(contexts, known).Some? && OffersOf(ctx, known).Some?
            then Some(AllOffers(contexts, known).value + OffersOf(ctx, known).value) else None
    ensures ExpandedFiles(contexts + [ctx], known) == ExpandedFiles(contexts, known) + ExpandedFiles([ctx], known)
    decreases contexts
  {
    if contexts == [] {
      assert contexts + [ctx] == [ctx];
      assert AllOffers([], known) == Some([]) && ([ctx][1..] == []);
      if OffersOf(ctx, known).Some? {
        assert OffersOf(ctx, known).value + [] == [] + OffersOf(ctx, known).value;
      }
    } else {
      assert (contexts + [ctx])[1..] == contexts[1..] + [ctx];
      OffersSnoc(contexts[1..], ctx, known);
      if OffersOf(contexts[0], known).Some? && AllOffers(contexts[1..], known).Some? && OffersOf(ctx, known).Some? {
        Associative(OffersOf(contexts[0], known).value, AllOffers(contexts[1..], known).value,
                      OffersOf(ctx, known).value);
      }
    }
  }

  lemma {:induction false} FailureStays(contexts: seq<Context>, n: nat, known: Listings)
    requires n <= |contexts| && AllOffers(contexts[..n], known).None?
    ensures AllOffers(contexts, known).None?
    decreases |contexts| - n
  {
    if n == |contexts| {
      assert contexts[..n] == contexts;
    } else {
      OffersSnoc(contexts[..n], contexts[n], known);
      assert contexts[..n + 1] == contexts[..n] + [contexts[n]];
      FailureStays(contexts, n + 1, known);
    }
  }

  lemma SomeText(s: set<Text>)
    ensures s == {} || exists u :: u in s
  {
  }

  /** The second half of `build_context_entries_async`: what is gone, in the order of a Python set. */
  method RemovedOnes(gone: set<Text>, seen: Seen) returns (removed: seq<Entry>)
    requires gone <= seen.Keys && WellKeyed(seen)
    ensures RemovedEntries(removed, gone, seen)
  {
    removed := [];
    var rest := gone;
    while rest != {}
      invariant rest <= gone && RemovedEntries(removed, gone - rest, seen)
      decreases rest
    {
      SomeText(rest);
      var url :| url in rest;
      var prev := seen[url];
      ghost var was, left := removed, rest;
      removed := removed + [Entry(prev.title, prev.url, prev.mime, prev.description, Some(Removed))];
      rest := rest - {url};
      forall u | u in gone - rest ensures exists i :: 0 <= i < |removed| && removed[i].url == u {
        if u == url {
          assert removed[|was|].url == u;
        } else {
          assert u in gone - left;
          var i :| 0 <= i < |was| && was[i].url == u;
          assert removed[i].url == u;
        }
      }
    }
    assert gone - rest == gone;
  }

  /** `build_context_entries_async`; absent when a listing raises. */
  method BuildContextEntries(contexts: seq<Context>, seen: Seen, listings: Listings, cache: ExpandedContextFileUrls)
    returns (r: Option<(set<Text>, seq<Entry>)>)
    requires WellKeyed(seen)
    modifies cache
    ensures Known(listings, cache) == old(Known(listings, cache))
    ensures r.Some? <==> AllOffers(contexts, old(Known(listings, cache))).Some?
    ensures r.Some? ==> var offers := AllOffers(contexts, old(Known(listings, cache))).value;
      r.value.0 == UrlsOf(offers) && IsDiff(r.value.1, offers, seen)
    ensures r.Some? ==> cache.populated && cache.urls == ExpandedFiles(contexts, old(Known(listings, cache)))
    ensures r.None? ==> cache.populated == old(cache.populated) && cache.urls == old(cache.urls)
  {
    hide Entries, UrlsOf, ExpandedFiles, AllOffers;
    ghost var known := Known(listings, cache);
    var current: set<Text>, entries: seq<Entry>, files: set<Text> := {}, [], {};
    ghost var offers: seq<Offer> := [];
    NothingOffered(seen, known);
    for i := 0 to |contexts|
      invariant Known(listings, cache) == known
      invariant cache.populated == old(cache.populated) && cache.urls == old(cache.urls)
      invariant AllOffers(contexts[..i], known) == Some(offers)
      invariant current == UrlsOf(offers) && entries == Entries(offers, {}, seen)
      invariant files == ExpandedFiles(contexts[..i], known)
    {
      var ctx := contexts[i];
      assert contexts[..i + 1] == contexts[..i] + [ctx];
      OffersSnoc(contexts[..i], ctx, known);
      FilesOfOne(ctx, known);
      match ctx
      case FileContext(url, description) =>
        var offer := Offer(url, Facts(GuessMime(url), OrNone(description)));
        current, entries := AppendContextEntry(offer, seen, current, entries);
        EntriesSnoc(offers, offer, seen);
        offers := offers + [offer];
      case FolderContext(_, _, _, _) =>
        var ok;
        ok, current, entries, files := ExpandFolderContext(ctx, offers, listings, seen, current, entries, files, cache);
        if !ok {
          FailureStays(contexts, i + 1, known);
          return None;
        }
        offers := offers + OffersOf(ctx, known).value;
      case UserDefined =>
        assert offers + [] == offers;
    }
    assert contexts[..|contexts|] == contexts;
    var removed := RemovedOnes(seen.Keys - current, seen);
    assert (entries + removed)[|entries|..] == removed;
    cache.urls, cache.populated := files, true;
    r := Some((current, entries + removed));
  }

  lemma NothingOffered(seen: Seen, known: Listings)
    ensures Entries([], {}, seen) == [] && UrlsOf([]) == {}
    ensures AllOffers([], known) == Some([]) && ExpandedFiles([], known) == {}
  {
  }

  lemma FilesOfOne(ctx: Context, known: Listings)
    ensures ExpandedFiles([ctx], known)
         == if ctx.FolderContext? && ListingKey(ctx) in known then FilesAmong(known[ListingKey(ctx)]) else {}
  {
    assert [ctx][1..] == [];
  }

  // --- the injector -------------------------------------------------------

  predicate IsContextCall(call: Call) {
    call.name == Some(AVAILABLE_CONTEXT_TOOL) || call.name == Some(GET_CONTENT_TOOL)
  }

  /** `has_context_tool_history`. */
  predicate UsesContextTools(messages: seq<Message>) {
    exists m, c :: m in messages && m.Assistant? && c in m.calls && IsContextCall(c)
  }

  /** `should_activate_context_tool`. */
  predicate ShouldActivate(contexts: seq<Context>, messages: seq<Message>) {
    (exists i :: 0 <= i < |contexts| && !contexts[i].UserDefined?) || UsesContextTools(messages)
  }

  lemma {:induction false} UnusedToolsTellNothing(messages: seq<Message>, contents: map<string, Content>)
    requires !UsesContextTools(messages)
    ensures Scan(messages, contents) == map[]
    decreases messages
  {
    if messages != [] {
      var last, before := messages[|messages| - 1], messages[..|messages| - 1];
      BeforeUsesToo(messages);
      UnusedToolsTellNothing(before, contents);
      if last.Tool? && last.content.Some? {
        UnusedToolsTellNothing(before, contents[last.id := last.content.value]);
      }
      if last.Assistant? {
        forall j | 0 <= j < |last.calls| ensures last.calls[j].name != Some(AVAILABLE_CONTEXT_TOOL) {
          assert last in messages && last.calls[j] in last.calls;
          assert !IsContextCall(last.calls[j]);
        }
        OtherCallsTellNothing(last.calls, contents);
      }
    }
  }

  lemma BeforeUsesToo(messages: seq<Message>)
    requires messages != []
    ensures UsesContextTools(messages[..|messages| - 1]) ==> UsesContextTools(messages)
  {
    assert forall m :: m in messages[..|messages| - 1] ==> m in messages;
  }

  lemma {:induction false} OtherCallsTellNothing(calls: seq<Call>, contents: map<string, Content>)
    requires forall j :: 0 <= j < |calls| ==> calls[j].name != Some(AVAILABLE_CONTEXT_TOOL)
    ensures FromCalls(calls, contents).None?
    decreases calls
  {
    if calls != [] { OtherCallsTellNothing(calls[1..], contents); }
  }

  lemma {:induction false} NothingConfigured(contexts: seq<Context>, known: Listings)
    requires forall i :: 0 <= i < |contexts| ==> contexts[i].UserDefined?
    ensures AllOffers(contexts, known) == Some([])
    decreases contexts
  {
    if contexts != [] {
      NothingConfigured(contexts[1..], known);
      var none: seq<Offer> := [];
      assert contexts[0].UserDefined? && none + none == none;
    }
  }

  /**
   One request's transformation of the history: `should_inject`, `get_content` and the injection at the
   end. Afterwards the history tells exactly what the contexts offer, and nothing was added if and only
   if it did already; so a second transformation of the result adds nothing.
   */
  method Transform(messages: seq<Message>, contexts: seq<Context>, listings: Listings,
                   cache: ExpandedContextFileUrls, callId: string)
    returns (r: Option<seq<Message>>)
    requires callId != ""
    modifies cache
    ensures Known(listings, cache) == old(Known(listings, cache))
    ensures r.Some? <==> !ShouldActivate(contexts, messages) || AllOffers(contexts, old(Known(listings, cache))).Some?
    ensures r.Some? ==> var offers := AllOffers(contexts, old(Known(listings, cache)));
      && offers.Some?
      && SeenView(Scan(r.value, map[])) == ViewOf(offers.value)
      && (r.value == messages <==> SeenView(Scan(messages, map[])) == ViewOf(offers.value))
      && (r.value == messages || exists entries ::
            r.value == messages + Pair(callId, entries) && IsDiff(entries, offers.value, Scan(messages, map[])))
  {
    if !ShouldActivate(contexts, messages) {
      NothingConfigured(contexts, Known(listings, cache));
      UnusedToolsTellNothing(messages, map[]);
      return Some(messages);
    }
    hide Scan, ViewOf, IsDiff, AllOffers, UsesContextTools;
    var seen := ExtractSeen(messages);
    ScanIsKeyed(messages, map[]);
    var built := BuildContextEntries(contexts, seen, listings, cache);
    if built.None? { return None; }
    var (current, entries) := built.value;
    ghost var offers := AllOffers(contexts, old(Known(listings, cache))).value;
    SilentIffUnchanged(entries, offers, seen);
    if Silent(entries, current, seen) { return Some(messages); }
    InjectedIsRead(messages, callId, entries);
    ResponseTellsOffers(entries, offers, seen);
    r := Some(messages + Pair(callId, entries));
  }
}
