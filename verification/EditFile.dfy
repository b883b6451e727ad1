/**
 Optimistic editing of stored files. The text part: count, refuse, replace. The protocol part: reads,
 cached or fetched in two requests, and conditional writes, interleaved with everybody else's writes.
 */
module EditFile {
  import opened PyText
  import opened Sequences
  import opened Wrappers

  // --- count and replace --------------------------------------------------

  /** `str.count`: occurrences from left to right that do not overlap. */
  function Count(t: Text, needle: Text): nat
    decreases t
  {
    if needle == [] then |t| + 1
    else
      var i := Find(t, needle);
      if i.None? then 0 else 1 + Count(t[i.value + |needle|..], needle)
  }

  /** `t.replace(old, new, 1)`. */
  function ReplaceOnce(t: Text, oldText: Text, newText: Text): Text {
    var i := Find(t, oldText);
    if i.None? then t else t[..i.value] + newText + t[i.value + |oldText|..]
  }

  datatype Plan = SameStrings | NotFound | Ambiguous(count: nat) | Write(content: Text)

  /** What the edit tool makes of a content. */
  function PlanEdit(content: Text, oldText: Text, newText: Text): Plan {
    if oldText == newText then SameStrings
    else
      var count := Count(content, oldText);
      if count == 0 then NotFound
      else if count > 1 then Ambiguous(count)
      else Write(ReplaceOnce(content, oldText, newText))
  }

  lemma CountZero(t: Text, needle: Text)
    ensures Count(t, needle) == 0 <==> forall j :: !OccursAt(t, needle, j)
  {
    if needle == [] { assert OccursAt(t, needle, 0); }
    if Find(t, needle).None? {
      forall j ensures !OccursAt(t, needle, j) {}
    }
  }

  lemma NoneWhenCountZero(t: Text, needle: Text, j: int)
    requires Count(t, needle) == 0
    ensures !OccursAt(t, needle, j)
  {
    CountZero(t, needle);
  }

  lemma NoneAfterTheOne(content: Text, oldText: Text, i: nat)
    requires Find(content, oldText) == Some(i) && Count(content, oldText) == 1 && oldText != []
    ensures Count(content[i + |oldText|..], oldText) == 0
  {
    hide Find;
  }

  lemma CountOfNothing(t: Text)
    ensures Count(t, []) == |t| + 1
  {
  }

  lemma OthersOverlap(content: Text, oldText: Text, i: nat, j: int)
    requires Find(content, oldText) == Some(i) && Count(content, oldText) == 1
    requires OccursAt(content, oldText, j)
    ensures i <= j < i + |oldText| || (oldText == [] && j == i)
  {
    hide Count, Find;
    if oldText == [] {
      CountOfNothing(content);
    } else if j >= i + |oldText| {
      NoneAfterTheOne(content, oldText, i);
      OccursInRest(content, oldText, i + |oldText|, j);
      NoneWhenCountZero(content[i + |oldText|..], oldText, j - i - |oldText|);
    }
  }

  /** A planned write replaces one occurrence, the leftmost; any other overlaps it. */
  lemma PlannedWrite(content: Text, oldText: Text, newText: Text)
    requires PlanEdit(content, oldText, newText).Write?
    ensures exists i :: (
              && OccursAt(content, oldText, i)
              && PlanEdit(content, oldText, newText).content == content[..i] + newText + content[i + |oldText|..]
              && (forall j :: OccursAt(content, oldText, j) ==> i <= j < i + |oldText| || (oldText == [] && j == i)))
  {
    CountZero(content, oldText);
    var i := Find(content, oldText);
    forall j | OccursAt(content, oldText, j)
      ensures i.value <= j < i.value + |oldText| || (oldText == [] && j == i.value)
    {
      OthersOverlap(content, oldText, i.value, j);
    }
    hide Count, Find;
    assert OccursAt(content, oldText, i.value);
  }

  /** Places where the text occurs, from left to right and without an overlap. */
  predicate Apart(t: Text, needle: Text, places: seq<nat>) {
    && (forall i :: 0 <= i < |places| ==> OccursAt(t, needle, places[i]))
    && (forall i, j :: 0 <= i < j < |places| ==> places[i] < places[j] && places[i] + |needle| <= places[j])
  }

  lemma {:induction false} CountPlaces(t: Text, needle: Text) returns (places: seq<nat>)
    ensures Apart(t, needle, places) && |places| == Count(t, needle)
    decreases t
  {
    if needle == [] {
      places := seq(|t| + 1, i => i);
    } else if Find(t, needle).None? {
      places := [];
    } else {
      var first := Find(t, needle).value;
      var from := first + |needle|;
      var rest := CountPlaces(t[from..], needle);
      places := [first] + seq(|rest|, i requires 0 <= i < |rest| => rest[i] + from);
      CountPlus(t, needle);
      hide Find, Count;
      PlacesFrom(t, needle, first, rest, places);
    }
  }

  lemma PlacesFrom(t: Text, needle: Text, first: nat, rest: seq<nat>, places: seq<nat>)
    requires needle != [] && OccursAt(t, needle, first) && Apart(t[first + |needle|..], needle, rest)
    requires |places| == |rest| + 1 && places[0] == first
    requires forall i :: 0 <= i < |rest| ==> places[i + 1] == rest[i] + first + |needle|
    ensures Apart(t, needle, places)
  {
    forall i | 0 <= i < |places| ensures OccursAt(t, needle, places[i]) {
      if i > 0 { OccursFurther(t, needle, first + |needle|, rest[i - 1]); }
    }
    hide OccursAt;
    forall i, j | 0 <= i < j < |places| ensures places[i] < places[j] && places[i] + |needle| <= places[j] {
      assert places[j] == rest[j - 1] + first + |needle|;
      if i > 0 { assert rest[i - 1] + |needle| <= rest[j - 1]; }
    }
  }

  lemma OccursFurther(t: Text, needle: Text, from: nat, j: nat)
    requires from <= |t| && OccursAt(t[from..], needle, j)
    ensures OccursAt(t, needle, from + j)
  {
    assert t[from..][j..j + |needle|] == t[from + j..from + j + |needle|];
  }

  lemma {:induction false} PlacesOfNothing(t: Text, places: seq<nat>)
    requires Apart(t, [], places)
    ensures forall i :: 0 <= i < |places| ==> i <= places[i]
    decreases places
  {
    if places != [] {
      var init := places[..|places| - 1];
      PlacesOfNothing(t, init);
      forall i | 0 <= i < |places| ensures i <= places[i] {
        if i > 0 { assert init[i - 1] == places[i - 1]; }
      }
    }
  }

  /** No other choice of occurrences without an overlap has more of them than the count. */
  lemma {:induction false} CountIsMost(t: Text, needle: Text, places: seq<nat>)
    requires Apart(t, needle, places)
    ensures |places| <= Count(t, needle)
    decreases t
  {
    if places == [] { return; }
    assert OccursAt(t, needle, places[0]);
    if needle == [] {
      PlacesOfNothing(t, places);
      assert OccursAt(t, needle, places[|places| - 1]);
    } else {
      var from := Find(t, needle).value + |needle|;
      assert from <= places[0] + |needle|;
      var rest := seq(|places| - 1, i requires 0 <= i < |places| - 1 => places[i + 1] - from);
      hide Count, Find;
      forall i | 0 <= i < |rest| ensures OccursAt(t[from..], needle, rest[i]) {
        assert OccursAt(t, needle, places[i + 1]);
        OccursInRest(t, needle, from, places[i + 1]);
      }
      CountIsMost(t[from..], needle, rest);
      CountPlus(t, needle);
    }
  }

  lemma CountPlus(t: Text, needle: Text)
    requires needle != [] && Find(t, needle).Some?
    ensures Count(t, needle) == 1 + Count(t[Find(t, needle).value + |needle|..], needle)
  {
    hide Find;
  }

  /** Two places without an overlap. */
  ghost predicate OccursTwice(t: Text, needle: Text) {
    exists i: nat, j: nat :: Apart(t, needle, [i, j])
  }

  /**
   What is refused and why: equal texts, no occurrence, or two that do not overlap, and nothing else, so
   an edit of a single occurrence is always written.
   */
  lemma RefusedExactlyWhen(content: Text, oldText: Text, newText: Text)
    ensures PlanEdit(content, oldText, newText).SameStrings? <==> oldText == newText
    ensures PlanEdit(content, oldText, newText).NotFound? <==>
            oldText != newText && forall j :: !OccursAt(content, oldText, j)
    ensures PlanEdit(content, oldText, newText).Ambiguous? <==> oldText != newText && OccursTwice(content, oldText)
    ensures oldText != newText && OccursOnce(content, oldText) && (exists j :: OccursAt(content, oldText, j)) ==>
              PlanEdit(content, oldText, newText).Write?
  {
    CountZero(content, oldText);
    var places := CountPlaces(content, oldText);
    hide Count, OccursAt;
    if |places| > 1 { assert Apart(content, oldText, [places[0], places[1]]); }
    if i: nat, j: nat :| Apart(content, oldText, [i, j]) {
      CountIsMost(content, oldText, [i, j]);
      assert [i, j][0] == i && [i, j][1] == j;
    }
  }

  /** Counting skips overlaps: in `aaa` the text `aa` occurs twice, is counted once, and is replaced. */
  lemma OverlapIsCountedOnce()
    ensures var t: Text, oldText: Text, newText: Text := [0x61, 0x61, 0x61], [0x61, 0x61], [0x62];
      OccursAt(t, oldText, 0) && OccursAt(t, oldText, 1) && PlanEdit(t, oldText, newText) == Write([0x62, 0x61])
  {
    var t: Text, oldText: Text, newText: Text := [0x61, 0x61, 0x61], [0x61, 0x61], [0x62];
    assert t[..2] == oldText && t[1..3] == oldText && t[0..2] == oldText;
    assert Find(t, oldText) == Some(0);
    assert t[2..] == [0x61] && Find(t[2..], oldText) == None;
    assert Count(t, oldText) == 1;
    assert t[..0] + newText + t[2..] == [0x62, 0x61];
  }

  /** Some proper beginning of the text is also its end. */
  ghost predicate Bordered(t: Text) {
    exists k :: HasBorder(t, k)
  }

  predicate HasBorder(t: Text, k: int) {
    0 < k < |t| && t[..k] == t[|t| - k..]
  }

  /** Every edit of this text that is written finds it at one place only. */
  ghost predicate EditsAreUnambiguous(oldText: Text) {
    forall content, newText :: PlanEdit(content, oldText, newText).Write? ==> OccursOnce(content, oldText)
  }

  ghost predicate OccursOnce(t: Text, needle: Text) {
    forall i, j :: OccursAt(t, needle, i) && OccursAt(t, needle, j) ==> i == j
  }

  /** Two occurrences that overlap make a border. */
  lemma OverlapIsBorder(t: Text, needle: Text, i: int, j: int)
    requires OccursAt(t, needle, i) && OccursAt(t, needle, j) && i < j < i + |needle|
    ensures HasBorder(needle, i + |needle| - j)
  {
    var k := i + |needle| - j;
    assert needle[..k] == t[j..j + |needle|][..k] == t[j..j + k];
    assert needle[|needle| - k..] == t[i..i + |needle|][j - i..] == t[j..i + |needle|];
  }

  lemma FoundAtOnce(t: Text, rest: Text)
    requires t != [] && |rest| < |t|
    ensures OccursAt(t + rest, t, 0) && Count(t + rest, t) == 1
  {
    assert (t + rest)[..|t|] == t && (t + rest)[0..|t|] == t;
    assert Find(t + rest, t) == Some(0);
    assert (t + rest)[0 + |t|..] == rest;
    CountZero(rest, t);
  }

  /** A border makes a content that has the text at two places and counts it once. */
  lemma BorderIsCountedOnce(oldText: Text, k: int)
    requires HasBorder(oldText, k)
    ensures var content := oldText + oldText[k..];
      OccursAt(content, oldText, 0) && OccursAt(content, oldText, |oldText| - k) && Count(content, oldText) == 1
  {
    hide Count, Find, OccursAt;
    FoundAtOnce(oldText, oldText[k..]);
    var before, border := oldText[..|oldText| - k], oldText[..k];
    assert border == oldText[|oldText| - k..];
    SplitAt(oldText, |oldText| - k);
    SplitAt(oldText, k);
    AtTheEnd(before, border, oldText[k..], oldText);
  }

  lemma AtTheEnd(before: Text, border: Text, after: Text, needle: Text)
    requires needle == border + after && needle == before + border
    ensures OccursAt(needle + after, needle, |before|)
  {
    assert needle + after == before + needle;
    assert (before + needle)[|before|..|before| + |needle|] == needle;
  }

  /**
   A written edit always meant the only occurrence if and only if no proper beginning of the searched text
   is also its end; with such a beginning some ambiguous edit is accepted.
   */
  lemma UnambiguousIffUnbordered(oldText: Text)
    ensures EditsAreUnambiguous(oldText) <==> !Bordered(oldText)
  {
    if k :| HasBorder(oldText, k) {
      var content, other := oldText + oldText[k..], oldText + [0x78];
      BorderIsCountedOnce(oldText, k);
      assert PlanEdit(content, oldText, other).Write?;
      assert !OccursOnce(content, oldText);
    } else {
      forall content, newText | PlanEdit(content, oldText, newText).Write? ensures OccursOnce(content, oldText) {
        PlannedWrite(content, oldText, newText);
        forall i, j | OccursAt(content, oldText, i) && OccursAt(content, oldText, j) ensures i == j {
          if i < j < i + |oldText| { OverlapIsBorder(content, oldText, i, j); }
          if j < i < j + |oldText| { OverlapIsBorder(content, oldText, j, i); }
        }
      }
    }
  }

  // --- the cache ----------------------------------------------------------

  type Url = string

  type Etag = nat

  /** `FileMetadata`: the ETag and the content type, if the server sent them. */
  datatype Metadata = Metadata(etag: Option<Etag>, contentType: Option<string>)

  datatype Cache = Cache(data: map<Url, Text>, metadata: map<Url, Metadata>, contentTypes: map<Url, string>)

  const EMPTY_CACHE := Cache(map[], map[], map[])

  /** The content type to remember: the one given, else the metadata's; an empty one is not remembered. */
  function ResolvedType(metadata: Option<Metadata>, contentType: Option<string>): Option<string> {
    var resolved := if contentType.None? && metadata.Some? then metadata.value.contentType else contentType;
    if resolved == Some("") then None else resolved
  }

  function StoreData(c: Cache, url: Url, data: Text, metadata: Option<Metadata>, contentType: Option<string>): Cache {
    Cache(c.data[url := data],
          if metadata.Some? then c.metadata[url := metadata.value] else c.metadata,
          match ResolvedType(metadata, contentType) case Some(t) => c.contentTypes[url := t] case None => c.contentTypes)
  }

  /** Empty data counts as missing: the code tests `if file_data`. */
  function CachedData(c: Cache, url: Url): Option<Text> {
    if url in c.data && c.data[url] != [] then Some(c.data[url]) else None
  }

  function CachedMetadata(c: Cache, url: Url): Option<Metadata> {
    if url in c.metadata then Some(c.metadata[url]) else None
  }

  function InvalidateData(c: Cache, url: Url): Cache {
    Cache(c.data - {url}, c.metadata - {url}, c.contentTypes - {url})
  }

  /** The request-scoped holder of downloaded files. */
  class StateHolder {
    var fileData: map<Url, Text>
    var fileMetadata: map<Url, Metadata>
    var fileContentType: map<Url, string>

    constructor ()
      ensures View() == EMPTY_CACHE
    {
      fileData, fileMetadata, fileContentType := map[], map[], map[];
    }

    function View(): Cache
      reads this
    {
      Cache(fileData, fileMetadata, fileContentType)
    }

    method GetFileData(url: Url) returns (data: Option<Text>)
      ensures data == CachedData(View(), url)
    {
      if url in fileData {
        var found := fileData[url];
        if found != [] { return Some(found); }
      }
      data := None;
    }

    method GetFileMetadata(url: Url) returns (metadata: Option<Metadata>)
      ensures metadata == CachedMetadata(View(), url)
    {
      metadata := if url in fileMetadata then Some(fileMetadata[url]) else None;
    }

    method GetContentType(url: Url) returns (contentType: Option<string>)
      ensures contentType == if url in View().contentTypes then Some(View().contentTypes[url]) else None
    {
      contentType := if url in fileContentType then Some(fileContentType[url]) else None;
    }

    method StoreFileData(url: Url, data: Text, metadata: Option<Metadata>, contentType: Option<string>)
      modifies this
      ensures View() == StoreData(old(View()), url, data, metadata, contentType)
    {
      fileData := fileData[url := data];
      if metadata.Some? { fileMetadata := fileMetadata[url := metadata.value]; }
      var resolvedType := contentType;
      if resolvedType.None? && metadata.Some? { resolvedType := metadata.value.contentType; }
      if resolvedType.Some? && resolvedType.value != "" { fileContentType := fileContentType[url := resolvedType.value]; }
    }

    method InvalidateFileData(url: Url)
      modifies this
      ensures View() == InvalidateData(old(View()), url)
    {
      fileData := fileData - {url};
      fileMetadata := fileMetadata - {url};
      fileContentType := fileContentType - {url};
    }
  }

  // --- everybody at work --------------------------------------------------

  type Task = nat

  datatype Stored = Stored(content: Text, etag: Etag)

  /** A read in progress: the metadata has been fetched, the bytes have not. */
  datatype Job =
    | Fetching(url: Url, fetched: Metadata)
    | Holding(url: Url, content: Text, metadata: Option<Metadata>)
    | Committed(url: Url)

  /** The file store, the next ETag it will issue, the cache, and the reads and edits under way. */
  datatype World = World(store: map<Url, Stored>, nextEtag: Etag, cache: Cache, jobs: map<Task, Job>)

  /** One stretch of work between two awaits; a job that fails is simply never continued. */
  datatype Label =
    | OtherPut(url: Url, content: Text)
    | OtherDelete(url: Url)
    | Invalidate(url: Url)
    | HitCache(task: Task, url: Url)
    | FetchMetadata(task: Task, url: Url, sendsEtag: bool, contentType: Option<string>)
    | FetchData(task: Task)
    | Upload(task: Task, oldText: Text, newText: Text)
    | AfterUpload(task: Task)

  /** `metadata.etag if metadata else None`. */
  function EtagOf(m: Option<Metadata>): Option<Etag> {
    if m.Some? then m.value.etag else None
  }

  /** The server's answer to the conditional upload: `If-Match` with an ETag, `If-None-Match: *` without. */
  predicate Accepts(store: map<Url, Stored>, url: Url, ifMatch: Option<Etag>) {
    if ifMatch.Some? then url in store && store[url].etag == ifMatch.value else url !in store
  }

  predicate Enabled(w: World, l: Label) {
    match l
    case HitCache(t, url) => t !in w.jobs && CachedData(w.cache, url).Some?
    case FetchMetadata(t, url, _, _) => t !in w.jobs && CachedData(w.cache, url).None? && url in w.store
    case FetchData(t) => t in w.jobs && w.jobs[t].Fetching? && w.jobs[t].url in w.store
    case Upload(t, o, n) =>
      && t in w.jobs && w.jobs[t].Holding?
      && PlanEdit(w.jobs[t].content, o, n).Write?
      && Accepts(w.store, w.jobs[t].url, EtagOf(w.jobs[t].metadata))
    case AfterUpload(t) => t in w.jobs && w.jobs[t].Committed?
    case _ => true
  }

  /** The server stores a content under an ETag it has never issued before. */
  function Put(w: World, url: Url, content: Text): World {
    w.(store := w.store[url := Stored(content, w.nextEtag)], nextEtag := w.nextEtag + 1)
  }

  function Apply(w: World, l: Label): World
    requires Enabled(w, l)
  {
    match l
    case OtherPut(url, content) => Put(w, url, content)
    case OtherDelete(url) => w.(store := w.store - {url})
    case Invalidate(url) => w.(cache := InvalidateData(w.cache, url))
    case HitCache(t, url) =>
      w.(jobs := w.jobs[t := Holding(url, CachedData(w.cache, url).value, CachedMetadata(w.cache, url))])
    case FetchMetadata(t, url, sendsEtag, contentType) =>
      w.(jobs := w.jobs[t := Fetching(url, Metadata(if sendsEtag then Some(w.store[url].etag) else None, contentType))])
    case FetchData(t) =>
      var job := w.jobs[t];
      var data := w.store[job.url].content;
      w.(cache := StoreData(w.cache, job.url, data, Some(job.fetched), None),
         jobs := w.jobs[t := Holding(job.url, data, Some(job.fetched))])
    case Upload(t, o, n) =>
      var job := w.jobs[t];
      Put(w, job.url, PlanEdit(job.content, o, n).content).(jobs := w.jobs[t := Committed(job.url)])
    case AfterUpload(t) =>
      w.(cache := InvalidateData(w.cache, w.jobs[t].url), jobs := w.jobs[t := Committed(w.jobs[t].url)])
  }

  /** If this ETag is still the stored one, this content is the stored one too. */
  predicate Vouches(w: World, url: Url, content: Text, etag: Etag) {
    && etag < w.nextEtag
    && (url in w.store && w.store[url].etag == etag ==> w.store[url].content == content)
  }

  ghost predicate Consistent(w: World) {
    && (forall url :: url in w.store ==> w.store[url].etag < w.nextEtag)
    && (forall url :: url in w.cache.data && url in w.cache.metadata && w.cache.metadata[url].etag.Some? ==>
          Vouches(w, url, w.cache.data[url], w.cache.metadata[url].etag.value))
    && (forall url :: url in w.cache.metadata ==> url in w.cache.data)
    && (forall t :: t in w.jobs ==> JobOk(w, w.jobs[t]))
  }

  predicate JobOk(w: World, job: Job) {
    match job
    case Fetching(url, m) => m.etag.Some? ==> m.etag.value < w.nextEtag
    case Holding(url, content, m) => EtagOf(m).Some? ==> Vouches(w, url, content, EtagOf(m).value)
    case Committed(_) => true
  }

  lemma StepKeepsConsistent(w: World, l: Label)
    requires Consistent(w) && Enabled(w, l)
    ensures Consistent(Apply(w, l))
  {
    hide PlanEdit;
    var w' := Apply(w, l);
    forall t | t in w'.jobs ensures JobOk(w', w'.jobs[t]) {
      if t in w.jobs { assert JobOk(w, w.jobs[t]); }
    }
  }

  predicate IsRun(w: World, labels: seq<Label>)
    decreases labels
  {
    labels == [] || (Enabled(w, labels[0]) && IsRun(Apply(w, labels[0]), labels[1..]))
  }

  function After(w: World, labels: seq<Label>): World
    requires IsRun(w, labels)
    decreases labels
  {
    if labels == [] then w else After(Apply(w, labels[0]), labels[1..])
  }

  lemma {:induction false} RunKeepsConsistent(w: World, labels: seq<Label>)
    requires Consistent(w) && IsRun(w, labels)
    ensures Consistent(After(w, labels))
    decreases labels
  {
    if labels != [] {
      StepKeepsConsistent(w, labels[0]);
      RunKeepsConsistent(Apply(w, labels[0]), labels[1..]);
    }
  }

  /** Before the request: any store, nothing cached, nothing under way. */
  predicate Start(w: World) {
    && w.cache == EMPTY_CACHE && w.jobs == map[]
    && forall url :: url in w.store ==> w.store[url].etag < w.nextEtag
  }

  /**
   In every interleaving, whatever was cached: an accepted edit with an ETag replaced one occurrence
   in exactly the content stored at that moment; without an ETag it created the file and overwrote
   nothing; either way no other file changed.
   */
  lemma AcceptedEditSawTheStoredContent(w0: World, labels: seq<Label>, t: Task, oldText: Text, newText: Text)
    requires Start(w0) && IsRun(w0, labels)
    requires Enabled(After(w0, labels), Upload(t, oldText, newText))
    ensures var w := After(w0, labels);
      var w' := Apply(w, Upload(t, oldText, newText));
      var url, job := w.jobs[t].url, w.jobs[t];
      && (EtagOf(job.metadata).Some? ==>
            url in w.store && w.store[url].content == job.content &&
            w'.store[url].content == ReplaceOnce(w.store[url].content, oldText, newText) &&
            Count(w.store[url].content, oldText) == 1)
      && (EtagOf(job.metadata).None? ==> url !in w.store)
      && w'.store - {url} == w.store - {url}
  {
    RunKeepsConsistent(w0, labels);
    var w := After(w0, labels);
    assert JobOk(w, w.jobs[t]);
    hide Count, ReplaceOnce;
  }

  /**
   The other way round: an edit whose plan was made from the stored content under the stored ETag is
   accepted, so a refusal means the file did change or the plan was made without its ETag.
   */
  lemma FreshEditIsAccepted(w: World, t: Task, oldText: Text, newText: Text)
    requires Consistent(w) && t in w.jobs && w.jobs[t].Holding? && w.jobs[t].url in w.store
    requires PlanEdit(w.jobs[t].content, oldText, newText).Write?
    ensures Enabled(w, Upload(t, oldText, newText)) <==>
            EtagOf(w.jobs[t].metadata) == Some(w.store[w.jobs[t].url].etag)
    ensures EtagOf(w.jobs[t].metadata) == Some(w.store[w.jobs[t].url].etag) ==> w.jobs[t].content == w.store[w.jobs[t].url].content
  {
    assert JobOk(w, w.jobs[t]);
  }

  /** After a successful edit the request reads the file afresh: the copy it edited is gone from the cache. */
  lemma EditedFileIsReadAfresh(w: World, t: Task, reader: Task)
    requires Enabled(w, AfterUpload(t)) && reader !in w.jobs && w.jobs[t].url in w.store
    ensures var w', url := Apply(w, AfterUpload(t)), w.jobs[t].url;
      && !Enabled(w', HitCache(reader, url)) && CachedMetadata(w'.cache, url).None?
      && Enabled(w', FetchMetadata(reader, url, true, None))
      && var fetched := Apply(w', FetchMetadata(reader, url, true, None));
         Apply(fetched, FetchData(reader)).jobs[reader] ==
           Holding(url, w.store[url].content, Some(Metadata(Some(w.store[url].etag), None)))
  {
  }
}
