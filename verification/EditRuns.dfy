/** Editing over whole runs: an undisturbed edit goes through, a disturbed one never does, and what the cache answers. */
module EditRuns {
  import opened PyText
  import opened Wrappers
  import opened EditFile

  // --- the cache over any history -----------------------------------------

  datatype CacheOp =
    | Store(url: Url, data: Text, metadata: Option<Metadata>, contentType: Option<string>)
    | Drop(url: Url)

  function CacheAfter(ops: seq<CacheOp>): Cache {
    if ops == [] then EMPTY_CACHE
    else
      var before := CacheAfter(ops[..|ops| - 1]);
      match ops[|ops| - 1]
      case Store(url, data, metadata, contentType) => StoreData(before, url, data, metadata, contentType)
      case Drop(url) => InvalidateData(before, url)
  }

  /** Operation `i` is the last one on `url` that `tells` something, and the URL was not dropped since. */
  ghost predicate LastToTell(ops: seq<CacheOp>, url: Url, tells: CacheOp -> bool, i: nat) {
    && i < |ops| && ops[i].Store? && ops[i].url == url && tells(ops[i])
    && forall j :: i < j < |ops| && ops[j].url == url ==> ops[j].Store? && !tells(ops[j])
  }

  /** Nothing was told about `url` since it was last dropped. */
  ghost predicate NothingTold(ops: seq<CacheOp>, url: Url, tells: CacheOp -> bool) {
    forall i :: 0 <= i < |ops| && ops[i].url == url && ops[i].Store? && tells(ops[i]) ==>
      exists j :: i < j < |ops| && ops[j] == Drop(url)
  }

  const TellsData: CacheOp -> bool := (op: CacheOp) => true
  const TellsMetadata: CacheOp -> bool := (op: CacheOp) => op.Store? && op.metadata.Some?
  const TellsType: CacheOp -> bool := (op: CacheOp) => op.Store? && TypeTold(op) != ""

  /** The type given, or the metadata's when none is given. */
  function TypeTold(op: CacheOp): string
    requires op.Store?
  {
    match (op.contentType, op.metadata)
    case (Some(t), _) => t
    case (None, Some(Metadata(_, Some(t)))) => t
    case _ => ""
  }

  lemma Shorter(ops: seq<CacheOp>, url: Url, tells: CacheOp -> bool)
    requires ops != []
    ensures var init, last := ops[..|ops| - 1], ops[|ops| - 1];
      && (forall i: nat :: LastToTell(ops, url, tells, i) ==>
            if i == |init| then last.Store? && last.url == url && tells(last)
            else LastToTell(init, url, tells, i) && (last.url == url ==> last.Store? && !tells(last)))
      && (NothingTold(ops, url, tells) ==>
            last == Drop(url) || (NothingTold(init, url, tells) && !(last.url == url && last.Store? && tells(last))))
  {
    var init, last := ops[..|ops| - 1], ops[|ops| - 1];
    assert ops[|init|] == last;
    if NothingTold(ops, url, tells) && last != Drop(url) {
      forall i | 0 <= i < |init| && init[i].url == url && init[i].Store? && tells(init[i])
        ensures exists j :: i < j < |init| && init[j] == Drop(url)
      {
        assert init[i] == ops[i];
        var j :| i < j < |ops| && ops[j] == Drop(url);
        assert init[j] == Drop(url);
      }
    }
  }

  lemma {:induction false} CacheAnswersData(ops: seq<CacheOp>, url: Url)
    ensures forall i: nat :: LastToTell(ops, url, TellsData, i) ==>
              CachedData(CacheAfter(ops), url) == if ops[i].data == [] then None else Some(ops[i].data)
    ensures NothingTold(ops, url, TellsData) ==> CachedData(CacheAfter(ops), url).None?
    decreases ops
  {
    if ops != [] {
      CacheAnswersData(ops[..|ops| - 1], url);
      Shorter(ops, url, TellsData);
      hide LastToTell, NothingTold;
    }
  }

  lemma {:induction false} CacheAnswersMetadata(ops: seq<CacheOp>, url: Url)
    ensures forall i: nat :: LastToTell(ops, url, TellsMetadata, i) ==> CachedMetadata(CacheAfter(ops), url) == ops[i].metadata
    ensures NothingTold(ops, url, TellsMetadata) ==> CachedMetadata(CacheAfter(ops), url).None?
    decreases ops
  {
    if ops != [] {
      CacheAnswersMetadata(ops[..|ops| - 1], url);
      Shorter(ops, url, TellsMetadata);
      hide LastToTell, NothingTold;
    }
  }

  /** What the last operation does to the type of a URL. */
  lemma TypeAfter(ops: seq<CacheOp>, url: Url)
    requires ops != []
    ensures var before, last := CacheAfter(ops[..|ops| - 1]).contentTypes, ops[|ops| - 1];
      var after := CacheAfter(ops).contentTypes;
      if last == Drop(url) then url !in after
      else if last.url == url && TellsType(last) then url in after && after[url] == TypeTold(last)
      else (url in after <==> url in before) && (url in after ==> after[url] == before[url])
  {
  }

  lemma {:induction false} CacheAnswersType(ops: seq<CacheOp>, url: Url)
    ensures forall i: nat :: LastToTell(ops, url, TellsType, i) ==>
              url in CacheAfter(ops).contentTypes && CacheAfter(ops).contentTypes[url] == TypeTold(ops[i])
    ensures NothingTold(ops, url, TellsType) ==> url !in CacheAfter(ops).contentTypes
    decreases ops
  {
    if ops != [] {
      CacheAnswersType(ops[..|ops| - 1], url);
      TypeAfter(ops, url);
      Shorter(ops, url, TellsType);
      hide LastToTell, NothingTold, CacheAfter, ResolvedType;
    }
  }

  /**
   After any history the cache answers, for each URL, the last data stored since it was last dropped,
   unless that is empty; the last metadata given with any; and the last type told that is not empty.
   */
  lemma CacheAnswersTheLast(ops: seq<CacheOp>, url: Url)
    ensures forall i: nat :: LastToTell(ops, url, TellsData, i) ==>
              CachedData(CacheAfter(ops), url) == if ops[i].data == [] then None else Some(ops[i].data)
    ensures NothingTold(ops, url, TellsData) ==> CachedData(CacheAfter(ops), url).None?
    ensures forall i: nat :: LastToTell(ops, url, TellsMetadata, i) ==> CachedMetadata(CacheAfter(ops), url) == ops[i].metadata
    ensures NothingTold(ops, url, TellsMetadata) ==> CachedMetadata(CacheAfter(ops), url).None?
    ensures forall i: nat :: LastToTell(ops, url, TellsType, i) ==>
              url in CacheAfter(ops).contentTypes && CacheAfter(ops).contentTypes[url] == TypeTold(ops[i])
    ensures NothingTold(ops, url, TellsType) ==> url !in CacheAfter(ops).contentTypes
  {
    CacheAnswersData(ops, url);
    CacheAnswersMetadata(ops, url);
    CacheAnswersType(ops, url);
    hide NothingTold, CacheAfter;
  }

  // --- whole edits --------------------------------------------------------

  lemma RunCons(w: World, l: Label, rest: seq<Label>)
    requires Enabled(w, l) && IsRun(Apply(w, l), rest)
    ensures IsRun(w, [l] + rest) && After(w, [l] + rest) == After(Apply(w, l), rest)
  {
    hide Enabled, Apply;
    assert ([l] + rest)[1..] == rest;
  }

  /** From a held content under the stored ETag: the plan is written, under a new ETag, and the copy is dropped. */
  lemma FinishEdit(w: World, t: Task, oldText: Text, newText: Text) returns (labels: seq<Label>)
    requires Consistent(w) && t in w.jobs && w.jobs[t].Holding? && w.jobs[t].url in w.store
    requires EtagOf(w.jobs[t].metadata) == Some(w.store[w.jobs[t].url].etag)
    requires PlanEdit(w.jobs[t].content, oldText, newText).Write?
    ensures var url := w.jobs[t].url;
      && IsRun(w, labels)
      && After(w, labels) == World(w.store[url := Stored(PlanEdit(w.store[url].content, oldText, newText).content, w.nextEtag)],
                                   w.nextEtag + 1, InvalidateData(w.cache, url), w.jobs[t := Committed(url)])
  {
    hide PlanEdit;
    assert JobOk(w, w.jobs[t]);
    var upload, after := Upload(t, oldText, newText), AfterUpload(t);
    var w1 := Apply(w, upload);
    var w2 := Apply(w1, after);
    assert w2.jobs == w.jobs[t := Committed(w.jobs[t].url)];
    RunCons(w1, after, []);
    RunCons(w, upload, [after] + []);
    labels := [upload] + ([after] + []);
  }

  /**
   An edit nobody disturbs goes through: fetched under the server's ETag, planned, written; no other
   file, job or copy changes, and the edited file's copy is gone.
   */
  lemma UndisturbedEditIsWritten(w: World, t: Task, url: Url, contentType: Option<string>, oldText: Text, newText: Text)
    returns (labels: seq<Label>)
    requires Consistent(w) && t !in w.jobs && CachedData(w.cache, url).None? && url in w.store
    requires PlanEdit(w.store[url].content, oldText, newText).Write?
    ensures IsRun(w, labels)
    ensures var w' := After(w, labels);
      && w'.store == w.store[url := Stored(PlanEdit(w.store[url].content, oldText, newText).content, w.nextEtag)]
      && w'.jobs == w.jobs[t := Committed(url)]
      && w'.cache == InvalidateData(w.cache, url)
  {
    var fetch, data := FetchMetadata(t, url, true, contentType), FetchData(t);
    var w1 := Apply(w, fetch);
    var w2 := FetchedWorld(w, t, url, contentType);
    var rest := FinishEdit(w2, t, oldText, newText);
    DropAfterStore(w.cache, url, w.store[url].content, Metadata(Some(w.store[url].etag), contentType));
    hide PlanEdit, Consistent, CachedData, InvalidateData, StoreData, Apply, Enabled;
    assert w2.jobs[t := Committed(url)] == w.jobs[t := Committed(url)];
    RunCons(w1, data, rest);
    RunCons(w, fetch, [data] + rest);
    labels := [fetch] + ([data] + rest);
  }

  lemma DropAfterStore(c: Cache, url: Url, data: Text, metadata: Metadata)
    ensures InvalidateData(StoreData(c, url, data, Some(metadata), None), url) == InvalidateData(c, url)
  {
  }

  lemma FetchedWorld(w: World, t: Task, url: Url, contentType: Option<string>) returns (w': World)
    requires Consistent(w) && t !in w.jobs && CachedData(w.cache, url).None? && url in w.store
    ensures var fetch := FetchMetadata(t, url, true, contentType);
      Enabled(w, fetch) && Enabled(Apply(w, fetch), FetchData(t)) && w' == Apply(Apply(w, fetch), FetchData(t))
    ensures Consistent(w')
    ensures var metadata := Metadata(Some(w.store[url].etag), contentType);
      w' == w.(cache := StoreData(w.cache, url, w.store[url].content, Some(metadata), None),
               jobs := w.jobs[t := Holding(url, w.store[url].content, Some(metadata))])
  {
    var fetch := FetchMetadata(t, url, true, contentType);
    var w1 := Apply(w, fetch);
    StepKeepsConsistent(w, fetch);
    StepKeepsConsistent(w1, FetchData(t));
    w' := Apply(w1, FetchData(t));
    hide Consistent;
    assert w1.jobs[t := w'.jobs[t]] == w.jobs[t := w'.jobs[t]];
  }

  /** So does one from the request's own copy, as long as the copy's ETag is the stored one. */
  lemma CachedEditIsWritten(w: World, t: Task, url: Url, oldText: Text, newText: Text) returns (labels: seq<Label>)
    requires Consistent(w) && t !in w.jobs && CachedData(w.cache, url).Some? && url in w.store
    requires EtagOf(CachedMetadata(w.cache, url)) == Some(w.store[url].etag)
    requires PlanEdit(w.store[url].content, oldText, newText).Write?
    ensures IsRun(w, labels)
    ensures var w' := After(w, labels);
      && w'.store == w.store[url := Stored(PlanEdit(w.store[url].content, oldText, newText).content, w.nextEtag)]
      && w'.jobs == w.jobs[t := Committed(url)]
      && w'.cache == InvalidateData(w.cache, url)
  {
    hide PlanEdit;
    var hit := HitCache(t, url);
    var w1 := Apply(w, hit);
    StepKeepsConsistent(w, hit);
    assert CachedData(w.cache, url).value == w.store[url].content;
    var rest := FinishEdit(w1, t, oldText, newText);
    RunCons(w, hit, rest);
    labels := [hit] + rest;
    assert w.jobs[t := w1.jobs[t]][t := Committed(url)] == w.jobs[t := Committed(url)];
  }

  // --- disturbed edits ----------------------------------------------------

  /** The job holds a content whose ETag is no longer the stored one. */
  ghost predicate Stale(w: World, t: Task) {
    && t in w.jobs && w.jobs[t].Holding? && EtagOf(w.jobs[t].metadata).Some?
    && EtagOf(w.jobs[t].metadata).value < w.nextEtag
    && !(w.jobs[t].url in w.store && w.store[w.jobs[t].url].etag == EtagOf(w.jobs[t].metadata).value)
  }

  lemma StepKeepsStale(w: World, l: Label, t: Task)
    requires Stale(w, t) && Enabled(w, l)
    ensures Stale(Apply(w, l), t) && Apply(w, l).jobs[t] == w.jobs[t]
  {
    hide PlanEdit;
  }

  lemma {:induction false} StaleIsForGood(w: World, labels: seq<Label>, t: Task)
    requires Stale(w, t) && IsRun(w, labels)
    ensures Stale(After(w, labels), t)
    decreases labels
  {
    if labels != [] {
      StepKeepsStale(w, labels[0], t);
      StaleIsForGood(Apply(w, labels[0]), labels[1..], t);
    }
  }

  /**
   Once somebody else has written or deleted a file, no edit planned from an earlier read of it under an
   ETag is ever accepted, whatever happens later, the old content being put back included.
   */
  lemma DisturbedEditIsNeverWritten(w: World, other: Label, later: seq<Label>, t: Task, oldText: Text, newText: Text)
    requires Consistent(w) && t in w.jobs && w.jobs[t].Holding? && EtagOf(w.jobs[t].metadata).Some?
    requires other == OtherDelete(w.jobs[t].url) || (other.OtherPut? && other.url == w.jobs[t].url)
    requires IsRun(Apply(w, other), later)
    ensures !Enabled(After(Apply(w, other), later), Upload(t, oldText, newText))
    ensures other.OtherPut? ==>
              Apply(w, other).store == w.store[other.url := Stored(other.content, w.nextEtag)]
    ensures other.OtherDelete? ==> Apply(w, other).store == w.store - {other.url}
  {
    assert JobOk(w, w.jobs[t]);
    assert Stale(Apply(w, other), t);
    StaleIsForGood(Apply(w, other), later, t);
  }

  /** The request can drop its copy at any time, and then reads what is stored. */
  lemma DroppedCopyIsReadAfresh(w: World, t: Task, url: Url, contentType: Option<string>)
    requires t !in w.jobs && url in w.store
    ensures var run := [Invalidate(url), FetchMetadata(t, url, true, contentType), FetchData(t)];
      IsRun(w, run) && t in After(w, run).jobs &&
      After(w, run).jobs[t] == Holding(url, w.store[url].content, Some(Metadata(Some(w.store[url].etag), contentType)))
  {
    var fetch := FetchMetadata(t, url, true, contentType);
    var w1 := Apply(w, Invalidate(url));
    var w2 := Apply(w1, fetch);
    RunCons(w2, FetchData(t), []);
    RunCons(w1, fetch, [FetchData(t)] + []);
    RunCons(w, Invalidate(url), [fetch] + ([FetchData(t)] + []));
    assert [Invalidate(url)] + ([fetch] + ([FetchData(t)] + [])) == [Invalidate(url), fetch, FetchData(t)];
  }
}
