/**
 The MCP session manager: one owner task and one lock per key. `World` is everything the event loop
 can see, a `Label` is one stretch between two awaits of some task, and a run is any interleaving.
 */
module SessionManager {
  import opened Wrappers

  type Key = string

  type Task = nat

  /** Where the owner task of a handle stands. */
  datatype Owner = Opening | Parked | Ended

  /** `_SessionHandle`; `session` and `error` say whether the field is not `None`. */
  datatype Handle = Handle(key: Key, ready: bool, shutdown: bool, session: bool, error: bool, owner: Owner)

  datatype Borrower =
    | WaitingLock(key: Key)
    | WaitingReady(key: Key, handle: nat)
    | Returned(key: Key, handle: nat)
    | Raised(key: Key)
    | Cancelled

  datatype Lock = Free | HeldBy(task: Task)

  /** `heap` lists every handle ever created; a handle is known by its place there. */
  datatype World = World(
    handles: map<Key, nat>,
    locks: map<Key, Lock>,
    heap: seq<Handle>,
    borrowers: map<Task, Borrower>)

  const EMPTY := World(map[], map[], [], map[])

  datatype Label =
    | Call(task: Task, key: Key)
    | Enter(task: Task)
    | Resume(task: Task)
    | Cancel(task: Task)
    | OwnerOpens(handle: nat)
    | OwnerFails(handle: nat)
    | OwnerStops(handle: nat)
    | CloseAll

  // --- the steps ----------------------------------------------------------

  predicate Waits(w: World, t: Task) {
    t in w.borrowers && (w.borrowers[t].WaitingLock? || w.borrowers[t].WaitingReady?)
  }

  predicate Enabled(w: World, l: Label) {
    match l
    case Call(t, _) => t !in w.borrowers
    case Enter(t) => t in w.borrowers && w.borrowers[t].WaitingLock? && w.borrowers[t].key in w.locks && w.locks[w.borrowers[t].key].Free?
    case Resume(t) => t in w.borrowers && w.borrowers[t].WaitingReady? && w.borrowers[t].handle < |w.heap| && w.heap[w.borrowers[t].handle].ready
    case Cancel(t) => Waits(w, t)
    case OwnerOpens(h) => h < |w.heap| && w.heap[h].owner == Opening
    case OwnerFails(h) => h < |w.heap| && w.heap[h].owner != Ended
    case OwnerStops(h) => h < |w.heap| && w.heap[h].owner == Parked && w.heap[h].shutdown
    case CloseAll => true
  }

  /** The lock is held: reuse the live session or spawn an owner for a new handle and wait for it. */
  function EnterLock(w: World, t: Task, key: Key): World {
    if key in w.handles && w.handles[key] < |w.heap| && w.heap[w.handles[key]].session then
      w.(borrowers := w.borrowers[t := Returned(key, w.handles[key])])
    else
      w.(heap := w.heap + [Handle(key, false, false, false, false, Opening)],
         handles := w.handles[key := |w.heap|],
         locks := w.locks[key := HeldBy(t)],
         borrowers := w.borrowers[t := WaitingReady(key, |w.heap|)])
  }

  function ResumeWaiter(w: World, t: Task, key: Key, h: nat): World
    requires h < |w.heap|
  {
    if w.heap[h].error then
      w.(handles := w.handles - {key}, locks := w.locks[key := Free], borrowers := w.borrowers[t := Raised(key)])
    else w.(locks := w.locks[key := Free], borrowers := w.borrowers[t := Returned(key, h)])
  }

  function CancelWaiter(w: World, t: Task): World
    requires t in w.borrowers
  {
    var b := w.borrowers[t];
    w.(borrowers := w.borrowers[t := Cancelled], locks := if b.WaitingReady? then w.locks[b.key := Free] else w.locks)
  }

  /** Signal every owner in the table and forget the table. */
  function Signalled(heap: seq<Handle>, told: set<nat>): (r: seq<Handle>)
    ensures |r| == |heap|
  {
    seq(|heap|, i requires 0 <= i < |heap| => if i in told then heap[i].(shutdown := true) else heap[i])
  }

  function Apply(w: World, l: Label): World
    requires Enabled(w, l)
  {
    match l
    case Call(t, key) =>
      w.(locks := if key in w.locks then w.locks else w.locks[key := Free], borrowers := w.borrowers[t := WaitingLock(key)])
    case Enter(t) => EnterLock(w, t, w.borrowers[t].key)
    case Resume(t) => ResumeWaiter(w, t, w.borrowers[t].key, w.borrowers[t].handle)
    case Cancel(t) => CancelWaiter(w, t)
    case OwnerOpens(h) => w.(heap := w.heap[h := w.heap[h].(session := true, ready := true, owner := Parked)])
    case OwnerFails(h) => w.(heap := w.heap[h := w.heap[h].(error := true, session := false, ready := true, owner := Ended)])
    case OwnerStops(h) => w.(heap := w.heap[h := w.heap[h].(owner := Ended)])
    case CloseAll => w.(heap := Signalled(w.heap, w.handles.Values), handles := map[])
  }

  // --- what every step keeps ----------------------------------------------

  predicate HandleOk(h: Handle) {
    && (h.owner == Opening ==> !h.ready && !h.session && !h.error)
    && (h.owner == Parked ==> h.ready && h.session && !h.error)
    && (h.owner == Ended ==> h.ready && (h.error || h.shutdown))
    && (h.ready ==> h.session != h.error)
  }

  predicate InTable(w: World, h: nat)
    requires h < |w.heap|
  {
    w.heap[h].key in w.handles && w.handles[w.heap[h].key] == h
  }

  predicate BorrowerOk(w: World, t: Task)
    requires t in w.borrowers
  {
    match w.borrowers[t]
    case WaitingLock(key) => key in w.locks
    case WaitingReady(key, h) =>
      && h < |w.heap| && w.heap[h].key == key
      && key in w.locks && w.locks[key] == HeldBy(t)
      && (key in w.handles ==> w.handles[key] == h)
    case _ => true
  }

  ghost predicate Consistent(w: World) {
    && (forall k :: k in w.handles ==> w.handles[k] < |w.heap| && w.heap[w.handles[k]].key == k && !w.heap[w.handles[k]].shutdown)
    && (forall h :: 0 <= h < |w.heap| ==> HandleOk(w.heap[h]))
    && (forall t :: t in w.borrowers ==> BorrowerOk(w, t))
    && (forall k :: k in w.locks && w.locks[k].HeldBy? ==>
          w.locks[k].task in w.borrowers && w.borrowers[w.locks[k].task].WaitingReady? && w.borrowers[w.locks[k].task].key == k)
  }

  /** Every owner still running is in the table or has been told to shut down. */
  ghost predicate Covered(w: World) {
    forall h :: 0 <= h < |w.heap| && w.heap[h].owner != Ended ==> w.heap[h].shutdown || InTable(w, h)
  }

  /** The caller that gets the lock replaces a table entry whose owner is still opening. */
  predicate Overwrites(w: World, l: Label)
    requires Enabled(w, l)
  {
    l.Enter? &&
    var key := w.borrowers[l.task].key;
    key in w.handles && w.handles[key] < |w.heap| && w.heap[w.handles[key]].owner == Opening
  }

  lemma EnterKeepsConsistent(w: World, t: Task)
    requires Consistent(w) && Enabled(w, Enter(t))
    ensures Consistent(Apply(w, Enter(t)))
  {
    var key := w.borrowers[t].key;
    var w' := Apply(w, Enter(t));
    forall u | u in w'.borrowers ensures BorrowerOk(w', u) {
      if u != t { assert BorrowerOk(w, u); }
    }
  }

  lemma ResumeKeepsConsistent(w: World, t: Task)
    requires Consistent(w) && (Enabled(w, Resume(t)) || Enabled(w, Cancel(t)))
    ensures Enabled(w, Resume(t)) ==> Consistent(Apply(w, Resume(t)))
    ensures Enabled(w, Cancel(t)) ==> Consistent(Apply(w, Cancel(t)))
  {
    forall u | u in w.borrowers ensures BorrowerOk(w, u) {}
  }

  lemma StepKeepsConsistent(w: World, l: Label)
    requires Consistent(w) && Enabled(w, l)
    ensures Consistent(Apply(w, l))
  {
    match l {
      case Enter(t) => EnterKeepsConsistent(w, t);
      case Resume(t) => ResumeKeepsConsistent(w, t);
      case Cancel(t) => ResumeKeepsConsistent(w, t);
      case _ =>
        forall u | u in w.borrowers ensures BorrowerOk(w, u) {}
    }
  }

  /** One step keeps every running owner covered unless, and exactly when, it overwrites an opening handle. */
  lemma StepCovers(w: World, l: Label)
    requires Consistent(w) && Covered(w) && Enabled(w, l)
    ensures Covered(Apply(w, l)) <==> !Overwrites(w, l)
  {
    var w' := Apply(w, l);
    if Overwrites(w, l) {
      var h := w.handles[w.borrowers[l.task].key];
      assert w'.heap[h] == w.heap[h] && !w'.heap[h].shutdown && !InTable(w', h);
    } else {
      forall h | 0 <= h < |w'.heap| && w'.heap[h].owner != Ended
        ensures w'.heap[h].shutdown || InTable(w', h)
      {
        if h < |w.heap| {
          assert w.heap[h].owner != Ended;
          assert w.heap[h].shutdown || InTable(w, h);
          assert HandleOk(w.heap[h]);
          if l.Resume? { assert BorrowerOk(w, l.task); }
        }
      }
    }
  }

  // --- runs ---------------------------------------------------------------

  /** `labels` can be taken one after the other from `w`. */
  predicate IsRun(w: World, labels: seq<Label>)
    decreases labels
  {
    labels == [] || (Enabled(w, labels[0]) && IsRun(Apply(w, labels[0]), labels[1..]))
  }

  function After(w: World, labels: seq<Label>): World
    requires IsRun(w, labels)
    decreases labels
  {
    if labels == [] then w else After(Apply(w, labels[0]), labels[1..])
  }

  predicate NoOverwrite(w: World, labels: seq<Label>)
    requires IsRun(w, labels)
    decreases labels
  {
    labels == [] || (!Overwrites(w, labels[0]) && NoOverwrite(Apply(w, labels[0]), labels[1..]))
  }

  ghost predicate CoveredThroughout(w: World, labels: seq<Label>)
    requires IsRun(w, labels)
    decreases labels
  {
    Covered(w) && (labels == [] || CoveredThroughout(Apply(w, labels[0]), labels[1..]))
  }

  lemma {:induction false} RunFrom(w: World, labels: seq<Label>)
    requires Consistent(w) && Covered(w) && IsRun(w, labels)
    ensures CoveredThroughout(w, labels) <==> NoOverwrite(w, labels)
    ensures Consistent(After(w, labels))
    ensures NoOverwrite(w, labels) ==> Covered(After(w, labels))
    decreases labels
  {
    if labels != [] {
      StepKeepsConsistent(w, labels[0]);
      StepCovers(w, labels[0]);
      if Overwrites(w, labels[0]) {
        assert !CoveredThroughout(Apply(w, labels[0]), labels[1..]);
        ConsistentAfter(Apply(w, labels[0]), labels[1..]);
      } else {
        RunFrom(Apply(w, labels[0]), labels[1..]);
      }
    }
  }

  lemma {:induction false} ConsistentAfter(w: World, labels: seq<Label>)
    requires Consistent(w) && IsRun(w, labels)
    ensures Consistent(After(w, labels))
    decreases labels
  {
    if labels != [] {
      StepKeepsConsistent(w, labels[0]);
      ConsistentAfter(Apply(w, labels[0]), labels[1..]);
    }
  }

  /**
   Every interleaving, cancellations included: no owner is ever left running outside the table and
   without a shutdown signal, exactly when no caller overwrites a handle whose owner is still opening.
   */
  lemma NoOrphanIffNoOverwrite(labels: seq<Label>)
    requires IsRun(EMPTY, labels)
    ensures Consistent(After(EMPTY, labels))
    ensures CoveredThroughout(EMPTY, labels) <==> NoOverwrite(EMPTY, labels)
  {
    RunFrom(EMPTY, labels);
  }

  /** The caller that opens a key's session holds the key's lock until the owner has reported. */
  ghost predicate OpeningIsLocked(w: World) {
    forall k :: k in w.handles && w.handles[k] < |w.heap| && w.heap[w.handles[k]].owner == Opening ==>
      k in w.locks && w.locks[k].HeldBy?
  }

  /** Nobody is cancelled while waiting for an owner that is still opening. */
  predicate PatientStep(w: World, l: Label)
    requires Enabled(w, l)
  {
    l.Cancel? && w.borrowers[l.task].WaitingReady? && w.borrowers[l.task].handle < |w.heap| ==>
      w.heap[w.borrowers[l.task].handle].ready
  }

  predicate Patient(w: World, labels: seq<Label>)
    requires IsRun(w, labels)
    decreases labels
  {
    labels == [] || (PatientStep(w, labels[0]) && Patient(Apply(w, labels[0]), labels[1..]))
  }

  lemma PatientStepKeepsLock(w: World, l: Label)
    requires Consistent(w) && OpeningIsLocked(w) && Enabled(w, l) && PatientStep(w, l)
    ensures !Overwrites(w, l) && OpeningIsLocked(Apply(w, l))
  {
    if l.Resume? || l.Cancel? {
      assert BorrowerOk(w, l.task);
    }
    forall h | 0 <= h < |w.heap| ensures HandleOk(w.heap[h]) {}
  }

  lemma {:induction false} PatientRunFrom(w: World, labels: seq<Label>)
    requires Consistent(w) && OpeningIsLocked(w) && IsRun(w, labels) && Patient(w, labels)
    ensures NoOverwrite(w, labels)
    decreases labels
  {
    if labels != [] {
      StepKeepsConsistent(w, labels[0]);
      PatientStepKeepsLock(w, labels[0]);
      PatientRunFrom(Apply(w, labels[0]), labels[1..]);
    }
  }

  /** Without such a cancellation no caller ever overwrites an opening handle, so no run leaves an orphan. */
  lemma PatientRunsLeaveNoOrphan(labels: seq<Label>)
    requires IsRun(EMPTY, labels) && Patient(EMPTY, labels)
    ensures CoveredThroughout(EMPTY, labels) && Covered(After(EMPTY, labels))
  {
    PatientRunFrom(EMPTY, labels);
    RunFrom(EMPTY, labels);
  }

  lemma RunCons(w: World, l: Label, rest: seq<Label>)
    requires Enabled(w, l) && IsRun(Apply(w, l), rest)
    ensures IsRun(w, [l] + rest) && After(w, [l] + rest) == After(Apply(w, l), rest)
  {
    assert ([l] + rest)[1..] == rest;
  }

  /** From two owners opening for one key, only the second in the table, to the first one parked and never told. */
  lemma CloseMissesFirstOwner(w: World) returns (labels: seq<Label>)
    requires w.handles == map["k" := 1]
    requires w.heap == [Handle("k", false, false, false, false, Opening), Handle("k", false, false, false, false, Opening)]
    ensures IsRun(w, labels) && After(w, labels).handles == map[]
    ensures After(w, labels).heap == [Handle("k", true, false, true, false, Parked), Handle("k", true, true, true, false, Parked)]
  {
    var w1 := Apply(w, OwnerOpens(0));
    var w2 := Apply(w1, OwnerOpens(1));
    var w3 := Apply(w2, CloseAll);
    assert w2.handles["k"] == 1 && w2.handles.Keys == {"k"};
    assert 1 in w2.handles.Values && 0 !in w2.handles.Values;
    assert w3.heap[0] == w2.heap[0] && w3.heap[1] == w2.heap[1].(shutdown := true);
    RunCons(w2, CloseAll, []);
    RunCons(w1, OwnerOpens(1), [CloseAll] + []);
    RunCons(w, OwnerOpens(0), [OwnerOpens(1)] + ([CloseAll] + []));
    labels := [OwnerOpens(0)] + ([OwnerOpens(1)] + ([CloseAll] + []));
  }

  /** A borrower cancelled while its owner opens, then a second call: two owners run for one key and closing reaches only one. */
  lemma CancelledOpenLeavesOrphan() returns (labels: seq<Label>)
    ensures IsRun(EMPTY, labels)
    ensures var w := After(EMPTY, labels);
      && w.handles == map[]
      && w.heap == [Handle("k", true, false, true, false, Parked), Handle("k", true, true, true, false, Parked)]
  {
    var w1 := Apply(EMPTY, Call(0, "k"));
    var w2 := Apply(w1, Enter(0));
    var w3 := Apply(w2, Cancel(0));
    assert w3.handles == map["k" := 0] && w3.locks == map["k" := Free] && w3.borrowers == map[0 := Cancelled];
    var w4 := Apply(w3, Call(1, "k"));
    var w5 := Apply(w4, Enter(1));
    assert w5.handles == map["k" := 1];
    var last := CloseMissesFirstOwner(w5);
    RunCons(w4, Enter(1), last);
    RunCons(w3, Call(1, "k"), [Enter(1)] + last);
    RunCons(w2, Cancel(0), [Call(1, "k")] + ([Enter(1)] + last));
    RunCons(w1, Enter(0), [Cancel(0)] + ([Call(1, "k")] + ([Enter(1)] + last)));
    RunCons(EMPTY, Call(0, "k"), [Enter(0)] + ([Cancel(0)] + ([Call(1, "k")] + ([Enter(1)] + last))));
    labels := [Call(0, "k")] + ([Enter(0)] + ([Cancel(0)] + ([Call(1, "k")] + ([Enter(1)] + last))));
  }

  // --- sessions -----------------------------------------------------------

  /** The owner of `h` runs and has not been told to stop. */
  predicate Live(w: World, h: nat) {
    h < |w.heap| && w.heap[h].owner != Ended && !w.heap[h].shutdown
  }

  /** At most one live owner per key, so borrowers of live sessions of one key share one session. */
  lemma OneLiveSessionPerKey(w: World, a: nat, b: nat)
    requires Covered(w) && Live(w, a) && Live(w, b) && w.heap[a].key == w.heap[b].key
    ensures a == b
  {
    assert InTable(w, a) && InTable(w, b);
  }

  predicate Hands(w: World, l: Label, key: Key, h: nat)
    requires Enabled(w, l)
  {
    (l.Enter? || l.Resume?) && Apply(w, l).borrowers[l.task] == Returned(key, h)
  }

  /**
   A session handed to a caller comes from the handle of that key, is open and has not failed, and its
   owner is parked unless the manager is already closing it; a handle that failed is never handed out.
   */
  lemma HandedSessionIsOpen(w: World, l: Label, key: Key, h: nat)
    requires Consistent(w) && Enabled(w, l) && Hands(w, l, key, h)
    ensures h < |w.heap| && w.heap[h].key == key && w.heap[h].session && !w.heap[h].error
    ensures w.heap[h].owner == Parked || w.heap[h].shutdown
    ensures l.Enter? ==> InTable(w, h) && Live(w, h)
  {
    assert BorrowerOk(w, l.task);
    if l.Enter? {
      assert HandleOk(w.heap[w.handles[key]]);
    } else {
      assert HandleOk(w.heap[w.borrowers[l.task].handle]);
    }
  }

  /** A failure stays: later steps can neither clear the error nor make the session usable again. */
  lemma {:induction false} FailureIsForGood(w: World, labels: seq<Label>, h: nat)
    requires Consistent(w) && IsRun(w, labels) && h < |w.heap| && w.heap[h].error
    ensures var w' := After(w, labels); h < |w'.heap| && w'.heap[h].error && !w'.heap[h].session && w'.heap[h].owner == Ended
    decreases labels
  {
    assert HandleOk(w.heap[h]);
    if labels != [] {
      StepKeepsConsistent(w, labels[0]);
      FailureIsForGood(Apply(w, labels[0]), labels[1..], h);
    }
  }

  /** A failed open reaches its caller as an error, frees the key, and the next caller opens afresh. */
  lemma FailedOpenIsNotMemoized(w: World, t: Task, next: Task)
    requires Consistent(w) && Enabled(w, Resume(t)) && w.heap[w.borrowers[t].handle].error
    requires next in w.borrowers && w.borrowers[next] == WaitingLock(w.borrowers[t].key)
    ensures var key := w.borrowers[t].key;
      var w' := Apply(w, Resume(t));
      && w'.borrowers[t] == Raised(key) && key !in w'.handles
      && Enabled(w', Enter(next))
      && var w'' := Apply(w', Enter(next));
         |w''.heap| == |w.heap| + 1 && w''.handles[key] == |w.heap| && w''.borrowers[next] == WaitingReady(key, |w.heap|)
  {
    assert BorrowerOk(w, t);
  }

  // --- closing ------------------------------------------------------------

  ghost predicate AllTold(w: World) {
    forall h :: 0 <= h < |w.heap| && w.heap[h].owner != Ended ==> w.heap[h].shutdown
  }

  /** When every running owner is covered, closing tells each of them. */
  lemma CloseAllTellsEveryOwner(w: World)
    requires Consistent(w) && Covered(w)
    ensures AllTold(Apply(w, CloseAll)) && Apply(w, CloseAll).handles == map[]
  {
    var w' := Apply(w, CloseAll);
    forall h | 0 <= h < |w'.heap| && w'.heap[h].owner != Ended ensures w'.heap[h].shutdown {
      if InTable(w, h) { assert h in w.handles.Values; }
    }
  }

  function OwnerWork(h: Handle): nat {
    match h.owner case Opening => 2 case Parked => 1 case Ended => 0
  }

  /** The owner steps still to come. */
  function Work(heap: seq<Handle>): nat {
    if heap == [] then 0 else OwnerWork(heap[0]) + Work(heap[1..])
  }

  lemma {:induction false} WorkDrops(heap: seq<Handle>, h: nat, handle: Handle)
    requires h < |heap|
    ensures Work(heap[h := handle]) == Work(heap) - OwnerWork(heap[h]) + OwnerWork(handle)
    decreases heap
  {
    if h == 0 {
      assert heap[0 := handle][1..] == heap[1..];
    } else {
      assert heap[h := handle][1..] == heap[1..][h - 1 := handle];
      WorkDrops(heap[1..], h - 1, handle);
    }
  }

  lemma {:induction false} WorkLeft(heap: seq<Handle>)
    ensures Work(heap) == 0 <==> forall h :: 0 <= h < |heap| ==> heap[h].owner == Ended
    decreases heap
  {
    if heap != [] {
      WorkLeft(heap[1..]);
      assert forall h :: 1 <= h < |heap| ==> heap[1..][h - 1] == heap[h];
    }
  }

  predicate OwnerLabel(l: Label) { l.OwnerOpens? || l.OwnerFails? || l.OwnerStops? }

  /** The caller that gets the lock finds no session and starts an owner. */
  predicate Spawns(w: World, l: Label)
    requires Enabled(w, l)
  {
    l.Enter? &&
    var key := w.borrowers[l.task].key;
    !(key in w.handles && w.handles[key] < |w.heap| && w.heap[w.handles[key]].session)
  }

  /** Once all owners are told, a step of any task keeps it so unless, and exactly when, it starts another owner. */
  lemma StepKeepsTold(w: World, l: Label)
    requires AllTold(w) && Enabled(w, l)
    ensures AllTold(Apply(w, l)) <==> !Spawns(w, l)
  {
    var w' := Apply(w, l);
    if Spawns(w, l) {
      assert w'.heap[|w.heap|].owner == Opening && !w'.heap[|w.heap|].shutdown;
    }
  }

  predicate NoSpawn(w: World, labels: seq<Label>)
    requires IsRun(w, labels)
    decreases labels
  {
    labels == [] || (!Spawns(w, labels[0]) && NoSpawn(Apply(w, labels[0]), labels[1..]))
  }

  ghost predicate ToldThroughout(w: World, labels: seq<Label>)
    requires IsRun(w, labels)
    decreases labels
  {
    AllTold(w) && (labels == [] || ToldThroughout(Apply(w, labels[0]), labels[1..]))
  }

  lemma {:induction false} ToldFrom(w: World, labels: seq<Label>)
    requires AllTold(w) && IsRun(w, labels)
    ensures ToldThroughout(w, labels) <==> NoSpawn(w, labels)
    decreases labels
  {
    if labels != [] {
      StepKeepsTold(w, labels[0]);
      if !Spawns(w, labels[0]) { ToldFrom(Apply(w, labels[0]), labels[1..]); }
    }
  }

  /** After closing, in every interleaving of all tasks: every running owner stays told if and only if no caller starts one. */
  lemma ToldAfterClosing(w: World, later: seq<Label>)
    requires Consistent(w) && Covered(w) && IsRun(Apply(w, CloseAll), later)
    ensures ToldThroughout(Apply(w, CloseAll), later) <==> NoSpawn(Apply(w, CloseAll), later)
  {
    CloseAllTellsEveryOwner(w);
    ToldFrom(Apply(w, CloseAll), later);
  }

  predicate NoCalls(labels: seq<Label>) { forall i :: 0 <= i < |labels| ==> !labels[i].Call? }

  /** A caller of `get_session` is queued on a lock. */
  ghost predicate SomeoneQueued(w: World) { exists t :: t in w.borrowers && w.borrowers[t].WaitingLock? }

  /** No interleaving without new calls of `get_session` ever leaves an owner running that was not told. */
  ghost predicate ClosedForGood(w: World) {
    forall labels :: IsRun(w, labels) && NoCalls(labels) ==> ToldThroughout(w, labels)
  }

  lemma {:induction false} NobodyQueuedSpawns(w: World, labels: seq<Label>)
    requires !SomeoneQueued(w) && IsRun(w, labels) && NoCalls(labels)
    ensures NoSpawn(w, labels)
    decreases labels
  {
    if labels != [] {
      var w', rest := Apply(w, labels[0]), labels[1..];
      assert !labels[0].Call?;
      assert forall i :: 0 <= i < |rest| ==> rest[i] == labels[i + 1];
      assert !SomeoneQueued(w') by {
        assert forall t :: t in w'.borrowers && w'.borrowers[t].WaitingLock? ==> t in w.borrowers && w.borrowers[t].WaitingLock?;
      }
      NobodyQueuedSpawns(w', rest);
    }
  }

  /** A caller queued while the table is empty gets its lock in the end and starts an owner nobody will tell. */
  lemma QueuedCallerSpawns(w: World, t: Task) returns (labels: seq<Label>)
    requires Consistent(w) && w.handles == map[] && t in w.borrowers && w.borrowers[t].WaitingLock?
    ensures IsRun(w, labels) && NoCalls(labels) && !NoSpawn(w, labels)
  {
    assert BorrowerOk(w, t);
    var key := w.borrowers[t].key;
    if w.locks[key].Free? {
      labels := SpawnNow(w, t);
    } else {
      var u := w.locks[key].task;
      assert BorrowerOk(w, u) && u != t;
      var h := w.borrowers[u].handle;
      if w.heap[h].ready {
        labels := SpawnAfterResume(w, t, u);
      } else {
        assert HandleOk(w.heap[h]);
        var w1 := Apply(w, OwnerOpens(h));
        var rest := SpawnAfterResume(w1, t, u);
        labels := [OwnerOpens(h)] + rest;
        SpawnCons(w, OwnerOpens(h), rest);
      }
    }
  }

  lemma SpawnCons(w: World, l: Label, rest: seq<Label>)
    requires Enabled(w, l) && !l.Call? && IsRun(Apply(w, l), rest) && NoCalls(rest)
    ensures IsRun(w, [l] + rest) && NoCalls([l] + rest)
    ensures !NoSpawn(Apply(w, l), rest) || Spawns(w, l) ==> !NoSpawn(w, [l] + rest)
  {
    assert ([l] + rest)[1..] == rest;
  }

  lemma SpawnNow(w: World, t: Task) returns (labels: seq<Label>)
    requires w.handles == map[] && Enabled(w, Enter(t))
    ensures IsRun(w, labels) && NoCalls(labels) && !NoSpawn(w, labels)
  {
    labels := [Enter(t)] + [];
    SpawnCons(w, Enter(t), []);
  }

  lemma SpawnAfterResume(w: World, t: Task, u: Task) returns (labels: seq<Label>)
    requires w.handles == map[] && t in w.borrowers && w.borrowers[t].WaitingLock? && w.borrowers[t].key in w.locks
    requires Enabled(w, Resume(u)) && w.borrowers[u].key == w.borrowers[t].key
    ensures IsRun(w, labels) && NoCalls(labels) && !NoSpawn(w, labels)
  {
    var w1 := Apply(w, Resume(u));
    assert w1.handles == map[];
    var rest := SpawnNow(w1, t);
    labels := [Resume(u)] + rest;
    SpawnCons(w, Resume(u), rest);
  }

  /**
   Closing is for good, over every interleaving without new calls, if and only if nobody was queued on a
   lock when it took its snapshot of the table.
   */
  lemma ClosedForGoodIffNobodyQueued(w: World)
    requires Consistent(w) && Covered(w)
    ensures ClosedForGood(Apply(w, CloseAll)) <==> !SomeoneQueued(w)
  {
    var closed := Apply(w, CloseAll);
    CloseAllTellsEveryOwner(w);
    StepKeepsConsistent(w, CloseAll);
    assert closed.borrowers == w.borrowers;
    if !SomeoneQueued(w) {
      forall labels | IsRun(closed, labels) && NoCalls(labels) ensures ToldThroughout(closed, labels) {
        NobodyQueuedSpawns(closed, labels);
        ToldFrom(closed, labels);
      }
    } else {
      var t :| t in w.borrowers && w.borrowers[t].WaitingLock?;
      var labels := QueuedCallerSpawns(closed, t);
      ToldFrom(closed, labels);
    }
  }

  /** An owner outside the table that was not told: nothing that happens later can tell it, so it ends only by failing. */
  lemma {:induction false} UntoldOutsideTheTable(w: World, labels: seq<Label>, h: nat)
    requires Consistent(w) && IsRun(w, labels) && h < |w.heap| && !InTable(w, h) && !w.heap[h].shutdown
    ensures var w' := After(w, labels);
      h < |w'.heap| && !InTable(w', h) && !w'.heap[h].shutdown && (w'.heap[h].owner == Ended ==> w'.heap[h].error)
    decreases labels
  {
    assert HandleOk(w.heap[h]);
    if labels != [] {
      StepKeepsConsistent(w, labels[0]);
      UntoldStaysOut(w, labels[0], h);
      UntoldOutsideTheTable(Apply(w, labels[0]), labels[1..], h);
    }
  }

  lemma UntoldStaysOut(w: World, l: Label, h: nat)
    requires Consistent(w) && Enabled(w, l) && h < |w.heap| && !InTable(w, h) && !w.heap[h].shutdown
    ensures var w' := Apply(w, l); h < |w'.heap| && !InTable(w', h) && !w'.heap[h].shutdown
  {
    if l.CloseAll? {
      forall k | k in w.handles ensures w.handles[k] != h {}
      assert h !in w.handles.Values;
    }
  }

  /**
   A caller queued on the lock when closing takes its snapshot: nobody is cancelled, nothing is replaced,
   nobody calls afterwards, and yet the second owner is parked and was never told.
   */
  lemma QueuedCallerIsMissed() returns (before: seq<Label>, later: seq<Label>)
    ensures NoCalls(later) && IsRun(EMPTY, before + [CloseAll] + later)
    ensures Patient(EMPTY, before + [CloseAll] + later)
    ensures After(EMPTY, before + [CloseAll] + later).heap ==
            [Handle("k", true, true, true, false, Parked), Handle("k", true, false, true, false, Parked)]
  {
    var w1 := Apply(EMPTY, Call(0, "k"));
    var w2 := Apply(w1, Enter(0));
    var w3 := Apply(w2, Call(1, "k"));
    var w4 := Apply(w3, CloseAll);
    assert w3.handles == map["k" := 0] && 0 in w3.handles.Values;
    assert w4.heap == [Handle("k", false, true, false, false, Opening)];
    var last := SecondOwnerParks(w4);
    PatientCons(w3, CloseAll, last);
    PatientCons(w2, Call(1, "k"), [CloseAll] + last);
    PatientCons(w1, Enter(0), [Call(1, "k")] + ([CloseAll] + last));
    PatientCons(EMPTY, Call(0, "k"), [Enter(0)] + ([Call(1, "k")] + ([CloseAll] + last)));
    before, later := [Call(0, "k"), Enter(0), Call(1, "k")], last;
    assert before + [CloseAll] + later == [Call(0, "k")] + ([Enter(0)] + ([Call(1, "k")] + ([CloseAll] + last)));
  }

  lemma PatientCons(w: World, l: Label, rest: seq<Label>)
    requires Enabled(w, l) && PatientStep(w, l) && IsRun(Apply(w, l), rest) && Patient(Apply(w, l), rest)
    ensures IsRun(w, [l] + rest) && Patient(w, [l] + rest) && After(w, [l] + rest) == After(Apply(w, l), rest)
  {
    assert ([l] + rest)[1..] == rest;
  }

  lemma SecondOwnerParks(w: World) returns (labels: seq<Label>)
    requires w.handles == map[] && w.heap == [Handle("k", false, true, false, false, Opening)]
    requires w.locks == map["k" := HeldBy(0)]
    requires w.borrowers == map[0 := WaitingReady("k", 0), 1 := WaitingLock("k")]
    ensures NoCalls(labels) && IsRun(w, labels) && Patient(w, labels)
    ensures After(w, labels).heap ==
            [Handle("k", true, true, true, false, Parked), Handle("k", true, false, true, false, Parked)]
  {
    var w1 := Apply(w, OwnerOpens(0));
    var w2 := Apply(w1, Resume(0));
    var w3 := Apply(w2, Enter(1));
    PatientCons(w3, OwnerOpens(1), []);
    PatientCons(w2, Enter(1), [OwnerOpens(1)] + []);
    PatientCons(w1, Resume(0), [Enter(1)] + ([OwnerOpens(1)] + []));
    PatientCons(w, OwnerOpens(0), [Resume(0)] + ([Enter(1)] + ([OwnerOpens(1)] + [])));
    labels := [OwnerOpens(0)] + ([Resume(0)] + ([Enter(1)] + ([OwnerOpens(1)] + [])));
  }

  // --- owners come to an end ----------------------------------------------

  /** A step of any task: an owner's own step uses up work, and only a caller that starts an owner adds any. */
  lemma StepUsesWork(w: World, l: Label)
    requires Enabled(w, l)
    ensures Work(Apply(w, l).heap) + (if OwnerLabel(l) then 1 else 0) <= Work(w.heap) + (if Spawns(w, l) then 2 else 0)
  {
    var w' := Apply(w, l);
    if OwnerLabel(l) {
      WorkDrops(w.heap, l.handle, w'.heap[l.handle]);
      assert w'.heap == w.heap[l.handle := w'.heap[l.handle]];
    } else if Spawns(w, l) {
      WorkOfConcat(w.heap, [w'.heap[|w.heap|]]);
      assert w'.heap == w.heap + [w'.heap[|w.heap|]];
    } else if l.CloseAll? {
      SameWork(w.heap, w'.heap);
    }
  }

  lemma {:induction false} WorkOfConcat(a: seq<Handle>, b: seq<Handle>)
    ensures Work(a + b) == Work(a) + Work(b)
    decreases a
  {
    if a == [] {
      assert a + b == b;
    } else {
      assert (a + b)[1..] == a[1..] + b;
      WorkOfConcat(a[1..], b);
    }
  }

  lemma {:induction false} SameWork(a: seq<Handle>, b: seq<Handle>)
    requires |a| == |b| && forall h :: 0 <= h < |a| ==> a[h].owner == b[h].owner
    ensures Work(a) == Work(b)
    decreases a
  {
    if a != [] { SameWork(a[1..], b[1..]); }
  }

  /** The owner steps among some labels, and the owners started by them. */
  function OwnerSteps(labels: seq<Label>): nat {
    if labels == [] then 0 else (if OwnerLabel(labels[0]) then 1 else 0) + OwnerSteps(labels[1..])
  }

  function Spawned(w: World, labels: seq<Label>): nat
    requires IsRun(w, labels)
    decreases labels
  {
    if labels == [] then 0 else (if Spawns(w, labels[0]) then 1 else 0) + Spawned(Apply(w, labels[0]), labels[1..])
  }

  /** Every run of all tasks: the owner steps taken and those still to come are no more than the work there was, and two for each owner started. */
  lemma {:induction false} OwnerStepsAreBounded(w: World, labels: seq<Label>)
    requires IsRun(w, labels)
    ensures OwnerSteps(labels) + Work(After(w, labels).heap) <= Work(w.heap) + 2 * Spawned(w, labels)
    decreases labels
  {
    if labels != [] {
      StepUsesWork(w, labels[0]);
      OwnerStepsAreBounded(Apply(w, labels[0]), labels[1..]);
    }
  }

  /** The step with which a told owner goes on. */
  function NextStep(w: World, h: nat): Label
    requires h < |w.heap|
  {
    if w.heap[h].owner == Opening then OwnerOpens(h) else OwnerStops(h)
  }

  /** A told owner stays told, and after any run it has ended or can take its next step: nobody else can block it. */
  lemma {:induction false} ToldOwnerIsNeverBlocked(w: World, labels: seq<Label>, h: nat)
    requires IsRun(w, labels) && h < |w.heap| && w.heap[h].shutdown
    ensures var w' := After(w, labels);
      h < |w'.heap| && w'.heap[h].shutdown && (w'.heap[h].owner == Ended || Enabled(w', NextStep(w', h)))
    decreases labels
  {
    if labels != [] { ToldOwnerIsNeverBlocked(Apply(w, labels[0]), labels[1..], h); }
  }

  /** With all owners told, letting them take their steps ends them all. */
  lemma {:induction false} OwnersDrain(w: World) returns (labels: seq<Label>)
    requires AllTold(w)
    ensures IsRun(w, labels) && forall h :: 0 <= h < |After(w, labels).heap| ==> After(w, labels).heap[h].owner == Ended
    decreases Work(w.heap)
  {
    WorkLeft(w.heap);
    if Work(w.heap) == 0 {
      labels := [];
    } else {
      var h :| 0 <= h < |w.heap| && w.heap[h].owner != Ended;
      var l := NextStep(w, h);
      StepUsesWork(w, l);
      StepKeepsTold(w, l);
      var rest := OwnersDrain(Apply(w, l));
      labels := [l] + rest;
      assert labels[1..] == rest;
    }
  }

  // --- calls in flight ----------------------------------------------------

  /** A request on a session: still running, finished with a result or an error of its own, or cancelled. */
  datatype CallTask = Running | Finished | CallCancelled

  datatype Verdict = StillWaiting | OwnResult | OwnCancellation | OwnerError | SessionClosed

  /** `await_while_session_alive`, `handle` being the table's entry when the call was started. */
  function VerdictOf(w: World, handle: Option<nat>, call: CallTask): Verdict
    requires handle.Some? ==> handle.value < |w.heap|
  {
    match handle
    case None =>
      (match call case Running => StillWaiting case Finished => OwnResult case CallCancelled => OwnCancellation)
    case Some(h) =>
      if call.Running? && w.heap[h].owner != Ended then StillWaiting
      else if call.Finished? then OwnResult
      else if w.heap[h].error then OwnerError
      else SessionClosed
  }

  /** However an owner ends, its calls in flight learn of it: as its error, or as closed because the manager closed it. */
  lemma EndedOwnerIsNoticed(w: World, h: nat)
    requires Consistent(w) && h < |w.heap| && w.heap[h].owner == Ended
    ensures VerdictOf(w, Some(h), Running) == OwnerError || VerdictOf(w, Some(h), Running) == SessionClosed
    ensures VerdictOf(w, Some(h), Running) == OwnerError <==> w.heap[h].error
    ensures VerdictOf(w, Some(h), Running) == SessionClosed ==> w.heap[h].shutdown
    ensures VerdictOf(w, Some(h), CallCancelled) == VerdictOf(w, Some(h), Running)
    ensures VerdictOf(w, Some(h), Finished) == OwnResult
  {
    assert HandleOk(w.heap[h]);
  }

  /** A failure of the transport reaches every call in flight at once, and whatever happens later they all keep it. */
  lemma FailureReachesCalls(w: World, h: nat, later: seq<Label>)
    requires Consistent(w) && Enabled(w, OwnerFails(h)) && IsRun(Apply(w, OwnerFails(h)), later)
    ensures VerdictOf(w, Some(h), Running) == StillWaiting
    ensures var w' := After(Apply(w, OwnerFails(h)), later);
      h < |w'.heap| && VerdictOf(w', Some(h), Running) == OwnerError
  {
    StepKeepsConsistent(w, OwnerFails(h));
    FailureIsForGood(Apply(w, OwnerFails(h)), later, h);
  }

  /** The handle a call on `key` started in this world watches. */
  function Watched(w: World, key: Key): Option<nat> {
    if key in w.handles then Some(w.handles[key]) else None
  }

  /**
   A call started as soon as its session is handed out watches that session's handle, unless, and exactly
   when, the manager has told the handle to close by then; it then watches none.
   */
  lemma CallWatchesItsSession(w: World, l: Label, key: Key, h: nat)
    requires Consistent(w) && Covered(w) && Enabled(w, l) && Hands(w, l, key, h)
    ensures h < |w.heap| && Watched(Apply(w, l), key) == if w.heap[h].shutdown then None else Some(h)
  {
    assert BorrowerOk(w, l.task);
    HandedSessionIsOpen(w, l, key, h);
    assert HandleOk(w.heap[h]);
  }

  /** When all owners have ended, a call still waits if and only if it runs and was started without a table entry. */
  lemma WaitingWithoutEntry(w: World, handle: Option<nat>, call: CallTask)
    requires forall h :: 0 <= h < |w.heap| ==> w.heap[h].owner == Ended
    requires handle.Some? ==> handle.value < |w.heap|
    ensures VerdictOf(w, handle, call) == StillWaiting <==> handle.None? && call.Running?
  {
  }

  /** No owner has a step of its own left to take. */
  predicate OwnersAtRest(w: World) {
    forall h :: 0 <= h < |w.heap| ==> w.heap[h].owner == Ended || !Enabled(w, NextStep(w, h))
  }

  /**
   Closing, with nobody queued, and then any interleaving without new calls in which the owners take all
   their steps: every call started with a table entry is over, and those started without one wait exactly
   as long as they run themselves.
   */
  lemma ClosingEndsCalls(w: World, later: seq<Label>, handle: Option<nat>, call: CallTask)
    requires Consistent(w) && Covered(w) && !SomeoneQueued(w)
    requires IsRun(Apply(w, CloseAll), later) && NoCalls(later)
    requires OwnersAtRest(After(Apply(w, CloseAll), later))
    requires handle.Some? ==> handle.value < |After(Apply(w, CloseAll), later).heap|
    ensures VerdictOf(After(Apply(w, CloseAll), later), handle, call) == StillWaiting <==> handle.None? && call.Running?
  {
    var closed := Apply(w, CloseAll);
    ClosedForGoodIffNobodyQueued(w);
    var end := After(closed, later);
    ToldAtTheEnd(closed, later);
    forall h | 0 <= h < |end.heap| ensures end.heap[h].owner == Ended {
      assert end.heap[h].owner != Ended ==> Enabled(end, NextStep(end, h));
    }
    WaitingWithoutEntry(end, handle, call);
  }

  lemma {:induction false} ToldAtTheEnd(w: World, labels: seq<Label>)
    requires IsRun(w, labels) && ToldThroughout(w, labels)
    ensures AllTold(After(w, labels))
    decreases labels
  {
    if labels != [] { ToldAtTheEnd(Apply(w, labels[0]), labels[1..]); }
  }

  lemma OwnerEndsUnnoticed(w: World) returns (labels: seq<Label>)
    requires w.handles == map[] && w.heap == [Handle("k", false, true, false, false, Opening)]
    requires w.locks == map["k" := HeldBy(0)] && w.borrowers == map[0 := WaitingReady("k", 0)]
    ensures NoCalls(labels) && IsRun(w, labels) && Patient(w, labels)
    ensures var end := After(w, labels);
      && end.borrowers == map[0 := Returned("k", 0)] && end.handles == map[]
      && end.heap == [Handle("k", true, true, true, false, Ended)]
  {
    var w1 := Apply(w, OwnerOpens(0));
    var w2 := Apply(w1, Resume(0));
    PatientCons(w2, OwnerStops(0), []);
    PatientCons(w1, Resume(0), [OwnerStops(0)] + []);
    PatientCons(w, OwnerOpens(0), [Resume(0)] + ([OwnerStops(0)] + []));
    labels := [OwnerOpens(0)] + ([Resume(0)] + ([OwnerStops(0)] + []));
  }

  /** A caller that resumes after closing gets its session, starts a call without a table entry, and the owner's end does not reach it. */
  lemma LateCallIsMissed() returns (before: seq<Label>, later: seq<Label>)
    ensures NoCalls(later) && IsRun(EMPTY, before + [CloseAll] + later) && Patient(EMPTY, before + [CloseAll] + later)
    ensures var w := After(EMPTY, before + [CloseAll] + later);
      && w.borrowers == map[0 := Returned("k", 0)] && w.handles == map[] && |w.heap| == 1 && w.heap[0].owner == Ended
      && VerdictOf(w, Watched(w, "k"), Running) == StillWaiting
  {
    var w1 := Apply(EMPTY, Call(0, "k"));
    var w2 := Apply(w1, Enter(0));
    var w3 := Apply(w2, CloseAll);
    assert w2.handles == map["k" := 0] && 0 in w2.handles.Values;
    assert w3.heap == [Handle("k", false, true, false, false, Opening)];
    later := OwnerEndsUnnoticed(w3);
    PatientCons(w2, CloseAll, later);
    PatientCons(w1, Enter(0), [CloseAll] + later);
    PatientCons(EMPTY, Call(0, "k"), [Enter(0)] + ([CloseAll] + later));
    before := [Call(0, "k"), Enter(0)];
    assert before + [CloseAll] + later == [Call(0, "k")] + ([Enter(0)] + ([CloseAll] + later));
  }

  // --- the manager object -------------------------------------------------

  /** The manager, one method per stretch between two awaits. */
  class McpSessionManager {
    var handles: map<Key, nat>
    var locks: map<Key, Lock>
    /** Every handle created, mutated by its owner. */
    var heap: seq<Handle>
    /** The calls of `get_session` and where they stand. */
    var borrowers: map<Task, Borrower>

    constructor ()
      ensures View() == EMPTY
    {
      handles, locks, heap, borrowers := map[], map[], [], map[];
    }

    function View(): World
      reads this
    {
      World(handles, locks, heap, borrowers)
    }

    method GetSession(t: Task, key: Key)
      requires Enabled(View(), Call(t, key))
      modifies this
      ensures View() == Apply(old(View()), Call(t, key))
    {
      if key !in locks { locks := locks[key := Free]; }
      borrowers := borrowers[t := WaitingLock(key)];
    }

    method AcquireLock(t: Task)
      requires Consistent(View()) && Enabled(View(), Enter(t))
      modifies this
      ensures View() == Apply(old(View()), Enter(t)) && Consistent(View())
    {
      EnterKeepsConsistent(View(), t);
      var key := borrowers[t].key;
      if key in handles && heap[handles[key]].session {
        borrowers := borrowers[t := Returned(key, handles[key])];
        return;
      }
      var h := |heap|;
      heap := heap + [Handle(key, false, false, false, false, Opening)];
      handles := handles[key := h];
      locks := locks[key := HeldBy(t)];
      borrowers := borrowers[t := WaitingReady(key, h)];
    }

    method OnReady(t: Task)
      requires Consistent(View()) && Enabled(View(), Resume(t))
      modifies this
      ensures View() == Apply(old(View()), Resume(t)) && Consistent(View())
    {
      ResumeKeepsConsistent(View(), t);
      var key, h := borrowers[t].key, borrowers[t].handle;
      locks := locks[key := Free];
      if heap[h].error {
        handles := handles - {key};
        borrowers := borrowers[t := Raised(key)];
        return;
      }
      assert heap[h].session by { assert HandleOk(heap[h]); }
      borrowers := borrowers[t := Returned(key, h)];
    }

    method CloseEverything()
      requires Consistent(View())
      modifies this
      ensures View() == Apply(old(View()), CloseAll) && Consistent(View())
    {
      StepKeepsConsistent(View(), CloseAll);
      var todo := handles.Values;
      ghost var told: set<nat> := {};
      handles := map[];
      while todo != {}
        invariant told + todo == old(handles.Values) && told !! todo
        invariant heap == Signalled(old(heap), told)
        invariant handles == map[] && locks == old(locks) && borrowers == old(borrowers)
        decreases todo
      {
        var h :| h in todo;
        heap := heap[h := heap[h].(shutdown := true)];
        todo, told := todo - {h}, told + {h};
      }
    }
  }
}
