/**
 What the callers of the session manager get: who is given a session, who an error, and that nobody
 waits for ever.
 */
module SessionProgress {
  import opened SessionManager

  // --- errors come from owners --------------------------------------------

  /** Some owner of this key has failed. */
  ghost predicate SomeFailed(w: World, key: Key) {
    exists h :: 0 <= h < |w.heap| && w.heap[h].key == key && w.heap[h].error
  }

  ghost predicate RaisedIsFailed(w: World) {
    forall t :: t in w.borrowers && w.borrowers[t].Raised? ==> SomeFailed(w, w.borrowers[t].key)
  }

  lemma FailedStaysFailed(w: World, l: Label, key: Key)
    requires Consistent(w) && Enabled(w, l) && SomeFailed(w, key)
    ensures SomeFailed(Apply(w, l), key)
  {
    var h :| 0 <= h < |w.heap| && w.heap[h].key == key && w.heap[h].error;
    assert HandleOk(w.heap[h]);
    assert Apply(w, l).heap[h].key == key && Apply(w, l).heap[h].error;
  }

  lemma StepKeepsRaisedIsFailed(w: World, l: Label)
    requires Consistent(w) && RaisedIsFailed(w) && Enabled(w, l)
    ensures RaisedIsFailed(Apply(w, l))
  {
    var w' := Apply(w, l);
    forall t | t in w'.borrowers && w'.borrowers[t].Raised? ensures SomeFailed(w', w'.borrowers[t].key) {
      if t in w.borrowers && w.borrowers[t] == w'.borrowers[t] {
        FailedStaysFailed(w, l, w.borrowers[t].key);
      } else {
        assert BorrowerOk(w, t);
        assert w'.heap[w.borrowers[t].handle].error;
      }
    }
  }

  lemma {:induction false} RaisedIsFailedAfter(w: World, labels: seq<Label>)
    requires Consistent(w) && RaisedIsFailed(w) && IsRun(w, labels)
    ensures RaisedIsFailed(After(w, labels))
    decreases labels
  {
    if labels != [] {
      StepKeepsConsistent(w, labels[0]);
      StepKeepsRaisedIsFailed(w, labels[0]);
      RaisedIsFailedAfter(Apply(w, labels[0]), labels[1..]);
    }
  }

  /** Every interleaving: a caller is given an error only if an owner of its key has failed. */
  lemma ErrorsComeFromOwners(labels: seq<Label>, t: Task)
    requires IsRun(EMPTY, labels) && t in After(EMPTY, labels).borrowers && After(EMPTY, labels).borrowers[t].Raised?
    ensures SomeFailed(After(EMPTY, labels), After(EMPTY, labels).borrowers[t].key)
  {
    RaisedIsFailedAfter(EMPTY, labels);
  }

  /** A caller's answer is final, and until then it waits for the key it asked for. */
  lemma {:induction false} AnswersAreFinal(w: World, labels: seq<Label>, t: Task)
    requires Consistent(w) && IsRun(w, labels) && t in w.borrowers
    ensures t in After(w, labels).borrowers
    ensures !Waits(w, t) ==> After(w, labels).borrowers[t] == w.borrowers[t]
    ensures Waits(w, t) && !After(w, labels).borrowers[t].Cancelled? ==> After(w, labels).borrowers[t].key == w.borrowers[t].key
    decreases labels
  {
    if labels != [] {
      StepKeepsConsistent(w, labels[0]);
      assert Apply(w, labels[0]).borrowers[t].Cancelled? ==> !Waits(Apply(w, labels[0]), t);
      AnswersAreFinal(Apply(w, labels[0]), labels[1..], t);
    }
  }

  // --- nobody waits for ever ----------------------------------------------

  /** A step of a caller or of an opening owner, none of them a failure or a cancellation. */
  predicate Advances(l: Label) { l.Enter? || l.Resume? || l.OwnerOpens? }

  /** Whatever happened before, while somebody waits a caller or an opening owner can take a step. */
  lemma WaitingCanAdvance(w: World, t: Task) returns (l: Label)
    requires Consistent(w) && Waits(w, t)
    ensures Enabled(w, l) && Advances(l)
  {
    assert BorrowerOk(w, t);
    var key := w.borrowers[t].key;
    if w.borrowers[t].WaitingLock? && w.locks[key].Free? {
      return Enter(t);
    }
    var holder := if w.borrowers[t].WaitingLock? then w.locks[key].task else t;
    assert BorrowerOk(w, holder);
    var h := w.borrowers[holder].handle;
    assert HandleOk(w.heap[h]);
    l := if w.heap[h].ready then Resume(holder) else OwnerOpens(h);
  }

  function Queued(w: World): set<Task> { set t | t in w.borrowers && w.borrowers[t].WaitingLock? }

  function Awaiting(w: World): set<Task> { set t | t in w.borrowers && w.borrowers[t].WaitingReady? }

  /** The steps still to come for callers and opening owners, at most. */
  function Ahead(w: World): nat { 4 * |Queued(w)| + |Awaiting(w)| + Work(w.heap) }

  lemma StepMovesCallers(w: World, l: Label)
    requires Enabled(w, l)
    ensures Queued(Apply(w, l)) ==
            if l.Call? then Queued(w) + {l.task} else if l.Enter? || l.Cancel? then Queued(w) - {l.task} else Queued(w)
    ensures Awaiting(Apply(w, l)) ==
            if l.Enter? && Spawns(w, l) then Awaiting(w) + {l.task}
            else if l.Resume? || l.Cancel? then Awaiting(w) - {l.task} else Awaiting(w)
    ensures l.Enter? ==> l.task in Queued(w)
    ensures l.Resume? ==> l.task in Awaiting(w)
  {
  }

  /** An advancing step brings the end nearer, and only a new call moves it away. */
  lemma StepAhead(w: World, l: Label)
    requires Enabled(w, l)
    ensures Ahead(Apply(w, l)) + (if Advances(l) then 1 else 0) <= Ahead(w) + (if l.Call? then 4 else 0)
  {
    StepMovesCallers(w, l);
    StepUsesWork(w, l);
    hide Queued, Awaiting, Work, Apply, Spawns, Enabled;
  }

  function Advanced(labels: seq<Label>): nat {
    if labels == [] then 0 else (if Advances(labels[0]) then 1 else 0) + Advanced(labels[1..])
  }

  function Calls(labels: seq<Label>): nat {
    if labels == [] then 0 else (if labels[0].Call? then 1 else 0) + Calls(labels[1..])
  }

  /** No run advances for ever: four steps for each call, and what was ahead at the start. */
  lemma {:induction false} AdvanceIsBounded(w: World, labels: seq<Label>)
    requires IsRun(w, labels)
    ensures Advanced(labels) + Ahead(After(w, labels)) <= Ahead(w) + 4 * Calls(labels)
    decreases labels
  {
    if labels != [] {
      hide Ahead;
      StepAhead(w, labels[0]);
      AdvanceIsBounded(Apply(w, labels[0]), labels[1..]);
    }
  }

  /** From every consistent world some run without new calls answers everybody. */
  lemma {:induction false} EverybodyCanBeAnswered(w: World) returns (labels: seq<Label>)
    requires Consistent(w)
    ensures IsRun(w, labels) && (forall i :: 0 <= i < |labels| ==> Advances(labels[i]))
    ensures forall t :: !Waits(After(w, labels), t)
    decreases Ahead(w)
  {
    if t :| Waits(w, t) {
      var l := WaitingCanAdvance(w, t);
      StepAhead(w, l);
      StepKeepsConsistent(w, l);
      var rest := EverybodyCanBeAnswered(Apply(w, l));
      labels := [l] + rest;
      assert labels[1..] == rest;
    } else {
      labels := [];
    }
  }

  // --- failures and cancellations -----------------------------------------

  /** An owner can fail at any time while it opens, and its caller is then given an error. */
  lemma FailedOpenRaises(w: World, t: Task)
    requires Consistent(w) && t in w.borrowers && w.borrowers[t].WaitingReady?
    requires var h := w.borrowers[t].handle; h < |w.heap| && w.heap[h].owner == Opening
    ensures var run := [OwnerFails(w.borrowers[t].handle), Resume(t)];
      IsRun(w, run) && After(w, run).borrowers == w.borrowers[t := Raised(w.borrowers[t].key)]
  {
    var fails := OwnerFails(w.borrowers[t].handle);
    var w1 := Apply(w, fails);
    RunCons(w1, Resume(t), []);
    RunCons(w, fails, [Resume(t)] + []);
    assert [fails] + ([Resume(t)] + []) == [fails, Resume(t)];
  }

  /** An owner can fail long after it opened; the next caller of its key then waits for a new one. */
  lemma DeadSessionIsReplaced(w: World, h: nat, t: Task)
    requires Consistent(w) && h < |w.heap| && w.heap[h].owner == Parked && InTable(w, h)
    requires Enabled(w, Enter(t)) && w.borrowers[t].key == w.heap[h].key
    ensures var run := [OwnerFails(h), Enter(t)];
      && IsRun(w, run)
      && After(w, run).borrowers == w.borrowers[t := WaitingReady(w.heap[h].key, |w.heap|)]
      && After(w, run).handles == w.handles[w.heap[h].key := |w.heap|]
  {
    var w1 := Apply(w, OwnerFails(h));
    RunCons(w1, Enter(t), []);
    RunCons(w, OwnerFails(h), [Enter(t)] + []);
    assert [OwnerFails(h)] + ([Enter(t)] + []) == [OwnerFails(h), Enter(t)];
  }

  /** A caller can be cancelled whenever it waits; it takes no lock with it, and nobody else is affected. */
  lemma CancelLeavesNoLock(w: World, t: Task)
    requires Consistent(w) && Waits(w, t)
    ensures Enabled(w, Cancel(t))
    ensures var w' := Apply(w, Cancel(t));
      && w'.borrowers == w.borrowers[t := Cancelled] && w'.handles == w.handles && w'.heap == w.heap
      && w'.locks.Keys == w.locks.Keys
      && forall k :: k in w.locks ==> w'.locks[k] == if w.locks[k] == HeldBy(t) then Free else w.locks[k]
  {
    assert BorrowerOk(w, t);
  }

  // --- without failures and cancellations ---------------------------------

  /** Nobody is cancelled, no owner fails, and the manager is not closed. */
  predicate Smooth(labels: seq<Label>) {
    forall i :: 0 <= i < |labels| ==> !labels[i].Cancel? && !labels[i].OwnerFails? && !labels[i].CloseAll?
  }

  /** Every owner is the one of its key and is opening or parked, and every answer is its session. */
  ghost predicate AllWell(w: World) {
    && OpeningIsLocked(w)
    && (forall h :: 0 <= h < |w.heap| ==> Live(w, h) && !w.heap[h].error && InTable(w, h))
    && (forall t :: t in w.borrowers && !Waits(w, t) ==>
          && w.borrowers[t].Returned?
          && w.borrowers[t].key in w.handles && w.handles[w.borrowers[t].key] == w.borrowers[t].handle
          && w.borrowers[t].handle < |w.heap| && w.heap[w.borrowers[t].handle].session)
  }

  lemma StepKeepsAllWell(w: World, l: Label)
    requires Consistent(w) && AllWell(w) && Enabled(w, l) && Smooth([l])
    ensures AllWell(Apply(w, l))
  {
    assert [l][0] == l;
    var w' := Apply(w, l);
    PatientStepKeepsLock(w, l);
    forall h | 0 <= h < |w.heap| ensures HandleOk(w.heap[h]) && Live(w, h) && !w.heap[h].error && InTable(w, h) {}
    if l.Enter? || l.Resume? { assert BorrowerOk(w, l.task); }
    forall h | 0 <= h < |w'.heap| ensures Live(w', h) && !w'.heap[h].error && InTable(w', h) {
      if l.Enter? && h < |w.heap| && w'.heap != w.heap {
        assert w.heap[h].key != w.borrowers[l.task].key;
      }
    }
    AnswersStayWell(w, l);
  }

  lemma AnswersStayWell(w: World, l: Label)
    requires Consistent(w) && AllWell(w) && Enabled(w, l) && Smooth([l])
    ensures var w' := Apply(w, l);
      forall t :: t in w'.borrowers && !Waits(w', t) ==>
        && w'.borrowers[t].Returned?
        && w'.borrowers[t].key in w'.handles && w'.handles[w'.borrowers[t].key] == w'.borrowers[t].handle
        && w'.borrowers[t].handle < |w'.heap| && w'.heap[w'.borrowers[t].handle].session
  {
    assert [l][0] == l;
    forall h | 0 <= h < |w.heap| ensures HandleOk(w.heap[h]) && Live(w, h) && !w.heap[h].error && InTable(w, h) {}
    if l.Enter? || l.Resume? { assert BorrowerOk(w, l.task); }
  }

  lemma {:induction false} AllWellAfter(w: World, labels: seq<Label>)
    requires Consistent(w) && AllWell(w) && IsRun(w, labels) && Smooth(labels)
    ensures Consistent(After(w, labels)) && AllWell(After(w, labels))
    decreases labels
  {
    if labels != [] {
      assert Smooth([labels[0]]) && Smooth(labels[1..]);
      StepKeepsConsistent(w, labels[0]);
      StepKeepsAllWell(w, labels[0]);
      AllWellAfter(Apply(w, labels[0]), labels[1..]);
    }
  }

  /** The key somebody called with, wherever in the run. */
  lemma {:induction false} CallerKeepsItsKey(w: World, labels: seq<Label>, i: nat)
    requires Consistent(w) && IsRun(w, labels) && i < |labels| && labels[i].Call?
    ensures var t := labels[i].task; var w' := After(w, labels);
      t in w'.borrowers && (w'.borrowers[t].Cancelled? || w'.borrowers[t].key == labels[i].key)
    decreases labels
  {
    StepKeepsConsistent(w, labels[0]);
    if i == 0 {
      AnswersAreFinal(Apply(w, labels[0]), labels[1..], labels[0].task);
    } else {
      CallerKeepsItsKey(Apply(w, labels[0]), labels[1..], i - 1);
    }
  }

  /**
   Every run without failures and cancellations, the callers interleaved at will: one owner was started
   for each key at most, and once no caller and no opening owner has a step left, every caller has the
   session of that one owner.
   */
  lemma EveryCallerGetsTheSession(labels: seq<Label>)
    requires IsRun(EMPTY, labels) && Smooth(labels)
    ensures var w := After(EMPTY, labels);
      && (forall a, b :: 0 <= a < |w.heap| && 0 <= b < |w.heap| && w.heap[a].key == w.heap[b].key ==> a == b)
      && ((forall l :: Advances(l) ==> !Enabled(w, l)) ==>
            forall i :: 0 <= i < |labels| && labels[i].Call? ==>
              && labels[i].task in w.borrowers && labels[i].key in w.handles
              && w.borrowers[labels[i].task] == Returned(labels[i].key, w.handles[labels[i].key])
              && w.handles[labels[i].key] < |w.heap|
              && w.heap[w.handles[labels[i].key]].key == labels[i].key && w.heap[w.handles[labels[i].key]].session)
  {
    AllWellAfter(EMPTY, labels);
    var w := After(EMPTY, labels);
    forall a, b | 0 <= a < |w.heap| && 0 <= b < |w.heap| && w.heap[a].key == w.heap[b].key ensures a == b {
      assert InTable(w, a) && InTable(w, b);
    }
    if forall l :: Advances(l) ==> !Enabled(w, l) {
      forall i | 0 <= i < |labels| && labels[i].Call?
        ensures labels[i].task in w.borrowers && labels[i].key in w.handles
        ensures w.borrowers[labels[i].task] == Returned(labels[i].key, w.handles[labels[i].key])
        ensures w.handles[labels[i].key] < |w.heap|
        ensures w.heap[w.handles[labels[i].key]].key == labels[i].key && w.heap[w.handles[labels[i].key]].session
      {
        var t := labels[i].task;
        CallerKeepsItsKey(EMPTY, labels, i);
        if Waits(w, t) {
          var l := WaitingCanAdvance(w, t);
          assert false;
        }
      }
    }
  }
}
