/** What a merge patch does at every path of keys, and how an error path is spelled. */
module MergePaths {
  import opened JsonMergePatch
  import opened Sequences

  /** What a patch says about a path of keys. */
  datatype Says =
    | Untouched
    | Removed
    | Replaced(value: Value)
    | Merged

  /** The patch's objects are followed; the first key they do not have leaves the path untouched, `null` removes, anything else replaces. */
  function PatchSays(patch: Value, path: seq<string>): Says
    decreases path
  {
    match patch
    case Object(members) =>
      if path == [] then Merged
      else if path[0] !in members then Untouched
      else if members[path[0]] == Null then Removed
      else PatchSays(members[path[0]], path[1..])
    case _ => if path == [] then Replaced(patch) else match At(patch, path) case Present(v) => Replaced(v) case Absent => Removed
  }

  /** The merge at every path: untouched ones are the target's, removed ones gone, replaced ones the patch's, and the rest objects. */
  lemma {:induction false} MergedAt(target: Value, patch: Value, path: seq<string>)
    ensures match PatchSays(patch, path)
      case Untouched => At(MergePatch(target, patch), path) == At(target, path)
      case Removed => At(MergePatch(target, patch), path) == Absent
      case Replaced(v) => At(MergePatch(target, patch), path) == Present(v)
      case Merged => ObjectAt(MergePatch(target, patch), path)
    decreases path
  {
    if patch.Object? && path != [] {
      var members, name := MembersOf(target), path[0];
      MergedMember(members, patch, name);
      if name in patch.members && patch.members[name] != Null {
        MergedAt(MemberOrNull(members, name), patch.members[name], path[1..]);
        if name !in members {
          NothingBelowNull(patch.members[name], path[1..]);
        }
      }
    }
  }

  /** An untouched path is not the patch's root. */
  lemma NothingBelowNull(patch: Value, path: seq<string>)
    ensures PatchSays(patch, path) == Untouched ==> At(Null, path) == Absent
  {
  }

  // --- error paths --------------------------------------------------------

  predicate AreDigits(t: string) { t != "" && forall i :: 0 <= i < |t| ==> '0' <= t[i] <= '9' }

  function NumberOf(t: string): int {
    if t == "" then 0 else NumberOf(t[..|t| - 1]) * 10 + (t[|t| - 1] as int - '0' as int)
  }

  /** An index is written in the decimal digits that spell it, without a leading zero. */
  lemma {:induction false} IndexIsSpelled(n: nat)
    ensures AreDigits(Digits(n)) && NumberOf(Digits(n)) == n && (n > 0 ==> Digits(n)[0] != '0')
  {
    if n >= 10 {
      IndexIsSpelled(n / 10);
      assert Digits(n)[..|Digits(n)| - 1] == Digits(n / 10);
    } else {
      assert Digits(n)[..0] == "";
    }
  }

  /** An error path is a slash and a step for each step. */
  lemma {:induction false} PathIsSpelled(steps: seq<string>, more: seq<string>)
    ensures Render(steps + more) == Render(steps) + Render(more)
    decreases more
  {
    if more == [] {
      assert steps + more == steps;
      RightEmpty(Render(steps));
    } else {
      var init, last := more[..|more| - 1], more[|more| - 1];
      assert (steps + more)[..|steps + more| - 1] == steps + init && (steps + more)[|steps + more| - 1] == last;
      PathIsSpelled(steps, init);
      Associative(Render(steps), Render(init), "/");
      Associative(Render(steps), Render(init) + "/", last);
    }
  }

  lemma StepIsSpelled(step: string)
    ensures Render([step]) == "/" + step
  {
    assert [step][..0] == [];
    LeftEmpty("/");
  }
}
