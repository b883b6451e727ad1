/** JSON Merge Patch with the discriminator guard: the merge loop against the MergePatch function of RFC 7396. */
module JsonMergePatch {

  /** A JSON value; the order of an object's members is not part of it. */
  datatype Value =
    | Null
    | Bool(b: bool)
    | Number(numeral: string)
    | String(text: string)
    | Array(elems: seq<Value>)
    | Object(members: map<string, Value>)

  const DISCRIMINATOR := "type"

  // --- RFC 7396, section 2 ------------------------------------------------

  /** The members of `v` if it is an object; anything else merges like the empty object. */
  function MembersOf(v: Value): map<string, Value> {
    if v.Object? then v.members else map[]
  }

  function MemberOrNull(m: map<string, Value>, name: string): Value {
    if name in m then m[name] else Null
  }

  function MergePatch(target: Value, patch: Value): Value
    decreases patch
  {
    if !patch.Object? then patch else Object(MergeMembers(MembersOf(target), patch))
  }

  function MergeMembers(target: map<string, Value>, patch: Value): map<string, Value>
    requires patch.Object?
    decreases patch, 0
  {
    map name | name in target.Keys + patch.members.Keys && (name in patch.members ==> patch.members[name] != Null) ::
      if name in patch.members then MergePatch(MemberOrNull(target, name), patch.members[name]) else target[name]
  }

  lemma MergedMember(target: map<string, Value>, patch: Value, name: string)
    requires patch.Object?
    ensures name in MergeMembers(target, patch) <==>
            if name in patch.members then patch.members[name] != Null else name in target
    ensures name in patch.members && patch.members[name] != Null ==>
            MergeMembers(target, patch)[name] == MergePatch(MemberOrNull(target, name), patch.members[name])
    ensures name !in patch.members && name in target ==> MergeMembers(target, patch)[name] == target[name]
  {
  }

  // --- the code -----------------------------------------------------------

  method DoMerge(target: Value, patch: Value) returns (merged: Value)
    ensures merged == MergePatch(target, patch)
    decreases patch
  {
    if !patch.Object? { return patch; }
    var start := if target.Object? then target.members else map[];
    var out := start;
    var todo := patch.members.Keys;
    ghost var all := MergeMembers(start, patch);
    while todo != {}
      invariant todo <= patch.members.Keys
      invariant forall name :: name in patch.members && name !in todo ==>
                  (name in out <==> name in all) && (name in out ==> out[name] == all[name])
      invariant forall name :: name in todo || name !in patch.members ==>
                  (name in out <==> name in start) && (name in out ==> out[name] == start[name])
      decreases todo
    {
      var name :| name in todo;
      var value := patch.members[name];
      MergedMember(start, patch, name);
      if value == Null {
        out := out - {name};
      } else if value.Object? {
        var merged := DoMerge(MemberOrNull(out, name), value);
        out := out[name := merged];
      } else {
        out := out[name := value];
      }
      todo := todo - {name};
    }
    forall name ensures name in out <==> name in all {
      MergedMember(start, patch, name);
    }
    forall name | name in out ensures out[name] == all[name] {
      MergedMember(start, patch, name);
    }
    assert out == all;
    merged := Object(out);
  }

  /** One step of an error path: a key, or an index in decimal. */
  type Step = string

  function Digits(n: nat): string {
    if n < 10 then [('0' as int + n) as char] else Digits(n / 10) + [('0' as int + n % 10) as char]
  }

  /** `path + "/" + step` for each step. */
  function Render(steps: seq<Step>): string {
    if steps == [] then "" else Render(steps[..|steps| - 1]) + "/" + steps[|steps| - 1]
  }

  /** A discriminator key occurs in `v`, inside arrays too. */
  predicate HasDiscriminator(v: Value) {
    match v
    case Object(m) => DISCRIMINATOR in m || exists name :: name in m && HasDiscriminator(m[name])
    case Array(elems) => exists i :: 0 <= i < |elems| && HasDiscriminator(elems[i])
    case _ => false
  }

  /** `steps` leads from `v` to a discriminator key. */
  predicate LeadsToDiscriminator(v: Value, steps: seq<Step>)
    decreases steps
  {
    steps != [] &&
    match v
    case Object(m) =>
      steps[0] in m && if |steps| == 1 then steps[0] == DISCRIMINATOR else LeadsToDiscriminator(m[steps[0]], steps[1..])
    case Array(elems) => exists i :: 0 <= i < |elems| && steps[0] == Digits(i) && LeadsToDiscriminator(elems[i], steps[1..])
    case _ => false
  }

  datatype Outcome<T> = Ok(value: T) | Rejected(path: string)

  lemma {:induction false} RenderCons(prefix: seq<Step>, step: Step)
    ensures Render(prefix + [step]) == Render(prefix) + "/" + step
  {
    assert (prefix + [step])[..|prefix|] == prefix;
  }

  /** Raises, as `Rejected`, exactly when a discriminator key occurs, with the path of one. */
  method RejectTypeDiscriminator(value: Value, path: string, ghost prefix: seq<Step>)
    returns (outcome: Outcome<()>, ghost steps: seq<Step>)
    requires path == Render(prefix)
    ensures outcome.Rejected? <==> HasDiscriminator(value)
    ensures outcome.Rejected? ==> LeadsToDiscriminator(value, steps) && outcome.path == Render(prefix + steps)
    decreases value, 1
  {
    if value.Object? {
      outcome, steps := RejectInMembers(value, path, prefix);
    } else if value.Array? {
      outcome, steps := RejectInElems(value, path, prefix);
    } else {
      outcome, steps := Ok(()), [];
    }
  }

  method RejectInMembers(value: Value, path: string, ghost prefix: seq<Step>)
    returns (outcome: Outcome<()>, ghost steps: seq<Step>)
    requires value.Object? && path == Render(prefix)
    ensures outcome.Rejected? <==> HasDiscriminator(value)
    ensures outcome.Rejected? ==> LeadsToDiscriminator(value, steps) && outcome.path == Render(prefix + steps)
    decreases value, 0
  {
    steps := [];
    var todo := value.members.Keys;
    while todo != {}
      invariant todo <= value.members.Keys
      invariant forall name :: name in value.members && name !in todo ==>
                  name != DISCRIMINATOR && !HasDiscriminator(value.members[name])
      decreases todo
    {
      var name :| name in todo;
      var subPath := path + "/" + name;
      RenderCons(prefix, name);
      if name == DISCRIMINATOR {
        steps := [name];
        return Rejected(subPath), steps;
      }
      ghost var rest;
      outcome, rest := RejectTypeDiscriminator(value.members[name], subPath, prefix + [name]);
      if outcome.Rejected? {
        steps := [name] + rest;
        LeadsThrough(value, name, value.members[name], rest);
        assert prefix + [name] + rest == prefix + steps;
        return;
      }
      todo := todo - {name};
    }
    outcome := Ok(());
  }

  lemma LeadsThrough(value: Value, step: Step, sub: Value, rest: seq<Step>)
    requires LeadsToDiscriminator(sub, rest)
    requires (value.Object? && step in value.members && value.members[step] == sub)
             || (value.Array? && exists i :: 0 <= i < |value.elems| && step == Digits(i) && value.elems[i] == sub)
    ensures LeadsToDiscriminator(value, [step] + rest)
  {
    assert ([step] + rest)[1..] == rest;
  }

  method RejectInElems(value: Value, path: string, ghost prefix: seq<Step>)
    returns (outcome: Outcome<()>, ghost steps: seq<Step>)
    requires value.Array? && path == Render(prefix)
    ensures outcome.Rejected? <==> HasDiscriminator(value)
    ensures outcome.Rejected? ==> LeadsToDiscriminator(value, steps) && outcome.path == Render(prefix + steps)
    decreases value, 0
  {
    steps := [];
    for i := 0 to |value.elems|
      invariant forall j :: 0 <= j < i ==> !HasDiscriminator(value.elems[j])
    {
      RenderCons(prefix, Digits(i));
      ghost var rest;
      outcome, rest := RejectTypeDiscriminator(value.elems[i], path + "/" + Digits(i), prefix + [Digits(i)]);
      if outcome.Rejected? {
        steps := [Digits(i)] + rest;
        LeadsThrough(value, Digits(i), value.elems[i], rest);
        assert prefix + [Digits(i)] + rest == prefix + steps;
        return;
      }
    }
    outcome := Ok(());
  }

  method ApplyMergePatch(target: Value, patch: Value) returns (outcome: Outcome<Value>)
    ensures outcome.Rejected? <==> HasDiscriminator(patch)
    ensures outcome.Ok? ==> outcome.value == MergePatch(target, patch)
    ensures outcome.Rejected? ==> exists steps :: LeadsToDiscriminator(patch, steps) && outcome.path == Render(steps)
  {
    ghost var steps;
    var guard;
    guard, steps := RejectTypeDiscriminator(patch, "", []);
    if guard.Rejected? {
      assert [] + steps == steps;
      return Rejected(guard.path);
    }
    var merged := DoMerge(target, patch);
    outcome := Ok(merged);
  }

  // --- laws of the merge --------------------------------------------------

  /** Merging the same patch a second time changes nothing. */
  lemma {:induction false} MergeTwice(target: Value, patch: Value)
    ensures MergePatch(MergePatch(target, patch), patch) == MergePatch(target, patch)
    decreases patch
  {
    if patch.Object? {
      var members := MembersOf(target);
      var once := MergeMembers(members, patch);
      var twice := MergeMembers(once, patch);
      forall name ensures name in twice <==> name in once {
        MergedMember(members, patch, name);
        MergedMember(once, patch, name);
      }
      forall name | name in twice ensures twice[name] == once[name] {
        MergedMember(members, patch, name);
        MergedMember(once, patch, name);
        if name in patch.members {
          MergeTwice(MemberOrNull(members, name), patch.members[name]);
        }
      }
      assert twice == once;
    }
  }

  datatype Found = Absent | Present(value: Value)

  /** The value at a path of object keys. */
  function At(v: Value, path: seq<string>): Found
    decreases path
  {
    if path == [] then Present(v)
    else if v.Object? && path[0] in v.members then At(v.members[path[0]], path[1..])
    else Absent
  }

  /** The discriminator of the object at `path`; `Absent` when there is none, or no object. */
  function DiscriminatorAt(v: Value, path: seq<string>): Found {
    var found := At(v, path);
    if found.Present? && found.value.Object? && DISCRIMINATOR in found.value.members
    then Present(found.value.members[DISCRIMINATOR])
    else Absent
  }

  predicate ObjectAt(v: Value, path: seq<string>) {
    At(v, path).Present? && At(v, path).value.Object?
  }

  /** No discriminator key on any path of object keys. */
  predicate KeyPathsFree(v: Value) {
    v.Object? ==> DISCRIMINATOR !in v.members && forall name :: name in v.members ==> KeyPathsFree(v.members[name])
  }

  /** `patch` never adds, removes or changes the discriminator of an object that survives, whatever the target. */
  ghost predicate KeepsDiscriminators(patch: Value) {
    forall target, path {:trigger At(MergePatch(target, patch), path)} ::
      ObjectAt(MergePatch(target, patch), path) ==>
        DiscriminatorAt(MergePatch(target, patch), path) == DiscriminatorAt(target, path)
  }

  lemma {:induction false} KeptAt(target: Value, patch: Value, path: seq<string>)
    requires KeyPathsFree(patch)
    requires ObjectAt(MergePatch(target, patch), path)
    ensures DiscriminatorAt(MergePatch(target, patch), path) == DiscriminatorAt(target, path)
    decreases path
  {
    if patch.Object? && path != [] {
      var name, rest := path[0], path[1..];
      var members := MembersOf(target);
      MergedMember(members, patch, name);
      if name in patch.members {
        KeptAt(MemberOrNull(members, name), patch.members[name], rest);
        if name !in members {
          NothingInNull(rest);
        }
      }
    }
  }

  lemma NothingInNull(path: seq<string>)
    ensures DiscriminatorAt(Null, path) == Absent
  {
  }

  /** A target and a path where a patch with a discriminator key on a key path shows its effect. */
  lemma {:induction false} EffectOf(patch: Value) returns (target: Value, path: seq<string>)
    requires !KeyPathsFree(patch)
    ensures ObjectAt(MergePatch(target, patch), path)
    ensures DiscriminatorAt(MergePatch(target, patch), path) != DiscriminatorAt(target, path)
    decreases patch
  {
    if DISCRIMINATOR in patch.members {
      path := [];
      target := if patch.members[DISCRIMINATOR] == Null then Object(map[DISCRIMINATOR := Bool(true)]) else Null;
    } else {
      var name :| name in patch.members && !KeyPathsFree(patch.members[name]);
      var inner, rest := EffectOf(patch.members[name]);
      target, path := Object(map[name := inner]), [name] + rest;
      assert path[1..] == rest;
      assert MemberOrNull(MembersOf(target), name) == inner;
    }
  }

  /** A patch keeps every discriminator of every target exactly when no key path of it holds one. */
  lemma KeepsDiscriminatorsIff(patch: Value)
    ensures KeepsDiscriminators(patch) <==> KeyPathsFree(patch)
  {
    if KeyPathsFree(patch) {
      forall target, path | ObjectAt(MergePatch(target, patch), path)
        ensures DiscriminatorAt(MergePatch(target, patch), path) == DiscriminatorAt(target, path)
      {
        KeptAt(target, patch, path);
      }
    } else {
      var target, path := EffectOf(patch);
      assert At(MergePatch(target, patch), path).Present?;
    }
  }

  lemma {:induction false} AcceptedIsFree(patch: Value)
    requires !HasDiscriminator(patch)
    ensures KeyPathsFree(patch)
    decreases patch
  {
    if patch.Object? {
      forall name | name in patch.members ensures KeyPathsFree(patch.members[name]) {
        AcceptedIsFree(patch.members[name]);
      }
    }
  }

  /** A patch the guard accepts never touches a discriminator, at any depth of any target. */
  lemma AcceptedPatchKeepsDiscriminators(patch: Value)
    requires !HasDiscriminator(patch)
    ensures KeepsDiscriminators(patch)
  {
    AcceptedIsFree(patch);
    KeepsDiscriminatorsIff(patch);
  }

  /** The guard is stricter than that law needs: a discriminator inside an array is rejected, yet could never show. */
  lemma GuardAlsoRejectsArrays()
    ensures var patch := Object(map["tools" := Array([Object(map[DISCRIMINATOR := String("x")])])]);
      HasDiscriminator(patch) && KeepsDiscriminators(patch)
  {
    var inner := Object(map[DISCRIMINATOR := String("x")]);
    var list := Array([inner]);
    var patch := Object(map["tools" := list]);
    assert HasDiscriminator(inner) && list.elems[0] == inner;
    assert HasDiscriminator(list) && "tools" in patch.members && patch.members["tools"] == list;
    KeepsDiscriminatorsIff(patch);
  }
}
