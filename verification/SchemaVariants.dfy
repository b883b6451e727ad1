/**
 What a definition with variants, or with a list of types, converts to: the same as a plain definition
 with one type.
 */
module SchemaVariants {
  import opened Wrappers
  import opened SchemaConverter

  // --- the merge as the union of two dicts --------------------------------

  datatype Entry =
    | Ref
    | VariantList(variants: Variants)
    | Type(typ: TypeField)
    | About(text: string)
    | Properties(properties: seq<Property>)
    | Items(id: Id)

  /** `d.get(key)` of a definition as the dict it is. */
  function Get(d: Def, key: string): Option<Entry> {
    if key == "$ref" then (if d.hasRef then Some(Ref) else None)
    else if key == "anyOf" then (if d.anyOf.NoKey? then None else Some(VariantList(d.anyOf)))
    else if key == "oneOf" then (if d.oneOf.NoKey? then None else Some(VariantList(d.oneOf)))
    else if key == "type" then (if d.typ.NoType? then None else Some(Type(d.typ)))
    else if key == "description" then (if d.description.Some? then Some(About(d.description.value)) else None)
    else if key == "properties" then (if d.properties.Some? then Some(Properties(d.properties.value)) else None)
    else if key == "items" then (if d.items.Some? then Some(Items(d.items.value)) else None)
    else None
  }

  predicate IsVariantKey(key: string) { key == "anyOf" || key == "oneOf" }

  /** `{**picked, **rest}` with `rest` the definition without its variant keys: its own key wins, any other is the variant's. */
  function GetMerged(picked: Def, d: Def, key: string): Option<Entry> {
    if Get(d, key).Some? && !IsVariantKey(key) then Get(d, key) else Get(picked, key)
  }

  lemma SameEntriesSameDef(a: Def, b: Def)
    requires forall key :: Get(a, key) == Get(b, key)
    ensures a == b
  {
    assert Get(a, "$ref") == Get(b, "$ref");
    assert Get(a, "anyOf") == Get(b, "anyOf");
    assert Get(a, "oneOf") == Get(b, "oneOf");
    assert Get(a, "type") == Get(b, "type");
    assert Get(a, "description") == Get(b, "description");
    assert Get(a, "properties") == Get(b, "properties");
    assert Get(a, "items") == Get(b, "items");
  }

  lemma MergeIsUnion(picked: Def, d: Def)
    ensures forall key :: Get(Merge(picked, d), key) == GetMerged(picked, d, key)
  {
  }

  // --- which variant ------------------------------------------------------

  /** `v.get("type")` is neither falsy nor the string `null`. */
  predicate HasType(d: Def) {
    d.typ !in {NoType, OneType(""), OneType("null"), TypeList([])}
  }

  /** Without a typed variant the first one stands for all, with one the first such. */
  ghost predicate Represents(g: Graph, ids: seq<Id>, id: Id)
    requires forall i :: 0 <= i < |ids| ==> ids[i] in g
  {
    if exists i :: 0 <= i < |ids| && HasType(g[ids[i]]) then
      exists i :: 0 <= i < |ids| && ids[i] == id && HasType(g[id]) && forall j :: 0 <= j < i ==> !HasType(g[ids[j]])
    else
      ids != [] && id == ids[0]
  }

  /** Of each non-empty list exactly one variant stands for all, the one picked. */
  lemma OneRepresents(g: Graph, ids: seq<Id>, id: Id)
    requires ids != [] && forall i :: 0 <= i < |ids| ==> ids[i] in g
    ensures Represents(g, ids, id) <==> id == PickVariant(g, ids)
  {
    assert forall d :: HasType(d) <==> TypedNonNull(d);
    var picked := PickVariant(g, ids);
    if Represents(g, ids, id) && exists i :: 0 <= i < |ids| && HasType(g[ids[i]]) {
      var i :| 0 <= i < |ids| && ids[i] == id && HasType(g[id]) && forall j :: 0 <= j < i ==> !HasType(g[ids[j]]);
      var k :| 0 <= k < |ids| && ids[k] == picked && HasType(g[picked]) && forall j :: 0 <= j < k ==> !HasType(g[ids[j]]);
      assert i == k;
    }
  }

  predicate Plain(d: Def) { d.anyOf.NoKey? && d.oneOf.NoKey? }

  /** `d` chooses between `ids`: by `anyOf` unless that is absent or empty, then by `oneOf`. */
  predicate ChoosesFrom(d: Def, ids: seq<Id>) {
    ids != [] && (d.anyOf == Listed(ids) || (d.anyOf in {NoKey, Listed([])} && d.oneOf == Listed(ids)))
  }

  /** `picked` represents the variants `d` chooses between. */
  ghost predicate Chooses(g: Graph, d: Def, picked: Id) {
    exists ids :: ChoosesFrom(d, ids) && (forall i :: 0 <= i < |ids| ==> ids[i] in g) && picked in ids && Represents(g, ids, picked)
  }

  lemma ChosenIsMerged(g: Graph, d: Def, picked: Id)
    requires ClosedGraph(g) && Closed(g, d) && Chooses(g, d, picked)
    ensures picked in g && Effective(g, d) == Ok(Merge(g[picked], d))
  {
    var ids :| ChoosesFrom(d, ids) && (forall i :: 0 <= i < |ids| ==> ids[i] in g) && picked in ids && Represents(g, ids, picked);
    OneRepresents(g, ids, picked);
  }

  // --- conversion sees only the kind --------------------------------------

  lemma SameKindBuildsAlike(g: Graph, rank: map<Id, nat>, a: Id, b: Id, seen: set<Id>, allow: bool)
    requires ClosedGraph(g) && ItemsRanked(g, rank) && a in g && b in g && KindOf(g, a) == KindOf(g, b)
    ensures Build(g, rank, a, seen, allow) == Build(g, rank, b, seen, allow)
  {
    hide KindOf, Convert, ItemsRanked;
  }

  // --- variants -----------------------------------------------------------

  lemma FlatIsMerged(picked: Def, d: Def, flat: Def)
    requires !d.hasRef && !flat.hasRef
    requires forall key :: key != "$ref" ==> Get(flat, key) == GetMerged(picked, d, key)
    ensures flat == Merge(picked, d).(hasRef := false)
  {
    var m := Merge(picked, d).(hasRef := false);
    MergeIsUnion(picked, d);
    forall key ensures Get(flat, key) == Get(m, key) {
      if key != "$ref" { assert Get(m, key) == Get(Merge(picked, d), key); }
    }
    SameEntriesSameDef(flat, m);
  }

  /**
   A definition with variants converts exactly as the plain definition `flat` whose dict is the union
   of the representative's and its own: the same schema or refusal, and the same dicts met.
   */
  lemma VariantsConvertAsUnion(g: Graph, rank: map<Id, nat>, id: Id, picked: Id, flat: Id, seen: set<Id>, allow: bool)
    requires ClosedGraph(g) && ItemsRanked(g, rank) && id in g && flat in g && picked in g
    requires Chooses(g, g[id], picked)
    requires Plain(g[picked]) && !g[id].hasRef && !g[flat].hasRef
    requires forall key :: key != "$ref" ==> Get(g[flat], key) == GetMerged(g[picked], g[id], key)
    ensures Build(g, rank, id, seen, allow) == Build(g, rank, flat, seen, allow)
  {
    ChosenIsMerged(g, g[id], picked);
    var merged := Merge(g[picked], g[id]);
    FlatIsMerged(g[picked], g[id], g[flat]);
    hide Get, GetMerged, Chooses, ItemsRanked, Merge;
    assert Effective(g, g[id]) == Ok(merged);
    assert PropertiesOf(g, g[flat]) == PropertiesOf(g, merged);
    SameKindBuildsAlike(g, rank, id, flat, seen, allow);
  }

  /** An optional definition, nothing but a choice whose representative is `a`, converts exactly as `a`. */
  lemma OptionalConvertsAsVariant(g: Graph, rank: map<Id, nat>, id: Id, a: Id, seen: set<Id>, allow: bool)
    requires ClosedGraph(g) && ItemsRanked(g, rank) && id in g && a in g
    requires Chooses(g, g[id], a)
    requires Plain(g[a]) && !g[a].hasRef
    requires forall key :: Get(g[id], key).Some? ==> IsVariantKey(key)
    ensures Build(g, rank, id, seen, allow) == Build(g, rank, a, seen, allow)
  {
    assert Get(g[id], "$ref").None?;
    VariantsConvertAsUnion(g, rank, id, a, a, seen, allow);
  }

  /** The root as well: its variants are merged before its properties are walked. */
  lemma RootConvertsAsUnion(g: Graph, rank: map<Id, nat>, root: Def, picked: Id, flat: Def)
    requires ClosedGraph(g) && ItemsRanked(g, rank) && Closed(g, root) && Closed(g, flat) && picked in g
    requires Chooses(g, root, picked)
    requires Plain(flat) && Get(flat, "properties") == GetMerged(g[picked], root, "properties")
    ensures ConvertRoot(g, rank, root) == ConvertRoot(g, rank, flat)
  {
    ChosenIsMerged(g, root, picked);
    assert PropertiesOf(g, root) == PropertiesOf(g, flat);
  }

  /** A plain root is its properties, from an empty set and with one expansion allowed; absent ones read as none. */
  lemma PlainRootConverts(g: Graph, rank: map<Id, nat>, root: Def)
    requires ClosedGraph(g) && ItemsRanked(g, rank) && Closed(g, root) && Plain(root)
    ensures root.properties.None? ==> ConvertRoot(g, rank, root) == Ok([])
    ensures root.properties.Some? ==> ConvertRoot(g, rank, root) == Convert(g, rank, root.properties.value, {}, true).fields
  {
    assert PropertiesOf(g, root) == Ok(if root.properties.Some? then root.properties.value else []);
  }

  /** Neither key a non-empty list: refused. */
  lemma NoVariantIsRefused(g: Graph, rank: map<Id, nat>, id: Id, seen: set<Id>, allow: bool)
    requires ClosedGraph(g) && ItemsRanked(g, rank) && id in g && !Plain(g[id])
    requires !exists ids :: ChoosesFrom(g[id], ids)
    ensures Build(g, rank, id, seen, allow) == Built(ValueError, seen)
  {
    var v := VariantsOf(g[id]);
    if v.Listed? && v.ids != [] {
      assert ChoosesFrom(g[id], v.ids);
    }
  }

  // --- types --------------------------------------------------------------

  /** The one type a plain definition stands for. */
  ghost predicate StandsFor(d: Def, typ: string) {
    match d.typ
    case OneType(name) => name == typ
    case NoType => typ == if d.properties.Some? then "object" else "string"
    case TypeList(names) =>
      if exists i :: 0 <= i < |names| && names[i] != "null" then
        exists i :: 0 <= i < |names| && names[i] == typ && typ != "null" && forall j :: 0 <= j < i ==> names[j] == "null"
      else
        typ == if d.properties.Some? then "object" else "string"
  }

  lemma {:induction false} FirstNonNullIsFirst(names: seq<string>, i: nat)
    requires i < |names| && names[i] != "null" && forall j :: 0 <= j < i ==> names[j] == "null"
    ensures FirstNonNull(names) == Some(names[i])
    decreases i
  {
    if i > 0 { FirstNonNullIsFirst(names[1..], i - 1); }
  }

  lemma {:induction false} AllNullIsNone(names: seq<string>)
    requires forall i :: 0 <= i < |names| ==> names[i] == "null"
    ensures FirstNonNull(names).None?
  {
    if names != [] { AllNullIsNone(names[1..]); }
  }

  lemma StandsForOne(d: Def, typ: string)
    requires StandsFor(d, typ)
    ensures match NormalizeType(d.typ) case Some(t) => t == typ case None => typ == if d.properties.Some? then "object" else "string"
  {
    if d.typ.TypeList? {
      var names := d.typ.names;
      if exists i :: 0 <= i < |names| && names[i] != "null" {
        var i :| 0 <= i < |names| && names[i] == typ && typ != "null" && forall j :: 0 <= j < i ==> names[j] == "null";
        FirstNonNullIsFirst(names, i);
      } else {
        AllNullIsNone(names);
      }
    }
  }

  /** A list of types converts as its first type that is not null; with none, as an object if there are properties and else as a string. */
  lemma TypesConvertAsOne(g: Graph, rank: map<Id, nat>, a: Id, b: Id, typ: string, seen: set<Id>, allow: bool)
    requires ClosedGraph(g) && ItemsRanked(g, rank) && a in g && b in g && Plain(g[a])
    requires StandsFor(g[a], typ) && g[b] == g[a].(typ := OneType(typ))
    ensures Build(g, rank, a, seen, allow) == Build(g, rank, b, seen, allow)
  {
    StandsForOne(g[a], typ);
    StandsForOne(g[b], typ);
    assert PropertiesOf(g, g[a]) == PropertiesOf(g, g[b]);
    SameKindBuildsAlike(g, rank, a, b, seen, allow);
  }

  lemma SecondIsMerged(g: Graph, d: Def, picked: Id, second: Id)
    requires ClosedGraph(g) && Closed(g, d) && picked in g && Closed(g, Merge(g[picked], d)) && Chooses(g, g[picked], second)
    ensures second in g && PropertiesOf(g, Merge(g[picked], d)).Ok?
    ensures PropertiesOf(g, Merge(g[picked], d)).value ==
            var all := OrElse(Merge(g[picked], d).properties, g[second].properties); if all.Some? then all.value else []
  {
    ghost var m := Merge(g[picked], d);
    assert forall ids :: ChoosesFrom(g[picked], ids) ==> ChoosesFrom(m, ids);
    assert Chooses(g, m, second) by {
      hide ChoosesFrom, Merge, Represents;
    }
    ChosenIsMerged(g, m, second);
  }

  /**
   The representative has variants of its own: an object takes its properties from the definition, else
   from the representative, else from the representative's representative, and its description only
   from the first two.
   */
  lemma NestedVariantsConvert(g: Graph, rank: map<Id, nat>, id: Id, picked: Id, second: Id, m: Def, flat: Id, seen: set<Id>, allow: bool)
    requires ClosedGraph(g) && ItemsRanked(g, rank) && id in g && flat in g && picked in g && second in g
    requires Chooses(g, g[id], picked) && Chooses(g, g[picked], second)
    requires forall key :: Get(m, key) == GetMerged(g[picked], g[id], key)
    requires StandsFor(m, "object") && !g[id].hasRef
    requires Plain(g[flat]) && !g[flat].hasRef && g[flat].typ == OneType("object") && g[flat].description == m.description
    requires g[flat].properties == if m.properties.Some? then m.properties else g[second].properties
    ensures Build(g, rank, id, seen, allow) == Build(g, rank, flat, seen, allow)
  {
    MergeIsUnion(g[picked], g[id]);
    SameEntriesSameDef(m, Merge(g[picked], g[id]));
    ChosenIsMerged(g, g[id], picked);
    SecondIsMerged(g, g[id], picked, second);
    StandsForOne(m, "object");
    assert PropertiesOf(g, m) == PropertiesOf(g, g[flat]);
    SameKindBuildsAlike(g, rank, id, flat, seen, allow);
  }

  // --- one type -----------------------------------------------------------

  /** The four simple types convert to themselves with their description, whatever else the definition holds. */
  lemma SimpleConverts(g: Graph, rank: map<Id, nat>, id: Id, seen: set<Id>, allow: bool)
    requires ClosedGraph(g) && ItemsRanked(g, rank) && id in g && Plain(g[id]) && !g[id].hasRef
    requires g[id].typ.OneType? && g[id].typ.name in {"string", "number", "integer", "boolean"}
    ensures Build(g, rank, id, seen, allow) == Built(Ok(Simple(g[id].typ.name, g[id].description)), seen)
  {
  }

  /** An object is its description and its properties, absent ones read as none. */
  lemma ObjectConverts(g: Graph, rank: map<Id, nat>, id: Id, seen: set<Id>, allow: bool)
    requires ClosedGraph(g) && ItemsRanked(g, rank) && id in g && Plain(g[id]) && !g[id].hasRef && g[id].typ == OneType("object")
    ensures var c := Convert(g, rank, if g[id].properties.Some? then g[id].properties.value else [], seen, allow);
      var b := Build(g, rank, id, seen, allow);
      && b.seen == c.seen
      && (c.fields.ValueError? ==> b.schema.ValueError?)
      && (c.fields.Ok? ==>
            && b.schema.Ok? && b.schema.value.Object? && b.schema.value.fields == c.fields.value
            && b.schema.value.description == if g[id].description.Some? then g[id].description.value else "")
  {
    hide Convert;
  }

  /** An array is its description and its converted items, absent ones read as a string. */
  lemma ArrayConverts(g: Graph, rank: map<Id, nat>, id: Id, seen: set<Id>, allow: bool)
    requires ClosedGraph(g) && ItemsRanked(g, rank) && id in g && Plain(g[id]) && !g[id].hasRef && g[id].typ == OneType("array")
    ensures var inner := if g[id].items.Some? then Build(g, rank, g[id].items.value, seen, allow) else Built(Ok(Simple("string", None)), seen);
      var b := Build(g, rank, id, seen, allow);
      && b.seen == inner.seen
      && (inner.schema.ValueError? ==> b.schema.ValueError?)
      && (inner.schema.Ok? ==>
            && b.schema.Ok? && b.schema.value.Array? && b.schema.value.items == inner.schema.value
            && b.schema.value.description == if g[id].description.Some? then g[id].description.value else "")
  {
  }

  /** A reference left in place and every other type are refused, and nothing is met. */
  lemma OtherIsRefused(g: Graph, rank: map<Id, nat>, id: Id, seen: set<Id>, allow: bool)
    requires ClosedGraph(g) && ItemsRanked(g, rank) && id in g
    requires g[id].hasRef || (Plain(g[id]) && g[id].typ.OneType?
               && g[id].typ.name !in {"string", "number", "integer", "boolean", "object", "array"})
    ensures Build(g, rank, id, seen, allow) == Built(ValueError, seen)
  {
  }
}
