/**
 The JSON-schema converter over a finite graph of dicts, cyclic and shared as dereferencing leaves it:
 an `Id` is a dict's identity. Conversion terminates when every cycle passes through a property, and
 keeps all property names wherever it does not truncate.
 */
module SchemaConverter {
  import opened Wrappers

  type Id = nat

  /** The `type` key: absent, a string, or a list. */
  datatype TypeField = NoType | OneType(name: string) | TypeList(names: seq<string>)

  /** The `anyOf` or `oneOf` key. */
  datatype Variants = NoKey | NotAList | Listed(ids: seq<Id>)

  datatype Property = Property(name: string, id: Id)

  /** A schema dict. */
  datatype Def = Def(
    hasRef: bool,
    anyOf: Variants,
    oneOf: Variants,
    typ: TypeField,
    description: Option<string>,
    properties: Option<seq<Property>>,
    items: Option<Id>)

  type Graph = map<Id, Def>

  datatype Field = Field(name: string, schema: Schema)

  /** `ConfigurableSchemaSimpleType`, `ConfigurableSchemaObject` and `ConfigurableSchemaArray`. */
  datatype Schema =
    | Simple(typ: string, about: Option<string>)
    | Object(fields: seq<Field>, description: string)
    | Array(items: Schema, description: string)

  datatype Result<T> = Ok(value: T) | ValueError

  // --- one definition -----------------------------------------------------

  /** `_normalize_type`: the first type that is not `null`. */
  function NormalizeType(t: TypeField): Option<string> {
    match t
    case NoType => None
    case OneType(name) => Some(name)
    case TypeList(names) => FirstNonNull(names)
  }

  function FirstNonNull(names: seq<string>): Option<string> {
    if names == [] then None else if names[0] != "null" then Some(names[0]) else FirstNonNull(names[1..])
  }

  predicate TypedNonNull(d: Def) {
    match d.typ
    case NoType => false
    case OneType(name) => name != "null" && name != ""
    case TypeList(names) => names != []
  }

  /** `_pick_variant_from_anyof`: the first variant with a type other than null, else the first one. */
  function PickVariant(g: Graph, ids: seq<Id>): (id: Id)
    requires ids != [] && forall i :: 0 <= i < |ids| ==> ids[i] in g
    ensures id in ids
    ensures if exists i :: 0 <= i < |ids| && TypedNonNull(g[ids[i]]) then
              exists i :: 0 <= i < |ids| && ids[i] == id && TypedNonNull(g[id]) && forall j :: 0 <= j < i ==> !TypedNonNull(g[ids[j]])
            else id == ids[0]
  {
    var typed := FirstTyped(g, ids);
    if typed.Some? then typed.value else ids[0]
  }

  function FirstTyped(g: Graph, ids: seq<Id>): (r: Option<Id>)
    requires forall i :: 0 <= i < |ids| ==> ids[i] in g
    ensures r.Some? ==> exists i :: (0 <= i < |ids| && ids[i] == r.value && TypedNonNull(g[r.value])
              && forall j :: 0 <= j < i ==> !TypedNonNull(g[ids[j]]))
    ensures r.None? ==> forall i :: 0 <= i < |ids| ==> !TypedNonNull(g[ids[i]])
  {
    if ids == [] then None
    else if TypedNonNull(g[ids[0]]) then Some(ids[0])
    else
      var r := FirstTyped(g, ids[1..]);
      assert r.Some? ==> exists i :: (0 < i < |ids| && ids[i] == r.value && TypedNonNull(g[r.value])
        && forall j :: 0 <= j < i ==> !TypedNonNull(g[ids[j]])) by {
        if r.Some? {
          var i :| 0 <= i < |ids[1..]| && ids[1..][i] == r.value && forall j :: 0 <= j < i ==> !TypedNonNull(g[ids[1..][j]]);
          assert ids[i + 1] == r.value && forall j :: 0 < j < i + 1 ==> ids[j] == ids[1..][j - 1];
        }
      }
      r
  }

  function OrElse<T>(a: Option<T>, b: Option<T>): Option<T> { if a.Some? then a else b }

  /** `{**picked, **rest}` with `rest` the definition without its own `anyOf` and `oneOf`. */
  function Merge(picked: Def, d: Def): Def {
    Def(picked.hasRef || d.hasRef, picked.anyOf, picked.oneOf,
        if d.typ.NoType? then picked.typ else d.typ,
        OrElse(d.description, picked.description),
        OrElse(d.properties, picked.properties),
        OrElse(d.items, picked.items))
  }

  /** `def_dict.get("anyOf") or def_dict.get("oneOf")`: an empty list is falsy. */
  function VariantsOf(d: Def): Variants {
    if d.anyOf == NotAList || (d.anyOf.Listed? && d.anyOf.ids != []) then d.anyOf else d.oneOf
  }

  predicate VariantsIn(g: Graph, v: Variants) {
    v.Listed? ==> forall i :: 0 <= i < |v.ids| ==> v.ids[i] in g
  }

  /** Every dict this one refers to is in the graph. */
  predicate Closed(g: Graph, d: Def) {
    && VariantsIn(g, d.anyOf) && VariantsIn(g, d.oneOf)
    && (d.properties.Some? ==> forall i :: 0 <= i < |d.properties.value| ==> d.properties.value[i].id in g)
    && (d.items.Some? ==> d.items.value in g)
  }

  predicate ClosedGraph(g: Graph) {
    forall id :: id in g ==> Closed(g, g[id])
  }

  /** The definition with a representative variant merged in. */
  function Effective(g: Graph, d: Def): (r: Result<Def>)
    requires ClosedGraph(g) && Closed(g, d)
    ensures r.Ok? ==> Closed(g, r.value)
  {
    if d.anyOf.NoKey? && d.oneOf.NoKey? then Ok(d)
    else
      var v := VariantsOf(d);
      if !v.Listed? || v.ids == [] then ValueError else Ok(Merge(g[PickVariant(g, v.ids)], d))
  }

  /** What a definition is once its variant and its type are settled. */
  datatype Kind =
    | SimpleKind(typ: string, about: Option<string>)
    | ObjectKind(properties: seq<Property>, description: string)
    | ArrayKind(items: Option<Id>, description: string)

  function Text(description: Option<string>): string {
    if description.Some? then description.value else ""
  }

  /** The properties `_convert_properties` walks: it merges a variant once more. */
  function PropertiesOf(g: Graph, d: Def): (r: Result<seq<Property>>)
    requires ClosedGraph(g) && Closed(g, d)
    ensures r.Ok? ==> forall i :: 0 <= i < |r.value| ==> r.value[i].id in g
  {
    match Effective(g, d)
    case ValueError => ValueError
    case Ok(e) => Ok(if e.properties.Some? then e.properties.value else [])
  }

  function KindOf(g: Graph, id: Id): (r: Result<Kind>)
    requires ClosedGraph(g) && id in g
    ensures r.Ok? && r.value.ObjectKind? ==> forall i :: 0 <= i < |r.value.properties| ==> r.value.properties[i].id in g
    ensures r.Ok? && r.value.ArrayKind? && r.value.items.Some? ==> r.value.items.value in g
  {
    if g[id].hasRef then ValueError
    else
      match Effective(g, g[id])
      case ValueError => ValueError
      case Ok(d) =>
        var typ := match NormalizeType(d.typ)
          case Some(t) => t
          case None => if d.properties.Some? then "object" else "string";
        if typ in ["string", "number", "integer", "boolean"] then Ok(SimpleKind(typ, d.description))
        else if typ == "object" then
          match PropertiesOf(g, d)
          case ValueError => ValueError
          case Ok(ps) => Ok(ObjectKind(ps, Text(d.description)))
        else if typ == "array" then Ok(ArrayKind(d.items, Text(d.description)))
        else ValueError
  }

  /** The dict the `items` edge of an array leads to. */
  function ItemsOf(g: Graph, id: Id): (r: Option<Id>)
    requires ClosedGraph(g) && id in g
    ensures r.Some? ==> r.value in g
  {
    var k := KindOf(g, id);
    if k.Ok? && k.value.ArrayKind? then k.value.items else None
  }

  // --- conversion ---------------------------------------------------------

  /** `rank` falls along every `items` edge: no cycle consists of `items` edges only. */
  ghost predicate ItemsRanked(g: Graph, rank: map<Id, nat>)
    requires ClosedGraph(g)
  {
    forall id :: id in g ==> id in rank && (ItemsOf(g, id).Some? ==> ItemsOf(g, id).value in rank && rank[ItemsOf(g, id).value] < rank[id])
  }

  datatype Built = Built(schema: Result<Schema>, seen: set<Id>)

  datatype Converted = Converted(fields: Result<seq<Field>>, seen: set<Id>)

  /** An opaque object in place of a property met again inside its own expansion. */
  function TruncatedObject(g: Graph, id: Id): Schema
    requires id in g
  {
    Object([], Text(g[id].description))
  }

  function Build(g: Graph, ghost rank: map<Id, nat>, id: Id, seen: set<Id>, allow: bool): (r: Built)
    requires ClosedGraph(g) && ItemsRanked(g, rank) && id in g
    ensures seen <= r.seen
    decreases if allow then 1 else 0, g.Keys - seen, rank[id] + 1, 0
  {
    match KindOf(g, id)
    case ValueError => Built(ValueError, seen)
    case Ok(SimpleKind(typ, about)) => Built(Ok(Simple(typ, about)), seen)
    case Ok(ObjectKind(properties, description)) =>
      var c := Convert(g, rank, properties, seen, allow);
      Built(if c.fields.Ok? then Ok(Object(c.fields.value, description)) else ValueError, c.seen)
    case Ok(ArrayKind(items, description)) =>
      if items.None? then Built(Ok(Array(Simple("string", None), description)), seen)
      else
        var b := Build(g, rank, items.value, seen, allow);
        Built(if b.schema.Ok? then Ok(Array(b.schema.value, description)) else ValueError, b.seen)
  }

  /** One property: met again it is expanded once more on its own, and inside that expansion truncated. */
  function ConvertOne(g: Graph, ghost rank: map<Id, nat>, id: Id, seen: set<Id>, allow: bool): (r: Built)
    requires ClosedGraph(g) && ItemsRanked(g, rank) && id in g
    ensures seen <= r.seen
    decreases if allow then 1 else 0, g.Keys - seen, 0, 0
  {
    if id in seen then
      if allow then Built(Build(g, rank, id, {id}, false).schema, seen)
      else Built(Ok(TruncatedObject(g, id)), seen)
    else
      assert g.Keys - (seen + {id}) < g.Keys - seen by { assert id in g.Keys - seen; }
      Build(g, rank, id, seen + {id}, allow)
  }

  function Convert(g: Graph, ghost rank: map<Id, nat>, properties: seq<Property>, seen: set<Id>, allow: bool): (r: Converted)
    requires ClosedGraph(g) && ItemsRanked(g, rank)
    requires forall i :: 0 <= i < |properties| ==> properties[i].id in g
    ensures seen <= r.seen
    decreases if allow then 1 else 0, g.Keys - seen, 0, |properties| + 1
  {
    if properties == [] then Converted(Ok([]), seen)
    else
      var first := ConvertOne(g, rank, properties[0].id, seen, allow);
      if first.schema.ValueError? then Converted(ValueError, first.seen)
      else
        assert g.Keys - first.seen <= g.Keys - seen;
        var rest := Convert(g, rank, properties[1..], first.seen, allow);
        Converted(if rest.fields.Ok? then Ok([Field(properties[0].name, first.schema.value)] + rest.fields.value) else ValueError, rest.seen)
  }

  // --- the code, with the set it shares between calls ---------------------

  class SeenSet {
    var ids: set<Id>

    constructor (ids: set<Id>)
      ensures this.ids == ids
    {
      this.ids := ids;
    }
  }

  method BuildSchemaFromDefinition(g: Graph, ghost rank: map<Id, nat>, id: Id, seen: SeenSet, allow: bool) returns (schema: Result<Schema>)
    requires ClosedGraph(g) && ItemsRanked(g, rank) && id in g
    modifies seen
    ensures Built(schema, seen.ids) == Build(g, rank, id, old(seen.ids), allow)
    decreases if allow then 1 else 0, g.Keys - seen.ids, rank[id] + 1, 0
  {
    var kind := KindOf(g, id);
    if kind.ValueError? { return ValueError; }
    match kind.value {
      case SimpleKind(typ, about) => schema := Ok(Simple(typ, about));
      case ObjectKind(properties, description) =>
        var fields := ConvertProperties(g, rank, properties, seen, allow);
        schema := if fields.Ok? then Ok(Object(fields.value, description)) else ValueError;
      case ArrayKind(items, description) =>
        if items.None? {
          schema := Ok(Array(Simple("string", None), description));
        } else {
          var inner := BuildSchemaFromDefinition(g, rank, items.value, seen, allow);
          schema := if inner.Ok? then Ok(Array(inner.value, description)) else ValueError;
        }
    }
  }

  method ConvertProperties(g: Graph, ghost rank: map<Id, nat>, properties: seq<Property>, seen: SeenSet, allow: bool)
    returns (fields: Result<seq<Field>>)
    requires ClosedGraph(g) && ItemsRanked(g, rank)
    requires forall i :: 0 <= i < |properties| ==> properties[i].id in g
    modifies seen
    ensures Converted(fields, seen.ids) == Convert(g, rank, properties, old(seen.ids), allow)
    decreases if allow then 1 else 0, g.Keys - seen.ids, 0, |properties| + 1
  {
    var out: seq<Field> := [];
    var i := 0;
    ghost var start := seen.ids;
    hide Convert, ConvertOne, Prepend;
    PrependNothing(Convert(g, rank, properties, start, allow));
    assert properties[0..] == properties;
    while i < |properties|
      invariant 0 <= i <= |properties| && start <= seen.ids
      invariant Convert(g, rank, properties, start, allow) ==
                Prepend(out, Convert(g, rank, properties[i..], seen.ids, allow))
    {
      var p := properties[i];
      ghost var before := seen.ids;
      assert g.Keys - before <= g.Keys - start;
      var schema := ConvertProperty(g, rank, p.id, seen, allow);
      ConvertStep(g, rank, properties[i..], before, allow, out);
      assert properties[i..][1..] == properties[i + 1..];
      if schema.ValueError? { return ValueError; }
      out := out + [Field(p.name, schema.value)];
      i := i + 1;
    }
    assert properties[i..] == [];
    ConvertNothing(g, rank, seen.ids, allow, out);
    fields := Ok(out);
  }

  method ConvertProperty(g: Graph, ghost rank: map<Id, nat>, id: Id, seen: SeenSet, allow: bool) returns (schema: Result<Schema>)
    requires ClosedGraph(g) && ItemsRanked(g, rank) && id in g
    modifies seen
    ensures Built(schema, seen.ids) == ConvertOne(g, rank, id, old(seen.ids), allow)
    decreases if allow then 1 else 0, g.Keys - seen.ids, 0, 0
  {
    if id in seen.ids {
      if allow {
        var circularSeen := new SeenSet({id});
        schema := BuildSchemaFromDefinition(g, rank, id, circularSeen, false);
      } else {
        schema := Ok(TruncatedObject(g, id));
      }
    } else {
      assert g.Keys - (seen.ids + {id}) < g.Keys - seen.ids by { assert id in g.Keys - seen.ids; }
      seen.ids := seen.ids + {id};
      schema := BuildSchemaFromDefinition(g, rank, id, seen, allow);
    }
  }

  lemma ConvertStep(g: Graph, rank: map<Id, nat>, properties: seq<Property>, seen: set<Id>, allow: bool, out: seq<Field>)
    requires ClosedGraph(g) && ItemsRanked(g, rank) && properties != []
    requires forall i :: 0 <= i < |properties| ==> properties[i].id in g
    ensures var first := ConvertOne(g, rank, properties[0].id, seen, allow);
      var all := Convert(g, rank, properties, seen, allow);
      if first.schema.ValueError? then Prepend(out, all) == Converted(ValueError, first.seen)
      else Prepend(out, all) ==
           Prepend(out + [Field(properties[0].name, first.schema.value)], Convert(g, rank, properties[1..], first.seen, allow))
  {
    var first := ConvertOne(g, rank, properties[0].id, seen, allow);
    if first.schema.Ok? {
      var rest := Convert(g, rank, properties[1..], first.seen, allow);
      var field := Field(properties[0].name, first.schema.value);
      hide ConvertOne;
      if rest.fields.Ok? {
        assert out + ([field] + rest.fields.value) == out + [field] + rest.fields.value;
      }
    }
  }

  lemma ConvertNothing(g: Graph, rank: map<Id, nat>, seen: set<Id>, allow: bool, out: seq<Field>)
    requires ClosedGraph(g) && ItemsRanked(g, rank)
    ensures Prepend(out, Convert(g, rank, [], seen, allow)) == Converted(Ok(out), seen)
  {
    assert out + [] == out;
  }

  function Prepend(fields: seq<Field>, c: Converted): Converted {
    if c.fields.Ok? then Converted(Ok(fields + c.fields.value), c.seen) else c
  }

  lemma PrependNothing(c: Converted)
    ensures Prepend([], c) == c
  {
    if c.fields.Ok? { assert [] + c.fields.value == c.fields.value; }
  }

  /** `convert_schema_to_properties` behind the dereferencing: a fresh set, one expansion allowed. */
  method ConvertSchemaToProperties(g: Graph, ghost rank: map<Id, nat>, root: Def) returns (fields: Result<seq<Field>>)
    requires ClosedGraph(g) && ItemsRanked(g, rank) && Closed(g, root)
    ensures fields == ConvertRoot(g, rank, root)
  {
    var properties := PropertiesOf(g, root);
    if properties.ValueError? { return ValueError; }
    var seen := new SeenSet({});
    fields := ConvertProperties(g, rank, properties.value, seen, true);
  }

  function ConvertRoot(g: Graph, ghost rank: map<Id, nat>, root: Def): Result<seq<Field>>
    requires ClosedGraph(g) && ItemsRanked(g, rank) && Closed(g, root)
  {
    match PropertiesOf(g, root)
    case ValueError => ValueError
    case Ok(properties) => Convert(g, rank, properties, {}, true).fields
  }

  // --- what the result looks like -----------------------------------------

  /**
   `s` shows the dict `id`: its kind, its description, and all its property names in order. `met` are the
   property dicts met before on this expansion.
   */
  ghost predicate Shows(g: Graph, s: Schema, id: Id, met: set<Id>, allow: bool)
    requires ClosedGraph(g) && id in g
    decreases s, 1
  {
    KindOf(g, id).Ok? &&
    match KindOf(g, id).value
    case SimpleKind(typ, about) => s == Simple(typ, about)
    case ObjectKind(properties, description) =>
      s.Object? && s.description == description && FieldsShow(g, s.fields, properties, met, allow)
    case ArrayKind(items, description) =>
      && s.Array? && s.description == description
      && if items.None? then s.items == Simple("string", None) else Shows(g, s.items, items.value, met, allow)
  }

  /**
   A property not met before shows in full. One met before is expanded once more on its own while that is
   allowed; it is the opaque object exactly when it was met before and no expansion is left.
   */
  ghost predicate FieldShows(g: Graph, s: Schema, id: Id, met: set<Id>, allow: bool)
    requires ClosedGraph(g) && id in g
    decreases s, 2
  {
    if id !in met then Shows(g, s, id, met + {id}, allow)
    else if allow then Shows(g, s, id, {id}, false)
    else s == TruncatedObject(g, id)
  }

  ghost predicate FieldsShow(g: Graph, fields: seq<Field>, properties: seq<Property>, met: set<Id>, allow: bool)
    requires ClosedGraph(g)
    requires forall i :: 0 <= i < |properties| ==> properties[i].id in g
    decreases fields, 0
  {
    if fields == [] then properties == []
    else
      && properties != [] && fields[0].name == properties[0].name
      && FieldShows(g, fields[0].schema, properties[0].id, met, allow)
      && FieldsShow(g, fields[1..], properties[1..], MetAfter(g, fields[0].schema, properties[0].id, met, allow), allow)
  }

  /** The property dicts met once this property is shown; an expansion on its own keeps its own account. */
  ghost function MetAfter(g: Graph, s: Schema, id: Id, met: set<Id>, allow: bool): set<Id>
    requires ClosedGraph(g) && id in g
    decreases s, 2
  {
    if id in met then met else MetWithin(g, s, id, met + {id}, allow)
  }

  ghost function MetWithin(g: Graph, s: Schema, id: Id, met: set<Id>, allow: bool): set<Id>
    requires ClosedGraph(g) && id in g
    decreases s, 1
  {
    var k := KindOf(g, id);
    if k.Ok? && k.value.ObjectKind? && s.Object? then MetInFields(g, s.fields, k.value.properties, met, allow)
    else if k.Ok? && k.value.ArrayKind? && k.value.items.Some? && s.Array? then
      MetWithin(g, s.items, k.value.items.value, met, allow)
    else met
  }

  ghost function MetInFields(g: Graph, fields: seq<Field>, properties: seq<Property>, met: set<Id>, allow: bool): set<Id>
    requires ClosedGraph(g)
    requires forall i :: 0 <= i < |properties| ==> properties[i].id in g
    decreases fields, 0
  {
    if fields == [] || properties == [] then met
    else
      MetInFields(g, fields[1..], properties[1..], MetAfter(g, fields[0].schema, properties[0].id, met, allow), allow)
  }

  lemma {:induction false} BuildShows(g: Graph, rank: map<Id, nat>, id: Id, seen: set<Id>, allow: bool)
    requires ClosedGraph(g) && ItemsRanked(g, rank) && id in g
    requires Build(g, rank, id, seen, allow).schema.Ok?
    ensures var b := Build(g, rank, id, seen, allow);
      Shows(g, b.schema.value, id, seen, allow) && b.seen == MetWithin(g, b.schema.value, id, seen, allow)
    decreases if allow then 1 else 0, g.Keys - seen, rank[id] + 1, 0
  {
    match KindOf(g, id).value {
      case SimpleKind(_, _) =>
      case ObjectKind(properties, description) =>
        ConvertShows(g, rank, properties, seen, allow);
      case ArrayKind(items, description) =>
        if items.Some? { BuildShows(g, rank, items.value, seen, allow); }
    }
  }

  lemma {:induction false} ConvertOneShows(g: Graph, rank: map<Id, nat>, id: Id, seen: set<Id>, allow: bool)
    requires ClosedGraph(g) && ItemsRanked(g, rank) && id in g
    requires ConvertOne(g, rank, id, seen, allow).schema.Ok?
    ensures var c := ConvertOne(g, rank, id, seen, allow);
      FieldShows(g, c.schema.value, id, seen, allow) && c.seen == MetAfter(g, c.schema.value, id, seen, allow)
    decreases if allow then 1 else 0, g.Keys - seen, 0, 0
  {
    if id in seen {
      if allow { BuildShows(g, rank, id, {id}, false); }
    } else {
      assert g.Keys - (seen + {id}) < g.Keys - seen by { assert id in g.Keys - seen; }
      BuildShows(g, rank, id, seen + {id}, allow);
    }
  }

  lemma {:induction false} ConvertShows(g: Graph, rank: map<Id, nat>, properties: seq<Property>, seen: set<Id>, allow: bool)
    requires ClosedGraph(g) && ItemsRanked(g, rank)
    requires forall i :: 0 <= i < |properties| ==> properties[i].id in g
    requires Convert(g, rank, properties, seen, allow).fields.Ok?
    ensures var c := Convert(g, rank, properties, seen, allow);
      FieldsShow(g, c.fields.value, properties, seen, allow) && c.seen == MetInFields(g, c.fields.value, properties, seen, allow)
    decreases if allow then 1 else 0, g.Keys - seen, 0, |properties| + 1
  {
    if properties != [] {
      ConvertOneShows(g, rank, properties[0].id, seen, allow);
      var first := ConvertOne(g, rank, properties[0].id, seen, allow);
      assert g.Keys - first.seen <= g.Keys - seen;
      ConvertShows(g, rank, properties[1..], first.seen, allow);
      FirstField(g, Field(properties[0].name, first.schema.value),
                 Convert(g, rank, properties[1..], first.seen, allow).fields.value, properties, seen, allow);
    }
  }

  lemma FirstField(g: Graph, field: Field, rest: seq<Field>, properties: seq<Property>, met: set<Id>, allow: bool)
    requires ClosedGraph(g) && properties != [] && forall i :: 0 <= i < |properties| ==> properties[i].id in g
    requires field.name == properties[0].name && FieldShows(g, field.schema, properties[0].id, met, allow)
    requires FieldsShow(g, rest, properties[1..], MetAfter(g, field.schema, properties[0].id, met, allow), allow)
    ensures FieldsShow(g, [field] + rest, properties, met, allow)
    ensures MetInFields(g, [field] + rest, properties, met, allow)
         == MetInFields(g, rest, properties[1..], MetAfter(g, field.schema, properties[0].id, met, allow), allow)
  {
    assert ([field] + rest)[1..] == rest;
  }

  /** A successful conversion keeps all property names, in order, at every level it does not truncate. */
  lemma ConversionKeepsNames(g: Graph, rank: map<Id, nat>, root: Def)
    requires ClosedGraph(g) && ItemsRanked(g, rank) && Closed(g, root)
    requires ConvertRoot(g, rank, root).Ok?
    ensures FieldsShow(g, ConvertRoot(g, rank, root).value, PropertiesOf(g, root).value, {}, true)
  {
    ConvertShows(g, rank, PropertiesOf(g, root).value, {}, true);
  }

  // --- what an opaque object stands for -----------------------------------

  datatype Edge = PropertyEdge(index: nat) | ItemsEdge

  /** Following these edges from the dict `from` leads to the dict `to`. */
  predicate Follows(g: Graph, from: Id, path: seq<Edge>, to: Id)
    requires ClosedGraph(g) && from in g
    decreases path
  {
    if path == [] then from == to
    else
      var k := KindOf(g, from);
      match path[0]
      case PropertyEdge(i) =>
        k.Ok? && k.value.ObjectKind? && i < |k.value.properties| && Follows(g, k.value.properties[i].id, path[1..], to)
      case ItemsEdge => ItemsOf(g, from).Some? && Follows(g, ItemsOf(g, from).value, path[1..], to)
  }

  /** Following these edges from an object with these properties leads to the dict `to`. */
  predicate Reaches(g: Graph, top: seq<Property>, path: seq<Edge>, to: Id)
    requires ClosedGraph(g) && forall i :: 0 <= i < |top| ==> top[i].id in g
  {
    && path != [] && path[0].PropertyEdge? && path[0].index < |top|
    && Follows(g, top[path[0].index].id, path[1..], to)
  }

  /** The path ends in a property. */
  predicate ReachesProperty(g: Graph, top: seq<Property>, path: seq<Edge>, to: Id)
    requires ClosedGraph(g) && forall i :: 0 <= i < |top| ==> top[i].id in g
  {
    Reaches(g, top, path, to) && path[|path| - 1].PropertyEdge?
  }

  /** The property dict is reached on a path that does not lead through this place. */
  ghost predicate ReachedElsewhere(g: Graph, top: seq<Property>, id: Id, place: seq<Edge>)
    requires ClosedGraph(g) && forall i :: 0 <= i < |top| ==> top[i].id in g
  {
    exists path :: ReachesProperty(g, top, path, id) && !(place <= path)
  }

  /** No property dict is reached on two paths. */
  ghost predicate Unshared(g: Graph, top: seq<Property>)
    requires ClosedGraph(g) && forall i :: 0 <= i < |top| ==> top[i].id in g
  {
    forall p, q, id :: ReachesProperty(g, top, p, id) && ReachesProperty(g, top, q, id) ==> p == q
  }

  /** `s` at `place` shows `id` in full, except for properties reached elsewhere too. */
  ghost predicate ShowsAt(g: Graph, top: seq<Property>, s: Schema, id: Id, place: seq<Edge>)
    requires ClosedGraph(g) && id in g && forall i :: 0 <= i < |top| ==> top[i].id in g
    decreases s, 1
  {
    KindOf(g, id).Ok? &&
    match KindOf(g, id).value
    case SimpleKind(typ, about) => s == Simple(typ, about)
    case ObjectKind(properties, description) =>
      && s.Object? && s.description == description && |s.fields| == |properties|
      && forall i :: 0 <= i < |s.fields| ==>
           && s.fields[i].name == properties[i].name
           && FieldShowsAt(g, top, s.fields[i].schema, properties[i].id, place + [PropertyEdge(i)])
    case ArrayKind(items, description) =>
      && s.Array? && s.description == description
      && if items.None? then s.items == Simple("string", None)
         else ShowsAt(g, top, s.items, items.value, place + [ItemsEdge])
  }

  ghost predicate FieldShowsAt(g: Graph, top: seq<Property>, s: Schema, id: Id, place: seq<Edge>)
    requires ClosedGraph(g) && id in g && forall i :: 0 <= i < |top| ==> top[i].id in g
    decreases s, 2
  {
    ShowsAt(g, top, s, id, place) || (s == TruncatedObject(g, id) && ReachedElsewhere(g, top, id, place))
  }

  ghost predicate FieldsShowAt(g: Graph, top: seq<Property>, fields: seq<Field>, properties: seq<Property>,
                               place: seq<Edge>, from: nat)
    requires ClosedGraph(g) && forall i :: 0 <= i < |top| ==> top[i].id in g
    requires forall i :: 0 <= i < |properties| ==> properties[i].id in g
  {
    && from + |fields| == |properties|
    && forall i :: from <= i < |properties| ==>
         && fields[i - from].name == properties[i].name
         && FieldShowsAt(g, top, fields[i - from].schema, properties[i].id, place + [PropertyEdge(i)])
  }

  lemma {:induction false} FollowsSnoc(g: Graph, from: Id, path: seq<Edge>, mid: Id, edge: Edge, to: Id)
    requires ClosedGraph(g) && from in g && mid in g && Follows(g, from, path, mid) && Follows(g, mid, [edge], to)
    ensures Follows(g, from, path + [edge], to)
    decreases path
  {
    if path == [] {
      assert path + [edge] == [edge];
    } else {
      assert (path + [edge])[1..] == path[1..] + [edge];
      var next := if path[0].ItemsEdge? then ItemsOf(g, from).value
                  else KindOf(g, from).value.properties[path[0].index].id;
      FollowsSnoc(g, next, path[1..], mid, edge, to);
    }
  }

  lemma ReachesSnoc(g: Graph, top: seq<Property>, path: seq<Edge>, mid: Id, edge: Edge, to: Id)
    requires ClosedGraph(g) && mid in g && forall i :: 0 <= i < |top| ==> top[i].id in g
    requires Reaches(g, top, path, mid) && Follows(g, mid, [edge], to)
    ensures Reaches(g, top, path + [edge], to)
  {
    FollowsSnoc(g, top[path[0].index].id, path[1..], mid, edge, to);
    assert (path + [edge])[1..] == path[1..] + [edge];
  }

  /** The path does not lead to the properties of `place` from number `from` on, nor to its items. */
  predicate Earlier(path: seq<Edge>, place: seq<Edge>, from: nat) {
    |path| > |place| && path[..|place|] == place ==> path[|place|].PropertyEdge? && path[|place|].index < from
  }

  ghost predicate SeenEarlier(g: Graph, top: seq<Property>, seen: set<Id>, place: seq<Edge>, from: nat)
    requires ClosedGraph(g) && forall i :: 0 <= i < |top| ==> top[i].id in g
  {
    forall x :: x in seen ==> exists path :: ReachesProperty(g, top, path, x) && Earlier(path, place, from)
  }

  /** What was newly met lies strictly below `place`. */
  ghost predicate MetBelow(g: Graph, top: seq<Property>, before: set<Id>, after: set<Id>, place: seq<Edge>)
    requires ClosedGraph(g) && forall i :: 0 <= i < |top| ==> top[i].id in g
  {
    forall x :: x in after && x !in before ==> exists path :: ReachesProperty(g, top, path, x) && place < path
  }

  ghost predicate KidsAt(g: Graph, top: seq<Property>, place: seq<Edge>, properties: seq<Property>)
    requires ClosedGraph(g) && forall i :: 0 <= i < |top| ==> top[i].id in g
  {
    forall i :: 0 <= i < |properties| ==> properties[i].id in g && Reaches(g, top, place + [PropertyEdge(i)], properties[i].id)
  }

  lemma {:induction false} BuildAt(g: Graph, rank: map<Id, nat>, top: seq<Property>, place: seq<Edge>,
                                   id: Id, seen: set<Id>, allow: bool)
    requires ClosedGraph(g) && ItemsRanked(g, rank) && id in g && forall i :: 0 <= i < |top| ==> top[i].id in g
    requires Reaches(g, top, place, id) && SeenEarlier(g, top, seen, place, 0)
    requires Build(g, rank, id, seen, allow).schema.Ok?
    ensures var b := Build(g, rank, id, seen, allow);
      ShowsAt(g, top, b.schema.value, id, place) && MetBelow(g, top, seen, b.seen, place)
    decreases if allow then 1 else 0, g.Keys - seen, rank[id] + 1, 0
  {
    match KindOf(g, id).value {
      case SimpleKind(_, _) =>
      case ObjectKind(properties, description) =>
        KidsOfDict(g, top, place, id, properties);
        ConvertAt(g, rank, top, place, properties, 0, seen, allow);
        assert properties[0..] == properties;
      case ArrayKind(items, description) =>
        if items.Some? {
          var below := place + [ItemsEdge];
          assert Follows(g, items.value, [], items.value) && [ItemsEdge][1..] == [];
          ReachesSnoc(g, top, place, id, ItemsEdge, items.value);
          EarlierThanItems(g, top, seen, place);
          BuildAt(g, rank, top, below, items.value, seen, allow);
          BelowItems(g, top, seen, Build(g, rank, items.value, seen, allow).seen, place);
        }
    }
  }

  lemma KidsOfDict(g: Graph, top: seq<Property>, place: seq<Edge>, id: Id, properties: seq<Property>)
    requires ClosedGraph(g) && id in g && forall i :: 0 <= i < |top| ==> top[i].id in g
    requires Reaches(g, top, place, id) && KindOf(g, id).Ok? && KindOf(g, id).value.ObjectKind?
    requires KindOf(g, id).value.properties == properties
    ensures KidsAt(g, top, place, properties)
  {
    forall i | 0 <= i < |properties| ensures Reaches(g, top, place + [PropertyEdge(i)], properties[i].id) {
      assert Follows(g, properties[i].id, [], properties[i].id) && [PropertyEdge(i)][1..] == [];
      ReachesSnoc(g, top, place, id, PropertyEdge(i), properties[i].id);
    }
  }

  lemma EarlierThanItems(g: Graph, top: seq<Property>, seen: set<Id>, place: seq<Edge>)
    requires ClosedGraph(g) && forall i :: 0 <= i < |top| ==> top[i].id in g
    requires SeenEarlier(g, top, seen, place, 0)
    ensures SeenEarlier(g, top, seen, place + [ItemsEdge], 0)
  {
    forall x | x in seen
      ensures exists path :: ReachesProperty(g, top, path, x) && Earlier(path, place + [ItemsEdge], 0)
    {
      var path :| ReachesProperty(g, top, path, x) && Earlier(path, place, 0);
      NotThrough(path, place, ItemsEdge, 0);
    }
  }

  lemma BelowItems(g: Graph, top: seq<Property>, before: set<Id>, after: set<Id>, place: seq<Edge>)
    requires ClosedGraph(g) && forall i :: 0 <= i < |top| ==> top[i].id in g
    requires MetBelow(g, top, before, after, place + [ItemsEdge])
    ensures MetBelow(g, top, before, after, place)
  {
    forall x | x in after && x !in before ensures exists path :: ReachesProperty(g, top, path, x) && place < path {
      var path :| ReachesProperty(g, top, path, x) && place + [ItemsEdge] < path;
      assert place < path;
    }
  }

  /** An earlier path does not lead through a place that comes later. */
  lemma NotThrough(path: seq<Edge>, place: seq<Edge>, edge: Edge, from: nat)
    requires Earlier(path, place, from) && (edge.PropertyEdge? ==> edge.index >= from)
    ensures !(place + [edge] <= path) && Earlier(path, place + [edge], 0)
  {
    if place + [edge] <= path { ThroughPlace(path, place, edge); }
  }

  lemma ThroughPlace(path: seq<Edge>, place: seq<Edge>, edge: Edge)
    requires place + [edge] <= path
    ensures |path| > |place| && path[..|place|] == place && path[|place|] == edge
  {
    var here := place + [edge];
    assert path[..|place|] == here[..|place|] && path[|place|] == here[|place|];
  }

  lemma {:induction false} ConvertOneAt(g: Graph, rank: map<Id, nat>, top: seq<Property>, place: seq<Edge>, i: nat,
                                        id: Id, seen: set<Id>, allow: bool)
    requires ClosedGraph(g) && ItemsRanked(g, rank) && id in g && forall i :: 0 <= i < |top| ==> top[i].id in g
    requires Reaches(g, top, place + [PropertyEdge(i)], id) && SeenEarlier(g, top, seen, place, i)
    requires ConvertOne(g, rank, id, seen, allow).schema.Ok?
    ensures var c := ConvertOne(g, rank, id, seen, allow);
      FieldShowsAt(g, top, c.schema.value, id, place + [PropertyEdge(i)]) && SeenEarlier(g, top, c.seen, place, i + 1)
      && MetBelow(g, top, seen, c.seen, place)
    decreases if allow then 1 else 0, g.Keys - seen, 0, 0
  {
    var here := place + [PropertyEdge(i)];
    assert ReachesProperty(g, top, here, id) && Earlier(here, here, 0);
    if id in seen {
      if allow {
        BuildAt(g, rank, top, here, id, {id}, false);
      } else {
        var path :| ReachesProperty(g, top, path, id) && Earlier(path, place, i);
        NotThrough(path, place, PropertyEdge(i), i);
      }
      LaterOnly(g, top, seen, seen, place, i, id);
    } else {
      assert g.Keys - (seen + {id}) < g.Keys - seen by { assert id in g.Keys - seen; }
      EarlierThanHere(g, top, seen, place, i, id);
      BuildAt(g, rank, top, here, id, seen + {id}, allow);
      LaterOnly(g, top, seen, Build(g, rank, id, seen + {id}, allow).seen, place, i, id);
    }
  }

  lemma EarlierThanHere(g: Graph, top: seq<Property>, seen: set<Id>, place: seq<Edge>, i: nat, id: Id)
    requires ClosedGraph(g) && forall i :: 0 <= i < |top| ==> top[i].id in g
    requires ReachesProperty(g, top, place + [PropertyEdge(i)], id) && SeenEarlier(g, top, seen, place, i)
    ensures SeenEarlier(g, top, seen + {id}, place + [PropertyEdge(i)], 0)
  {
    var here := place + [PropertyEdge(i)];
    forall x | x in seen + {id} ensures exists path :: ReachesProperty(g, top, path, x) && Earlier(path, here, 0) {
      if x in seen {
        var path :| ReachesProperty(g, top, path, x) && Earlier(path, place, i);
        NotThrough(path, place, PropertyEdge(i), i);
      } else {
        assert Earlier(here, here, 0);
      }
    }
  }

  /** What was met up to and below property `i` is earlier than the next property. */
  lemma LaterOnly(g: Graph, top: seq<Property>, seen: set<Id>, after: set<Id>, place: seq<Edge>, i: nat, id: Id)
    requires ClosedGraph(g) && forall i :: 0 <= i < |top| ==> top[i].id in g
    requires ReachesProperty(g, top, place + [PropertyEdge(i)], id) && SeenEarlier(g, top, seen, place, i)
    requires MetBelow(g, top, seen + {id}, after, place + [PropertyEdge(i)])
    ensures SeenEarlier(g, top, after, place, i + 1) && MetBelow(g, top, seen, after, place)
  {
    var here := place + [PropertyEdge(i)];
    forall x | x in after
      ensures exists path :: ReachesProperty(g, top, path, x) && Earlier(path, place, i + 1)
      ensures x !in seen ==> exists path :: ReachesProperty(g, top, path, x) && place < path
    {
      if x in seen {
        var path :| ReachesProperty(g, top, path, x) && Earlier(path, place, i);
        assert Earlier(path, place, i + 1);
      } else if x == id {
        assert Earlier(here, place, i + 1) && place < here;
      } else {
        var path :| ReachesProperty(g, top, path, x) && here < path;
        assert path[|place|] == here[|place|];
        assert Earlier(path, place, i + 1) && place < path;
      }
    }
  }

  lemma {:induction false} ConvertAt(g: Graph, rank: map<Id, nat>, top: seq<Property>, place: seq<Edge>,
                                     properties: seq<Property>, from: nat, seen: set<Id>, allow: bool)
    requires ClosedGraph(g) && ItemsRanked(g, rank) && forall i :: 0 <= i < |top| ==> top[i].id in g
    requires from <= |properties| && forall i :: 0 <= i < |properties| ==> properties[i].id in g
    requires KidsAt(g, top, place, properties) && SeenEarlier(g, top, seen, place, from)
    requires Convert(g, rank, properties[from..], seen, allow).fields.Ok?
    ensures var c := Convert(g, rank, properties[from..], seen, allow);
      FieldsShowAt(g, top, c.fields.value, properties, place, from) && MetBelow(g, top, seen, c.seen, place)
    decreases if allow then 1 else 0, g.Keys - seen, 0, |properties| - from + 1
  {
    hide FieldShowsAt, FieldsShowAt, ConvertOne, KidsAt, SeenEarlier, MetBelow, Reaches, ItemsRanked, ClosedGraph;
    NoFieldsAt(g, top, seen, place, properties);
    if from < |properties| {
      var left := properties[from..];
      assert left[0] == properties[from] && left[1..] == properties[from + 1..];
      var first := ConvertOne(g, rank, properties[from].id, seen, allow);
      KidAt(g, top, place, properties, from);
      ConvertOneAt(g, rank, top, place, from, properties[from].id, seen, allow);
      assert g.Keys - first.seen <= g.Keys - seen;
      ConvertAt(g, rank, top, place, properties, from + 1, first.seen, allow);
      var rest := Convert(g, rank, properties[from + 1..], first.seen, allow);
      MetInTwoSteps(g, top, seen, first.seen, rest.seen, place);
      FirstFieldAt(g, top, Field(properties[from].name, first.schema.value), rest.fields.value, properties, place, from);
    }
  }

  lemma NoFieldsAt(g: Graph, top: seq<Property>, seen: set<Id>, place: seq<Edge>, properties: seq<Property>)
    requires ClosedGraph(g) && forall i :: 0 <= i < |top| ==> top[i].id in g
    requires forall i :: 0 <= i < |properties| ==> properties[i].id in g
    ensures FieldsShowAt(g, top, [], properties, place, |properties|) && MetBelow(g, top, seen, seen, place)
  {
  }

  lemma KidAt(g: Graph, top: seq<Property>, place: seq<Edge>, properties: seq<Property>, i: nat)
    requires ClosedGraph(g) && forall i :: 0 <= i < |top| ==> top[i].id in g
    requires i < |properties| && KidsAt(g, top, place, properties)
    ensures properties[i].id in g && Reaches(g, top, place + [PropertyEdge(i)], properties[i].id)
  {
  }

  lemma FirstFieldAt(g: Graph, top: seq<Property>, field: Field, rest: seq<Field>, properties: seq<Property>,
                     place: seq<Edge>, from: nat)
    requires ClosedGraph(g) && forall i :: 0 <= i < |top| ==> top[i].id in g
    requires forall i :: 0 <= i < |properties| ==> properties[i].id in g
    requires from < |properties| && field.name == properties[from].name
    requires FieldShowsAt(g, top, field.schema, properties[from].id, place + [PropertyEdge(from)])
    requires FieldsShowAt(g, top, rest, properties, place, from + 1)
    ensures FieldsShowAt(g, top, [field] + rest, properties, place, from)
  {
    hide FieldShowsAt;
    var all := [field] + rest;
    forall i | from <= i < |properties|
      ensures all[i - from].name == properties[i].name
      ensures FieldShowsAt(g, top, all[i - from].schema, properties[i].id, place + [PropertyEdge(i)])
    {
      if i > from { assert all[i - from] == rest[i - (from + 1)]; }
    }
  }

  lemma MetInTwoSteps(g: Graph, top: seq<Property>, a: set<Id>, b: set<Id>, c: set<Id>, place: seq<Edge>)
    requires ClosedGraph(g) && forall i :: 0 <= i < |top| ==> top[i].id in g
    requires MetBelow(g, top, a, b, place) && MetBelow(g, top, b, c, place)
    ensures MetBelow(g, top, a, c, place)
  {
    forall x | x in c && x !in a ensures exists path :: ReachesProperty(g, top, path, x) && place < path {
      if x in b { assert x in b && x !in a; }
    }
  }

  /** A property is truncated only if its dict is also reached on a path that does not lead through it. */
  lemma OpaqueIsReachedElsewhere(g: Graph, rank: map<Id, nat>, root: Def)
    requires ClosedGraph(g) && ItemsRanked(g, rank) && Closed(g, root)
    requires ConvertRoot(g, rank, root).Ok?
    ensures var top := PropertiesOf(g, root).value;
      FieldsShowAt(g, top, ConvertRoot(g, rank, root).value, top, [], 0)
  {
    var top := PropertiesOf(g, root).value;
    assert top[0..] == top;
    forall i | 0 <= i < |top| ensures Reaches(g, top, [] + [PropertyEdge(i)], top[i].id) {
      assert [] + [PropertyEdge(i)] == [PropertyEdge(i)] && [PropertyEdge(i)][1..] == [];
    }
    ConvertAt(g, rank, top, [], top, 0, {}, true);
  }

  /** `s` shows the dict `id` in full, with no opaque stand-in at any depth. */
  ghost predicate ShowsFully(g: Graph, s: Schema, id: Id)
    requires ClosedGraph(g) && id in g
    decreases s
  {
    KindOf(g, id).Ok? &&
    match KindOf(g, id).value
    case SimpleKind(typ, about) => s == Simple(typ, about)
    case ObjectKind(properties, description) =>
      && s.Object? && s.description == description && |s.fields| == |properties|
      && forall i :: 0 <= i < |s.fields| ==>
           s.fields[i].name == properties[i].name && ShowsFully(g, s.fields[i].schema, properties[i].id)
    case ArrayKind(items, description) =>
      && s.Array? && s.description == description
      && if items.None? then s.items == Simple("string", None) else ShowsFully(g, s.items, items.value)
  }

  lemma NotElsewhere(g: Graph, top: seq<Property>, id: Id, place: seq<Edge>)
    requires ClosedGraph(g) && forall i :: 0 <= i < |top| ==> top[i].id in g
    requires Unshared(g, top) && ReachesProperty(g, top, place, id)
    ensures !ReachedElsewhere(g, top, id, place)
  {
    forall path | ReachesProperty(g, top, path, id) ensures place <= path { assert path == place; }
  }

  lemma {:induction false} UnsharedShowsFully(g: Graph, top: seq<Property>, s: Schema, id: Id, place: seq<Edge>)
    requires ClosedGraph(g) && id in g && forall i :: 0 <= i < |top| ==> top[i].id in g
    requires Unshared(g, top) && Reaches(g, top, place, id) && ShowsAt(g, top, s, id, place)
    ensures ShowsFully(g, s, id)
    decreases s
  {
    match KindOf(g, id).value {
      case SimpleKind(_, _) =>
      case ObjectKind(properties, _) =>
        KidsOfDict(g, top, place, id, properties);
        forall i | 0 <= i < |properties| ensures ShowsFully(g, s.fields[i].schema, properties[i].id) {
          var here := place + [PropertyEdge(i)];
          NotElsewhere(g, top, properties[i].id, here);
          assert FieldShowsAt(g, top, s.fields[i].schema, properties[i].id, here);
          UnsharedShowsFully(g, top, s.fields[i].schema, properties[i].id, here);
        }
      case ArrayKind(items, _) =>
        if items.Some? {
          assert Follows(g, items.value, [], items.value) && [ItemsEdge][1..] == [];
          ReachesSnoc(g, top, place, id, ItemsEdge, items.value);
          UnsharedShowsFully(g, top, s.items, items.value, place + [ItemsEdge]);
        }
    }
  }

  /** A schema in which no property dict is reached twice is converted with nothing truncated, at any depth. */
  lemma UnsharedIsNeverTruncated(g: Graph, rank: map<Id, nat>, root: Def)
    requires ClosedGraph(g) && ItemsRanked(g, rank) && Closed(g, root)
    requires ConvertRoot(g, rank, root).Ok? && Unshared(g, PropertiesOf(g, root).value)
    ensures var fields, top := ConvertRoot(g, rank, root).value, PropertiesOf(g, root).value;
      && |fields| == |top|
      && forall i :: 0 <= i < |fields| ==> fields[i].name == top[i].name && ShowsFully(g, fields[i].schema, top[i].id)
  {
    var fields, top := ConvertRoot(g, rank, root).value, PropertiesOf(g, root).value;
    OpaqueIsReachedElsewhere(g, rank, root);
    forall i | 0 <= i < |top| ensures fields[i].name == top[i].name && ShowsFully(g, fields[i].schema, top[i].id) {
      var here := [PropertyEdge(i)];
      assert here[1..] == [] && [] + here == here;
      assert ReachesProperty(g, top, here, top[i].id);
      NotElsewhere(g, top, top[i].id, here);
      assert FieldShowsAt(g, top, fields[i - 0].schema, top[i].id, [] + [PropertyEdge(i)]);
      UnsharedShowsFully(g, top, fields[i].schema, top[i].id, here);
    }
  }

  // --- when a rank exists -------------------------------------------------

  /** Following `items` from `id` ends within `n` steps. */
  predicate ItemsEnd(g: Graph, id: Id, n: nat)
    requires ClosedGraph(g) && id in g
    decreases n
  {
    ItemsOf(g, id).None? || (n > 0 && ItemsEnd(g, ItemsOf(g, id).value, n - 1))
  }

  function ItemsLength(g: Graph, id: Id, n: nat): (r: nat)
    requires ClosedGraph(g) && id in g && ItemsEnd(g, id, n)
    decreases n
  {
    if ItemsOf(g, id).None? then 0 else 1 + ItemsLength(g, ItemsOf(g, id).value, n - 1)
  }

  lemma {:induction false} ItemsLengthUnique(g: Graph, id: Id, m: nat, n: nat)
    requires ClosedGraph(g) && id in g && ItemsEnd(g, id, m) && ItemsEnd(g, id, n)
    ensures ItemsLength(g, id, m) == ItemsLength(g, id, n)
    decreases m
  {
    if ItemsOf(g, id).Some? { ItemsLengthUnique(g, ItemsOf(g, id).value, m - 1, n - 1); }
  }

  lemma {:induction false} RankedItemsEnd(g: Graph, rank: map<Id, nat>, id: Id)
    requires ClosedGraph(g) && ItemsRanked(g, rank) && id in g
    ensures ItemsEnd(g, id, rank[id])
    decreases rank[id]
  {
    hide ItemsOf;
    if ItemsOf(g, id).Some? {
      var next := ItemsOf(g, id).value;
      RankedItemsEnd(g, rank, next);
      ItemsEndLater(g, next, rank[next], rank[id] - 1);
    }
  }

  lemma {:induction false} ItemsEndLater(g: Graph, id: Id, m: nat, n: nat)
    requires ClosedGraph(g) && id in g && ItemsEnd(g, id, m) && m <= n
    ensures ItemsEnd(g, id, n)
    decreases n
  {
    if ItemsOf(g, id).Some? { ItemsEndLater(g, ItemsOf(g, id).value, m - 1, n - 1); }
  }

  /** Following `items` from `id` comes to an end. */
  ghost predicate Ends(g: Graph, id: Id)
    requires ClosedGraph(g) && id in g
  {
    exists n: nat :: ItemsEnd(g, id, n)
  }

  ghost function ChainLength(g: Graph, id: Id): nat
    requires ClosedGraph(g) && id in g && Ends(g, id)
  {
    var n: nat :| ItemsEnd(g, id, n);
    ItemsLength(g, id, n)
  }

  lemma ChainShortens(g: Graph, id: Id)
    requires ClosedGraph(g) && id in g && ItemsOf(g, id).Some? && Ends(g, id)
    ensures Ends(g, ItemsOf(g, id).value) && ChainLength(g, ItemsOf(g, id).value) < ChainLength(g, id)
  {
    var next := ItemsOf(g, id).value;
    var n: nat :| ItemsEnd(g, id, n) && ChainLength(g, id) == ItemsLength(g, id, n);
    assert ItemsEnd(g, next, n - 1);
    var m: nat :| ItemsEnd(g, next, m) && ChainLength(g, next) == ItemsLength(g, next, m);
    ItemsLengthUnique(g, next, m, n - 1);
    assert ItemsLength(g, id, n) == 1 + ItemsLength(g, next, n - 1);
  }

  /** The converter's termination needs no more than that following `items` from any dict comes to an end. */
  lemma RankExistsIffItemsEnd(g: Graph)
    requires ClosedGraph(g)
    ensures (exists rank: map<Id, nat> :: ItemsRanked(g, rank)) <==> forall id :: id in g ==> Ends(g, id)
  {
    if rank: map<Id, nat> :| ItemsRanked(g, rank) {
      forall id | id in g ensures Ends(g, id) {
        RankedItemsEnd(g, rank, id);
      }
    }
    if forall id :: id in g ==> Ends(g, id) {
      var rank: map<Id, nat> := map id | id in g :: ChainLength(g, id);
      forall id | id in g && ItemsOf(g, id).Some? ensures rank[ItemsOf(g, id).value] < rank[id] {
        ChainShortens(g, id);
      }
      assert ItemsRanked(g, rank);
    }
  }
}
