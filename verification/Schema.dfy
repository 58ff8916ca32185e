/** The part of a version's JSON schema that the fuzz generator reads, and what it means
    for a value to satisfy it. */
module Schema {
  import opened Wrappers
  import opened Json

  datatype Type = ObjectType | ArrayType | StringType | IntegerType | NumberType | BooleanType | Untyped

  /** A schema node; properties and items refer to other nodes, possibly in a cycle. */
  datatype Node = Node(
    typ: Type,
    enum: seq<Json>,
    fallback: Option<Json>,
    properties: map<string, nat>,
    required: seq<string>,
    items: Option<nat>,
    minItems: Option<int>,
    maxItems: Option<int>,
    minLength: Option<int>,
    maxLength: Option<int>,
    pattern: string,
    minimum: Option<real>,
    maximum: Option<real>,
    preserve: bool)

  /** matches decides a regular expression; the empty pattern is no constraint. */
  datatype Schemas = Schemas(nodes: seq<Node>, matches: (string, string) -> bool)

  ghost predicate Closed(g: Schemas) {
    forall i :: 0 <= i < |g.nodes| ==>
      && (forall k :: k in g.nodes[i].properties ==> g.nodes[i].properties[k] < |g.nodes|)
      && (g.nodes[i].items.Some? ==> g.nodes[i].items.value < |g.nodes|)
  }

  predicate NotBelow(n: int, bound: Option<int>) {
    bound.Some? ==> n >= bound.value
  }

  predicate NotAbove(n: int, bound: Option<int>) {
    bound.Some? ==> n <= bound.value
  }

  predicate Within(x: real, s: Node) {
    (s.minimum.Some? ==> s.minimum.value <= x) && (s.maximum.Some? ==> x <= s.maximum.value)
  }

  /** A default or enum member decodes to float64 even where the schema says integer. */
  predicate Whole(x: real) {
    x.Floor as real == x
  }

  predicate IntWithin(n: int, s: Node) {
    Within(n as real, s)
  }

  predicate StringOk(g: Schemas, s: Node, str: string) {
    NotBelow(|str|, s.minLength) && NotAbove(|str|, s.maxLength) && (s.pattern != "" ==> g.matches(s.pattern, str))
  }

  /** The constraints of a node's own type. */
  ghost predicate Typed(g: Schemas, id: nat, v: Json)
    requires Closed(g) && id < |g.nodes|
    decreases v, 0
  {
    var s := g.nodes[id];
    match s.typ
    case ObjectType =>
      && v.Obj?
      && (forall r :: r in s.required ==> r in v.fields)
      && (forall k :: k in v.fields ==> k in s.properties && Valid(g, s.properties[k], v.fields[k]))
    case ArrayType =>
      && v.Arr?
      && NotBelow(|v.items|, s.minItems) && NotAbove(|v.items|, s.maxItems)
      && (s.items.Some? ==> forall i :: 0 <= i < |v.items| ==> Valid(g, s.items.value, v.items[i]))
    case StringType => v.Str? && StringOk(g, s, v.s)
    case IntegerType => (v.Int? && IntWithin(v.i, s)) || (v.Float? && Whole(v.r) && Within(v.r, s))
    case NumberType => (v.Int? && IntWithin(v.i, s)) || (v.Float? && Within(v.r, s))
    case BooleanType => v.Bool?
    case Untyped => true
  }

  /** A non-nil value of the node's type, within its enum if it has one. */
  ghost predicate Valid(g: Schemas, id: nat, v: Json)
    requires Closed(g) && id < |g.nodes|
    decreases v, 1
  {
    && v != Null
    && (g.nodes[id].enum != [] ==> v in g.nodes[id].enum)
    && Typed(g, id, v)
  }

  const MIN_INT64: int := -0x8000_0000_0000_0000
  const MAX_INT64: int := 0x7FFF_FFFF_FFFF_FFFF

  function Ceil(x: real): (n: int)
    ensures n as real >= x && (n - 1) as real < x
  {
    -((-x).Floor)
  }

  predicate FitsInt64(bound: Option<real>) {
    bound.Some? ==> MIN_INT64 as real <= bound.value <= MAX_INT64 as real
  }

  // ---- The schemas the generator is meant for ----

  /** Required fields are declared, ranges are not empty, and the schema's own defaults
      and enum members satisfy it. */
  ghost predicate Sensible(g: Schemas, id: nat)
    requires Closed(g) && id < |g.nodes|
  {
    var s := g.nodes[id];
    && (forall r :: r in s.required ==> r in s.properties)
    && (s.minItems.Some? ==> NotAbove(s.minItems.value, s.maxItems))
    && NotAbove(0, s.maxItems)
    && (s.minLength.Some? ==> NotAbove(s.minLength.value, s.maxLength))
    && NotAbove(0, s.maxLength)
    && (s.minimum.Some? && s.maximum.Some? ==> s.minimum.value <= s.maximum.value)
    && (s.typ.IntegerType? ==> FitsInt64(s.minimum) && FitsInt64(s.maximum))
    && (s.fallback.Some? && s.fallback.value != Null ==> Valid(g, id, s.fallback.value))
    && (forall k :: 0 <= k < |s.enum| && s.enum[k] != Null ==> Valid(g, id, s.enum[k]))
  }

  /** The integers between the two bounds, if both are set, span less than 2^63. */
  predicate Narrow(s: Node) {
    s.minimum.Some? && s.maximum.Some? ==> s.maximum.value.Floor - Ceil(s.minimum.value) < MAX_INT64
  }

  /** The bounds the generator does not honour: a minimum number of items without an item
      schema, a maximum length of zero without a minimum, a negative maximum without a
      minimum, and a range of integers too wide to draw from. */
  ghost predicate Honoured(s: Node) {
    && (s.typ.IntegerType? ==> Narrow(s))
    && (s.typ.ArrayType? && s.items.None? ==> NotBelow(0, s.minItems))
    && (s.typ.StringType? && s.minLength.None? ==> NotAbove(1, s.maxLength))
    && (s.typ.NumberType? && s.minimum.None? && s.maximum.Some? ==> s.maximum.value >= 0.0)
  }

  ghost predicate WellFormed(g: Schemas) {
    && Closed(g)
    && forall id :: 0 <= id < |g.nodes| ==> Sensible(g, id) && Honoured(g.nodes[id])
  }
}
