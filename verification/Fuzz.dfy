/** internal/cli/fuzz.go: generating values from a schema, biased to its boundaries. */
module Fuzz {
  import opened Wrappers
  import opened Json
  import opened Ordering
  import opened Schema

  datatype Shape = Free | Shaped | Unconstructible

  const MAX_DEPTH := 12
  const MAX_GENERATED_SIZE := 256

  /** Clamped size, and whether the bound itself was beyond the cap. */
  function BoundedSize(n: int): (int, bool) {
    if n > MAX_GENERATED_SIZE then (MAX_GENERATED_SIZE, true)
    else if n < 0 then (0, false)
    else (n, false)
  }

  type Unit = x: real | 0.0 <= x < 1.0 witness 0.0

  /** A random source: the k-th call of Intn(n), Float64(), the strings built for a rule's
      lexical form, and Int63n(n). Any such functions are a possible source. */
  datatype Random = Random(intn: (nat, nat) -> nat, float: nat -> Unit, shaped: (nat, Shape) -> string, int63n: (nat, int) -> int)

  // ---- Numbers ----

  /** The range of integers tried: from the bounds that are set, 100 wide when only one is. */
  function IntegerRange(s: Node): Option<(int, int)> {
    var lo := if s.minimum.Some? then Ceil(s.minimum.value) else 0;
    var hi := if s.maximum.Some? then s.maximum.value.Floor else 100;
    if s.minimum.Some? && s.maximum.Some? then (if hi < lo then None else Some((lo, hi)))
    else if s.minimum.Some? then Some((lo, if lo + 100 > MAX_INT64 then MAX_INT64 else lo + 100))
    else if s.maximum.Some? then Some((if hi - 100 < MIN_INT64 then MIN_INT64 else hi - 100, hi))
    else Some((lo, hi))
  }

  /** Every integer of the range satisfies the bounds, and the range is missing exactly
      when no integer does. */
  lemma IntegerRangeExactly(s: Node)
    requires FitsInt64(s.minimum) && FitsInt64(s.maximum)
    ensures IntegerRange(s).Some? ==>
      var (lo, hi) := IntegerRange(s).value; lo <= hi && forall n: int :: lo <= n <= hi ==> IntWithin(n, s)
    ensures IntegerRange(s).None? <==> forall n: int :: !IntWithin(n, s)
  {
    if IntegerRange(s).Some? {
      var (lo, hi) := IntegerRange(s).value;
      assert lo <= hi;
      forall n: int | lo <= n <= hi ensures IntWithin(n, s) {
      }
      assert IntWithin(lo, s);
    }
  }

  /** int64 arithmetic wraps around. */
  function Wrap64(n: int): int {
    (n - MIN_INT64) % 0x1_0000_0000_0000_0000 + MIN_INT64
  }

  /** rand.Int63n, which panics unless n is positive. */
  function Int63n(rnd: Random, call: nat, n: int): Option<int> {
    if n <= 0 then None else Some(rnd.int63n(call, n) % n)
  }

  /** A number between the two ends, drawn the way the code computes its span. */
  function Within64(rnd: Random, call: nat, lo: int, hi: int): Option<int> {
    if hi > lo then
      match Int63n(rnd, call, Wrap64(hi - lo + 1))
      case None => None
      case Some(k) => Some(Wrap64(lo + k))
    else Some(lo)
  }

  lemma DrawInRange(rnd: Random, call: nat, lo: int, hi: int)
    requires MIN_INT64 <= lo <= hi <= MAX_INT64 && hi - lo < MAX_INT64
    ensures Within64(rnd, call, lo, hi).Some? && lo <= Within64(rnd, call, lo, hi).value <= hi
  {
    SpanExactly(lo, hi);
    if hi > lo {
      WrapFits(lo + Int63n(rnd, call, hi - lo + 1).value);
    }
  }

  /** The draw is defined, for every random source, if and only if the range is narrower
      than 2^63; and then it stays in the range. */
  lemma DrawExactly(lo: int, hi: int)
    requires MIN_INT64 <= lo <= hi <= MAX_INT64
    ensures (forall rnd, call :: Within64(rnd, call, lo, hi).Some?) <==> hi - lo < MAX_INT64
    ensures forall rnd, call :: Within64(rnd, call, lo, hi).Some? ==> lo <= Within64(rnd, call, lo, hi).value <= hi
  {
    if hi - lo < MAX_INT64 {
      forall rnd, call ensures Within64(rnd, call, lo, hi).Some? && lo <= Within64(rnd, call, lo, hi).value <= hi {
        DrawInRange(rnd, call, lo, hi);
      }
    } else {
      SpanExactly(lo, hi);
      var rnd := Random((c, n) => 0, c => 0.0, (c, s) => "", (c, n) => 0);
      assert Within64(rnd, 0, lo, hi).None?;
    }
  }

  lemma SpanExactly(lo: int, hi: int)
    requires MIN_INT64 <= lo <= hi <= MAX_INT64
    ensures if hi - lo < MAX_INT64 then Wrap64(hi - lo + 1) == hi - lo + 1 else Wrap64(hi - lo + 1) <= 0
  {
  }

  lemma WrapFits(n: int)
    requires MIN_INT64 <= n <= MAX_INT64
    ensures Wrap64(n) == n
  {
  }

  /** The same on the bounds of a schema. */
  lemma IntegerDrawExactly(s: Node)
    requires FitsInt64(s.minimum) && FitsInt64(s.maximum) && IntegerRange(s).Some?
    ensures var (lo, hi) := IntegerRange(s).value;
      (forall rnd, call :: Within64(rnd, call, lo, hi).Some?) <==> Narrow(s)
  {
    var (lo, hi) := IntegerRange(s).value;
    IntegerRangeExactly(s);
    RangeFits(s);
    DrawExactly(lo, hi);
  }

  lemma RangeFits(s: Node)
    requires FitsInt64(s.minimum) && FitsInt64(s.maximum) && IntegerRange(s).Some?
    ensures var (lo, hi) := IntegerRange(s).value;
      MIN_INT64 <= lo <= hi <= MAX_INT64 && (hi - lo < MAX_INT64 <==> Narrow(s))
  {
  }

  const WIDE := Node(IntegerType, [], None, map[], [], None, None, None, None, None, "", Some(-9.0e18), Some(9.0e18), false)

  /** A sensible schema on which the generator panics. */
  lemma WideRangePanics()
    ensures var g := Schemas([WIDE], (p, s) => true);
      && Closed(g) && Sensible(g, 0)
      && IntegerRange(WIDE) == Some((-9_000_000_000_000_000_000, 9_000_000_000_000_000_000))
      && forall rnd, call :: Within64(rnd, call, -9_000_000_000_000_000_000, 9_000_000_000_000_000_000).None?
  {
  }

  function NumberRange(s: Node): (real, real) {
    var lo := if s.minimum.Some? then s.minimum.value else 0.0;
    var hi := if s.maximum.Some? then s.maximum.value else 100.0;
    (lo, if hi < lo then lo else hi)
  }

  /** The number range keeps to the bounds exactly when the schema is not a negative
      maximum without a minimum. */
  lemma NumberRangeExactly(s: Node)
    requires s.minimum.Some? && s.maximum.Some? ==> s.minimum.value <= s.maximum.value
    ensures var (lo, hi) := NumberRange(s);
      (forall x :: lo <= x <= hi ==> Within(x, s)) <==> (s.minimum.None? && s.maximum.Some? ==> s.maximum.value >= 0.0)
  {
    var (lo, hi) := NumberRange(s);
    if s.minimum.None? && s.maximum.Some? && s.maximum.value < 0.0 {
      assert lo <= lo <= hi && !Within(lo, s);
    }
  }

  // ---- Strings ----

  function LengthRange(s: Node): Option<(nat, nat)> {
    var minLen := if s.minLength.Some? then BoundedSize(s.minLength.value) else (1, false);
    if minLen.1 then None
    else
      var maxLen := if s.maxLength.Some? then BoundedSize(s.maxLength.value).0 else 8;
      Some((minLen.0, if maxLen < minLen.0 then minLen.0 else maxLen))
  }

  /** A length is generated within the bounds exactly when the schema is not a maximum
      length of zero without a minimum. */
  lemma LengthRangeExactly(s: Node)
    requires s.minLength.Some? ==> NotAbove(s.minLength.value, s.maxLength)
    requires NotAbove(0, s.maxLength) && LengthRange(s).Some?
    ensures var (lo, hi) := LengthRange(s).value;
      lo <= hi &&
      ((forall n :: lo <= n <= hi ==> NotBelow(n, s.minLength) && NotAbove(n, s.maxLength)) <==>
       (s.minLength.None? ==> NotAbove(1, s.maxLength)))
  {
    var (lo, hi) := LengthRange(s).value;
    if s.minLength.None? && !NotAbove(1, s.maxLength) {
      assert lo <= lo <= hi && !NotAbove(lo, s.maxLength);
    }
  }

  // ---- Arrays ----

  function ItemRange(s: Node): Option<(nat, nat)> {
    var minItems := if s.minItems.Some? then BoundedSize(s.minItems.value) else (0, false);
    if minItems.1 then None
    else
      var maxItems := if s.maxItems.Some? then BoundedSize(s.maxItems.value).0 else minItems.0 + 2;
      Some((minItems.0, if maxItems < minItems.0 then minItems.0 else maxItems))
  }

  lemma ItemRangeBounds(s: Node)
    requires s.minItems.Some? ==> NotAbove(s.minItems.value, s.maxItems)
    requires NotAbove(0, s.maxItems) && ItemRange(s).Some?
    ensures var (lo, hi) := ItemRange(s).value;
      lo <= hi && NotBelow(lo, s.minItems) && NotAbove(hi, s.maxItems)
  {
  }

  // ---- The generator ----

  datatype Recorded = Recorded(path: seq<string>)

  class Generator {
    const g: Schemas
    const shapes: map<seq<string>, Shape>
    const rnd: Random
    var calls: nat
    var path: seq<string>
    var unconstructible: seq<Recorded>

    constructor (g: Schemas, shapes: map<seq<string>, Shape>, rnd: Random)
      ensures this.g == g && path == [] && unconstructible == []
    {
      this.g, this.shapes, this.rnd := g, shapes, rnd;
      calls, path, unconstructible := 0, [], [];
    }

    method Intn(n: nat) returns (r: nat)
      requires n > 0
      modifies this`calls
      ensures r < n
    {
      r := rnd.intn(calls, n) % n;
      calls := calls + 1;
    }

    method Between(lo: int, hi: int) returns (r: int)
      requires lo <= hi
      modifies this`calls
      ensures lo <= r <= hi
    {
      var c := Intn(3);
      if c == 0 {
        return lo;
      }
      if c == 1 {
        return hi;
      }
      if hi > lo {
        var k := Intn(hi - lo + 1);
        return lo + k;
      }
      r := lo;
    }

    /** What a call may leave behind: the path as it was, and the record only longer. */
    twostate predicate Balanced()
      reads this
    {
      path == old(path) && old(unconstructible) <= unconstructible
    }

    /** One generated value: nil, or valid, or a required field was recorded as one that
        cannot be filled. */
    twostate predicate Sound(id: nat, v: Json)
      requires Closed(g) && id < |g.nodes|
      reads this
    {
      v == Null || Valid(g, id, v) || |unconstructible| > |old(unconstructible)|
    }

    method Value(id: Option<nat>, depth: nat) returns (v: Json)
      requires WellFormed(g) && (id.Some? ==> id.value < |g.nodes|)
      modifies this`calls, this`path, this`unconstructible
      ensures Balanced()
      ensures id.Some? ==> Sound(id.value, v)
      ensures id.None? ==> v == Null
      decreases MAX_DEPTH + 1 - depth, 4
    {
      if id.None? || depth > MAX_DEPTH {
        return Null;
      }
      var s := g.nodes[id.value];
      assert Sensible(g, id.value) && Honoured(s);
      if |s.enum| > 0 {
        v := PickEnum(s);
        return;
      }
      if s.fallback.Some? {
        var c := Intn(4);
        if c == 0 {
          return s.fallback.value;
        }
      }
      match s.typ
      case ObjectType => v := Object(id.value, depth);
      case ArrayType => v := Array(id.value, depth);
      case StringType => v := Text(id.value);
      case IntegerType => v := Integer(id.value);
      case NumberType => v := Number(id.value);
      case BooleanType =>
        var c := Intn(2);
        v := Bool(c == 0);
      case Untyped =>
        v := if s.preserve then Obj(map["opaque" := Str("value")]) else Null;
    }

    method PickEnum(s: Node) returns (v: Json)
      requires s.enum != []
      modifies this`calls
      ensures v in s.enum
    {
      var c := Intn(3);
      var i := 0;
      if c == 1 {
        i := |s.enum| - 1;
      } else if c == 2 {
        i := Intn(|s.enum|);
      }
      v := s.enum[i];
    }

    method Object(id: nat, depth: nat) returns (v: Json)
      requires WellFormed(g) && id < |g.nodes| && g.nodes[id].typ.ObjectType? && g.nodes[id].enum == []
      requires depth <= MAX_DEPTH
      modifies this`calls, this`path, this`unconstructible
      ensures Balanced() && Sound(id, v)
      decreases MAX_DEPTH + 1 - depth, 3
    {
      var s := g.nodes[id];
      assert Sensible(g, id);
      var out: map<string, Json> := map[];
      var names := SortedKeys(s.properties.Keys);
      assert FieldsOk(id, out) && FilledIn(id, out, names[..0]);
      hide FieldsOk, FilledIn, Valid, Sensible, Honoured, Closed;
      for i := 0 to |names|
        invariant path == old(path) && old(unconstructible) <= unconstructible
        invariant |unconstructible| == |old(unconstructible)| ==> FieldsOk(id, out) && FilledIn(id, out, names[..i])
      {
        assert names[i] in names;
        ghost var record := unconstructible;
        out := AddNext(id, names, i, depth, out);
        Longer(old(unconstructible), record, unconstructible);
      }
      assert names[..|names|] == names;
      v := Obj(out);
      if |unconstructible| == |old(unconstructible)| {
        FilledIsValid(id, out, names);
      }
    }

    lemma Longer(a: seq<Recorded>, b: seq<Recorded>, c: seq<Recorded>)
      requires a <= b <= c
      ensures a <= c && (|c| == |a| ==> |b| == |a|)
    {
    }

    lemma FilledMore(id: nat, before: map<string, Json>, out: map<string, Json>, names: seq<string>, name: string)
      requires id < |g.nodes| && FilledIn(id, before, names) && before.Keys <= out.Keys
      requires name in g.nodes[id].required ==> name in out
      ensures FilledIn(id, out, names + [name])
    {
    }

    lemma FilledIsValid(id: nat, out: map<string, Json>, names: seq<string>)
      requires Closed(g) && id < |g.nodes| && Sensible(g, id) && g.nodes[id].typ.ObjectType? && g.nodes[id].enum == []
      requires forall k :: k in g.nodes[id].properties ==> k in names
      requires FieldsOk(id, out) && FilledIn(id, out, names)
      ensures Valid(g, id, Obj(out))
    {
    }

    ghost predicate FieldsOk(id: nat, out: map<string, Json>)
      requires Closed(g) && id < |g.nodes|
    {
      forall k :: k in out ==> k in g.nodes[id].properties && Valid(g, g.nodes[id].properties[k], out[k])
    }

    ghost predicate FilledIn(id: nat, out: map<string, Json>, names: seq<string>)
      requires id < |g.nodes|
    {
      forall k :: k in names && k in g.nodes[id].required ==> k in out
    }

    method AddNext(id: nat, names: seq<string>, i: nat, depth: nat, before: map<string, Json>) returns (out: map<string, Json>)
      requires WellFormed(g) && id < |g.nodes| && depth <= MAX_DEPTH && i < |names| && names[i] in g.nodes[id].properties
      modifies this`calls, this`path, this`unconstructible
      ensures Balanced()
      ensures |unconstructible| == |old(unconstructible)| && FieldsOk(id, before) && FilledIn(id, before, names[..i]) ==>
        FieldsOk(id, out) && FilledIn(id, out, names[..i + 1])
      decreases MAX_DEPTH + 1 - depth, 2
    {
      hide FieldsOk, FilledIn, Valid, Sensible, Honoured;
      out := AddProperty(id, names[i], depth, before);
      if |unconstructible| == |old(unconstructible)| && FilledIn(id, before, names[..i]) && FieldsOk(id, before) {
        assert names[..i + 1] == names[..i] + [names[i]];
        FilledMore(id, before, out, names[..i], names[i]);
      }
    }

    /** An optional property may be left out; a required one that cannot be generated is
        recorded. */
    method AddProperty(id: nat, name: string, depth: nat, before: map<string, Json>) returns (out: map<string, Json>)
      requires WellFormed(g) && id < |g.nodes| && depth <= MAX_DEPTH && name in g.nodes[id].properties
      modifies this`calls, this`path, this`unconstructible
      ensures Balanced() && before.Keys <= out.Keys
      ensures |unconstructible| == |old(unconstructible)| && FieldsOk(id, before) ==>
        FieldsOk(id, out) && (name in g.nodes[id].required ==> name in out)
      decreases MAX_DEPTH + 1 - depth, 1
    {
      var s := g.nodes[id];
      out := before;
      if name !in s.required {
        var c := Intn(4);
        if c == 0 {
          return;
        }
      }
      var v := Property(s.properties[name], name, depth);
      if v != Null {
        out := out[name := v];
      } else if name in s.required {
        unconstructible := unconstructible + [Recorded(path + [name])];
      }
    }

    /** A property's value, generated with its name pushed on the path. */
    method Property(id: nat, name: string, depth: nat) returns (v: Json)
      requires WellFormed(g) && id < |g.nodes| && depth <= MAX_DEPTH
      modifies this`calls, this`path, this`unconstructible
      ensures Balanced() && Sound(id, v)
      decreases MAX_DEPTH + 1 - depth, 0
    {
      path := path + [name];
      v := Value(Some(id), depth + 1);
      path := path[..|path| - 1];
    }

    method Array(id: nat, depth: nat) returns (v: Json)
      requires WellFormed(g) && id < |g.nodes| && g.nodes[id].typ.ArrayType? && g.nodes[id].enum == []
      requires depth <= MAX_DEPTH
      modifies this`calls, this`path, this`unconstructible
      ensures Balanced() && Sound(id, v)
      decreases MAX_DEPTH + 1 - depth, 2
    {
      var s := g.nodes[id];
      assert Sensible(g, id) && Honoured(s);
      if s.items.None? {
        return Arr([]);
      }
      var range := ItemRange(s);
      if range.None? {
        return Null;
      }
      ItemRangeBounds(s);
      var (minItems, maxItems) := range.value;
      var n := ItemCount(minItems, maxItems);
      var out: seq<Json> := [];
      for i := 0 to n
        invariant path == old(path) && old(unconstructible) <= unconstructible
        invariant |out| <= i
        invariant |unconstructible| == |old(unconstructible)| ==> forall k :: 0 <= k < |out| ==> Valid(g, s.items.value, out[k])
      {
        var item := Value(s.items, depth + 1);
        if item != Null {
          out := out + [item];
        }
      }
      if |out| < minItems {
        return Null;
      }
      v := Arr(out);
    }

    method ItemCount(minItems: nat, maxItems: nat) returns (n: nat)
      requires minItems <= maxItems
      modifies this`calls
      ensures minItems <= n <= maxItems
    {
      var c := Intn(4);
      match c
      case 0 => n := minItems;
      case 1 => n := maxItems;
      case 2 => n := if minItems <= 1 && maxItems >= 1 then 1 else minItems;
      case _ =>
        n := minItems;
        if maxItems > minItems {
          var k := Intn(maxItems - minItems + 1);
          n := minItems + k;
        }
    }

    function CurrentShape(): Shape
      reads this`path
    {
      if path in shapes then shapes[path] else Free
    }

    method Vouched(s: Node) returns (v: Json)
      modifies this`calls
      ensures v == Null || (s.fallback.Some? && v == s.fallback.value) || v in s.enum
    {
      if s.fallback.Some? {
        return s.fallback.value;
      }
      if |s.enum| > 0 {
        v := PickEnum(s);
        return;
      }
      v := Null;
    }

    method Text(id: nat) returns (v: Json)
      requires WellFormed(g) && id < |g.nodes| && g.nodes[id].typ.StringType? && g.nodes[id].enum == []
      modifies this`calls
      ensures v == Null || Valid(g, id, v)
    {
      var s := g.nodes[id];
      assert Sensible(g, id) && Honoured(s);
      match CurrentShape()
      case Shaped =>
        var str := rnd.shaped(calls, Shaped);
        calls := calls + 1;
        if StringOk(g, s, str) {
          return Str(str);
        }
        v := Vouched(s);
      case Unconstructible =>
        v := Vouched(s);
      case Free =>
        if s.pattern != "" {
          v := Vouched(s);
          return;
        }
        var range := LengthRange(s);
        if range.None? {
          return Null;
        }
        LengthRangeExactly(s);
        var n := Between(range.value.0, range.value.1);
        var str := Letters(n);
        v := Str(str);
    }

    method Letters(n: nat) returns (str: string)
      modifies this`calls
      ensures |str| == n && forall k :: 0 <= k < n ==> 'a' <= str[k] <= 'z'
    {
      str := "";
      for i := 0 to n
        invariant |str| == i && forall k :: 0 <= k < i ==> 'a' <= str[k] <= 'z'
      {
        var c := Intn(26);
        str := str + [('a' as int + c) as char];
      }
    }

    method Integer(id: nat) returns (v: Json)
      requires WellFormed(g) && id < |g.nodes| && g.nodes[id].typ.IntegerType? && g.nodes[id].enum == []
      modifies this`calls
      ensures v == Null || Valid(g, id, v)
      ensures v == Null <==> forall n: int :: !IntWithin(n, g.nodes[id])
    {
      var s := g.nodes[id];
      assert Sensible(g, id) && Honoured(s);
      IntegerRangeExactly(s);
      var range := IntegerRange(s);
      if range.None? {
        return Null;
      }
      RangeFits(s);
      var n := Drawn(range.value.0, range.value.1);
      v := Int(n);
    }

    /** No draw panics on a range narrower than 2^63. */
    method Drawn(lo: int, hi: int) returns (r: int)
      requires MIN_INT64 <= lo <= hi <= MAX_INT64 && hi - lo < MAX_INT64
      modifies this`calls
      ensures lo <= r <= hi
    {
      var c := Intn(3);
      if c == 0 {
        return lo;
      }
      if c == 1 {
        return hi;
      }
      DrawExactly(lo, hi);
      r := Within64(rnd, calls, lo, hi).value;
      if hi > lo {
        calls := calls + 1;
      }
    }

    method Number(id: nat) returns (v: Json)
      requires WellFormed(g) && id < |g.nodes| && g.nodes[id].typ.NumberType? && g.nodes[id].enum == []
      modifies this`calls
      ensures Valid(g, id, v)
    {
      var s := g.nodes[id];
      assert Sensible(g, id) && Honoured(s);
      NumberRangeExactly(s);
      var (lo, hi) := NumberRange(s);
      assert forall x :: lo <= x <= hi ==> Within(x, s);
      var c := Intn(3);
      if c == 0 {
        return Float(lo);
      }
      if c == 1 {
        return Float(hi);
      }
      var u := rnd.float(calls);
      calls := calls + 1;
      var x := Interpolate(lo, hi, u);
      assert Within(x, s);
      v := Float(x);
    }
  }

  function Interpolate(lo: real, hi: real, u: Unit): (x: real)
    requires lo <= hi
    ensures lo <= x <= hi
  {
    Product(u, hi - lo);
    Product(1.0 - u, hi - lo);
    assert (1.0 - u) * (hi - lo) == (hi - lo) - u * (hi - lo);
    lo + u * (hi - lo)
  }

  lemma Product(a: real, b: real)
    requires a >= 0.0 && b >= 0.0
    ensures a * b >= 0.0
  {
  }

  /** Without an item schema only the empty array is generated, and it satisfies the
      schema exactly when no minimum number of items is asked for. */
  lemma EmptyArrayExactly(g: Schemas, id: nat)
    requires Closed(g) && id < |g.nodes| && g.nodes[id].typ.ArrayType? && g.nodes[id].items.None?
    requires g.nodes[id].enum == [] && NotAbove(0, g.nodes[id].maxItems)
    ensures Valid(g, id, Arr([])) <==> NotBelow(0, g.nodes[id].minItems)
  {
  }
}
