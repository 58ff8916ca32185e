/** internal/cli/diff.go: which leaves differ between two objects, and whether a declared
    lossy path covers a difference. */
module Diff {
  import opened Float64
  import opened Json

  // ---- Positions and their rendering ----

  datatype Seg = Key(k: string) | Index(i: nat)

  type Position = seq<Seg>

  function Digits(n: nat): (s: string)
    ensures s != [] && forall c :: c in s ==> '0' <= c <= '9'
  {
    var d := [('0' as int + n % 10) as char];
    if n < 10 then d else Digits(n / 10) + d
  }

  function JoinPath(prefix: string, seg: string): string {
    if prefix == "" then seg else prefix + "." + seg
  }

  function Extend(path: string, seg: Seg): string {
    match seg
    case Key(k) => JoinPath(path, k)
    case Index(i) => path + "[" + Digits(i) + "]"
  }

  function Render(p: Position): string {
    if p == [] then "" else Extend(Render(p[..|p| - 1]), p[|p| - 1])
  }

  predicate IsIgnored(path: string) {
    path in {"apiVersion", "kind", "metadata.resourceVersion", "metadata.uid", "metadata.creationTimestamp", "metadata.generation"}
  }

  // ---- Comparing leaves ----

  predicate IsNumber(v: Json) {
    v.Int? || v.Float?
  }

  function AsFloat64(v: Json): real
    requires IsNumber(v)
  {
    if v.Int? then ToFloat64(v.i) else v.r
  }

  /** Numbers are compared as float64, whatever their type. */
  predicate ValuesEqual(a: Json, b: Json) {
    if IsNumber(a) then IsNumber(b) && AsFloat64(a) == AsFloat64(b) else a == b
  }

  function Numeric(v: Json): real
    requires IsNumber(v)
  {
    if v.Int? then v.i as real else v.r
  }

  /** Comparing two numbers is comparing their values if their whole numbers are float64. */
  lemma ComparedByValue(a: Json, b: Json)
    requires IsNumber(a) && IsNumber(b) && (a.Int? ==> Kept(a.i)) && (b.Int? ==> Kept(b.i))
    ensures ValuesEqual(a, b) <==> Numeric(a) == Numeric(b)
  {
    if a.Int? { KeptExactly(a.i); }
    if b.Int? { KeptExactly(b.i); }
  }

  /** Exactly the whole numbers that are compared with every float64 by value; all up to
      2^53 are among them. */
  lemma ComparedByValueExactly(i: int)
    ensures (forall r :: ValuesEqual(Int(i), Float(r)) <==> Numeric(Int(i)) == Numeric(Float(r))) <==> Kept(i)
    ensures -TWO_53 <= i <= TWO_53 ==> Kept(i)
  {
    KeptExactly(i);
    if !Kept(i) {
      assert ValuesEqual(Int(i), Float(ToFloat64(i)));
    }
  }

  /** Two different whole numbers are taken for equal only as neighbours beyond 2^53. */
  lemma OnlyNeighboursTakenForEqual(i: int, j: int)
    requires ValuesEqual(Int(i), Int(j)) && i != j
    ensures Abs(i) > TWO_53 || Abs(j) > TWO_53
    ensures 2 * Abs(i - j) <= Float64.Unit(Abs(i)) + Float64.Unit(Abs(j))
  {
    RoundedTogether(i, j);
  }

  /** A live sample's 2^53 + 1 and the 2^53 that a conversion made of it. */
  lemma LargeNumbersTakenForEqual()
    ensures ValuesEqual(Int(9007199254740993), Float(9007199254740992.0))
    ensures ValuesEqual(Int(9007199254740993), Int(9007199254740992))
  {
    FirstLost();
    KeptExactly(TWO_53);
    assert TWO_53 == 9007199254740992;
  }

  predicate SameShape(a: Json, b: Json) {
    (a.Obj? && b.Obj?) || (a.Arr? && b.Arr? && |a.items| == |b.items|)
  }

  // ---- The differing positions ----

  function LeafDiff(pos: Position, a: Json, b: Json): set<Position> {
    if IsIgnored(Render(pos)) || ValuesEqual(a, b) then {} else {pos}
  }

  /** The positions below pos where two values differ. A key present on one side only
      reads as nil on the other, and nil is never a container. */
  function DiffAt(pos: Position, a: Json, b: Json): set<Position>
    decreases a, 1
  {
    if IsIgnored(Render(pos)) then {}
    else if a.Obj? && b.Obj? then
      set k, p | k in a.fields.Keys + b.fields.Keys && p in FieldDiff(pos, a, b, k) :: p
    else if a.Arr? && b.Arr? && |a.items| == |b.items| then
      set i, p | 0 <= i < |a.items| && p in DiffAt(pos + [Index(i)], a.items[i], b.items[i]) :: p
    else LeafDiff(pos, a, b)
  }

  function FieldDiff(pos: Position, a: Json, b: Json, k: string): set<Position>
    requires a.Obj? && b.Obj?
    decreases a, 0
  {
    if k in a.fields && k in b.fields then DiffAt(pos + [Key(k)], a.fields[k], b.fields[k])
    else LeafDiff(pos + [Key(k)], Get(a.fields, k), Get(b.fields, k))
  }

  lemma FieldIsDiff(pos: Position, a: Json, b: Json, k: string)
    requires a.Obj? && b.Obj?
    ensures FieldDiff(pos, a, b, k) == DiffAt(pos + [Key(k)], Get(a.fields, k), Get(b.fields, k))
  {
  }

  // ---- What a differing position is ----

  /** The part of a value a segment leads to; nil where there is nothing. */
  function Child(v: Json, seg: Seg): Json {
    match seg
    case Key(k) => if v.Obj? then Get(v.fields, k) else Null
    case Index(i) => if v.Arr? && i < |v.items| then v.items[i] else Null
  }

  function At(v: Json, rest: Position): Json
    decreases |rest|
  {
    if rest == [] then v else At(Child(v, rest[0]), rest[1..])
  }

  predicate HasChild(v: Json, seg: Seg) {
    match seg
    case Key(k) => v.Obj? && k in v.fields
    case Index(i) => v.Arr? && i < |v.items|
  }

  /** The way to pos + rest is open at its j-th container. */
  ghost predicate Open(pos: Position, a: Json, b: Json, rest: Position, j: nat)
    requires j <= |rest|
  {
    && !IsIgnored(Render(pos + rest[..j]))
    && (j < |rest| ==>
          && SameShape(At(a, rest[..j]), At(b, rest[..j]))
          && (HasChild(At(a, rest[..j]), rest[j]) || HasChild(At(b, rest[..j]), rest[j])))
  }

  /** Both values have containers of the same shape at every step before the end, some
      side has the next segment, and nothing on the way is ignored. */
  ghost predicate Reaches(pos: Position, a: Json, b: Json, rest: Position) {
    forall j :: 0 <= j <= |rest| ==> Open(pos, a, b, rest, j)
  }

  /** The minimal differing positions: reached through matching containers, and unequal
      there. */
  ghost predicate Differs(pos: Position, a: Json, b: Json, rest: Position) {
    && Reaches(pos, a, b, rest)
    && !SameShape(At(a, rest), At(b, rest))
    && !ValuesEqual(At(a, rest), At(b, rest))
  }

  lemma ReachesStep(pos: Position, a: Json, b: Json, rest: Position)
    requires rest != []
    ensures Reaches(pos, a, b, rest) <==>
      && !IsIgnored(Render(pos)) && SameShape(a, b)
      && (HasChild(a, rest[0]) || HasChild(b, rest[0]))
      && Reaches(pos + [rest[0]], Child(a, rest[0]), Child(b, rest[0]), rest[1..])
  {
    hide Open;
    OpenFirst(pos, a, b, rest);
    forall j | 0 <= j < |rest|
      ensures Open(pos, a, b, rest, j + 1) == Open(pos + [rest[0]], Child(a, rest[0]), Child(b, rest[0]), rest[1..], j)
    {
      OpenNext(pos, a, b, rest, j);
    }
    if Reaches(pos + [rest[0]], Child(a, rest[0]), Child(b, rest[0]), rest[1..]) && Open(pos, a, b, rest, 0) {
      forall j | 0 <= j <= |rest| ensures Open(pos, a, b, rest, j) {
        if j > 0 {
          OpenNext(pos, a, b, rest, j - 1);
        }
      }
    }
  }

  lemma OpenFirst(pos: Position, a: Json, b: Json, rest: Position)
    ensures Open(pos, a, b, rest, 0) <==>
      !IsIgnored(Render(pos)) && (rest != [] ==> SameShape(a, b) && (HasChild(a, rest[0]) || HasChild(b, rest[0])))
  {
    hide IsIgnored, Render, SameShape, HasChild;
    assert pos + rest[..0] == pos && rest[..0] == [];
  }

  lemma OpenNext(pos: Position, a: Json, b: Json, rest: Position, j: nat)
    requires j < |rest|
    ensures Open(pos, a, b, rest, j + 1) == Open(pos + [rest[0]], Child(a, rest[0]), Child(b, rest[0]), rest[1..], j)
  {
    hide IsIgnored, Render, SameShape, HasChild, Child;
    var tail := rest[1..];
    assert rest[..j + 1] == [rest[0]] + tail[..j];
    assert pos + rest[..j + 1] == (pos + [rest[0]]) + tail[..j];
  }

  lemma ReachesEnd(pos: Position, a: Json, b: Json)
    ensures Reaches(pos, a, b, []) <==> !IsIgnored(Render(pos))
  {
    OpenFirst(pos, a, b, []);
  }

  lemma DiffersStep(pos: Position, a: Json, b: Json, seg: Seg, rest: Position)
    requires !IsIgnored(Render(pos)) && SameShape(a, b) && (HasChild(a, seg) || HasChild(b, seg))
    ensures Differs(pos, a, b, [seg] + rest) <==> Differs(pos + [seg], Child(a, seg), Child(b, seg), rest)
  {
    ReachesStep(pos, a, b, [seg] + rest);
    assert ([seg] + rest)[1..] == rest;
  }

  /** diffLeaves is exact: it lists the minimal differing positions and nothing else. */
  lemma {:induction false} DiffExactly(pos: Position, a: Json, b: Json, rest: Position)
    ensures pos + rest in DiffAt(pos, a, b) <==> Differs(pos, a, b, rest)
    decreases a, |rest|
  {
    if IsIgnored(Render(pos)) || !SameShape(a, b) {
      DiffExactlyAtLeaf(pos, a, b, rest);
    } else if rest == [] {
      NotItself(pos, a, b);
    } else {
      DiffExactlyBelow(pos, a, b, rest);
    }
  }

  lemma DiffExactlyAtLeaf(pos: Position, a: Json, b: Json, rest: Position)
    requires IsIgnored(Render(pos)) || !SameShape(a, b)
    ensures pos + rest in DiffAt(pos, a, b) <==> Differs(pos, a, b, rest)
  {
    if rest == [] {
      ReachesEnd(pos, a, b);
      assert pos + rest == pos;
    } else {
      ReachesStep(pos, a, b, rest);
      assert |pos + rest| > |pos|;
    }
  }

  /** Everything a subtree reports lies at or below it. */
  lemma {:induction false} DiffIsBelow(pos: Position, a: Json, b: Json, p: Position)
    requires p in DiffAt(pos, a, b)
    ensures pos <= p && (SameShape(a, b) ==> |p| > |pos|)
    decreases a
  {
    if !IsIgnored(Render(pos)) {
      if a.Obj? && b.Obj? {
        var k :| k in a.fields.Keys + b.fields.Keys && p in FieldDiff(pos, a, b, k);
        if k in a.fields && k in b.fields {
          DiffIsBelow(pos + [Key(k)], a.fields[k], b.fields[k], p);
        }
        assert pos + [Key(k)] <= p;
      } else if SameShape(a, b) {
        var i :| 0 <= i < |a.items| && p in DiffAt(pos + [Index(i)], a.items[i], b.items[i]);
        DiffIsBelow(pos + [Index(i)], a.items[i], b.items[i], p);
      }
    }
  }

  lemma NotItself(pos: Position, a: Json, b: Json)
    requires SameShape(a, b)
    ensures pos + [] !in DiffAt(pos, a, b) && !Differs(pos, a, b, [])
  {
    assert pos + [] == pos;
    if pos in DiffAt(pos, a, b) {
      DiffIsBelow(pos, a, b, pos);
    }
  }

  lemma {:induction false} DiffExactlyBelow(pos: Position, a: Json, b: Json, rest: Position)
    requires !IsIgnored(Render(pos)) && SameShape(a, b) && rest != []
    ensures pos + rest in DiffAt(pos, a, b) <==> Differs(pos, a, b, rest)
    decreases a, |rest|, 0
  {
    var seg, tail := rest[0], rest[1..];
    assert rest == [seg] + tail && pos + rest == (pos + [seg]) + tail;
    if HasChild(a, seg) || HasChild(b, seg) {
      DiffersStep(pos, a, b, seg, tail);
      if HasChild(a, seg) && HasChild(b, seg) {
        DiffExactly(pos + [seg], Child(a, seg), Child(b, seg), tail);
      } else {
        DiffExactlyAtLeaf(pos + [seg], Child(a, seg), Child(b, seg), tail);
      }
      if seg.Key? {
        FieldIsDiff(pos, a, b, seg.k);
      }
    } else {
      ReachesStep(pos, a, b, rest);
    }
    OnlyThrough(pos, a, b, rest);
  }

  lemma OnlyThrough(pos: Position, a: Json, b: Json, rest: Position)
    requires !IsIgnored(Render(pos)) && SameShape(a, b) && rest != []
    ensures pos + rest in DiffAt(pos, a, b) <==>
      && (HasChild(a, rest[0]) || HasChild(b, rest[0]))
      && pos + rest in DiffAt(pos + [rest[0]], Child(a, rest[0]), Child(b, rest[0]))
  {
    var p := pos + rest;
    assert p[|pos|] == rest[0];
    if p in DiffAt(pos, a, b) {
      if a.Obj? {
        var k :| k in a.fields.Keys + b.fields.Keys && p in FieldDiff(pos, a, b, k);
        FieldIsDiff(pos, a, b, k);
        DiffIsBelow(pos + [Key(k)], Get(a.fields, k), Get(b.fields, k), p);
        assert p[|pos|] == (pos + [Key(k)])[|pos|] == Key(k);
      } else {
        var i :| 0 <= i < |a.items| && p in DiffAt(pos + [Index(i)], a.items[i], b.items[i]);
        DiffIsBelow(pos + [Index(i)], a.items[i], b.items[i], p);
        assert p[|pos|] == (pos + [Index(i)])[|pos|] == Index(i);
      }
    }
    if (HasChild(a, rest[0]) || HasChild(b, rest[0])) && a.Obj? {
      FieldIsDiff(pos, a, b, rest[0].k);
    }
  }

  /** Swapping the two objects changes nothing. */
  lemma DiffSymmetric(pos: Position, a: Json, b: Json)
    ensures DiffAt(pos, a, b) == DiffAt(pos, b, a)
  {
    forall p ensures p in DiffAt(pos, a, b) <==> p in DiffAt(pos, b, a) {
      DiffMember(pos, a, b, p);
      DiffMember(pos, b, a, p);
    }
  }

  lemma DiffMember(pos: Position, a: Json, b: Json, p: Position)
    ensures p in DiffAt(pos, a, b) ==> p in DiffAt(pos, b, a)
  {
    if p in DiffAt(pos, a, b) {
      DiffIsBelow(pos, a, b, p);
      var rest := p[|pos|..];
      assert p == pos + rest;
      DiffExactly(pos, a, b, rest);
      DiffersSymmetric(pos, a, b, rest);
      DiffExactly(pos, b, a, rest);
    }
  }

  lemma DiffersSymmetric(pos: Position, a: Json, b: Json, rest: Position)
    requires Differs(pos, a, b, rest)
    ensures Differs(pos, b, a, rest)
  {
    forall j | 0 <= j <= |rest| ensures Open(pos, b, a, rest, j) {
      assert Open(pos, a, b, rest, j);
    }
  }

  // ---- Empty exactly when the objects agree ----

  /** What the comparison looks at: ignored parts and nil fields dropped, numbers as float64. */
  function Canon(pos: Position, v: Json): Json
    decreases v
  {
    if IsIgnored(Render(pos)) then Null
    else match v
      case Obj(fields) => Obj(map k | k in fields && !IsIgnored(Render(pos + [Key(k)])) && fields[k] != Null :: Canon(pos + [Key(k)], fields[k]))
      case Arr(items) => Arr(seq(|items|, i requires 0 <= i < |items| => Canon(pos + [Index(i)], items[i])))
      case Int(i) => Float(ToFloat64(i))
      case _ => v
  }

  lemma {:induction false} EmptyExactlyWhenAgree(pos: Position, a: Json, b: Json)
    ensures DiffAt(pos, a, b) == {} <==> Canon(pos, a) == Canon(pos, b)
    decreases a
  {
    if !IsIgnored(Render(pos)) && SameShape(a, b) {
      if a.Obj? {
        ObjectsAgree(pos, a, b);
      } else {
        ArraysAgree(pos, a, b);
      }
    } else if !IsIgnored(Render(pos)) {
      LeavesAgree(pos, a, b);
    }
  }

  /** The canonical form of one field: nil for a dropped or absent one. */
  function CanonField(pos: Position, v: Json, k: string): Json
    requires v.Obj?
  {
    Canon(pos + [Key(k)], Get(v.fields, k))
  }

  lemma FieldAgrees(pos: Position, a: Json, b: Json, k: string)
    requires a.Obj? && b.Obj?
    requires k in a.fields && k in b.fields ==>
      (DiffAt(pos + [Key(k)], a.fields[k], b.fields[k]) == {} <==> Canon(pos + [Key(k)], a.fields[k]) == Canon(pos + [Key(k)], b.fields[k]))
    ensures FieldDiff(pos, a, b, k) == {} <==> CanonField(pos, a, k) == CanonField(pos, b, k)
  {
  }

  lemma CanonFields(pos: Position, a: Json, b: Json)
    requires a.Obj? && b.Obj? && !IsIgnored(Render(pos))
    ensures Canon(pos, a) == Canon(pos, b) <==> forall k :: k in a.fields.Keys + b.fields.Keys ==> CanonField(pos, a, k) == CanonField(pos, b, k)
  {
    var c, d := Canon(pos, a).fields, Canon(pos, b).fields;
    forall k | k in a.fields.Keys + b.fields.Keys ensures CanonField(pos, a, k) == Get(c, k) && CanonField(pos, b, k) == Get(d, k) {
      CanonFieldIsGet(pos, a, k);
      CanonFieldIsGet(pos, b, k);
    }
    CanonDropsNull(pos, a);
    CanonDropsNull(pos, b);
    assert Canon(pos, a) == Obj(c) && Canon(pos, b) == Obj(d);
    SameGets(c, d, a.fields.Keys + b.fields.Keys);
  }

  lemma SameGets(c: map<string, Json>, d: map<string, Json>, keys: set<string>)
    requires c.Keys <= keys && d.Keys <= keys
    requires (forall k :: k in c ==> c[k] != Null) && (forall k :: k in d ==> d[k] != Null)
    ensures c == d <==> forall k :: k in keys ==> Get(c, k) == Get(d, k)
  {
    if forall k :: k in keys ==> Get(c, k) == Get(d, k) {
      forall k ensures (k in c <==> k in d) && (k in c ==> c[k] == d[k]) {
        assert k in keys ==> Get(c, k) == Get(d, k);
      }
      assert c == d;
    }
  }

  lemma CanonDropsNull(pos: Position, a: Json)
    requires a.Obj? && !IsIgnored(Render(pos))
    ensures forall k :: k in Canon(pos, a).fields ==> Canon(pos, a).fields[k] != Null
  {
    var c := Canon(pos, a).fields;
    forall k | k in c ensures c[k] != Null {
      assert c[k] == Canon(pos + [Key(k)], a.fields[k]);
    }
  }

  lemma LeavesAgree(pos: Position, a: Json, b: Json)
    requires !IsIgnored(Render(pos)) && !SameShape(a, b)
    ensures ValuesEqual(a, b) <==> Canon(pos, a) == Canon(pos, b)
  {
    var c, d := Canon(pos, a), Canon(pos, b);
    if a.Arr? && b.Arr? {
      assert |c.items| == |a.items| && |d.items| == |b.items|;
    }
    if IsNumber(a) {
      assert c == Float(AsFloat64(a));
    }
    if IsNumber(b) {
      assert d == Float(AsFloat64(b));
    }
  }

  lemma CanonFieldIsGet(pos: Position, a: Json, k: string)
    requires a.Obj? && !IsIgnored(Render(pos))
    ensures CanonField(pos, a, k) == Get(Canon(pos, a).fields, k)
  {
  }

  lemma {:induction false} ObjectsAgree(pos: Position, a: Json, b: Json)
    requires a.Obj? && b.Obj? && !IsIgnored(Render(pos))
    ensures DiffAt(pos, a, b) == {} <==> Canon(pos, a) == Canon(pos, b)
    decreases a, 0
  {
    forall k ensures FieldDiff(pos, a, b, k) == {} <==> CanonField(pos, a, k) == CanonField(pos, b, k) {
      if k in a.fields && k in b.fields {
        EmptyExactlyWhenAgree(pos + [Key(k)], a.fields[k], b.fields[k]);
      }
      FieldAgrees(pos, a, b, k);
    }
    CanonFields(pos, a, b);
    FieldsEmpty(pos, a, b);
  }

  lemma FieldsEmpty(pos: Position, a: Json, b: Json)
    requires a.Obj? && b.Obj? && !IsIgnored(Render(pos))
    ensures DiffAt(pos, a, b) == {} <==> forall k :: k in a.fields.Keys + b.fields.Keys ==> FieldDiff(pos, a, b, k) == {}
  {
    if DiffAt(pos, a, b) == {} {
      forall k | k in a.fields.Keys + b.fields.Keys ensures FieldDiff(pos, a, b, k) == {} {
        forall p ensures p !in FieldDiff(pos, a, b, k) {
          assert p !in DiffAt(pos, a, b);
        }
      }
    }
  }

  lemma {:induction false} ArraysAgree(pos: Position, a: Json, b: Json)
    requires a.Arr? && b.Arr? && |a.items| == |b.items| && !IsIgnored(Render(pos))
    ensures DiffAt(pos, a, b) == {} <==> Canon(pos, a) == Canon(pos, b)
    decreases a, 0
  {
    var c, d := Canon(pos, a).items, Canon(pos, b).items;
    forall i | 0 <= i < |a.items|
      ensures DiffAt(pos + [Index(i)], a.items[i], b.items[i]) == {} <==> c[i] == d[i]
    {
      EmptyExactlyWhenAgree(pos + [Index(i)], a.items[i], b.items[i]);
    }
    if DiffAt(pos, a, b) == {} {
      forall i | 0 <= i < |a.items| ensures c[i] == d[i] {
        forall p ensures p !in DiffAt(pos + [Index(i)], a.items[i], b.items[i]) {
          assert p !in DiffAt(pos, a, b);
        }
      }
      assert c == d;
    }
    if Canon(pos, a) == Canon(pos, b) {
      forall p ensures p !in DiffAt(pos, a, b) {
      }
    }
  }
}
