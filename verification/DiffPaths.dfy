/** The rendered diff: diffLeaves as it runs, when its strings are unambiguous, and how
    they are matched against declared lossy paths. */
module DiffPaths {
  import opened Ordering
  import opened Json
  import opened Diff

  // ---- Rendered positions are unambiguous ----

  predicate CleanKey(k: string) {
    k != "" && '.' !in k && '[' !in k
  }

  predicate CleanSeg(seg: Seg) {
    seg.Key? ==> CleanKey(seg.k)
  }

  predicate CleanPosition(p: Position) {
    forall i :: 0 <= i < |p| ==> CleanSeg(p[i])
  }

  /** The last occurrence of a character splits a string in one way only. */
  lemma LastSplit(x: string, k: string, y: string, l: string, c: char)
    requires c !in k && c !in l && x + [c] + k == y + [c] + l
    ensures x == y && k == l
  {
    var s := x + [c] + k;
    assert s[|x|] == c && s[|y|] == c;
    assert forall i :: |x| < i < |s| ==> s[i] == k[i - |x| - 1];
    assert forall i :: |y| < i < |s| ==> s[i] == l[i - |y| - 1];
    assert |x| == |y|;
    assert x == s[..|x|] == y;
    assert k == s[|x| + 1..] == l;
  }

  lemma {:induction false} DigitsInjective(m: nat, n: nat)
    requires Digits(m) == Digits(n)
    ensures m == n
    decreases m
  {
    var a, b := Digits(m), Digits(n);
    var c := a[|a| - 1];
    assert c == ('0' as int + m % 10) as char && c == ('0' as int + n % 10) as char;
    if m >= 10 && n >= 10 {
      assert a[..|a| - 1] == Digits(m / 10) && b[..|b| - 1] == Digits(n / 10);
      DigitsInjective(m / 10, n / 10);
    } else {
      DigitsLength(m);
      DigitsLength(n);
    }
  }

  lemma DigitsLength(n: nat)
    ensures |Digits(n)| == 1 <==> n < 10
  {
    if n >= 10 {
      assert |Digits(n / 10)| >= 1;
    }
  }

  /** k reads as a path with an index at its end. */
  ghost predicate EndsInIndex(k: string) {
    exists x, n :: k == Extend(x, Index(n))
  }

  /** k reads as a path of two keys. */
  predicate InnerDot(k: string) {
    exists i :: 0 < i < |k| - 1 && k[i] == '.'
  }

  /** No dot anywhere, and no index at the end; brackets elsewhere are harmless. */
  ghost predicate WholeKey(k: string) {
    k != "" && '.' !in k && !EndsInIndex(k)
  }

  ghost predicate WholeSeg(seg: Seg) {
    seg.Key? ==> WholeKey(seg.k)
  }

  ghost predicate WholePosition(p: Position) {
    forall i :: 0 <= i < |p| ==> WholeSeg(p[i])
  }

  lemma CleanIsWhole(p: Position)
    requires CleanPosition(p)
    ensures WholePosition(p)
  {
    forall i | 0 <= i < |p| ensures WholeSeg(p[i]) {
      assert CleanSeg(p[i]);
    }
  }

  predicate NonEmptyKeys(p: Position) {
    forall i :: 0 <= i < |p| && p[i].Key? ==> p[i].k != ""
  }

  lemma RenderEmpty(p: Position)
    requires NonEmptyKeys(p)
    ensures Render(p) == "" <==> p == []
  {
  }

  /** In a path ending in an index, its own bracket has no dot after it. */
  lemma IndexTail(y: string, i: nat)
    ensures var t := Extend(y, Index(i));
      && |y| < |t| && t[|y|] == '['
      && (forall j :: |y| <= j < |t| ==> t[j] != '.')
  {
    var t := Extend(y, Index(i));
    var d := Digits(i);
    assert forall j :: 0 <= j < |d| ==> d[j] in d;
    assert forall j :: |y| < j < |t| - 1 ==> t[j] == d[j - |y| - 1];
  }

  lemma KeyEndsInIndex(x: string, k: string, y: string, i: nat)
    requires '.' !in k && Extend(x, Key(k)) == Extend(y, Index(i))
    ensures EndsInIndex(k)
  {
    var s := Extend(x, Key(k));
    if x == "" {
      assert k == Extend(y, Index(i));
    } else {
      IndexTail(y, i);
      assert s[|x|] == '.';
      assert |x| < |y|;
      var tail, at := "[" + Digits(i) + "]", |x| + 1;
      assert s == y + tail;
      assert k == s[at..] == y[at..] + tail;
      assert Extend(y[at..], Index(i)) == y[at..] + tail;
      assert k == Extend(y[|x| + 1..], Index(i));
    }
  }

  lemma KeyIsNotIndex(x: string, k: string, y: string, i: nat)
    requires WholeKey(k)
    ensures Extend(x, Key(k)) != Extend(y, Index(i))
  {
    if Extend(x, Key(k)) == Extend(y, Index(i)) {
      KeyEndsInIndex(x, k, y, i);
    }
  }

  lemma ExtendInjective(x: string, a: Seg, y: string, b: Seg)
    requires WholeSeg(a) && WholeSeg(b) && Extend(x, a) == Extend(y, b)
    ensures a == b && x == y
  {
    match (a, b)
    case (Key(k), Key(l)) =>
      assert '.' !in k && '.' !in l;
      assert x == "" ==> '.' !in Extend(x, a);
      assert y == "" ==> '.' !in Extend(y, b);
      assert x != "" ==> Extend(x, a)[|x|] == '.';
      assert y != "" ==> Extend(y, b)[|y|] == '.';
      if x != "" && y != "" {
        LastSplit(x, k, y, l, '.');
      }
    case (Index(i), Index(j)) =>
      IndexInjective(x, i, y, j);
    case (Key(k), Index(i)) => KeyIsNotIndex(x, k, y, i);
    case (Index(i), Key(k)) => KeyIsNotIndex(y, k, x, i);
  }

  lemma IndexInjective(x: string, i: nat, y: string, j: nat)
    requires Extend(x, Index(i)) == Extend(y, Index(j))
    ensures x == y && i == j
  {
    assert x + "[" + Digits(i) + "]" == (x + ['['] + Digits(i)) + "]";
    assert y + "[" + Digits(j) + "]" == (y + ['['] + Digits(j)) + "]";
    var s := Extend(x, Index(i));
    assert s[..|s| - 1] == x + ['['] + Digits(i) == y + ['['] + Digits(j);
    LastSplit(x, Digits(i), y, Digits(j), '[');
    DigitsInjective(i, j);
  }

  /** With keys that are non-empty, free of dots and without an index at their end, no two
      positions render alike. */
  lemma {:induction false} RenderInjective(p: Position, q: Position)
    requires WholePosition(p) && WholePosition(q) && Render(p) == Render(q)
    ensures p == q
    decreases |p|
  {
    RenderEmpty(p);
    RenderEmpty(q);
    if p == [] {
    } else {
      var m, n := |p| - 1, |q| - 1;
      ExtendInjective(Render(p[..m]), p[m], Render(q[..n]), q[n]);
      RenderInjective(p[..m], q[..n]);
      assert p == p[..m] + [p[m]] && q == q[..n] + [q[n]];
    }
  }

  /** Another position renders to the same path. */
  ghost predicate Shared(p: Position) {
    exists q :: NonEmptyKeys(q) && q != p && Render(q) == Render(p)
  }

  /** Exactly which paths are ambiguous: an object's top-level key shares its path with
      another position if and only if it has an inner dot or an index at its end, and every
      deeper position shares its path with the key spelled like it. */
  lemma SharedExactly(p: Position)
    requires NonEmptyKeys(p)
    ensures Shared(p) <==> p != [] && (|p| == 1 && p[0].Key? ==> InnerDot(p[0].k) || EndsInIndex(p[0].k))
  {
    RenderEmpty(p);
    if p == [] {
      forall q | NonEmptyKeys(q) && Render(q) == Render(p) ensures q == p {
        RenderEmpty(q);
      }
    } else if |p| == 1 && p[0].Key? {
      assert p == [p[0]];
      SharedKey(p[0].k);
    } else {
      RenderKey(Render(p));
      assert NonEmptyKeys([Key(Render(p))]);
      assert [Key(Render(p))] != p;
    }
  }

  lemma RenderKey(k: string)
    ensures Render([Key(k)]) == k
  {
    assert [Key(k)][..0] == [];
  }

  lemma SharedKey(k: string)
    requires k != ""
    ensures Shared([Key(k)]) <==> InnerDot(k) || EndsInIndex(k)
  {
    RenderKey(k);
    if Shared([Key(k)]) {
      var q :| NonEmptyKeys(q) && q != [Key(k)] && Render(q) == k;
      SharedIsSplit(q, k);
    }
    if InnerDot(k) {
      DotShares(k);
    }
    if EndsInIndex(k) {
      var x, n :| k == Extend(x, Index(n));
      IndexShares(x, n);
    }
  }

  lemma DotShares(k: string)
    requires InnerDot(k)
    ensures Shared([Key(k)])
  {
    var i :| 0 < i < |k| - 1 && k[i] == '.';
    var q := [Key(k[..i]), Key(k[i + 1..])];
    RenderKey(k);
    RenderKey(k[..i]);
    assert q[..1] == [Key(k[..i])];
    assert Render(q) == k[..i] + "." + k[i + 1..] == k;
    assert NonEmptyKeys(q) && q != [Key(k)];
  }

  lemma IndexShares(x: string, n: nat)
    ensures Shared([Key(Extend(x, Index(n)))])
  {
    var k := Extend(x, Index(n));
    RenderKey(k);
    RenderKey(x);
    var q := if x == "" then [Index(n)] else [Key(x), Index(n)];
    assert q[..|q| - 1] == if x == "" then [] else [Key(x)];
    assert Render(q) == k;
    assert NonEmptyKeys(q) && q != [Key(k)];
  }

  lemma SharedIsSplit(q: Position, k: string)
    requires NonEmptyKeys(q) && Render(q) == k && k != "" && q != [Key(k)]
    ensures InnerDot(k) || EndsInIndex(k)
  {
    var m := |q| - 1;
    var x := Render(q[..m]);
    RenderEmpty(q[..m]);
    assert q == q[..m] + [q[m]];
    if q[m].Index? {
      assert k == Extend(x, Index(q[m].i));
    } else {
      assert q[m] == Key(q[m].k);
      assert k == Extend(x, q[m]);
      assert k[|x|] == '.';
    }
  }

  /** An empty key leaves no trace at all. */
  lemma {:induction false} EmptyKeyIsInvisible(p: Position)
    ensures Render([Key("")] + p) == Render(p)
    decreases |p|
  {
    var q := [Key("")] + p;
    if p == [] {
      RenderKey("");
      assert q == [Key("")];
    } else {
      assert q[..|q| - 1] == [Key("")] + p[..|p| - 1];
      EmptyKeyIsInvisible(p[..|p| - 1]);
    }
  }

  /** A dotted key is confused with a nested one, and a bracketed one with an array item. */
  lemma KeysCollide()
    ensures Render([Key("a.b")]) == Render([Key("a"), Key("b")])
    ensures Render([Key("[0]")]) == Render([Index(0)])
    ensures Render([Key(""), Key("a")]) == Render([Key("a")]) && Render([Key("")]) == Render([])
  {
    RenderKey("a.b");
    RenderKey("a");
    assert [Key("a"), Key("b")][..1] == [Key("a")];
    RenderKey("[0]");
    assert [Index(0)][..0] == [];
    assert Digits(0) == "0";
    EmptyKeyIsInvisible([Key("a")]);
    assert [Key("")] + [Key("a")] == [Key(""), Key("a")];
    RenderKey("");
  }

  ghost predicate Clean(v: Json)
    decreases v
  {
    match v
    case Obj(fields) => forall k :: k in fields ==> CleanKey(k) && Clean(fields[k])
    case Arr(items) => forall i :: 0 <= i < |items| ==> Clean(items[i])
    case _ => true
  }

  lemma CleanLeaf(pos: Position, k: string, a: Json, b: Json, p: Position)
    requires CleanPosition(pos) && CleanKey(k) && p in LeafDiff(pos + [Key(k)], a, b)
    ensures CleanPosition(p)
  {
  }

  lemma {:induction false} CleanDiff(pos: Position, a: Json, b: Json, p: Position)
    requires CleanPosition(pos) && Clean(a) && Clean(b) && p in DiffAt(pos, a, b)
    ensures CleanPosition(p)
    decreases a
  {
    if !IsIgnored(Render(pos)) {
      if a.Obj? && b.Obj? {
        var k :| k in a.fields.Keys + b.fields.Keys && p in FieldDiff(pos, a, b, k);
        if k in a.fields && k in b.fields {
          CleanDiff(pos + [Key(k)], a.fields[k], b.fields[k], p);
        } else {
          CleanLeaf(pos, k, Get(a.fields, k), Get(b.fields, k), p);
        }
      } else if SameShape(a, b) {
        var i :| 0 <= i < |a.items| && p in DiffAt(pos + [Index(i)], a.items[i], b.items[i]);
        CleanDiff(pos + [Index(i)], a.items[i], b.items[i], p);
      }
    }
  }

  /** What two objects differ in starts with one of their keys. */
  lemma DiffStartsWithKey(a: map<string, Json>, b: map<string, Json>, p: Position)
    requires p in DiffAt([], Obj(a), Obj(b))
    ensures p != [] && p[0].Key?
  {
    DiffIsBelow([], Obj(a), Obj(b), p);
    OnlyThrough([], Obj(a), Obj(b), p);
    assert [] + p == p;
  }

  // ---- diffLeaves as it runs ----

  function Rendered(at: seq<Position>): (out: seq<string>)
    ensures |out| == |at| && forall i :: 0 <= i < |at| ==> out[i] == Render(at[i])
  {
    seq(|at|, i requires 0 <= i < |at| => Render(at[i]))
  }

  ghost predicate Lists(at: seq<Position>, ps: set<Position>) {
    && (forall i, j :: 0 <= i < j < |at| ==> at[i] != at[j])
    && (forall p :: p in at <==> p in ps)
  }

  lemma ListsAppend(at: seq<Position>, ps: set<Position>, more: seq<Position>, qs: set<Position>)
    requires Lists(at, ps) && Lists(more, qs) && ps !! qs
    ensures Lists(at + more, ps + qs) && Rendered(at + more) == Rendered(at) + Rendered(more)
  {
    forall i, j | 0 <= i < j < |at + more| ensures (at + more)[i] != (at + more)[j] {
      if i < |at| <= j {
        assert at[i] in ps && more[j - |at|] in qs;
      }
    }
  }

  method DiffLeaf(path: string, ghost pos: Position, a: Json, b: Json, before: seq<string>)
    returns (out: seq<string>, ghost at: seq<Position>)
    requires path == Render(pos)
    ensures Lists(at, LeafDiff(pos, a, b)) && out == before + Rendered(at)
  {
    out, at := before, [];
    if !IsIgnored(path) && !ValuesEqual(a, b) {
      out := out + [path];
      at := [pos];
    }
  }

  lemma FieldsApart(pos: Position, a: Json, b: Json, k: string, l: string)
    requires a.Obj? && b.Obj? && k != l
    ensures FieldDiff(pos, a, b, k) !! FieldDiff(pos, a, b, l)
  {
    FieldIsDiff(pos, a, b, k);
    FieldIsDiff(pos, a, b, l);
    forall p ensures p !in FieldDiff(pos, a, b, k) || p !in FieldDiff(pos, a, b, l) {
      DiffBelowSeg(pos, Key(k), Get(a.fields, k), Get(b.fields, k), p);
      DiffBelowSeg(pos, Key(l), Get(a.fields, l), Get(b.fields, l), p);
    }
  }

  lemma DiffBelowSeg(pos: Position, seg: Seg, a: Json, b: Json, p: Position)
    ensures p in DiffAt(pos + [seg], a, b) ==> |p| > |pos| && p[|pos|] == seg
  {
    if p in DiffAt(pos + [seg], a, b) {
      DiffIsBelow(pos + [seg], a, b, p);
      assert p[|pos|] == (pos + [seg])[|pos|];
    }
  }

  function FieldsDiff(pos: Position, a: Json, b: Json, keys: set<string>): set<Position>
    requires a.Obj? && b.Obj?
  {
    set k, p | k in keys && p in FieldDiff(pos, a, b, k) :: p
  }

  lemma FieldsDiffMore(pos: Position, a: Json, b: Json, done: set<string>, k: string)
    requires a.Obj? && b.Obj? && k !in done
    ensures FieldsDiff(pos, a, b, done + {k}) == FieldsDiff(pos, a, b, done) + FieldDiff(pos, a, b, k)
    ensures FieldsDiff(pos, a, b, done) !! FieldDiff(pos, a, b, k)
  {
    forall l | l in done ensures FieldDiff(pos, a, b, l) !! FieldDiff(pos, a, b, k) {
      FieldsApart(pos, a, b, l, k);
    }
  }

  function ItemsDiff(pos: Position, a: Json, b: Json, n: nat): set<Position>
    requires a.Arr? && b.Arr? && |a.items| == |b.items| && n <= |a.items|
  {
    set i, p | 0 <= i < n && p in DiffAt(pos + [Index(i)], a.items[i], b.items[i]) :: p
  }

  lemma ItemsDiffMore(pos: Position, a: Json, b: Json, n: nat)
    requires a.Arr? && b.Arr? && |a.items| == |b.items| && n < |a.items|
    ensures ItemsDiff(pos, a, b, n + 1) == ItemsDiff(pos, a, b, n) + DiffAt(pos + [Index(n)], a.items[n], b.items[n])
    ensures ItemsDiff(pos, a, b, n) !! DiffAt(pos + [Index(n)], a.items[n], b.items[n])
  {
    forall p | p in ItemsDiff(pos, a, b, n) ensures p !in DiffAt(pos + [Index(n)], a.items[n], b.items[n]) {
      var i :| 0 <= i < n && p in DiffAt(pos + [Index(i)], a.items[i], b.items[i]);
      DiffBelowSeg(pos, Index(i), a.items[i], b.items[i], p);
      DiffBelowSeg(pos, Index(n), a.items[n], b.items[n], p);
    }
  }

  /** The recursive walk. */
  method DiffInto(path: string, ghost pos: Position, a: Json, b: Json, before: seq<string>)
    returns (out: seq<string>, ghost at: seq<Position>)
    requires path == Render(pos)
    ensures Lists(at, DiffAt(pos, a, b)) && out == before + Rendered(at)
    decreases a, 2
  {
    out, at := before, [];
    if !IsIgnored(path) {
      if a.Obj? && b.Obj? {
        out, at := DiffFields(path, pos, a, b, before);
      } else if a.Arr? && b.Arr? && |a.items| == |b.items| {
        out, at := DiffItems(path, pos, a, b, before);
      } else {
        out, at := DiffLeaf(path, pos, a, b, before);
      }
    }
  }

  /** The keys of a Go map come in any order. */
  method DiffFields(path: string, ghost pos: Position, a: Json, b: Json, before: seq<string>)
    returns (out: seq<string>, ghost at: seq<Position>)
    requires path == Render(pos) && !IsIgnored(path) && a.Obj? && b.Obj?
    ensures Lists(at, DiffAt(pos, a, b)) && out == before + Rendered(at)
    decreases a, 1
  {
    hide DiffAt, FieldDiff, IsIgnored, Render;
    out, at := before, [];
    var keys := a.fields.Keys + b.fields.Keys;
    ghost var done: set<string> := {};
    while keys != {}
      invariant keys + done == a.fields.Keys + b.fields.Keys && keys !! done
      invariant Lists(at, FieldsDiff(pos, a, b, done)) && out == before + Rendered(at)
      decreases |keys|
    {
      var k :| k in keys;
      ghost var more;
      out, more := DiffField(path, pos, a, b, k, out);
      ListsField(pos, a, b, done, k, at, more);
      at := at + more;
      keys, done := keys - {k}, done + {k};
    }
    AllFields(pos, a, b, done);
  }

  lemma ListsField(pos: Position, a: Json, b: Json, done: set<string>, k: string, at: seq<Position>, more: seq<Position>)
    requires a.Obj? && b.Obj? && k !in done
    requires Lists(at, FieldsDiff(pos, a, b, done)) && Lists(more, FieldDiff(pos, a, b, k))
    ensures Lists(at + more, FieldsDiff(pos, a, b, done + {k})) && Rendered(at + more) == Rendered(at) + Rendered(more)
  {
    FieldsDiffMore(pos, a, b, done, k);
    ListsAppend(at, FieldsDiff(pos, a, b, done), more, FieldDiff(pos, a, b, k));
  }

  method DiffField(path: string, ghost pos: Position, a: Json, b: Json, k: string, before: seq<string>)
    returns (out: seq<string>, ghost at: seq<Position>)
    requires path == Render(pos) && a.Obj? && b.Obj?
    ensures Lists(at, FieldDiff(pos, a, b, k)) && out == before + Rendered(at)
    decreases a, 0
  {
    RenderMore(pos, Key(k));
    if k in a.fields && k in b.fields {
      out, at := DiffInto(JoinPath(path, k), pos + [Key(k)], a.fields[k], b.fields[k], before);
    } else {
      out, at := DiffLeaf(JoinPath(path, k), pos + [Key(k)], Get(a.fields, k), Get(b.fields, k), before);
    }
  }

  lemma RenderMore(pos: Position, seg: Seg)
    ensures Render(pos + [seg]) == Extend(Render(pos), seg)
  {
    assert (pos + [seg])[..|pos|] == pos;
  }

  lemma AllFields(pos: Position, a: Json, b: Json, done: set<string>)
    requires a.Obj? && b.Obj? && !IsIgnored(Render(pos)) && done == a.fields.Keys + b.fields.Keys
    ensures FieldsDiff(pos, a, b, done) == DiffAt(pos, a, b)
  {
  }

  method DiffItems(path: string, ghost pos: Position, a: Json, b: Json, before: seq<string>)
    returns (out: seq<string>, ghost at: seq<Position>)
    requires path == Render(pos) && !IsIgnored(path) && a.Arr? && b.Arr? && |a.items| == |b.items|
    ensures Lists(at, DiffAt(pos, a, b)) && out == before + Rendered(at)
    decreases a, 0
  {
    hide DiffAt, IsIgnored, Render;
    out, at := before, [];
    for i := 0 to |a.items|
      invariant Lists(at, ItemsDiff(pos, a, b, i)) && out == before + Rendered(at)
    {
      ghost var more: seq<Position>;
      RenderMore(pos, Index(i));
      out, more := DiffInto(path + "[" + Digits(i) + "]", pos + [Index(i)], a.items[i], b.items[i], out);
      ItemsDiffMore(pos, a, b, i);
      ListsAppend(at, ItemsDiff(pos, a, b, i), more, DiffAt(pos + [Index(i)], a.items[i], b.items[i]));
      at := at + more;
    }
    AllItems(pos, a, b);
  }

  lemma AllItems(pos: Position, a: Json, b: Json)
    requires a.Arr? && b.Arr? && |a.items| == |b.items| && !IsIgnored(Render(pos))
    ensures ItemsDiff(pos, a, b, |a.items|) == DiffAt(pos, a, b)
  {
  }

  function RenderAll(ps: set<Position>): set<string> {
    set p | p in ps :: Render(p)
  }

  /** The report of two objects: one entry per differing position, ascending; with clean
      keys exactly the set of differing paths, none twice. */
  method DiffLeaves(a: map<string, Json>, b: map<string, Json>) returns (out: seq<string>)
    ensures AscendingBy(Itself, out) && |out| == |DiffAt([], Obj(a), Obj(b))|
    ensures forall s :: s in out <==> s in RenderAll(DiffAt([], Obj(a), Obj(b)))
    ensures Clean(Obj(a)) && Clean(Obj(b)) ==> out == SortedKeys(RenderAll(DiffAt([], Obj(a), Obj(b))))
  {
    ghost var at;
    out, at := DiffInto("", [], Obj(a), Obj(b), []);
    ghost var ps := DiffAt([], Obj(a), Obj(b));
    assert out == Rendered(at);
    ListsCount(at, ps);
    forall s ensures s in out <==> s in RenderAll(ps) {
      RenderedMember(at, ps, s);
    }
    if Clean(Obj(a)) && Clean(Obj(b)) {
      CleanIsDistinct(Obj(a), Obj(b), at);
      SortDistinctStrings(out, RenderAll(ps));
    }
    SortByAscends(Itself, out);
    out := SortBy(Itself, out);
  }

  lemma CleanIsDistinct(a: Json, b: Json, at: seq<Position>)
    requires Clean(a) && Clean(b) && Lists(at, DiffAt([], a, b))
    ensures forall i, j :: 0 <= i < j < |at| ==> Rendered(at)[i] != Rendered(at)[j]
  {
    forall i, j | 0 <= i < j < |at| ensures Render(at[i]) != Render(at[j]) {
      assert at[i] in at && at[j] in at;
      CleanDiff([], a, b, at[i]);
      CleanDiff([], a, b, at[j]);
      CleanIsWhole(at[i]);
      CleanIsWhole(at[j]);
      if Render(at[i]) == Render(at[j]) {
        RenderInjective(at[i], at[j]);
      }
    }
  }

  lemma RenderedMember(at: seq<Position>, ps: set<Position>, s: string)
    requires Lists(at, ps)
    ensures s in Rendered(at) <==> s in RenderAll(ps)
  {
    if s in Rendered(at) {
      var i :| 0 <= i < |at| && Rendered(at)[i] == s;
      assert at[i] in ps;
    }
    if s in RenderAll(ps) {
      var p :| p in ps && s == Render(p);
      var i :| 0 <= i < |at| && at[i] == p;
      assert Rendered(at)[i] == s;
    }
  }

  lemma {:induction false} ListsCount(at: seq<Position>, ps: set<Position>)
    requires Lists(at, ps)
    ensures |at| == |ps|
    decreases |at|
  {
    if at == [] {
      assert ps == {};
    } else {
      var n := |at| - 1;
      assert at == at[..n] + [at[n]];
      assert Lists(at[..n], ps - {at[n]}) by {
        forall p ensures p in at[..n] <==> p in ps - {at[n]} {
          assert p in at <==> p in at[..n] || p == at[n];
        }
      }
      ListsCount(at[..n], ps - {at[n]});
      assert at[n] in at;
    }
  }

  // ---- Matching a reported path against declared ones ----

  /** The scan of stripArrayIndices as a two-state machine: bracketed says whether the
      scan is inside a bracket. */
  function StripFrom(s: string, bracketed: bool): string {
    if s == "" then ""
    else if bracketed then StripFrom(s[1..], s[0] != ']')
    else if s[0] == '[' then StripFrom(s[1..], true)
    else [s[0]] + StripFrom(s[1..], false)
  }

  function Strip(path: string): string {
    StripFrom(path, false)
  }

  function EndsBracketed(s: string, bracketed: bool): bool {
    if s == "" then bracketed
    else if bracketed then EndsBracketed(s[1..], s[0] != ']')
    else EndsBracketed(s[1..], s[0] == '[')
  }

  method StripArrayIndices(path: string) returns (b: string)
    ensures b == Strip(path)
  {
    b := "";
    var i := 0;
    while i < |path|
      invariant 0 <= i <= |path|
      invariant b + StripFrom(path[i..], false) == Strip(path)
      decreases |path| - i
    {
      assert path[i..][1..] == path[i + 1..];
      if path[i] == '[' {
        i := i + 1;
        while i < |path| && path[i] != ']'
          invariant 0 < i <= |path|
          invariant b + StripFrom(path[i..], true) == Strip(path)
          decreases |path| - i
        {
          assert path[i..][1..] == path[i + 1..];
          i := i + 1;
        }
        if i < |path| {
          assert path[i..][1..] == path[i + 1..];
          i := i + 1;
        }
      } else {
        b := b + [path[i]];
        i := i + 1;
      }
    }
  }

  lemma {:induction false} StripAppend(x: string, y: string, bracketed: bool)
    ensures StripFrom(x + y, bracketed) == StripFrom(x, bracketed) + StripFrom(y, EndsBracketed(x, bracketed))
    ensures EndsBracketed(x + y, bracketed) == EndsBracketed(y, EndsBracketed(x, bracketed))
    decreases |x|
  {
    if x == "" {
      assert x + y == y;
    } else {
      assert (x + y)[1..] == x[1..] + y;
      StripAppend(x[1..], y, if bracketed then x[0] != ']' else x[0] == '[');
    }
  }

  lemma {:induction false} StripPlain(k: string)
    requires '[' !in k
    ensures Strip(k) == k && !EndsBracketed(k, false)
  {
    if k == "" {
    } else {
      StripPlain(k[1..]);
    }
  }

  lemma {:induction false} StripDigits(d: string)
    requires forall c :: c in d ==> '0' <= c <= '9'
    ensures StripFrom(d + "]", true) == "" && !EndsBracketed(d + "]", true)
    decreases |d|
  {
    if d == "" {
      assert d + "]" == "]";
    } else {
      assert (d + "]")[1..] == d[1..] + "]";
      assert d[0] in d;
      forall c | c in d[1..] ensures '0' <= c <= '9' {
        assert c in d;
      }
      StripDigits(d[1..]);
    }
  }

  lemma StripIndex(i: nat)
    ensures Strip("[" + Digits(i) + "]") == "" && !EndsBracketed("[" + Digits(i) + "]", false)
  {
    assert ("[" + Digits(i) + "]")[1..] == Digits(i) + "]";
    StripDigits(Digits(i));
  }

  /** The keys on the way to a position. */
  function KeysOf(p: Position): seq<string> {
    if p == [] then []
    else
      var init := KeysOf(p[..|p| - 1]);
      match p[|p| - 1]
      case Key(k) => init + [k]
      case Index(_) => init
  }

  function Join(segs: seq<string>): string {
    if segs == [] then "" else JoinPath(Join(segs[..|segs| - 1]), segs[|segs| - 1])
  }

  lemma StripKey(x: string, k: string)
    requires CleanKey(k) && !EndsBracketed(x, false)
    ensures Strip(x + "." + k) == Strip(x) + "." + k && !EndsBracketed(x + "." + k, false)
    ensures Strip(k) == k && !EndsBracketed(k, false)
  {
    StripPlain(k);
    StripPlain("." + k);
    StripAppend(x, "." + k, false);
    assert x + ("." + k) == x + "." + k;
  }

  lemma StripSuffix(x: string, i: nat)
    requires !EndsBracketed(x, false)
    ensures Strip(x + "[" + Digits(i) + "]") == Strip(x) && !EndsBracketed(x + "[" + Digits(i) + "]", false)
  {
    StripIndex(i);
    StripAppend(x, "[" + Digits(i) + "]", false);
    assert x + ("[" + Digits(i) + "]") == x + "[" + Digits(i) + "]";
  }

  /** A position in an object starts with a key. */
  ghost predicate FromObject(p: Position) {
    p == [] || p[0].Key?
  }

  lemma {:induction false} HasKeys(p: Position)
    requires CleanPosition(p) && FromObject(p)
    ensures KeysOf(p) == [] <==> p == []
    ensures Join(KeysOf(p)) == "" <==> p == []
    decreases |p|
  {
    if p == [] {
    } else {
      HasKeys(p[..|p| - 1]);
      if p[|p| - 1].Key? {
        assert KeysOf(p)[..|KeysOf(p)| - 1] == KeysOf(p[..|p| - 1]);
      }
    }
  }

  /** Stripping a rendered position leaves the dotted keys. */
  lemma {:induction false} StripRendered(p: Position)
    requires CleanPosition(p) && FromObject(p)
    ensures Strip(Render(p)) == Join(KeysOf(p)) && !EndsBracketed(Render(p), false)
    decreases |p|
  {
    if p == [] {
    } else {
      var init := p[..|p| - 1];
      StripRendered(init);
      match p[|p| - 1]
      case Index(i) => StripSuffix(Render(init), i);
      case Key(k) =>
        StripKey(Render(init), k);
        HasKeys(init);
        RenderEmpty(init);
        assert KeysOf(p)[..|KeysOf(p)| - 1] == KeysOf(init);
    }
  }

  function Split(s: string): (segs: seq<string>)
    ensures segs != []
  {
    if s == "" then [""]
    else
      var rest := Split(s[1..]);
      if s[0] == '.' then [""] + rest else [[s[0]] + rest[0]] + rest[1..]
  }

  lemma {:induction false} SplitPlain(k: string)
    requires '.' !in k
    ensures Split(k) == [k]
  {
    if k == "" {
    } else {
      SplitPlain(k[1..]);
      assert [k[0]] + k[1..] == k;
    }
  }

  lemma {:induction false} SplitDot(x: string, k: string)
    requires '.' !in k
    ensures Split(x + "." + k) == Split(x) + [k]
    decreases |x|
  {
    if x == "" {
      SplitPlain(k);
      assert (x + "." + k)[1..] == k;
    } else {
      SplitDot(x[1..], k);
      assert (x + "." + k)[1..] == x[1..] + "." + k;
      var rest := Split(x[1..]);
      if x[0] != '.' {
        assert (rest + [k])[0] == rest[0] && (rest + [k])[1..] == rest[1..] + [k];
      }
    }
  }

  ghost predicate CleanKeys(keys: seq<string>) {
    forall i :: 0 <= i < |keys| ==> CleanKey(keys[i])
  }

  lemma {:induction false} SplitJoin(keys: seq<string>)
    requires CleanKeys(keys) && keys != []
    ensures Split(Join(keys)) == keys && Join(keys) != ""
    decreases |keys|
  {
    var n := |keys| - 1;
    if n == 0 {
      SplitPlain(keys[0]);
      assert keys[..0] == [];
    } else {
      SplitJoin(keys[..n]);
      SplitDot(Join(keys[..n]), keys[n]);
      assert keys == keys[..n] + [keys[n]];
    }
  }

  lemma {:induction false} KeysAreClean(p: Position)
    requires CleanPosition(p)
    ensures CleanKeys(KeysOf(p))
    decreases |p|
  {
    if p == [] {
    } else {
      KeysAreClean(p[..|p| - 1]);
    }
  }

  /** Some prefix of the dotted path, indices stripped, is declared. */
  predicate Covers(path: string, declared: set<string>) {
    exists i :: 0 < i <= |Split(Strip(path))| && Join(Split(Strip(path))[..i]) in declared
  }

  method PathMatchesAny(path: string, declared: set<string>) returns (found: bool)
    ensures found == Covers(path, declared)
  {
    if declared == {} {
      return false;
    }
    var stripped := StripArrayIndices(path);
    var segs := Split(stripped);
    var i := |segs|;
    while i > 0
      invariant 0 <= i <= |segs|
      invariant forall j :: i < j <= |segs| ==> Join(segs[..j]) !in declared
    {
      if Join(segs[..i]) in declared {
        return true;
      }
      i := i - 1;
    }
    found := false;
  }

  /** A reported position is covered by a declared path exactly when that path is the
      position's own dotted keys or those of an ancestor, whatever the array indices. */
  lemma CoveredExactly(p: Position, declared: set<string>)
    requires CleanPosition(p) && FromObject(p) && p != []
    ensures Covers(Render(p), declared) <==>
      exists keys :: keys != [] && keys <= KeysOf(p) && Join(keys) in declared
  {
    StripRendered(p);
    HasKeys(p);
    KeysAreClean(p);
    SplitJoin(KeysOf(p));
    PrefixCovers(KeysOf(p), declared);
    assert Split(Strip(Render(p))) == KeysOf(p);
  }

  lemma PrefixCovers(all: seq<string>, declared: set<string>)
    ensures (exists i :: 0 < i <= |all| && Join(all[..i]) in declared) <==>
      exists keys :: keys != [] && keys <= all && Join(keys) in declared
  {
    if i :| 0 < i <= |all| && Join(all[..i]) in declared {
      assert all[..i] <= all && all[..i] != [];
    }
    if keys :| keys != [] && keys <= all && Join(keys) in declared {
      assert keys == all[..|keys|];
    }
  }

  /** So a declared path covers its whole subtree and nothing outside it. */
  lemma JoinInjective(x: seq<string>, y: seq<string>)
    requires CleanKeys(x) && CleanKeys(y) && x != [] && y != [] && Join(x) == Join(y)
    ensures x == y
  {
    SplitJoin(x);
    SplitJoin(y);
  }
}
