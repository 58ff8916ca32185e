/** The edit distance behind internal/cli/suggest.go's name similarity. */
module Levenshtein {

  function Min(x: nat, y: nat): nat {
    if x <= y then x else y
  }

  function Max(x: nat, y: nat): nat {
    if x <= y then y else x
  }

  /** The cell the two-row table fills for two prefixes. */
  function Dist(a: string, b: string): nat
    decreases |a| + |b|
  {
    if a == "" then |b|
    else if b == "" then |a|
    else
      var a', b' := a[..|a| - 1], b[..|b| - 1];
      var cost := if a[|a| - 1] == b[|b| - 1] then 0 else 1;
      Min(Dist(a', b) + 1, Min(Dist(a, b') + 1, Dist(a', b') + cost))
  }

  method Distance(a: string, b: string) returns (d: nat)
    ensures d == Dist(a, b)
  {
    hide Dist;
    var prev := new nat[|b| + 1];
    var cur := new nat[|b| + 1];
    for j := 0 to |b| + 1
      invariant forall k :: 0 <= k < j ==> prev[k] == Dist(a[..0], b[..k])
    {
      prev[j] := j;
      Edge(a, b[..j]);
    }
    for i := 1 to |a| + 1
      invariant prev != cur && prev.Length == |b| + 1 && cur.Length == |b| + 1
      invariant fresh(prev) && fresh(cur)
      invariant forall k :: 0 <= k <= |b| ==> prev[k] == Dist(a[..i - 1], b[..k])
    {
      cur[0] := i;
      Edge(a[..i], b);
      for j := 1 to |b| + 1
        invariant forall k :: 0 <= k <= |b| ==> prev[k] == Dist(a[..i - 1], b[..k])
        invariant forall k :: 0 <= k < j ==> cur[k] == Dist(a[..i], b[..k])
      {
        var cost := 1;
        if a[i - 1] == b[j - 1] {
          cost := 0;
        }
        Cell(a, b, i, j);
        cur[j] := Min(prev[j] + 1, Min(cur[j - 1] + 1, prev[j - 1] + cost));
      }
      prev, cur := cur, prev;
    }
    assert a[..|a|] == a && b[..|b|] == b;
    d := prev[|b|];
  }

  lemma Edge(a: string, b: string)
    ensures Dist(a, b[..0]) == |a| && Dist(a[..0], b) == |b|
  {
  }

  lemma Cell(a: string, b: string, i: nat, j: nat)
    requires 0 < i <= |a| && 0 < j <= |b|
    ensures Dist(a[..i], b[..j]) ==
      Min(Dist(a[..i - 1], b[..j]) + 1,
          Min(Dist(a[..i], b[..j - 1]) + 1, Dist(a[..i - 1], b[..j - 1]) + if a[i - 1] == b[j - 1] then 0 else 1))
  {
    assert a[..i][..i - 1] == a[..i - 1] && b[..j][..j - 1] == b[..j - 1];
  }

  // ---- Edit scripts ----

  datatype Edit =
    | Keep(c: char)
    | Replace(was: char, now: char)
    | Delete(was: char)
    | Insert(now: char)

  type Script = seq<Edit>

  function Takes(e: Edit): string {
    match e
    case Keep(c) => [c]
    case Replace(was, _) => [was]
    case Delete(was) => [was]
    case Insert(_) => ""
  }

  function Gives(e: Edit): string {
    match e
    case Keep(c) => [c]
    case Replace(_, now) => [now]
    case Delete(_) => ""
    case Insert(now) => [now]
  }

  function Source(s: Script): string {
    if s == [] then "" else Source(s[..|s| - 1]) + Takes(s[|s| - 1])
  }

  function Result(s: Script): string {
    if s == [] then "" else Result(s[..|s| - 1]) + Gives(s[|s| - 1])
  }

  function Cost(s: Script): nat {
    if s == [] then 0 else Cost(s[..|s| - 1]) + if s[|s| - 1].Keep? then 0 else 1
  }

  ghost predicate Edits(s: Script, a: string, b: string) {
    Source(s) == a && Result(s) == b
  }

  lemma Snoc(s: Script, e: Edit)
    ensures Source(s + [e]) == Source(s) + Takes(e)
    ensures Result(s + [e]) == Result(s) + Gives(e)
    ensures Cost(s + [e]) == Cost(s) + if e.Keep? then 0 else 1
  {
    assert (s + [e])[..|s|] == s;
  }

  /** Some script turns a into b at exactly the computed cost. */
  lemma {:induction false} Achieved(a: string, b: string) returns (s: Script)
    ensures Edits(s, a, b) && Cost(s) == Dist(a, b)
    decreases |a| + |b|
  {
    if a == "" && b == "" {
      s := [];
    } else {
      var e := LastEdit(a, b);
      var t := Achieved(a[..|a| - |Takes(e)|], b[..|b| - |Gives(e)|]);
      Snoc(t, e);
      s := t + [e];
    }
  }

  /** The move that the minimum in the last cell comes from. */
  lemma LastEdit(a: string, b: string) returns (e: Edit)
    requires a != "" || b != ""
    ensures |Takes(e)| <= |a| && |Gives(e)| <= |b| && |Takes(e)| + |Gives(e)| > 0
    ensures a == a[..|a| - |Takes(e)|] + Takes(e) && b == b[..|b| - |Gives(e)|] + Gives(e)
    ensures Dist(a, b) == Dist(a[..|a| - |Takes(e)|], b[..|b| - |Gives(e)|]) + if e.Keep? then 0 else 1
  {
    var m, n := |a| - 1, |b| - 1;
    if a == "" {
      e := Insert(b[n]);
    } else if b == "" {
      e := Delete(a[m]);
    } else if Dist(a, b) == Dist(a[..m], b) + 1 {
      e := Delete(a[m]);
      assert b[..|b|] == b;
    } else if Dist(a, b) == Dist(a, b[..n]) + 1 {
      e := Insert(b[n]);
      assert a[..|a|] == a;
    } else {
      e := if a[m] == b[n] then Keep(a[m]) else Replace(a[m], b[n]);
      assert a == a[..m] + [a[m]] && b == b[..n] + [b[n]];
      assert |Takes(e)| == 1 && |Gives(e)| == 1;
    }
  }

  lemma DistSteps(a: string, b: string, c: char, d: char)
    ensures Dist(a + [c], b) <= Dist(a, b) + 1
    ensures Dist(a, b + [d]) <= Dist(a, b) + 1
    ensures Dist(a + [c], b + [d]) <= Dist(a, b) + if c == d then 0 else 1
  {
    assert (a + [c])[..|a|] == a && (b + [d])[..|b|] == b;
  }

  /** No script turns a into b for less. */
  lemma {:induction false} NeverCheaper(s: Script)
    ensures Cost(s) >= Dist(Source(s), Result(s))
    decreases |s|
  {
    hide Takes, Gives;
    if s == [] {
    } else {
      var init, e := s[..|s| - 1], s[|s| - 1];
      NeverCheaper(init);
      Snoc(init, e);
      assert s == init + [e];
      StepCost(Source(init), Result(init), e);
    }
  }

  lemma StepCost(x: string, y: string, e: Edit)
    ensures Dist(x + Takes(e), y + Gives(e)) <= Dist(x, y) + if e.Keep? then 0 else 1
  {
    hide Dist;
    match e
    case Keep(c) => DistSteps(x, y, c, c);
    case Replace(was, now) => DistSteps(x, y, was, now);
    case Delete(was) =>
      DistSteps(x, y, was, was);
      assert y + "" == y;
    case Insert(now) =>
      DistSteps(x, y, now, now);
      assert x + "" == x;
  }

  /** The two-row loop returns the minimum cost over all edit scripts. */
  lemma DistIsMinimum(a: string, b: string)
    ensures exists s :: Edits(s, a, b) && Cost(s) == Dist(a, b)
    ensures forall s :: Edits(s, a, b) ==> Cost(s) >= Dist(a, b)
  {
    var s := Achieved(a, b);
    forall t | Edits(t, a, b) ensures Cost(t) >= Dist(a, b) {
      NeverCheaper(t);
    }
  }

  // ---- A metric ----

  function Reverse(e: Edit): Edit {
    match e
    case Keep(c) => Keep(c)
    case Replace(was, now) => Replace(now, was)
    case Delete(was) => Insert(was)
    case Insert(now) => Delete(now)
  }

  function Undo(s: Script): Script {
    if s == [] then [] else Undo(s[..|s| - 1]) + [Reverse(s[|s| - 1])]
  }

  lemma {:induction false} UndoSwaps(s: Script)
    ensures Edits(Undo(s), Result(s), Source(s)) && Cost(Undo(s)) == Cost(s)
    decreases |s|
  {
    if s == [] {
    } else {
      hide Source, Result, Cost;
      var init, e := s[..|s| - 1], s[|s| - 1];
      UndoSwaps(init);
      Snoc(init, e);
      Snoc(Undo(init), Reverse(e));
      assert s == init + [e];
    }
  }

  /** An edit that gives a letter followed by one that takes it, in at most one edit. */
  function Fuse(e: Edit, f: Edit): Script
    requires !e.Delete? && !f.Insert?
  {
    if e.Insert? && f.Delete? then []
    else if e.Insert? then [Insert(Gives(f)[0])]
    else if f.Delete? then [Delete(Takes(e)[0])]
    else if Takes(e)[0] == Gives(f)[0] then [Keep(Takes(e)[0])]
    else [Replace(Takes(e)[0], Gives(f)[0])]
  }

  /** Doing s and then t in one script: an edit of t works on the letter an edit of s
      gave. */
  function Compose(s: Script, t: Script): Script
    decreases |s| + |t|
  {
    if s == [] then t
    else if t == [] then s
    else
      var s', e := s[..|s| - 1], s[|s| - 1];
      var t', f := t[..|t| - 1], t[|t| - 1];
      if e.Delete? then Compose(s', t) + [e]
      else if f.Insert? then Compose(s, t') + [f]
      else Compose(s', t') + Fuse(e, f)
  }

  lemma SameLast(x: string, c: char, y: string, d: char)
    requires x + [c] == y + [d]
    ensures x == y && c == d
  {
    assert x == (x + [c])[..|x|] == y;
    assert (x + [c])[|x|] == c;
  }

  lemma FuseEdits(x: Script, e: Edit, f: Edit)
    requires !e.Delete? && !f.Insert? && Gives(e) == Takes(f)
    ensures Source(x + Fuse(e, f)) == Source(x) + Takes(e)
    ensures Result(x + Fuse(e, f)) == Result(x) + Gives(f)
    ensures Cost(x + Fuse(e, f)) <= Cost(x) + (if e.Keep? then 0 else 1) + if f.Keep? then 0 else 1
  {
    var fused := Fuse(e, f);
    if fused == [] {
      assert x + fused == x;
    } else {
      Snoc(x, fused[0]);
      assert x + fused == x + [fused[0]];
    }
  }

  lemma {:induction false} ComposeEdits(s: Script, t: Script)
    requires Result(s) == Source(t)
    ensures Source(Compose(s, t)) == Source(s) && Result(Compose(s, t)) == Result(t)
    ensures Cost(Compose(s, t)) <= Cost(s) + Cost(t)
    decreases |s| + |t|
  {
    if s != [] && t != [] {
      var s', e := s[..|s| - 1], s[|s| - 1];
      var t', f := t[..|t| - 1], t[|t| - 1];
      if e.Delete? {
        assert Result(s') == Result(s);
        ComposeEdits(s', t);
        Snoc(Compose(s', t), e);
      } else if f.Insert? {
        assert Source(t') == Source(t);
        ComposeEdits(s, t');
        Snoc(Compose(s, t'), f);
      } else {
        SameLast(Result(s'), Gives(e)[0], Source(t'), Takes(f)[0]);
        ComposeEdits(s', t');
        FuseEdits(Compose(s', t'), e, f);
      }
    }
  }

  lemma {:induction false} FreeKeeps(s: Script)
    requires Cost(s) == 0
    ensures Source(s) == Result(s)
    decreases |s|
  {
    if s == [] {
    } else {
      FreeKeeps(s[..|s| - 1]);
    }
  }

  lemma {:induction false} ToItself(a: string)
    ensures Dist(a, a) == 0
    decreases |a|
  {
    if a == "" {
    } else {
      ToItself(a[..|a| - 1]);
    }
  }

  lemma Identity(a: string, b: string)
    ensures Dist(a, b) == 0 <==> a == b
  {
    ToItself(a);
    var s := Achieved(a, b);
    if Dist(a, b) == 0 {
      FreeKeeps(s);
    }
  }

  lemma Symmetry(a: string, b: string)
    ensures Dist(a, b) == Dist(b, a)
  {
    var s := Achieved(a, b);
    var t := Achieved(b, a);
    UndoSwaps(s);
    UndoSwaps(t);
    NeverCheaper(Undo(s));
    NeverCheaper(Undo(t));
  }

  lemma Triangle(a: string, b: string, c: string)
    ensures Dist(a, c) <= Dist(a, b) + Dist(b, c)
  {
    var s := Achieved(a, b);
    var t := Achieved(b, c);
    ComposeEdits(s, t);
    NeverCheaper(Compose(s, t));
  }

  lemma {:induction false} Bounds(a: string, b: string)
    ensures Dist(a, b) <= Max(|a|, |b|)
    ensures |a| <= |b| + Dist(a, b) && |b| <= |a| + Dist(a, b)
    decreases |a| + |b|
  {
    if a != "" && b != "" {
      Bounds(a[..|a| - 1], b);
      Bounds(a, b[..|b| - 1]);
      Bounds(a[..|a| - 1], b[..|b| - 1]);
    }
  }

  /** Names without a common letter are as far apart as their lengths allow. */
  lemma {:induction false} ReachesBound(a: string, b: string)
    requires forall c :: c in a ==> c !in b
    ensures Dist(a, b) == Max(|a|, |b|)
    decreases |a| + |b|
  {
    if a != "" && b != "" {
      assert a[|a| - 1] in a && b[|b| - 1] in b;
      assert forall c :: c in a[..|a| - 1] ==> c in a;
      assert forall c :: c in b[..|b| - 1] ==> c in b;
      ReachesBound(a[..|a| - 1], b);
      ReachesBound(a, b[..|b| - 1]);
      ReachesBound(a[..|a| - 1], b[..|b| - 1]);
    }
  }

  // ---- Name similarity ----

  /** fold gives a letter or digit in lower case, and nothing for other characters. */
  function Normalize(fold: char -> string, s: string): string {
    if s == "" then "" else fold(s[0]) + Normalize(fold, s[1..])
  }

  function Similarity(fold: char -> string, a: string, b: string): real {
    var na, nb := Normalize(fold, a), Normalize(fold, b);
    if na == "" || nb == "" then 0.0
    else if na == nb then 1.0
    else 1.0 - Dist(na, nb) as real / Max(|na|, |nb|) as real
  }

  method NameSimilarity(fold: char -> string, a: string, b: string) returns (score: real)
    ensures score == Similarity(fold, a, b)
  {
    var na, nb := Normalize(fold, a), Normalize(fold, b);
    if na == "" || nb == "" {
      return 0.0;
    }
    if na == nb {
      return 1.0;
    }
    var longest := |na|;
    if |nb| > longest {
      longest := |nb|;
    }
    var d := Distance(na, nb);
    score := 1.0 - d as real / longest as real;
  }

  /** A score is between 0 and 1, symmetric, 1 exactly for names equal up to case and
      punctuation, and 0 for an empty name or a distance equal to the longer length. */
  lemma SimilarityIsAScore(fold: char -> string, a: string, b: string)
    ensures 0.0 <= Similarity(fold, a, b) <= 1.0
    ensures Similarity(fold, a, b) == Similarity(fold, b, a)
    ensures var na, nb := Normalize(fold, a), Normalize(fold, b);
      && (Similarity(fold, a, b) == 1.0 <==> na == nb && na != "")
      && (Similarity(fold, a, b) == 0.0 <==> na == "" || nb == "" || Dist(na, nb) == Max(|na|, |nb|))
  {
    var na, nb := Normalize(fold, a), Normalize(fold, b);
    Bounds(na, nb);
    Identity(na, nb);
    Symmetry(na, nb);
    if na != "" && nb != "" && na != nb {
      Ratio(Dist(na, nb), Max(|na|, |nb|));
    }
  }

  lemma Ratio(d: nat, n: nat)
    requires 0 < d <= n
    ensures 0.0 < d as real / n as real <= 1.0
    ensures d as real / n as real == 1.0 <==> d == n
  {
    var r := d as real / n as real;
    assert r * n as real == d as real;
    SignOf(r, n as real);
    SignOf(r - 1.0, n as real);
    assert (r - 1.0) * n as real == d as real - n as real;
  }

  lemma SignOf(x: real, n: real)
    requires n > 0.0
    ensures x > 0.0 <==> x * n > 0.0
    ensures x == 0.0 <==> x * n == 0.0
  {
    if x < 0.0 {
      assert (-x) * n > 0.0;
    }
  }
}
