/** internal/cli/suggest.go: proposing coercions and renames for uncovered fields. */
module Suggest {
  import opened Ordering
  import Levenshtein

  datatype Kind = Text | Integer | Number | Boolean | Array | Object | Unknown

  datatype Leaf = Leaf(kind: Kind, wholesale: bool)

  type Leaves = map<string, Leaf>

  datatype Rule = TypeCoerce(path: string) | FieldRename(hubPath: string, spokePath: string)

  datatype Candidate = Candidate(hub: string, spoke: string, score: real)

  const THRESHOLD := 0.6

  // ---- Paths ----

  /** Index of the last dot, or -1. */
  function LastDot(p: string): (i: int)
    ensures -1 <= i < |p|
    ensures i >= 0 ==> p[i] == '.'
    ensures forall j :: i < j < |p| ==> p[j] != '.'
    decreases |p|
  {
    if p == "" then -1
    else if p[|p| - 1] == '.' then |p| - 1
    else LastDot(p[..|p| - 1])
  }

  function ParentPath(p: string): string {
    var i := LastDot(p);
    if i >= 0 then p[..i] else ""
  }

  function LastPathSegment(p: string): string {
    var i := LastDot(p);
    if i >= 0 then p[i + 1..] else p
  }

  /** Two dotted paths under one parent differ only in their last names. */
  lemma SiblingsDifferInName(p: string, q: string)
    requires ParentPath(p) == ParentPath(q) && (LastDot(p) >= 0 <==> LastDot(q) >= 0)
    ensures LastPathSegment(p) == LastPathSegment(q) <==> p == q
  {
    PathParts(p);
    PathParts(q);
  }

  lemma PathParts(p: string)
    ensures p == if LastDot(p) >= 0 then ParentPath(p) + "." + LastPathSegment(p) else LastPathSegment(p)
  {
    var i := LastDot(p);
    if i >= 0 {
      assert p == p[..i] + [p[i]] + p[i + 1..];
    }
  }

  predicate IsScalar(k: Kind) {
    k.Text? || k.Integer? || k.Number? || k.Boolean?
  }

  method DedupeSorted(input: seq<string>) returns (out: seq<string>)
    ensures out == SortedKeys(set s | s in input)
  {
    var seen: set<string> := {};
    out := [];
    for i := 0 to |input|
      invariant seen == set s | s in input[..i]
      invariant forall s :: s in out <==> s in seen
      invariant forall j, k :: 0 <= j < k < |out| ==> out[j] != out[k]
    {
      assert input[..i + 1] == input[..i] + [input[i]];
      if input[i] !in seen {
        seen := seen + {input[i]};
        out := out + [input[i]];
      }
    }
    assert input[..|input|] == input;
    SortDistinctStrings(out, set s | s in input);
    out := SortBy(Itself, out);
  }

  // ---- Coercions ----

  /** The same path on both sides, two different scalar types. */
  predicate Coerces(hub: Leaves, spoke: Leaves, p: string) {
    p in hub && p in spoke && hub[p].kind != spoke[p].kind && IsScalar(hub[p].kind) && IsScalar(spoke[p].kind)
  }

  function Coercions(hub: Leaves, spoke: Leaves, paths: seq<string>): (out: seq<string>)
    ensures forall p :: p in out <==> p in paths && Coerces(hub, spoke, p)
    decreases |paths|
  {
    if paths == [] then []
    else
      var n := |paths| - 1;
      assert paths == paths[..n] + [paths[n]];
      Coercions(hub, spoke, paths[..n]) + if Coerces(hub, spoke, paths[n]) then [paths[n]] else []
  }

  // ---- Candidates ----

  /** A rename keeps parent, kind and opacity, changes the path, and is similar enough. */
  predicate Plausible(fold: char -> string, hub: Leaves, spoke: Leaves, hp: string, sp: string) {
    && hp in hub && hp != sp && sp in spoke
    && spoke[sp].kind == hub[hp].kind && spoke[sp].wholesale == hub[hp].wholesale
    && ParentPath(hp) == ParentPath(sp)
    && Score(fold, hp, sp) >= THRESHOLD
  }

  function Score(fold: char -> string, hp: string, sp: string): real {
    Levenshtein.Similarity(fold, LastPathSegment(hp), LastPathSegment(sp))
  }

  function CandidatesFor(fold: char -> string, hub: Leaves, spoke: Leaves, hp: string, spokePaths: seq<string>): (out: seq<Candidate>)
    ensures forall c :: c in out <==> c.hub == hp && c.spoke in spokePaths && Plausible(fold, hub, spoke, hp, c.spoke) && c.score == Score(fold, hp, c.spoke)
    decreases |spokePaths|
  {
    if spokePaths == [] then []
    else
      var n := |spokePaths| - 1;
      var sp := spokePaths[n];
      assert spokePaths == spokePaths[..n] + [sp];
      CandidatesFor(fold, hub, spoke, hp, spokePaths[..n]) +
      if Plausible(fold, hub, spoke, hp, sp) then [Candidate(hp, sp, Score(fold, hp, sp))] else []
  }

  function AllCandidates(fold: char -> string, hub: Leaves, spoke: Leaves, hubPaths: seq<string>, spokePaths: seq<string>): (out: seq<Candidate>)
    ensures forall c :: c in out <==> c.hub in hubPaths && c.spoke in spokePaths && Plausible(fold, hub, spoke, c.hub, c.spoke) && c.score == Score(fold, c.hub, c.spoke)
    decreases |hubPaths|
  {
    if hubPaths == [] then []
    else
      var n := |hubPaths| - 1;
      assert hubPaths == hubPaths[..n] + [hubPaths[n]];
      AllCandidates(fold, hub, spoke, hubPaths[..n], spokePaths) + CandidatesFor(fold, hub, spoke, hubPaths[n], spokePaths)
  }

  predicate Before(a: Candidate, b: Candidate) {
    a.score > b.score || (a.score == b.score && (Less(a.hub, b.hub) || (a.hub == b.hub && Less(a.spoke, b.spoke))))
  }

  function InsertBest(c: Candidate, cs: seq<Candidate>): (out: seq<Candidate>)
    ensures forall x :: x in out <==> x == c || x in cs
    decreases |cs|
  {
    if cs == [] || Before(c, cs[0]) then [c] + cs
    else
      assert cs == [cs[0]] + cs[1..];
      [cs[0]] + InsertBest(c, cs[1..])
  }

  function BestFirst(cs: seq<Candidate>): (out: seq<Candidate>)
    ensures forall x :: x in out <==> x in cs
    decreases |cs|
  {
    if cs == [] then []
    else
      assert cs == cs[..|cs| - 1] + [cs[|cs| - 1]];
      InsertBest(cs[|cs| - 1], BestFirst(cs[..|cs| - 1]))
  }

  ghost predicate Descending(cs: seq<Candidate>) {
    forall i, j :: 0 <= i < j < |cs| ==> cs[i].score >= cs[j].score
  }

  lemma {:induction false} InsertDescends(c: Candidate, cs: seq<Candidate>)
    requires Descending(cs)
    ensures Descending(InsertBest(c, cs))
    decreases |cs|
  {
    if cs != [] && !Before(c, cs[0]) {
      InsertDescends(c, cs[1..]);
      var rest := InsertBest(c, cs[1..]);
      forall j | 0 <= j < |rest| ensures cs[0].score >= rest[j].score {
        assert rest[j] in rest;
      }
    }
  }

  lemma {:induction false} BestFirstDescends(cs: seq<Candidate>)
    ensures Descending(BestFirst(cs))
    decreases |cs|
  {
    if cs == [] {
    } else {
      BestFirstDescends(cs[..|cs| - 1]);
      InsertDescends(cs[|cs| - 1], BestFirst(cs[..|cs| - 1]));
    }
  }

  lemma BeforeTransitive(a: Candidate, b: Candidate, c: Candidate)
    requires !Before(b, a) && !Before(c, b)
    ensures !Before(c, a)
  {
    LessTotal(a.hub, b.hub);
    LessTotal(b.hub, c.hub);
    LessTotal(a.spoke, b.spoke);
    LessTotal(b.spoke, c.spoke);
    if a.score == b.score && b.score == c.score {
      AtMostTransitive(a.hub, b.hub, c.hub);
      if a.hub != c.hub {
        LessAsymmetric(a.hub, c.hub);
      } else {
        if a.hub != b.hub {
          LessAsymmetric(a.hub, b.hub);
        }
        AtMostTransitive(a.spoke, b.spoke, c.spoke);
        LessIrreflexive(a.hub);
        NotAfter(a.spoke, c.spoke);
      }
    }
  }

  lemma NotAfter(a: string, b: string)
    ensures AtMost(a, b) ==> !Less(b, a)
  {
    LessIrreflexive(a);
    if Less(a, b) {
      LessAsymmetric(a, b);
    }
  }

  ghost predicate InOrder(cs: seq<Candidate>) {
    forall i, j :: 0 <= i < j < |cs| ==> !Before(cs[j], cs[i])
  }

  lemma {:induction false} InsertKeepsOrder(c: Candidate, cs: seq<Candidate>)
    requires InOrder(cs)
    ensures InOrder(InsertBest(c, cs))
    decreases |cs|
  {
    hide Before;
    if cs == [] {
    } else {
      if Before(c, cs[0]) {
        BeforeAsymmetric(c, cs[0]);
        forall j | 0 <= j < |cs| ensures !Before(cs[j], c) {
          if j > 0 {
            BeforeTransitive(c, cs[0], cs[j]);
          }
        }
      } else {
        InsertKeepsOrder(c, cs[1..]);
        var rest := InsertBest(c, cs[1..]);
        forall j | 0 <= j < |rest| ensures !Before(rest[j], cs[0]) {
          assert rest[j] in rest;
          if rest[j] != c {
            var k :| 0 <= k < |cs[1..]| && cs[1..][k] == rest[j];
            assert cs[k + 1] == rest[j];
          }
        }
      }
    }
  }

  lemma BeforeAsymmetric(a: Candidate, b: Candidate)
    requires Before(a, b)
    ensures !Before(b, a)
  {
    NotAfter(a.hub, b.hub);
    NotAfter(a.spoke, b.spoke);
    LessIrreflexive(a.hub);
  }

  /** Ties in score are broken by hub path and then by spoke path, so the candidate list
      does not depend on the order in which the pairs were found. */
  lemma {:induction false} BestFirstInOrder(cs: seq<Candidate>)
    ensures InOrder(BestFirst(cs))
    decreases |cs|
  {
    if cs == [] {
    } else {
      BestFirstInOrder(cs[..|cs| - 1]);
      InsertKeepsOrder(cs[|cs| - 1], BestFirst(cs[..|cs| - 1]));
    }
  }

  method RenameCandidates(fold: char -> string, hub: Leaves, spoke: Leaves, hubPaths: seq<string>, spokePaths: seq<string>) returns (out: seq<Candidate>)
    ensures out == BestFirst(AllCandidates(fold, hub, spoke, hubPaths, spokePaths))
  {
    out := [];
    for i := 0 to |hubPaths|
      invariant out == AllCandidates(fold, hub, spoke, hubPaths[..i], spokePaths)
    {
      var hp := hubPaths[i];
      assert hubPaths[..i + 1][..i] == hubPaths[..i];
      var more := PairUp(fold, hub, spoke, hp, spokePaths);
      out := out + more;
    }
    assert hubPaths[..|hubPaths|] == hubPaths;
    out := BestFirst(out);
  }

  method PairUp(fold: char -> string, hub: Leaves, spoke: Leaves, hp: string, spokePaths: seq<string>) returns (out: seq<Candidate>)
    ensures out == CandidatesFor(fold, hub, spoke, hp, spokePaths)
  {
    hide Score;
    out := [];
    if hp !in hub {
      NoLeafNoCandidates(fold, hub, spoke, hp, spokePaths);
      return;
    }
    for j := 0 to |spokePaths|
      invariant out == CandidatesFor(fold, hub, spoke, hp, spokePaths[..j])
    {
      var sp := spokePaths[j];
      assert spokePaths[..j + 1][..j] == spokePaths[..j];
      if hp == sp || sp !in spoke || spoke[sp].kind != hub[hp].kind || spoke[sp].wholesale != hub[hp].wholesale {
        continue;
      }
      if ParentPath(hp) != ParentPath(sp) {
        continue;
      }
      var score := ScoreOf(fold, hp, sp);
      if score < THRESHOLD {
        continue;
      }
      out := out + [Candidate(hp, sp, score)];
    }
    assert spokePaths[..|spokePaths|] == spokePaths;
  }

  method ScoreOf(fold: char -> string, hp: string, sp: string) returns (score: real)
    ensures score == Score(fold, hp, sp)
  {
    score := Levenshtein.NameSimilarity(fold, LastPathSegment(hp), LastPathSegment(sp));
  }

  lemma {:induction false} NoLeafNoCandidates(fold: char -> string, hub: Leaves, spoke: Leaves, hp: string, spokePaths: seq<string>)
    requires hp !in hub
    ensures CandidatesFor(fold, hub, spoke, hp, spokePaths) == []
    decreases |spokePaths|
  {
    if spokePaths == [] {
    } else {
      NoLeafNoCandidates(fold, hub, spoke, hp, spokePaths[..|spokePaths| - 1]);
    }
  }

  // ---- The greedy assignment ----

  function Greedy(cs: seq<Candidate>, usedHub: set<string>, usedSpoke: set<string>): seq<Candidate> {
    if cs == [] then []
    else if cs[0].hub in usedHub || cs[0].spoke in usedSpoke then Greedy(cs[1..], usedHub, usedSpoke)
    else [cs[0]] + Greedy(cs[1..], usedHub + {cs[0].hub}, usedSpoke + {cs[0].spoke})
  }

  function Rules(coerced: seq<string>, renamed: seq<Candidate>): seq<Rule> {
    seq(|coerced|, i requires 0 <= i < |coerced| => TypeCoerce(coerced[i])) +
    seq(|renamed|, i requires 0 <= i < |renamed| => FieldRename(renamed[i].hub, renamed[i].spoke))
  }

  function Suggested(fold: char -> string, hub: Leaves, spoke: Leaves, hubPaths: seq<string>, spokePaths: seq<string>): seq<Rule> {
    var coerced := Coercions(hub, spoke, hubPaths);
    var used := set p | p in coerced;
    Rules(coerced, Greedy(BestFirst(AllCandidates(fold, hub, spoke, hubPaths, spokePaths)), used, used))
  }

  method SuggestSpokeRules(fold: char -> string, hub: Leaves, spoke: Leaves, uncoveredHub: seq<string>, uncoveredSpoke: seq<string>) returns (rules: seq<Rule>)
    ensures rules == Suggested(fold, hub, spoke, SortedKeys(set s | s in uncoveredHub), SortedKeys(set s | s in uncoveredSpoke))
  {
    var hubPaths := DedupeSorted(uncoveredHub);
    var spokePaths := DedupeSorted(uncoveredSpoke);
    var coerced := FindCoercions(hub, spoke, hubPaths);
    var candidates := RenameCandidates(fold, hub, spoke, hubPaths, spokePaths);
    var renamed := Assign(candidates, set p | p in coerced);
    rules := Rules(coerced, renamed);
  }

  method FindCoercions(hub: Leaves, spoke: Leaves, hubPaths: seq<string>) returns (coerced: seq<string>)
    ensures coerced == Coercions(hub, spoke, hubPaths)
  {
    coerced := [];
    for i := 0 to |hubPaths|
      invariant coerced == Coercions(hub, spoke, hubPaths[..i])
    {
      var p := hubPaths[i];
      assert hubPaths[..i + 1][..i] == hubPaths[..i];
      if p !in hub || p !in spoke || hub[p].kind == spoke[p].kind {
        continue;
      }
      if !IsScalar(hub[p].kind) || !IsScalar(spoke[p].kind) {
        continue;
      }
      coerced := coerced + [p];
    }
    assert hubPaths[..|hubPaths|] == hubPaths;
  }

  method Assign(candidates: seq<Candidate>, used: set<string>) returns (renamed: seq<Candidate>)
    ensures renamed == Greedy(candidates, used, used)
  {
    renamed := [];
    var usedHub, usedSpoke := used, used;
    for i := 0 to |candidates|
      invariant renamed + Greedy(candidates[i..], usedHub, usedSpoke) == Greedy(candidates, used, used)
    {
      var c := candidates[i];
      assert candidates[i..][0] == c && candidates[i..][1..] == candidates[i + 1..];
      if c.hub in usedHub || c.spoke in usedSpoke {
        continue;
      }
      usedHub, usedSpoke := usedHub + {c.hub}, usedSpoke + {c.spoke};
      renamed := renamed + [c];
    }
  }

  // ---- What the assignment is ----

  ghost predicate Free(c: Candidate, usedHub: set<string>, usedSpoke: set<string>) {
    c.hub !in usedHub && c.spoke !in usedSpoke
  }

  ghost predicate Conflict(c: Candidate, d: Candidate) {
    c.hub == d.hub || c.spoke == d.spoke
  }

  /** No hub path and no spoke path twice. */
  ghost predicate Matching(m: set<Candidate>) {
    forall c, d :: c in m && d in m && c != d ==> !Conflict(c, d)
  }

  ghost predicate Apart(g: seq<Candidate>) {
    forall i, j :: 0 <= i < j < |g| ==> !Conflict(g[i], g[j])
  }

  lemma AddOne(c: Candidate, rest: seq<Candidate>)
    requires Apart(rest) && forall d :: d in rest ==> !Conflict(c, d)
    ensures Apart([c] + rest)
  {
    hide Conflict;
    var g := [c] + rest;
    forall i, j | 0 <= i < j < |g| ensures !Conflict(g[i], g[j]) {
      assert g[j] == rest[j - 1] && rest[j - 1] in rest;
      if i > 0 {
        assert g[i] == rest[i - 1];
      } else {
        assert g[i] == c;
      }
    }
  }

  /** The accepted renames are candidates, use no path twice, and use no coerced path. */
  lemma {:induction false} GreedyIsMatching(cs: seq<Candidate>, usedHub: set<string>, usedSpoke: set<string>)
    ensures var g := Greedy(cs, usedHub, usedSpoke);
      && (forall c :: c in g ==> c in cs && Free(c, usedHub, usedSpoke))
      && Apart(g)
    decreases |cs|
  {
    if cs == [] {
    } else {
      var c := cs[0];
      assert cs == [c] + cs[1..];
      if Free(c, usedHub, usedSpoke) {
        GreedyIsMatching(cs[1..], usedHub + {c.hub}, usedSpoke + {c.spoke});
        var rest := Greedy(cs[1..], usedHub + {c.hub}, usedSpoke + {c.spoke});
        var g := Greedy(cs, usedHub, usedSpoke);
        assert g == [c] + rest;
        forall d | d in rest ensures !Conflict(c, d) && Free(d, usedHub, usedSpoke) && d in cs {
          assert Free(d, usedHub + {c.hub}, usedSpoke + {c.spoke});
        }
        AddOne(c, rest);
      } else {
        GreedyIsMatching(cs[1..], usedHub, usedSpoke);
      }
    }
  }

  /** Every candidate left out conflicts with a coercion or with an accepted rename that
      is at least as similar. */
  lemma {:induction false} GreedyIsMaximal(cs: seq<Candidate>, usedHub: set<string>, usedSpoke: set<string>, c: Candidate)
    requires Descending(cs) && c in cs && c !in Greedy(cs, usedHub, usedSpoke) && Free(c, usedHub, usedSpoke)
    ensures exists g :: g in Greedy(cs, usedHub, usedSpoke) && Conflict(c, g) && g.score >= c.score
    decreases |cs|
  {
    var d := cs[0];
    assert cs == [d] + cs[1..];
    var k :| 0 <= k < |cs| && cs[k] == c;
    if !Free(d, usedHub, usedSpoke) {
      GreedyIsMaximal(cs[1..], usedHub, usedSpoke, c);
    } else {
      var g := Greedy(cs, usedHub, usedSpoke);
      assert g[0] == d && d in g;
      if Conflict(c, d) {
        assert d.score >= c.score;
      } else {
        var rest := Greedy(cs[1..], usedHub + {d.hub}, usedSpoke + {d.spoke});
        assert g == [d] + rest;
        GreedyIsMaximal(cs[1..], usedHub + {d.hub}, usedSpoke + {d.spoke}, c);
        var h :| h in rest && Conflict(c, h) && h.score >= c.score;
        assert h in g;
      }
    }
  }

  // ---- At least half of the best ----

  ghost function Total(m: set<Candidate>): real
    decreases |m|
  {
    if m == {} then 0.0
    else
      var c :| c in m;
      c.score + Total(m - {c})
  }

  lemma {:induction false} TotalRemove(m: set<Candidate>, d: Candidate)
    requires d in m
    ensures Total(m) == d.score + Total(m - {d})
    decreases |m|
  {
    var c :| c in m && Total(m) == c.score + Total(m - {c});
    if c != d {
      TotalRemove(m - {c}, d);
      TotalRemove(m - {d}, c);
      assert m - {c} - {d} == m - {d} - {c};
    }
  }

  function Sum(cs: seq<Candidate>): real {
    if cs == [] then 0.0 else cs[0].score + Sum(cs[1..])
  }

  /** In a matching at most one pair uses c's hub path and at most one its spoke path. */
  lemma TakeOut(m: set<Candidate>, c: Candidate, bound: real)
    requires Matching(m) && bound >= 0.0
    requires forall d :: d in m ==> d.score <= bound
    ensures Total(m) <= Total(set d | d in m && !Conflict(d, c)) + 2.0 * bound
  {
    hide Total;
    var rest := set d | d in m && d.hub != c.hub;
    TakeOutHub(m, c, bound);
    TakeOutSpoke(rest, c, bound);
    assert (set d | d in rest && d.spoke != c.spoke) == set d | d in m && !Conflict(d, c);
  }

  lemma TakeOutHub(m: set<Candidate>, c: Candidate, bound: real)
    requires Matching(m) && bound >= 0.0
    requires forall d :: d in m ==> d.score <= bound
    ensures Total(m) <= Total(set d | d in m && d.hub != c.hub) + bound
  {
    hide Total;
    var rest := set d | d in m && d.hub != c.hub;
    if x :| x in m && x.hub == c.hub {
      TotalRemove(m, x);
      assert m - {x} == rest;
    } else {
      assert m == rest;
    }
  }

  lemma TakeOutSpoke(m: set<Candidate>, c: Candidate, bound: real)
    requires Matching(m) && bound >= 0.0
    requires forall d :: d in m ==> d.score <= bound
    ensures Total(m) <= Total(set d | d in m && d.spoke != c.spoke) + bound
  {
    hide Total;
    var rest := set d | d in m && d.spoke != c.spoke;
    if x :| x in m && x.spoke == c.spoke {
      TotalRemove(m, x);
      assert m - {x} == rest;
    } else {
      assert m == rest;
    }
  }

  lemma GreedyTakes(cs: seq<Candidate>, usedHub: set<string>, usedSpoke: set<string>)
    requires cs != [] && Free(cs[0], usedHub, usedSpoke)
    ensures Sum(Greedy(cs, usedHub, usedSpoke)) ==
      cs[0].score + Sum(Greedy(cs[1..], usedHub + {cs[0].hub}, usedSpoke + {cs[0].spoke}))
  {
    var rest := Greedy(cs[1..], usedHub + {cs[0].hub}, usedSpoke + {cs[0].spoke});
    assert ([cs[0]] + rest)[1..] == rest;
  }

  lemma GreedySkips(cs: seq<Candidate>, usedHub: set<string>, usedSpoke: set<string>)
    requires cs != [] && !Free(cs[0], usedHub, usedSpoke)
    ensures Greedy(cs, usedHub, usedSpoke) == Greedy(cs[1..], usedHub, usedSpoke)
  {
  }

  /** The accepted renames score at least half of any matching of the candidates that
      the coercions leave free. */
  lemma {:induction false} GreedyIsHalfOptimal(cs: seq<Candidate>, usedHub: set<string>, usedSpoke: set<string>, m: set<Candidate>)
    requires Descending(cs) && Matching(m)
    requires forall c :: c in m ==> c in cs && Free(c, usedHub, usedSpoke)
    requires forall i :: 0 <= i < |cs| ==> cs[i].score >= 0.0
    ensures Total(m) <= 2.0 * Sum(Greedy(cs, usedHub, usedSpoke))
    decreases |cs|
  {
    if cs == [] {
      assert m == {};
    } else {
      var c := cs[0];
      assert cs == [c] + cs[1..];
      if !Free(c, usedHub, usedSpoke) {
        GreedyIsHalfOptimal(cs[1..], usedHub, usedSpoke, m);
      } else {
        forall d | d in m ensures d.score <= c.score {
          var k :| 0 <= k < |cs| && cs[k] == d;
        }
        TakeOut(m, c, c.score);
        var left := set d | d in m && !Conflict(d, c);
        var rest := Greedy(cs[1..], usedHub + {c.hub}, usedSpoke + {c.spoke});
        forall d | d in left ensures d in cs[1..] && Free(d, usedHub + {c.hub}, usedSpoke + {c.spoke}) {
        }
        GreedyIsHalfOptimal(cs[1..], usedHub + {c.hub}, usedSpoke + {c.spoke}, left);
        GreedyTakes(cs, usedHub, usedSpoke);
      }
    }
  }

  // ---- Two schemas on which greedy misses the best renames ----

  const FIELD := Leaf(Text, false)

  const OLD_NAMES: Leaves := map["abc" := FIELD, "bd" := FIELD]

  const NEW_NAMES: Leaves := map["abcde" := FIELD, "abd" := FIELD]

  ghost predicate KeepsLowerCase(fold: char -> string) {
    forall c :: 'a' <= c <= 'z' ==> fold(c) == [c]
  }

  predicate LowerCase(s: string) {
    forall i :: 0 <= i < |s| ==> 'a' <= s[i] <= 'z'
  }

  lemma {:induction false} NormalizeLowerCase(fold: char -> string, s: string)
    requires KeepsLowerCase(fold) && LowerCase(s)
    ensures Levenshtein.Normalize(fold, s) == s
    decreases |s|
  {
    if s == "" {
    } else {
      NormalizeLowerCase(fold, s[1..]);
      assert s == [s[0]] + s[1..];
    }
  }

  lemma {:induction false} Undotted(s: string)
    requires LowerCase(s)
    ensures LastDot(s) == -1 && ParentPath(s) == "" && LastPathSegment(s) == s
    decreases |s|
  {
    if s == "" {
    } else {
      Undotted(s[..|s| - 1]);
    }
  }

  /** The score of two lower-case names without dots. */
  lemma LowerCaseScore(fold: char -> string, p: string, q: string, d: nat, longest: nat)
    requires KeepsLowerCase(fold) && LowerCase(p) && LowerCase(q) && p != "" && q != "" && p != q
    requires d <= Levenshtein.Dist(p, q) && longest == Levenshtein.Max(|p|, |q|)
    ensures ParentPath(p) == ParentPath(q)
    ensures Score(fold, p, q) <= 1.0 - d as real / longest as real
    ensures d == Levenshtein.Dist(p, q) ==> Score(fold, p, q) == 1.0 - d as real / longest as real
  {
    Undotted(p);
    Undotted(q);
    NormalizeLowerCase(fold, p);
    NormalizeLowerCase(fold, q);
    FewerIsMore(d, Levenshtein.Dist(p, q), longest);
  }

  lemma FewerIsMore(d: nat, e: nat, longest: nat)
    requires d <= e && longest > 0
    ensures d as real / longest as real <= e as real / longest as real
  {
  }

  lemma OneLonger(a: string, b: string, c: char)
    ensures Levenshtein.Dist(a, b + [c]) <= Levenshtein.Dist(a, b) + 1
  {
    assert (b + [c])[..|b|] == b;
  }

  lemma LastAlike(a: string, b: string, c: char, d: char)
    ensures Levenshtein.Dist(a + [c], b + [d]) <= Levenshtein.Dist(a, b) + if c == d then 0 else 1
  {
    assert (a + [c])[..|a|] == a && (b + [d])[..|b|] == b;
  }

  lemma CloseNames()
    ensures Levenshtein.Dist("abc", "abd") == 1 && Levenshtein.Dist("bd", "abd") == 1
  {
    hide Levenshtein.Dist;
    NamesDiffer();
    Levenshtein.Identity("abc", "abd");
    Levenshtein.Identity("bd", "abd");
    Levenshtein.Identity("ab", "ab");
    Levenshtein.Identity("", "");
    assert "abc" == "ab" + ['c'] && "abd" == "ab" + ['d'];
    LastAlike("ab", "ab", 'c', 'd');
    assert "bd" == "b" + ['d'] && "b" == "" + ['b'] && "ab" == "a" + ['b'] && "a" == "" + ['a'];
    LastAlike("b", "ab", 'd', 'd');
    LastAlike("", "a", 'b', 'b');
    OneLonger("", "", 'a');
  }

  lemma DistantNames()
    ensures Levenshtein.Dist("abc", "abcde") == 2 && Levenshtein.Dist("bd", "abcde") >= 3
  {
    hide Levenshtein.Dist;
    Levenshtein.Bounds("abc", "abcde");
    Levenshtein.Bounds("bd", "abcde");
    Levenshtein.Identity("abc", "abc");
    assert "abcd" == "abc" + ['d'] && "abcde" == "abcd" + ['e'];
    OneLonger("abc", "abcd", 'e');
    OneLonger("abc", "abc", 'd');
  }

  lemma NameScores(fold: char -> string)
    requires KeepsLowerCase(fold)
    ensures Score(fold, "abc", "abd") == 2.0 / 3.0 == Score(fold, "bd", "abd")
    ensures Score(fold, "abc", "abcde") == 0.6 && Score(fold, "bd", "abcde") < 0.6
    ensures ParentPath("abc") == ParentPath("bd") == ParentPath("abd") == ParentPath("abcde")
  {
    hide Levenshtein.Dist, Score, ParentPath, KeepsLowerCase;
    CloseNames();
    DistantNames();
    NamesDiffer();
    LowerCaseScore(fold, "abc", "abd", 1, 3);
    LowerCaseScore(fold, "bd", "abd", 1, 3);
    LowerCaseScore(fold, "abc", "abcde", 2, 5);
    LowerCaseScore(fold, "bd", "abcde", 3, 5);
  }

  function Close(): Candidate { Candidate("abc", "abd", 2.0 / 3.0) }

  function Rival(): Candidate { Candidate("bd", "abd", 2.0 / 3.0) }

  function Longer(): Candidate { Candidate("abc", "abcde", 0.6) }

  lemma NamesDiffer()
    ensures "abc" != "bd" && "abcde" != "abd" && "abc" != "abd" && "abc" != "abcde" && "bd" != "abd"
  {
    assert "abc"[0] != "bd"[0] && "abcde"[2] != "abd"[2] && "abc"[2] != "abd"[2];
  }

  lemma PlausibleNames(fold: char -> string)
    requires KeepsLowerCase(fold)
    ensures Plausible(fold, OLD_NAMES, NEW_NAMES, "abc", "abcde") && Plausible(fold, OLD_NAMES, NEW_NAMES, "abc", "abd")
    ensures Plausible(fold, OLD_NAMES, NEW_NAMES, "bd", "abd") && !Plausible(fold, OLD_NAMES, NEW_NAMES, "bd", "abcde")
  {
    hide Score, ParentPath;
    NamesDiffer();
    NameScores(fold);
  }

  function OneCandidate(fold: char -> string, hub: Leaves, spoke: Leaves, hp: string, sp: string): seq<Candidate> {
    if Plausible(fold, hub, spoke, hp, sp) then [Candidate(hp, sp, Score(fold, hp, sp))] else []
  }

  lemma TwoSpokes(fold: char -> string, hub: Leaves, spoke: Leaves, p: string, s: string, t: string)
    ensures CandidatesFor(fold, hub, spoke, p, [s, t]) == OneCandidate(fold, hub, spoke, p, s) + OneCandidate(fold, hub, spoke, p, t)
  {
    hide Score, Plausible;
    assert [s, t][..1] == [s] && [s][..0] == [];
    assert CandidatesFor(fold, hub, spoke, p, [s]) == OneCandidate(fold, hub, spoke, p, s);
  }

  lemma TwoByTwo(fold: char -> string, hub: Leaves, spoke: Leaves, h: string, k: string, s: string, t: string)
    ensures AllCandidates(fold, hub, spoke, [h, k], [s, t]) ==
      (OneCandidate(fold, hub, spoke, h, s) + OneCandidate(fold, hub, spoke, h, t)) +
      (OneCandidate(fold, hub, spoke, k, s) + OneCandidate(fold, hub, spoke, k, t))
  {
    hide Score, Plausible, OneCandidate, CandidatesFor;
    TwoSpokes(fold, hub, spoke, h, s, t);
    TwoSpokes(fold, hub, spoke, k, s, t);
    var paths := [s, t];
    assert [h, k][..1] == [h] && [h][..0] == [];
    assert AllCandidates(fold, hub, spoke, [h], paths) == CandidatesFor(fold, hub, spoke, h, paths);
  }

  lemma NameCandidates(fold: char -> string)
    requires KeepsLowerCase(fold)
    ensures AllCandidates(fold, OLD_NAMES, NEW_NAMES, ["abc", "bd"], ["abcde", "abd"]) == [Longer(), Close(), Rival()]
  {
    hide Score, Plausible, AllCandidates;
    PlausibleNames(fold);
    NameScores(fold);
    TwoByTwo(fold, OLD_NAMES, NEW_NAMES, "abc", "bd", "abcde", "abd");
  }

  lemma NameOrder()
    ensures BestFirst([Longer(), Close(), Rival()]) == [Close(), Rival(), Longer()]
  {
    var a, b, c := Longer(), Close(), Rival();
    assert [a, b, c][..2] == [a, b] && [a, b][..1] == [a] && [a][..0] == [];
    assert BestFirst([a]) == [a];
    assert Before(b, a) && Before(c, a);
    assert BestFirst([a, b]) == [b, a];
    assert !Before(c, b);
    assert [b, a][1..] == [a];
    assert InsertBest(c, [a]) == [c, a];
    assert InsertBest(c, [b, a]) == [b, c, a];
  }

  /** Greedy can miss the best matching: the first of two equally similar names takes the
      one new name the other could have had, and loses a rename by it. */
  lemma GreedyIsNotOptimal(fold: char -> string)
    requires KeepsLowerCase(fold)
    ensures var all := AllCandidates(fold, OLD_NAMES, NEW_NAMES, ["abc", "bd"], ["abcde", "abd"]);
      && Matching({Rival(), Longer()}) && Rival() in all && Longer() in all
      && Greedy(BestFirst(all), {}, {}) == [Close()]
      && Sum(Greedy(BestFirst(all), {}, {})) < Total({Rival(), Longer()})
  {
    hide AllCandidates, BestFirst, Greedy, KeepsLowerCase, Sum, Total;
    NameCandidates(fold);
    NameOrder();
    NamesDiffer();
    GreedyOnThree(Close(), Rival(), Longer());
    SumOfOne(Close());
    TotalOfTwo(Rival(), Longer());
  }

  lemma SumOfOne(a: Candidate)
    ensures Sum([a]) == a.score
  {
    assert [a][1..] == [];
  }

  lemma TotalOfTwo(b: Candidate, c: Candidate)
    requires b != c
    ensures Total({b, c}) == b.score + c.score
  {
    TotalRemove({b, c}, b);
    TotalRemove({c}, c);
    assert {b, c} - {b} == {c} && {c} - {c} == {};
  }

  lemma GreedyOnThree(a: Candidate, b: Candidate, c: Candidate)
    requires Conflict(a, b) && Conflict(a, c)
    ensures Greedy([a, b, c], {}, {}) == [a]
  {
    assert [a, b, c][1..] == [b, c] && [b, c][1..] == [c] && [c][1..] == [];
    var h, s := {} + {a.hub}, {} + {a.spoke};
    GreedySkips([b, c], h, s);
    GreedySkips([c], h, s);
    assert Greedy([], h, s) == [];
  }

  /** The whole proposal: each rule's paths are uncovered ones, no hub path and no spoke
      path is proposed twice, and the renames score at least half of any other choice. */
  lemma SuggestionsAreGood(fold: char -> string, hub: Leaves, spoke: Leaves, hubPaths: seq<string>, spokePaths: seq<string>, m: set<Candidate>)
    requires Matching(m)
    requires forall c :: c in m ==>
      c in AllCandidates(fold, hub, spoke, hubPaths, spokePaths) && !Coerces(hub, spoke, c.hub) && c.spoke !in Coercions(hub, spoke, hubPaths)
    ensures var coerced := Coercions(hub, spoke, hubPaths);
      var renamed := Greedy(BestFirst(AllCandidates(fold, hub, spoke, hubPaths, spokePaths)), set p | p in coerced, set p | p in coerced);
      && (forall c :: c in renamed ==> c.hub in hubPaths && c.spoke in spokePaths && Plausible(fold, hub, spoke, c.hub, c.spoke) && c.hub !in coerced && c.spoke !in coerced)
      && (forall i, j :: 0 <= i < j < |renamed| ==> !Conflict(renamed[i], renamed[j]))
      && Total(m) <= 2.0 * Sum(renamed)
  {
    var all := AllCandidates(fold, hub, spoke, hubPaths, spokePaths);
    var cs := BestFirst(all);
    var used := set p | p in Coercions(hub, spoke, hubPaths);
    BestFirstDescends(all);
    GreedyIsMatching(cs, used, used);
    forall i | 0 <= i < |cs| ensures cs[i].score >= 0.0 {
      assert cs[i] in cs;
    }
    GreedyIsHalfOptimal(cs, used, used, m);
  }
}
