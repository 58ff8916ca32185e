/** Promoting a spoke keeps the meaning of every version-to-version conversion. */
module RehubMeaning {
  import opened Wrappers
  import opened Ordering
  import opened Rules
  import opened Invert
  import opened Engine
  import opened HubPaths
  import opened Rehub
  import opened Conversion

  datatype Config = Config(hub: string, spokes: seq<SpokeRules>)

  type Schemas = map<string, Schema>

  function LeafSetsOf(schemas: Schemas): LeafSets {
    map v | v in schemas :: schemas[v].leaves.Keys
  }

  /** Every spoke compiles cleanly: its rules tie single fields or account for a field of
      one side, and together with the auto-covered fields they cover all leaves of the
      two versions once. */
  ghost predicate ValidConfig(c: Config, schemas: Schemas) {
    && c.hub in schemas && c.hub != ""
    && (forall v :: v in schemas ==> "" !in schemas[v].leaves)
    && (forall s :: s in c.spokes ==> s.version in schemas && s.version != c.hub && s.version != "")
    && (forall s, u :: s in c.spokes && u in c.spokes && s.version == u.version ==> s == u)
    && (forall s :: s in c.spokes ==>
          Compiles(s.rules, schemas[c.hub], schemas[s.version]))
  }

  /** The rules compile without an error diagnostic. */
  ghost predicate Compiles(rules: seq<Rule>, hub: Schema, spoke: Schema) {
    PairRules(rules, hub, spoke) && Pairing(Ties(rules, hub, spoke), hub, spoke)
  }

  ghost predicate PlainRenames(rules: seq<Rule>) {
    forall r :: r in rules ==> r.body.FieldRename? && r.when.None?
  }

  /** The paths by which a rule names a field on both sides at once: the one path of a
      single-path strategy, and the guard's. */
  function FixedPaths(r: Rule): set<Path> {
    (if SinglePath(r.body) then {r.body.path} else {}) + (if r.when.Some? then {r.when.value.path} else {})
  }

  /** A promotion rehub can carry the meaning across: the promoted version only
      renames fields, each keeping its shape, and no other spoke has a rule that names
      both sides by one path on a field the promotion moves. */
  ghost predicate Promotable(c: Config, schemas: Schemas, newHub: string)
    requires ValidConfig(c, schemas)
  {
    exists p :: p in c.spokes && p.version == newHub && PromotableSpoke(c, schemas, p)
  }

  ghost predicate PromotableSpoke(c: Config, schemas: Schemas, p: SpokeRules)
    requires ValidConfig(c, schemas) && p in c.spokes
  {
    && PlainRenames(p.rules)
    && ShapesKept(p.rules, schemas[c.hub], schemas[p.version])
    && forall s, r, q :: s in c.spokes && s != p && r in s.rules && q in p.rules && q.body.hub in FixedPaths(r)
                         ==> q.body.spoke == q.body.hub
  }

  ghost predicate ShapesKept(rules: seq<Rule>, hub: Schema, spoke: Schema) {
    && PairRules(rules, hub, spoke)
    && forall t :: t in Ties(rules, hub, spoke) ==>
         t.hub in hub.leaves && t.spoke in spoke.leaves && hub.leaves[t.hub] == spoke.leaves[t.spoke]
  }

  // ---- The promoted spoke ----

  lemma PlainRenamePairs(rules: seq<Rule>, h: Path, s: Path)
    requires PlainRenames(rules)
    ensures PairOf(rules, h, s) <==> exists r :: r in rules && r.body == FieldRename(h, s)
  {
    if PairOf(rules, h, s) {
      var r :| r in rules && HubSpokePathPairs(r.body).Success? && (h, s) in HubSpokePathPairs(r.body).value;
      assert r.body == FieldRename(h, s);
    }
    if exists r :: r in rules && r.body == FieldRename(h, s) {
      var r :| r in rules && r.body == FieldRename(h, s);
      assert (h, s) in HubSpokePathPairs(r.body).value;
    }
  }

  lemma RenameTie(r: Rule, hub: Schema, spoke: Schema)
    requires r.body.FieldRename? && r.when.None?
    ensures PairRule(r, hub, spoke) && TieOf(r, hub, spoke) == CopyTie(r.body.hub, r.body.spoke)
  {
    assert CompileBody(r.body, hub, spoke) ==
           Plan(Move(r.body.hub, r.body.spoke, Copy), Move(r.body.spoke, r.body.hub, Copy));
  }

  lemma InvertedRename(r: Rule)
    requires r.body.FieldRename? && r.when.None?
    ensures InvertRule(r).Success?
    ensures var inv := InvertRule(r).value;
            inv.body == FieldRename(r.body.spoke, r.body.hub) && inv.when.None?
  {
    assert InvertBody(r.body) == Success(FieldRename(r.body.spoke, r.body.hub));
  }

  lemma RenameTieMembers(rules: seq<Rule>, hub: Schema, spoke: Schema, t: Tie)
    requires PlainRenames(rules) && PairRules(rules, hub, spoke)
    ensures t in RuleTies(rules, hub, spoke) <==>
            PairOf(rules, t.hub, t.spoke) && t == CopyTie(t.hub, t.spoke)
  {
    TiesMembers(rules, hub, spoke, t);
    PlainRenamePairs(rules, t.hub, t.spoke);
    if t in RuleTies(rules, hub, spoke) {
      var r :| r in rules && TieOf(r, hub, spoke) == t;
      RenameTie(r, hub, spoke);
    }
    if PairOf(rules, t.hub, t.spoke) && t == CopyTie(t.hub, t.spoke) {
      var r :| r in rules && r.body == FieldRename(t.hub, t.spoke);
      RenameTie(r, hub, spoke);
    }
  }

  /** What the compiled ties of a renaming spoke look like. */
  ghost predicate RenameTies(rules: seq<Rule>, ties: seq<Tie>) {
    && (forall t :: t in ties ==>
          t == CopyTie(t.hub, t.spoke) && (PairOf(rules, t.hub, t.spoke) || t.hub == t.spoke))
    && (forall h, s :: PairOf(rules, h, s) ==> CopyTie(h, s) in ties)
  }

  lemma RenamesCompileToRenameTies(rules: seq<Rule>, hub: Schema, spoke: Schema)
    requires PlainRenames(rules) && PairRules(rules, hub, spoke)
    ensures RenameTies(rules, Ties(rules, hub, spoke))
  {
    forall t | t in Ties(rules, hub, spoke)
      ensures t == CopyTie(t.hub, t.spoke) && (PairOf(rules, t.hub, t.spoke) || t.hub == t.spoke)
    {
      TiesMembers(rules, hub, spoke, t);
      RenameTieMembers(rules, hub, spoke, t);
    }
    forall h, s | PairOf(rules, h, s) ensures CopyTie(h, s) in Ties(rules, hub, spoke) {
      RenameTieMembers(rules, hub, spoke, CopyTie(h, s));
      TiesMembers(rules, hub, spoke, CopyTie(h, s));
    }
  }

  /** The path map of the promotion sends every hub leaf to its partner. */
  lemma PromotedMap(rules: seq<Rule>, ties: seq<Tie>, hub: Schema, spoke: Schema)
    requires PlainRenames(rules) && RenameTies(rules, ties) && Pairing(ties, hub, spoke) && "" !in hub.leaves
    ensures PathMapFrom(rules, 0, map[]).Success?
    ensures var m := PathMapFrom(rules, 0, map[]).value;
            && (forall t :: t in ties ==> t == CopyTie(t.hub, MapPath(m, t.hub)))
            && (forall p :: p in m ==> p in hub.leaves)
  {
    hide Pairing;
    RenamePairsAgree(rules, ties, hub, spoke);
    PathMapSucceedsExactly(rules);
    var m := PathMapFrom(rules, 0, map[]).value;
    forall p | p in m ensures p in hub.leaves && CopyTie(p, m[p]) in ties {
      assert Maps(m, p, m[p]);
      CopyEndsDeclared(rules, ties, hub, spoke, p, m[p]);
    }
    forall t | t in ties ensures t == CopyTie(t.hub, MapPath(m, t.hub)) {
      if PairOf(rules, t.hub, t.spoke) {
        assert Maps(m, t.hub, t.spoke);
        CopyEndsDeclared(rules, ties, hub, spoke, t.hub, t.spoke);
      } else if t.hub in m {
        assert Maps(m, t.hub, m[t.hub]);
        CopyEndsDeclared(rules, ties, hub, spoke, t.hub, m[t.hub]);
        OneCopyEach(rules, ties, hub, spoke, t, CopyTie(t.hub, m[t.hub]));
      }
    }
  }

  lemma CopyEndsDeclared(rules: seq<Rule>, ties: seq<Tie>, hub: Schema, spoke: Schema, h: Path, s: Path)
    requires RenameTies(rules, ties) && Pairing(ties, hub, spoke) && PairOf(rules, h, s)
    ensures CopyTie(h, s) in ties && h in hub.leaves && h != "" && s in spoke.leaves && s != ""
  {
    assert TieInside(CopyTie(h, s), hub, spoke);
  }

  lemma OneCopyEach(rules: seq<Rule>, ties: seq<Tie>, hub: Schema, spoke: Schema, t: Tie, u: Tie)
    requires RenameTies(rules, ties) && Pairing(ties, hub, spoke) && t in ties && u in ties && t.hub == u.hub
    ensures t == u
  {
    assert TieInside(t, hub, spoke);
    assert SameEnd(t, u);
  }

  lemma RenamePairsAgree(rules: seq<Rule>, ties: seq<Tie>, hub: Schema, spoke: Schema)
    requires PlainRenames(rules) && RenameTies(rules, ties) && Pairing(ties, hub, spoke)
    ensures PairsExtracted(rules) && PairsFunctional(rules)
  {
    forall h, s, u | PairOf(rules, h, s) && PairOf(rules, h, u) ensures s == u {
      CopyEndsDeclared(rules, ties, hub, spoke, h, s);
      CopyEndsDeclared(rules, ties, hub, spoke, h, u);
      OneCopyEach(rules, ties, hub, spoke, CopyTie(h, s), CopyTie(h, u));
    }
  }

  /** t as seen from the other end. */
  function Flip(t: Tie): Tie {
    Tie(t.spoke, t.hub, t.up, t.down, t.spokeGuard, t.hubGuard)
  }

  ghost predicate Flipped(ties: seq<Tie>, flipped: seq<Tie>) {
    forall t :: t in flipped <==> Flip(t) in ties
  }

  lemma InvertedRenameTies(rules: seq<Rule>, inverted: seq<Rule>, hub: Schema, spoke: Schema)
    requires PlainRenames(rules) && PairRules(rules, hub, spoke)
    requires InvertFrom(rules, 0) == Success(inverted)
    ensures PlainRenames(inverted) && PairRules(inverted, spoke, hub)
    ensures forall t :: t in RuleTies(inverted, spoke, hub) <==> Flip(t) in RuleTies(rules, hub, spoke)
    ensures Flipped(Ties(rules, hub, spoke), Ties(inverted, spoke, hub))
  {
    forall r | r in inverted ensures r.body.FieldRename? && r.when.None? && PairRule(r, spoke, hub) {
      var i :| 0 <= i < |inverted| && inverted[i] == r;
      assert InvertRule(rules[i]) == Success(inverted[i]);
      assert rules[i] in rules;
      InvertedRename(rules[i]);
      RenameTie(r, spoke, hub);
    }
    forall t ensures t in RuleTies(inverted, spoke, hub) <==> Flip(t) in RuleTies(rules, hub, spoke) {
      InvertedRuleTie(rules, inverted, hub, spoke, t);
    }
    var own, back := RuleTies(rules, hub, spoke), RuleTies(inverted, spoke, hub);
    forall p ensures ClaimsHub(back, p) <==> ClaimsSpoke(own, p) {
      if ClaimsHub(back, p) { var t :| t in back && t.hub == p; assert Flip(t) in own; }
      if ClaimsSpoke(own, p) { var t :| t in own && t.spoke == p; assert Flip(Flip(t)) == t; assert Flip(t) in back; }
    }
    forall p ensures ClaimsSpoke(back, p) <==> ClaimsHub(own, p) {
      if ClaimsSpoke(back, p) { var t :| t in back && t.spoke == p; assert Flip(t) in own; }
      if ClaimsHub(own, p) { var t :| t in own && t.hub == p; assert Flip(Flip(t)) == t; assert Flip(t) in back; }
    }
    assert AutoCovered(back, spoke, hub) == AutoCovered(own, hub, spoke);
    forall t ensures t in Ties(inverted, spoke, hub) <==> Flip(t) in Ties(rules, hub, spoke) {
      TiesMembers(inverted, spoke, hub, t);
      TiesMembers(rules, hub, spoke, Flip(t));
    }
  }

  lemma InvertedRuleTie(rules: seq<Rule>, inverted: seq<Rule>, hub: Schema, spoke: Schema, t: Tie)
    requires PlainRenames(rules) && PairRules(rules, hub, spoke)
    requires InvertFrom(rules, 0) == Success(inverted)
    requires PairRules(inverted, spoke, hub)
    ensures t in RuleTies(inverted, spoke, hub) <==> Flip(t) in RuleTies(rules, hub, spoke)
  {
    var own, back := RuleTies(rules, hub, spoke), RuleTies(inverted, spoke, hub);
    forall i | 0 <= i < |rules| ensures back[i] == Flip(own[i]) {
      assert InvertRule(rules[i]) == Success(inverted[i]);
      assert rules[i] in rules && inverted[i] in inverted;
      InvertedRename(rules[i]);
      RenameTie(rules[i], hub, spoke);
      RenameTie(inverted[i], spoke, hub);
    }
    if t in back {
      var i :| 0 <= i < |back| && back[i] == t;
      assert Flip(t) == own[i];
    }
    if Flip(t) in own {
      var i :| 0 <= i < |own| && own[i] == Flip(t);
      assert back[i] == t;
    }
  }

  lemma FlippedMembers(ties: seq<Tie>, flipped: seq<Tie>, t: Tie)
    requires Flipped(ties, flipped) && t in ties
    ensures Flip(t) in flipped
  {
    assert Flip(Flip(t)) == t;
  }

  lemma FlippedPairing(ties: seq<Tie>, flipped: seq<Tie>, hub: Schema, spoke: Schema)
    requires Pairing(ties, hub, spoke) && Flipped(ties, flipped)
    ensures Pairing(flipped, spoke, hub)
  {
    FlippedInside(ties, flipped, hub, spoke);
    FlippedOneEach(ties, flipped);
    FlippedCovers(ties, flipped, hub, spoke);
  }

  lemma FlippedInside(ties: seq<Tie>, flipped: seq<Tie>, hub: Schema, spoke: Schema)
    requires Inside(ties, hub, spoke) && Flipped(ties, flipped)
    ensures Inside(flipped, spoke, hub)
  {
    forall t | t in flipped ensures TieInside(t, spoke, hub) {
      assert Flip(t) in ties;
    }
  }

  lemma FlippedOneEach(ties: seq<Tie>, flipped: seq<Tie>)
    requires OneEach(ties) && Flipped(ties, flipped)
    ensures OneEach(flipped)
  {
    forall t, u | t in flipped && u in flipped && SameEnd(t, u) ensures t == u {
      assert Flip(t) in ties && Flip(u) in ties;
      assert SameEnd(Flip(t), Flip(u));
      assert Flip(t) == Flip(u);
    }
  }

  lemma FlippedCovers(ties: seq<Tie>, flipped: seq<Tie>, hub: Schema, spoke: Schema)
    requires CoversHub(ties, hub) && CoversSpoke(ties, spoke) && Flipped(ties, flipped)
    ensures CoversHub(flipped, spoke) && CoversSpoke(flipped, hub)
  {
    forall p | p in spoke.leaves ensures ClaimsHub(flipped, p) {
      var t :| t in ties && t.spoke == p;
      FlippedMembers(ties, flipped, t);
      assert Flip(t).hub == p;
    }
    forall p | p in hub.leaves ensures ClaimsSpoke(flipped, p) {
      var t :| t in ties && t.hub == p;
      FlippedMembers(ties, flipped, t);
      assert Flip(t).spoke == p;
    }
  }

  // ---- The remaining spokes ----

  function MoveGuard(m: PathMap, w: Option<When>): Option<When> {
    if w.None? then None else Some(When(MapPath(m, w.value.path), w.value.equals))
  }

  /** The tie with its hub end and the guard on the hub object moved along. */
  function Carry(m: PathMap, t: Tie): Tie {
    Tie(MapPath(m, t.hub), t.spoke, t.down, t.up, MoveGuard(m, t.hubGuard), t.spokeGuard)
  }

  ghost predicate Carried(ties: seq<Tie>, carried: seq<Tie>, m: PathMap) {
    forall t :: t in carried <==> exists u :: u in ties && t == Carry(m, u)
  }

  /** The facts about a promotion that the remaining spokes need: it moves the old
      hub's leaves one-to-one onto the new hub's, keeping every leaf's shape. */
  ghost predicate Moves(m: PathMap, hub: Schema, next: Schema) {
    && "" !in hub.leaves && "" !in next.leaves
    && (forall p :: p in m ==> p in hub.leaves)
    && (forall p :: p in hub.leaves ==> MapPath(m, p) in next.leaves && next.leaves[MapPath(m, p)] == hub.leaves[p])
    && (forall p, q :: p in hub.leaves && q in hub.leaves && MapPath(m, p) == MapPath(m, q) ==> p == q)
    && (forall n :: n in next.leaves ==> exists p :: p in hub.leaves && MapPath(m, p) == n)
  }

  lemma PromotionMoves(rules: seq<Rule>, hub: Schema, next: Schema)
    requires PlainRenames(rules) && ShapesKept(rules, hub, next) && "" !in hub.leaves && "" !in next.leaves
    requires Pairing(Ties(rules, hub, next), hub, next)
    ensures PathMapFrom(rules, 0, map[]).Success? && Moves(PathMapFrom(rules, 0, map[]).value, hub, next)
  {
    RenamesCompileToRenameTies(rules, hub, next);
    PromotedMap(rules, Ties(rules, hub, next), hub, next);
    TiesMove(Ties(rules, hub, next), PathMapFrom(rules, 0, map[]).value, hub, next);
  }

  lemma TiesMove(ties: seq<Tie>, m: PathMap, hub: Schema, next: Schema)
    requires Pairing(ties, hub, next) && "" !in hub.leaves && "" !in next.leaves
    requires forall t :: t in ties ==> t == CopyTie(t.hub, MapPath(m, t.hub))
    requires forall t :: t in ties ==> t.hub in hub.leaves && t.spoke in next.leaves && hub.leaves[t.hub] == next.leaves[t.spoke]
    requires forall p :: p in m ==> p in hub.leaves
    ensures Moves(m, hub, next)
  {
    forall p | p in hub.leaves ensures MapPath(m, p) in next.leaves && next.leaves[MapPath(m, p)] == hub.leaves[p] {
      assert ClaimsHub(ties, p);
      var t :| t in ties && t.hub == p;
    }
    forall p, q | p in hub.leaves && q in hub.leaves && MapPath(m, p) == MapPath(m, q) ensures p == q {
      assert ClaimsHub(ties, p) && ClaimsHub(ties, q);
      var t :| t in ties && t.hub == p;
      var u :| u in ties && u.hub == q;
      assert SameEnd(t, u);
    }
    forall n | n in next.leaves ensures exists p :: p in hub.leaves && MapPath(m, p) == n {
      assert ClaimsSpoke(ties, n);
      var t :| t in ties && t.spoke == n;
      assert MapPath(m, t.hub) == n;
    }
  }

  predicate PathsKept(rules: seq<Rule>, m: PathMap) {
    forall r :: r in rules ==> FixedKept(r, m)
  }

  predicate FixedKept(r: Rule, m: PathMap) {
    forall p :: p in FixedPaths(r) ==> MapPath(m, p) == p
  }

  function SpokeEnd(t: Tie): set<Path> {
    if t.spoke == "" then {} else {t.spoke}
  }

  /** Rewriting one rule moves the hub end of its tie and nothing else. */
  lemma RewrittenTie(r: Rule, m: PathMap, hub: Schema, next: Schema, spoke: Schema)
    requires PairRule(r, hub, spoke) && TieInside(TieOf(r, hub, spoke), hub, spoke) && Moves(m, hub, next)
    requires FixedKept(r, m)
    ensures RewriteHubPaths(r, m).Success?
    ensures PairRule(RewriteHubPaths(r, m).value, next, spoke)
    ensures TieOf(RewriteHubPaths(r, m).value, next, spoke) == Carry(m, TieOf(r, hub, spoke))
    ensures SpokePathsOf(RewriteHubPaths(r, m).value.body) == SpokeEnd(TieOf(r, hub, spoke))
  {
    hide CompileBody, RewriteBody, SpokePathsOf;
    GuardKept(r, m, hub, next);
    if OneSided(r.body) {
      RewrittenOneSided(r, m);
    } else {
      RewrittenPair(r, m, hub, next, spoke);
    }
  }

  lemma GuardKept(r: Rule, m: PathMap, hub: Schema, next: Schema)
    requires FixedKept(r, m) && Moves(m, hub, next)
    ensures MoveGuard(m, r.when) == r.when
    ensures r.when.Some? && r.when.value.path in hub.leaves ==> r.when.value.path in next.leaves
  {
    assert r.when.Some? ==> r.when.value.path in FixedPaths(r);
  }

  lemma RewrittenPair(r: Rule, m: PathMap, hub: Schema, next: Schema, spoke: Schema)
    requires PairRule(r, hub, spoke) && !OneSided(r.body) && TieInside(TieOf(r, hub, spoke), hub, spoke) && Moves(m, hub, next)
    requires FixedKept(r, m) && MoveGuard(m, r.when) == r.when && GuardCompiles(r.when, next, spoke)
    ensures RewriteHubPaths(r, m).Success?
    ensures PairRule(RewriteHubPaths(r, m).value, next, spoke)
    ensures TieOf(RewriteHubPaths(r, m).value, next, spoke) == Carry(m, TieOf(r, hub, spoke))
    ensures SpokePathsOf(RewriteHubPaths(r, m).value.body) == SpokeEnd(TieOf(r, hub, spoke))
  {
    hide CompileBody, RewriteBody, SpokePathsOf, Moves;
    PairBodies(r.body, hub, spoke);
    assert SinglePath(r.body) ==> r.body.path in FixedPaths(r);
    RewrittenPlan(r.body, m, hub, next, spoke);
    RewrittenKeepsSides(r.body, m);
  }

  lemma RewrittenKeepsSides(b: Body, m: PathMap)
    requires RewriteBody(b, m).Success?
    ensures OneSided(RewriteBody(b, m).value) == OneSided(b)
  {
  }

  lemma RewrittenOneSided(r: Rule, m: PathMap)
    requires OneSided(r.body) && r.body.path != "" && MoveGuard(m, r.when) == r.when
    ensures RewriteHubPaths(r, m).Success? && OneSided(RewriteHubPaths(r, m).value.body)
    ensures OneSidedTie(RewriteHubPaths(r, m).value.body, r.when) == Carry(m, OneSidedTie(r.body, r.when))
    ensures SpokePathsOf(RewriteHubPaths(r, m).value.body) == SpokeEnd(OneSidedTie(r.body, r.when))
  {
    assert MapPath(m, "") == "";
  }

  /** Exactly so: the rewritten rule compiles to the original with its hub end and its
      hub-side guard moved, if and only if the promotion moves none of the paths by which
      the rule names both sides. A moved guard is left reading another field of the hub;
      a moved single-path rule ends up on a spoke field of another name. */
  lemma RewrittenTieExactly(r: Rule, m: PathMap, hub: Schema, next: Schema, spoke: Schema)
    requires PairRule(r, hub, spoke) && TieInside(TieOf(r, hub, spoke), hub, spoke) && Moves(m, hub, next)
    ensures RewriteHubPaths(r, m).Success?
    ensures var rw := RewriteHubPaths(r, m).value;
            PairRule(rw, next, spoke) && TieOf(rw, next, spoke) == Carry(m, TieOf(r, hub, spoke))
            <==> FixedKept(r, m)
  {
    hide CompileBody;
    if FixedKept(r, m) {
      RewrittenTie(r, m, hub, next, spoke);
    } else if SinglePath(r.body) && MapPath(m, r.body.path) != r.body.path {
      MovedSinglePath(r, m, hub, next, spoke);
    } else {
      PairRewrites(r, m, hub, spoke);
    }
  }

  lemma PairRewrites(r: Rule, m: PathMap, hub: Schema, spoke: Schema)
    requires PairRule(r, hub, spoke)
    ensures RewriteHubPaths(r, m).Success? && OneSided(RewriteHubPaths(r, m).value.body) == OneSided(r.body)
  {
    if !OneSided(r.body) {
      PairBodies(r.body, hub, spoke);
    }
  }

  /** A guard on a moved field: the rewritten rule does not even compile unless the new
      hub happens to have another field of that name, and then the guard reads that one. */
  lemma MovedGuard(r: Rule, m: PathMap, hub: Schema, next: Schema, spoke: Schema)
    requires PairRule(r, hub, spoke) && r.when.Some? && RewriteHubPaths(r, m).Success?
    ensures var rw := RewriteHubPaths(r, m).value; var g := r.when.value.path;
            && (g !in next.leaves ==> !PairRule(rw, next, spoke))
            && (PairRule(rw, next, spoke) ==> TieOf(rw, next, spoke).hubGuard == r.when)
  {
  }

  lemma MovedSinglePath(r: Rule, m: PathMap, hub: Schema, next: Schema, spoke: Schema)
    requires PairRule(r, hub, spoke) && SinglePath(r.body)
    requires MapPath(m, r.body.path) != r.body.path
    ensures RewriteHubPaths(r, m).Success?
    ensures var rw := RewriteHubPaths(r, m).value;
            PairRule(rw, next, spoke) ==> TieOf(rw, next, spoke).spoke != TieOf(r, hub, spoke).spoke
  {
    var rw := RewriteHubPaths(r, m).value;
    assert rw.body.path == MapPath(m, r.body.path);
    assert CompileBody(r.body, hub, spoke).down.dst == r.body.path;
    assert CompileBody(rw.body, next, spoke).down.dst == rw.body.path;
  }

  predicate PairBody(b: Body) {
    SinglePath(b) || b.MapKeyRename? ||
    (SwapsPaths(b) && !b.CEL? && !b.ScalarToFields? && !b.FieldsToScalar?)
  }

  lemma PairBodies(b: Body, hub: Schema, spoke: Schema)
    requires PairPlan(CompileBody(b, hub, spoke))
    ensures PairBody(b)
    ensures CompileBody(b, hub, spoke).down.src == (if SinglePath(b) then b.path else b.hub)
    ensures SpokePathsOf(b) == {CompileBody(b, hub, spoke).down.dst}
  {
    hide CompileBody, SpokePathsOf;
    if SwapsPaths(b) {
      PairSwaps(b, hub, spoke);
    } else {
      PairOthers(b, hub, spoke);
    }
  }

  lemma PairSwaps(b: Body, hub: Schema, spoke: Schema)
    requires PairPlan(CompileBody(b, hub, spoke)) && SwapsPaths(b)
    ensures PairBody(b)
    ensures CompileBody(b, hub, spoke).down.src == (if SinglePath(b) then b.path else b.hub)
    ensures SpokePathsOf(b) == {CompileBody(b, hub, spoke).down.dst}
  {
    hide StashPlan, RestorePlan, KindsOf, TableDown, TableUp, KeyNamesFor, CompileAll, ItemsAt;
  }

  lemma PairOthers(b: Body, hub: Schema, spoke: Schema)
    requires PairPlan(CompileBody(b, hub, spoke)) && !SwapsPaths(b)
    ensures PairBody(b)
    ensures CompileBody(b, hub, spoke).down.src == (if SinglePath(b) then b.path else b.hub)
    ensures SpokePathsOf(b) == {CompileBody(b, hub, spoke).down.dst}
  {
    hide KindsOf, TableDown, TableUp, KeyNamesFor, CompileAll, ItemsAt;
  }

  /** b's plan after its hub path moved through m, everything else unchanged. */
  ghost predicate MovedPlan(b: Body, m: PathMap, hub: Schema, next: Schema, spoke: Schema)
    requires PairPlan(CompileBody(b, hub, spoke)) && RewriteBody(b, m).Success?
  {
    var p := CompileBody(b, hub, spoke);
    && CompileBody(RewriteBody(b, m).value, next, spoke) ==
       Plan(Move(MapPath(m, p.down.src), p.down.dst, p.down.fn), Move(p.down.dst, MapPath(m, p.down.src), p.up.fn))
    && SpokePathsOf(RewriteBody(b, m).value) == {p.down.dst}
  }

  lemma RewrittenPlan(b: Body, m: PathMap, hub: Schema, next: Schema, spoke: Schema)
    requires PairBody(b) && PairPlan(CompileBody(b, hub, spoke))
    requires CompileBody(b, hub, spoke).down.src in hub.leaves && Moves(m, hub, next)
    requires SinglePath(b) ==> MapPath(m, b.path) == b.path
    ensures RewriteBody(b, m).Success? && MovedPlan(b, m, hub, next, spoke)
  {
    PairBodies(b, hub, spoke);
    var h := if SinglePath(b) then b.path else b.hub;
    assert KindAt(next, MapPath(m, h)) == KindAt(hub, h);
    assert ItemKindAt(next, MapPath(m, h)) == ItemKindAt(hub, h);
    if SinglePath(b) {
      RewrittenSinglePath(b, m, hub, next, spoke);
    } else if b.NumericScale? || b.Quantity? || b.Duration? || b.ListJoin? || b.ListSplit? {
      RewrittenTyped(b, m, hub, next, spoke);
    } else {
      RewrittenUntyped(b, m, hub, next, spoke);
    }
  }

  lemma RewrittenSinglePath(b: Body, m: PathMap, hub: Schema, next: Schema, spoke: Schema)
    requires SinglePath(b) && PairPlan(CompileBody(b, hub, spoke))
    requires MapPath(m, b.path) == b.path && KindAt(next, b.path) == KindAt(hub, b.path)
    ensures RewriteBody(b, m).Success? && MovedPlan(b, m, hub, next, spoke)
  {
  }

  lemma RewrittenTyped(b: Body, m: PathMap, hub: Schema, next: Schema, spoke: Schema)
    requires b.NumericScale? || b.Quantity? || b.Duration? || b.ListJoin? || b.ListSplit?
    requires PairPlan(CompileBody(b, hub, spoke))
    requires KindAt(next, MapPath(m, b.hub)) == KindAt(hub, b.hub)
    requires ItemKindAt(next, MapPath(m, b.hub)) == ItemKindAt(hub, b.hub)
    ensures RewriteBody(b, m).Success? && MovedPlan(b, m, hub, next, spoke)
  {
    if b.NumericScale? {
      assert RewriteBody(b, m).value == NumericScale(MapPath(m, b.hub), b.spoke, b.factor);
    } else if b.Quantity? || b.Duration? {
      RewrittenUnits(b, m, hub, next, spoke);
    } else {
      RewrittenLists(b, m, hub, next, spoke);
    }
  }

  lemma RewrittenUnits(b: Body, m: PathMap, hub: Schema, next: Schema, spoke: Schema)
    requires b.Quantity? || b.Duration?
    requires PairPlan(CompileBody(b, hub, spoke))
    requires KindAt(next, MapPath(m, b.hub)) == KindAt(hub, b.hub)
    ensures RewriteBody(b, m).Success? && MovedPlan(b, m, hub, next, spoke)
  {
    hide StashPlan, RestorePlan, KindsOf, TableDown, TableUp, KeyNamesFor, CompileAll, ItemsAt, MapPaths, MapFields;
  }

  lemma RewrittenLists(b: Body, m: PathMap, hub: Schema, next: Schema, spoke: Schema)
    requires b.ListJoin? || b.ListSplit?
    requires PairPlan(CompileBody(b, hub, spoke))
    requires ItemKindAt(next, MapPath(m, b.hub)) == ItemKindAt(hub, b.hub)
    ensures RewriteBody(b, m).Success? && MovedPlan(b, m, hub, next, spoke)
  {
  }

  lemma RewrittenUntyped(b: Body, m: PathMap, hub: Schema, next: Schema, spoke: Schema)
    requires b.FieldRename? || b.ScalarToObject? || b.ObjectToScalar? || b.SingletonArrayToObject? ||
             b.ObjectToSingletonArray? || b.ArrayToMapByKey? || b.MapToArrayByKey? || b.MapKeyRename?
    requires PairPlan(CompileBody(b, hub, spoke))
    ensures RewriteBody(b, m).Success? && MovedPlan(b, m, hub, next, spoke)
  {
    hide StashPlan, RestorePlan, KindsOf, TableDown, TableUp, KeyNamesFor, CompileAll, ItemsAt, MapPaths, MapFields;
  }

  lemma LiftMembers(keys: seq<Path>, m: PathMap, leaves: set<Path>, claimed: set<Path>, r: Rule)
    requires forall k :: k in keys ==> k in m
    requires forall i, j :: 0 <= i < j < |keys| ==> keys[i] != keys[j]
    ensures r in Lift(keys, m, leaves, claimed) <==>
            exists k :: k in keys && m[k] != k && k in leaves && k !in claimed && r == PlainRename(m[k], k)
    decreases |keys|
  {
    if keys == [] {
    } else {
      var k0, rest := keys[0], keys[1..];
      assert forall k :: k in keys <==> k == k0 || k in rest;
      assert k0 !in rest;
      if m[k0] == k0 || k0 !in leaves || k0 in claimed {
        LiftMembers(rest, m, leaves, claimed, r);
      } else {
        LiftMembers(rest, m, leaves, claimed + {k0}, r);
        assert k0 in keys;
      }
    }
  }

  lemma LiftedMembers(m: PathMap, leaves: set<Path>, claimed: set<Path>, r: Rule)
    ensures r in Lift(SortedKeys(m.Keys), m, leaves, claimed) <==>
            exists k :: k in m && m[k] != k && k in leaves && k !in claimed && r == PlainRename(m[k], k)
  {
    var keys := SortedKeys(m.Keys);
    StrictlySortedDistinct(keys);
    LiftMembers(keys, m, leaves, claimed, r);
  }

  /** q as a rule of the recomposed spoke: rewritten, its claim still the same path. */
  ghost predicate Rewrites(rules: seq<Rule>, m: PathMap, hub: Schema, spoke: Schema)
    requires PairRules(rules, hub, spoke)
  {
    forall q :: q in rules ==>
      RewriteHubPaths(q, m).Success? && SpokePathsOf(RewriteHubPaths(q, m).value.body) == SpokeEnd(TieOf(q, hub, spoke))
  }

  lemma AllRewritten(rules: seq<Rule>, m: PathMap, hub: Schema, next: Schema, spoke: Schema)
    requires PairRules(rules, hub, spoke) && Moves(m, hub, next) && PathsKept(rules, m)
    requires Inside(RuleTies(rules, hub, spoke), hub, spoke)
    ensures Rewrites(rules, m, hub, spoke)
  {
    forall q | q in rules
      ensures RewriteHubPaths(q, m).Success?
      ensures SpokePathsOf(RewriteHubPaths(q, m).value.body) == SpokeEnd(TieOf(q, hub, spoke))
    {
      TiesMembers(rules, hub, spoke, TieOf(q, hub, spoke));
      RewrittenTie(q, m, hub, next, spoke);
    }
  }

  lemma ClaimsKept(rules: seq<Rule>, m: PathMap, rw: seq<Rule>, hub: Schema, spoke: Schema, p: Path)
    requires PairRules(rules, hub, spoke) && Rewrites(rules, m, hub, spoke)
    requires RewriteFrom(rules, m, 0) == Success(rw)
    ensures p in ClaimedBy(rw) <==> p != "" && ClaimsSpoke(RuleTies(rules, hub, spoke), p)
  {
    hide RewriteHubPaths, SpokePathsOf, CompileBody, RewriteFrom, Ties, PairRule, TieOf;
    if p in ClaimedBy(rw) {
      var r :| r in rw && p in SpokePathsOf(r.body);
      RewrittenMembers(rules, m, rw, r);
      var q :| q in rules && RewriteHubPaths(q, m) == Success(r);
      TiesMembers(rules, hub, spoke, TieOf(q, hub, spoke));
    }
    if p != "" && ClaimsSpoke(RuleTies(rules, hub, spoke), p) {
      var t :| t in RuleTies(rules, hub, spoke) && t.spoke == p;
      TiesMembers(rules, hub, spoke, t);
      var q :| q in rules && TieOf(q, hub, spoke) == t;
      RewrittenMembers(rules, m, rw, RewriteHubPaths(q, m).value);
      assert p in SpokePathsOf(RewriteHubPaths(q, m).value.body);
    }
  }

  /** k lost its auto-coverage to the promotion and gets a rename of its own. */
  ghost predicate Lifts(m: PathMap, own: seq<Tie>, spoke: Schema, k: Path) {
    k in m && m[k] != k && k in spoke.leaves && !(k != "" && ClaimsSpoke(own, k))
  }

  ghost predicate ComposedOf(rules: seq<Rule>, m: PathMap, own: seq<Tie>, spoke: Schema, r: Rule) {
    || (exists q :: q in rules && RewriteHubPaths(q, m) == Success(r))
    || (exists k :: Lifts(m, own, spoke, k) && r == PlainRename(m[k], k))
  }

  /** Which rules a recomposed spoke ends up with. */
  lemma ComposedRules(rules: seq<Rule>, m: PathMap, hub: Schema, next: Schema, spoke: Schema)
    requires PairRules(rules, hub, spoke) && Moves(m, hub, next) && PathsKept(rules, m)
    requires Inside(RuleTies(rules, hub, spoke), hub, spoke)
    ensures Compose(rules, m, spoke.leaves.Keys).Success?
    ensures forall r :: r in Compose(rules, m, spoke.leaves.Keys).value <==>
                        ComposedOf(rules, m, RuleTies(rules, hub, spoke), spoke, r)
  {
    AllRewritten(rules, m, hub, next, spoke);
    RewriteAllSucceeds(rules, m, 0);
    var rw := RewriteFrom(rules, m, 0).value;
    var claimed := ClaimedBy(rw);
    forall p ensures p in claimed <==> p != "" && ClaimsSpoke(RuleTies(rules, hub, spoke), p) {
      ClaimsKept(rules, m, rw, hub, spoke, p);
    }
    ComposedMembers(rules, m, rw, RuleTies(rules, hub, spoke), spoke, claimed);
  }

  lemma ComposedMembers(rules: seq<Rule>, m: PathMap, rw: seq<Rule>, own: seq<Tie>, spoke: Schema, claimed: set<Path>)
    requires RewriteFrom(rules, m, 0) == Success(rw)
    requires forall p :: p in claimed <==> p != "" && ClaimsSpoke(own, p)
    ensures forall r :: r in rw + Lift(SortedKeys(m.Keys), m, spoke.leaves.Keys, claimed) <==> ComposedOf(rules, m, own, spoke, r)
  {
    var lifted := Lift(SortedKeys(m.Keys), m, spoke.leaves.Keys, claimed);
    forall r ensures r in rw + lifted <==> ComposedOf(rules, m, own, spoke, r) {
      RewrittenMembers(rules, m, rw, r);
      LiftedMembers(m, spoke.leaves.Keys, claimed, r);
      if r in lifted {
        var k :| k in m && m[k] != k && k in spoke.leaves.Keys && k !in claimed && r == PlainRename(m[k], k);
        assert Lifts(m, own, spoke, k);
      }
    }
  }

  lemma RewriteAllSucceeds(rules: seq<Rule>, m: PathMap, i: nat)
    requires i <= |rules|
    requires forall q :: q in rules ==> RewriteHubPaths(q, m).Success?
    ensures RewriteFrom(rules, m, i).Success?
    decreases |rules| - i
  {
    if i == |rules| {
    } else {
      assert rules[i] in rules;
      RewriteAllSucceeds(rules, m, i + 1);
    }
  }

  lemma RewrittenMembers(rules: seq<Rule>, m: PathMap, rw: seq<Rule>, r: Rule)
    requires RewriteFrom(rules, m, 0) == Success(rw)
    ensures r in rw <==> exists q :: q in rules && RewriteHubPaths(q, m) == Success(r)
  {
    if r in rw {
      var i :| 0 <= i < |rw| && rw[i] == r;
      assert RewriteHubPaths(rules[i], m) == Success(rw[i]);
      assert rules[i] in rules;
    }
    if exists q :: q in rules && RewriteHubPaths(q, m) == Success(r) {
      var q :| q in rules && RewriteHubPaths(q, m) == Success(r);
      var i :| 0 <= i < |rules| && rules[i] == q;
      assert RewriteHubPaths(rules[i], m) == Success(rw[i]);
    }
  }

  lemma RuleTieOfRule(rules: seq<Rule>, hub: Schema, spoke: Schema, r: Rule)
    requires PairRules(rules, hub, spoke) && r in rules
    ensures TieOf(r, hub, spoke) in RuleTies(rules, hub, spoke)
  {
    TiesMembers(rules, hub, spoke, TieOf(r, hub, spoke));
  }

  /** The compiled rules of the recomposed spoke: the old ones carried along, and a
      copy for every lifted field. */
  ghost predicate CarriedOrLifted(own: seq<Tie>, m: PathMap, spoke: Schema, t: Tie) {
    || (exists u :: u in own && t == Carry(m, u))
    || (exists k :: Lifts(m, own, spoke, k) && t == CopyTie(m[k], k))
  }

  lemma ComposedRuleTies(rules: seq<Rule>, out: seq<Rule>, m: PathMap, hub: Schema, next: Schema, spoke: Schema)
    requires PairRules(rules, hub, spoke) && Moves(m, hub, next) && PathsKept(rules, m)
    requires Inside(RuleTies(rules, hub, spoke), hub, spoke)
    requires Compose(rules, m, spoke.leaves.Keys) == Success(out)
    ensures PairRules(out, next, spoke)
    ensures forall t :: t in RuleTies(out, next, spoke) <==> CarriedOrLifted(RuleTies(rules, hub, spoke), m, spoke, t)
  {
    var own := RuleTies(rules, hub, spoke);
    ComposedRules(rules, m, hub, next, spoke);
    forall q | q in rules
      ensures RewriteHubPaths(q, m).Success? && PairRule(RewriteHubPaths(q, m).value, next, spoke)
      ensures TieOf(RewriteHubPaths(q, m).value, next, spoke) == Carry(m, TieOf(q, hub, spoke))
    {
      RuleTieOfRule(rules, hub, spoke, q);
      RewrittenTie(q, m, hub, next, spoke);
    }
    forall k | Lifts(m, own, spoke, k)
      ensures PairRule(PlainRename(m[k], k), next, spoke)
      ensures TieOf(PlainRename(m[k], k), next, spoke) == CopyTie(m[k], k)
    {
      RenameTie(PlainRename(m[k], k), next, spoke);
    }
    forall r | r in out ensures PairRule(r, next, spoke) {
      assert ComposedOf(rules, m, own, spoke, r);
    }
    forall t ensures t in RuleTies(out, next, spoke) <==> CarriedOrLifted(own, m, spoke, t) {
      ComposedRuleTie(rules, out, m, hub, next, spoke, t);
    }
  }

  lemma ComposedRuleTie(rules: seq<Rule>, out: seq<Rule>, m: PathMap, hub: Schema, next: Schema, spoke: Schema, t: Tie)
    requires PairRules(rules, hub, spoke) && PairRules(out, next, spoke)
    requires forall r :: r in out <==> ComposedOf(rules, m, RuleTies(rules, hub, spoke), spoke, r)
    requires forall q :: q in rules ==> RewriteHubPaths(q, m).Success? && PairRule(RewriteHubPaths(q, m).value, next, spoke)
    requires forall q :: q in rules ==> TieOf(RewriteHubPaths(q, m).value, next, spoke) == Carry(m, TieOf(q, hub, spoke))
    ensures t in RuleTies(out, next, spoke) <==> CarriedOrLifted(RuleTies(rules, hub, spoke), m, spoke, t)
  {
    hide RewriteHubPaths, TieOf, PairRule, RuleTies, ComposedOf, CarriedOrLifted;
    if t in RuleTies(out, next, spoke) {
      ComposedRuleTieFrom(rules, out, m, hub, next, spoke, t);
    }
    if CarriedOrLifted(RuleTies(rules, hub, spoke), m, spoke, t) {
      ComposedRuleTieTo(rules, out, m, hub, next, spoke, t);
    }
  }

  lemma ComposedRuleTieFrom(rules: seq<Rule>, out: seq<Rule>, m: PathMap, hub: Schema, next: Schema, spoke: Schema, t: Tie)
    requires PairRules(rules, hub, spoke) && PairRules(out, next, spoke)
    requires forall r :: r in out <==> ComposedOf(rules, m, RuleTies(rules, hub, spoke), spoke, r)
    requires forall q :: q in rules ==> RewriteHubPaths(q, m).Success? && PairRule(RewriteHubPaths(q, m).value, next, spoke)
    requires forall q :: q in rules ==> TieOf(RewriteHubPaths(q, m).value, next, spoke) == Carry(m, TieOf(q, hub, spoke))
    requires t in RuleTies(out, next, spoke)
    ensures CarriedOrLifted(RuleTies(rules, hub, spoke), m, spoke, t)
  {
    hide RewriteHubPaths, CompileRule, TieOf, AutoCovered, Ties, PairRule;
    var own := RuleTies(rules, hub, spoke);
    TiesMembers(out, next, spoke, t);
    var r :| r in out && TieOf(r, next, spoke) == t;
    if exists q :: q in rules && RewriteHubPaths(q, m) == Success(r) {
      var q :| q in rules && RewriteHubPaths(q, m) == Success(r);
      RuleTieOfRule(rules, hub, spoke, q);
    } else {
      var k :| Lifts(m, own, spoke, k) && r == PlainRename(m[k], k);
      RenameTie(r, next, spoke);
    }
  }

  lemma ComposedRuleTieTo(rules: seq<Rule>, out: seq<Rule>, m: PathMap, hub: Schema, next: Schema, spoke: Schema, t: Tie)
    requires PairRules(rules, hub, spoke) && PairRules(out, next, spoke)
    requires forall r :: r in out <==> ComposedOf(rules, m, RuleTies(rules, hub, spoke), spoke, r)
    requires forall q :: q in rules ==> RewriteHubPaths(q, m).Success? && PairRule(RewriteHubPaths(q, m).value, next, spoke)
    requires forall q :: q in rules ==> TieOf(RewriteHubPaths(q, m).value, next, spoke) == Carry(m, TieOf(q, hub, spoke))
    requires CarriedOrLifted(RuleTies(rules, hub, spoke), m, spoke, t)
    ensures t in RuleTies(out, next, spoke)
  {
    hide RewriteHubPaths, CompileRule, TieOf, AutoCovered, Ties, PairRule;
    var own := RuleTies(rules, hub, spoke);
    if exists u :: u in own && t == Carry(m, u) {
      var u :| u in own && t == Carry(m, u);
      TiesMembers(rules, hub, spoke, u);
      var q :| q in rules && TieOf(q, hub, spoke) == u;
      assert ComposedOf(rules, m, own, spoke, RewriteHubPaths(q, m).value);
      RuleTieOfRule(out, next, spoke, RewriteHubPaths(q, m).value);
    } else {
      var k :| Lifts(m, own, spoke, k) && t == CopyTie(m[k], k);
      var r := PlainRename(m[k], k);
      assert ComposedOf(rules, m, own, spoke, r);
      RenameTie(r, next, spoke);
      RuleTieOfRule(out, next, spoke, r);
    }
  }

  /** Seen on bare ties: what auto-coverage makes of the carried and lifted ones.
      own and auto are the ties before, back the rule ties after. */
  lemma AutoAfter(own: seq<Tie>, back: seq<Tie>, m: PathMap, hub: Schema, next: Schema, spoke: Schema, p: Path)
    requires Moves(m, hub, next) && Inside(own, hub, spoke)
    requires forall t :: t in back <==> CarriedOrLifted(own, m, spoke, t)
    requires forall s :: s in spoke.leaves ==> ClaimsSpoke(own, s) || s in AutoCovered(own, hub, spoke)
    ensures p in AutoCovered(back, next, spoke) <==> p in AutoCovered(own, hub, spoke) && MapPath(m, p) == p
  {
    if ClaimsSpoke(own, p) {
      var u :| u in own && u.spoke == p;
      assert CarriedOrLifted(own, m, spoke, Carry(m, u));
      assert Carry(m, u).spoke == p;
      assert ClaimsSpoke(back, p);
    }
    if Lifts(m, own, spoke, p) {
      assert CarriedOrLifted(own, m, spoke, CopyTie(m[p], p));
      assert CopyTie(m[p], p) in back;
      assert ClaimsSpoke(back, p);
    }
    if p in AutoCovered(own, hub, spoke) && MapPath(m, p) == p {
      forall k | Lifts(m, own, spoke, k) ensures m[k] != p && k != p {
        LiftedElsewhere(m, own, hub, next, spoke, k, p);
      }
      forall t | t in back ensures t.hub != p && t.spoke != p {
        if exists u :: u in own && t == Carry(m, u) {
          var u :| u in own && t == Carry(m, u);
          assert u.hub != p && u.spoke != p;
        }
      }
    }
  }

  /** A lifted field and a field that stayed put are different on both sides. */
  lemma LiftedElsewhere(m: PathMap, own: seq<Tie>, hub: Schema, next: Schema, spoke: Schema, k: Path, p: Path)
    requires Moves(m, hub, next) && Lifts(m, own, spoke, k) && p in hub.leaves && MapPath(m, p) == p
    ensures m[k] != p && k != p
  {
    assert MapPath(m, k) == m[k];
  }

  /** Recomposing a spoke carries every correspondence it had, explicit or
      auto-covered, to the new hub, and adds none. */
  lemma RecomposedTies(rules: seq<Rule>, out: seq<Rule>, m: PathMap, hub: Schema, next: Schema, spoke: Schema)
    requires PairRules(rules, hub, spoke) && Moves(m, hub, next) && PathsKept(rules, m)
    requires Pairing(Ties(rules, hub, spoke), hub, spoke)
    requires Compose(rules, m, spoke.leaves.Keys) == Success(out)
    ensures PairRules(out, next, spoke)
    ensures Carried(Ties(rules, hub, spoke), Ties(out, next, spoke), m)
  {
    hide CompileRule, AutoCovered, Compose, RuleTies, Ties, Pairing, Moves;
    var own := RuleTies(rules, hub, spoke);
    OwnTiesCover(rules, hub, spoke);
    ComposedRuleTies(rules, out, m, hub, next, spoke);
    var back := RuleTies(out, next, spoke);
    var auto := AutoCovered(own, hub, spoke);
    forall p ensures p in AutoCovered(back, next, spoke) <==> p in auto && MapPath(m, p) == p {
      AutoAfter(own, back, m, hub, next, spoke, p);
    }
    forall t ensures t in Ties(out, next, spoke) <==> exists u :: u in Ties(rules, hub, spoke) && t == Carry(m, u) {
      TiesMembers(out, next, spoke, t);
      RecomposedTie(rules, back, m, hub, next, spoke, t);
    }
  }

  lemma OwnTiesCover(rules: seq<Rule>, hub: Schema, spoke: Schema)
    requires PairRules(rules, hub, spoke)
    requires Pairing(Ties(rules, hub, spoke), hub, spoke)
    ensures Inside(RuleTies(rules, hub, spoke), hub, spoke)
    ensures forall s :: s in spoke.leaves ==>
              ClaimsSpoke(RuleTies(rules, hub, spoke), s) || s in AutoCovered(RuleTies(rules, hub, spoke), hub, spoke)
  {
    forall t | t in RuleTies(rules, hub, spoke) ensures t in Ties(rules, hub, spoke) {
      TiesMembers(rules, hub, spoke, t);
    }
    forall s | s in spoke.leaves
      ensures ClaimsSpoke(RuleTies(rules, hub, spoke), s) || s in AutoCovered(RuleTies(rules, hub, spoke), hub, spoke)
    {
      var t :| t in Ties(rules, hub, spoke) && t.spoke == s;
      TiesMembers(rules, hub, spoke, t);
    }
  }

  /** t is among the ties own and auto describe. */
  ghost predicate OwnOrAuto(own: seq<Tie>, auto: set<Path>, t: Tie) {
    t in own || (t.hub in auto && t == CopyTie(t.hub, t.hub))
  }

  lemma RecomposedTie(rules: seq<Rule>, back: seq<Tie>, m: PathMap, hub: Schema, next: Schema, spoke: Schema, t: Tie)
    requires PairRules(rules, hub, spoke) && Moves(m, hub, next)
    requires forall t :: t in back <==> CarriedOrLifted(RuleTies(rules, hub, spoke), m, spoke, t)
    requires forall s :: s in spoke.leaves ==>
               ClaimsSpoke(RuleTies(rules, hub, spoke), s) || s in AutoCovered(RuleTies(rules, hub, spoke), hub, spoke)
    requires forall p :: p in AutoCovered(back, next, spoke) <==>
                         p in AutoCovered(RuleTies(rules, hub, spoke), hub, spoke) && MapPath(m, p) == p
    ensures OwnOrAuto(back, AutoCovered(back, next, spoke), t) <==> exists u :: u in Ties(rules, hub, spoke) && t == Carry(m, u)
  {
    var own := RuleTies(rules, hub, spoke);
    var auto := AutoCovered(own, hub, spoke);
    var ties := Ties(rules, hub, spoke);
    forall u ensures u in ties <==> OwnOrAuto(own, auto, u) {
      TiesMembers(rules, hub, spoke, u);
    }
    forall k | Lifts(m, own, spoke, k) ensures k in auto && MapPath(m, k) == m[k] {
      assert k in hub.leaves;
    }
    assert forall p :: p in auto ==> p in spoke.leaves && p in hub.leaves && !ClaimsSpoke(own, p);
    if OwnOrAuto(back, AutoCovered(back, next, spoke), t) {
      CarriedFrom(own, auto, back, AutoCovered(back, next, spoke), m, spoke, t);
      var u :| OwnOrAuto(own, auto, u) && t == Carry(m, u);
      assert u in ties;
    }
    if exists u :: u in ties && t == Carry(m, u) {
      var u :| u in ties && t == Carry(m, u);
      CarriedTo(own, auto, back, AutoCovered(back, next, spoke), m, spoke, u);
    }
  }

  lemma CarriedFrom(own: seq<Tie>, auto: set<Path>, back: seq<Tie>, autoBack: set<Path>, m: PathMap, spoke: Schema, t: Tie)
    requires forall t :: t in back <==> CarriedOrLifted(own, m, spoke, t)
    requires forall p :: p in autoBack <==> p in auto && MapPath(m, p) == p
    requires forall k :: Lifts(m, own, spoke, k) ==> k in auto && MapPath(m, k) == m[k]
    requires OwnOrAuto(back, autoBack, t)
    ensures exists u :: OwnOrAuto(own, auto, u) && t == Carry(m, u)
  {
    if t in back {
      assert CarriedOrLifted(own, m, spoke, t);
      if exists u :: u in own && t == Carry(m, u) {
        var u :| u in own && t == Carry(m, u);
        assert OwnOrAuto(own, auto, u);
      } else {
        var k :| Lifts(m, own, spoke, k) && t == CopyTie(m[k], k);
        var u := CopyTie(k, k);
        assert OwnOrAuto(own, auto, u) && t == Carry(m, u);
      }
    } else {
      assert OwnOrAuto(own, auto, t) && t == Carry(m, t);
    }
  }

  lemma CarriedTo(own: seq<Tie>, auto: set<Path>, back: seq<Tie>, autoBack: set<Path>, m: PathMap, spoke: Schema, u: Tie)
    requires forall t :: t in back <==> CarriedOrLifted(own, m, spoke, t)
    requires forall p :: p in autoBack <==> p in auto && MapPath(m, p) == p
    requires forall p :: p in auto ==> p in spoke.leaves && !ClaimsSpoke(own, p)
    requires OwnOrAuto(own, auto, u)
    ensures OwnOrAuto(back, autoBack, Carry(m, u))
  {
    if u in own {
      assert CarriedOrLifted(own, m, spoke, Carry(m, u));
    } else if MapPath(m, u.hub) != u.hub {
      assert Lifts(m, own, spoke, u.hub);
      assert Carry(m, u) == CopyTie(m[u.hub], u.hub);
      assert CarriedOrLifted(own, m, spoke, Carry(m, u));
    }
  }

  lemma CarriedPairing(ties: seq<Tie>, carried: seq<Tie>, m: PathMap, hub: Schema, next: Schema, spoke: Schema)
    requires Pairing(ties, hub, spoke) && Carried(ties, carried, m) && Moves(m, hub, next)
    ensures Pairing(carried, next, spoke)
  {
    CarriedInside(ties, carried, m, hub, next, spoke);
    CarriedOneEach(ties, carried, m, hub, next, spoke);
    CarriedCovers(ties, carried, m, hub, next, spoke);
  }

  lemma CarriedInside(ties: seq<Tie>, carried: seq<Tie>, m: PathMap, hub: Schema, next: Schema, spoke: Schema)
    requires Inside(ties, hub, spoke) && Carried(ties, carried, m) && Moves(m, hub, next)
    ensures Inside(carried, next, spoke)
  {
  }

  lemma CarriedSameEnd(u: Tie, w: Tie, m: PathMap, hub: Schema, next: Schema, spoke: Schema)
    requires Moves(m, hub, next) && TieInside(u, hub, spoke) && TieInside(w, hub, spoke)
    requires SameEnd(Carry(m, u), Carry(m, w))
    ensures SameEnd(u, w)
  {
    assert MapPath(m, "") == "";
  }

  lemma CarriedOneEach(ties: seq<Tie>, carried: seq<Tie>, m: PathMap, hub: Schema, next: Schema, spoke: Schema)
    requires Inside(ties, hub, spoke) && OneEach(ties) && Carried(ties, carried, m) && Moves(m, hub, next)
    ensures OneEach(carried)
  {
    forall t, v | t in carried && v in carried && SameEnd(t, v) ensures t == v {
      var u :| u in ties && t == Carry(m, u);
      var w :| w in ties && v == Carry(m, w);
      CarriedSameEnd(u, w, m, hub, next, spoke);
    }
  }

  lemma CarriedCovers(ties: seq<Tie>, carried: seq<Tie>, m: PathMap, hub: Schema, next: Schema, spoke: Schema)
    requires CoversHub(ties, hub) && CoversSpoke(ties, spoke) && Carried(ties, carried, m) && Moves(m, hub, next)
    ensures CoversHub(carried, next) && CoversSpoke(carried, spoke)
  {
    forall n | n in next.leaves ensures ClaimsHub(carried, n) {
      var p :| p in hub.leaves && MapPath(m, p) == n;
      assert ClaimsHub(ties, p);
      var u :| u in ties && u.hub == p;
      assert Carry(m, u) in carried && Carry(m, u).hub == n;
    }
    forall s | s in spoke.leaves ensures ClaimsSpoke(carried, s) {
      var u :| u in ties && u.spoke == s;
      assert Carry(m, u) in carried && Carry(m, u).spoke == s;
    }
  }
}
