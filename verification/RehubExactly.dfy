/** Which promotions keep every conversion from the promoted version: the ones whose rules
    only rename. Any other pairing rule shows, in the value or in its guard, as soon as
    another version converts the field too. */
module RehubExactly {
  import opened Wrappers
  import opened Ordering
  import opened Rules
  import opened Invert
  import opened Engine
  import opened HubPaths
  import opened Rehub
  import opened Conversion
  import opened RehubMeaning
  import opened RehubTheorem

  // ---- Promoting a version of pairing rules ----

  /** Every rule ties one hub field to one field of the version, guarded or not. */
  predicate AllPairs(rules: seq<Rule>) {
    forall r :: r in rules ==> !OneSided(r.body)
  }

  /** Nothing but values and guards stands in the way of the promotion: fields that are
      copied keep their shape, and no other version has a rule that names both sides by
      one path on a field the promotion moves. */
  ghost predicate FieldsFit(c: Config, schemas: Schemas, p: SpokeRules)
    requires ValidConfig(c, schemas) && p in c.spokes
  {
    var hub, next := schemas[c.hub], schemas[p.version];
    && (forall t :: t in Ties(p.rules, hub, next) && t.down == Convert(Copy) ==>
          t.hub in hub.leaves && t.spoke in next.leaves && hub.leaves[t.hub] == next.leaves[t.spoke])
    && (forall s, r, t :: s in c.spokes && s != p && r in s.rules && t in Ties(p.rules, hub, next) && t.hub in FixedPaths(r) ==>
          t.spoke == t.hub)
  }

  /** Version s converts the field at the hub path h, and a promoted rule's guard is not
      doubled by one of its own. */
  ghost predicate ConvertsToo(c: Config, schemas: Schemas, s: SpokeRules, r: Rule, h: Path, u: Tie)
    requires ValidConfig(c, schemas) && s in c.spokes
  {
    && u in Ties(s.rules, schemas[c.hub], schemas[s.version])
    && u.hub == h && u.down.Convert?
    && (r.when.Some? ==> u.hubGuard.None?)
  }

  /** Every promoted rule is on a field that some other version converts. */
  ghost predicate ConvertedElsewhere(c: Config, schemas: Schemas, p: SpokeRules)
    requires ValidConfig(c, schemas) && p in c.spokes
  {
    forall r :: r in p.rules && PairRule(r, schemas[c.hub], schemas[p.version]) ==>
      exists s, u :: s in c.spokes && s != p && ConvertsToo(c, schemas, s, r, TieOf(r, schemas[c.hub], schemas[p.version]).hub, u)
  }

  lemma PairInverts(b: Body)
    requires PairBody(b)
    ensures InvertBody(b).Success?
  {
  }

  lemma PairsInvert(rules: seq<Rule>, hub: Schema, spoke: Schema, i: nat)
    requires i <= |rules| && PairRules(rules, hub, spoke) && AllPairs(rules)
    ensures InvertFrom(rules, i).Success?
    decreases |rules| - i
  {
    hide CompileBody, InvertBody;
    if i == |rules| {
    } else {
      assert rules[i] in rules;
      PairBodies(rules[i].body, hub, spoke);
      PairInverts(rules[i].body);
      PairsInvert(rules, hub, spoke, i + 1);
    }
  }

  lemma PairPairs(b: Body, hub: Schema, spoke: Schema)
    requires PairPlan(CompileBody(b, hub, spoke))
    ensures HubSpokePathPairs(b) == Success([(CompileBody(b, hub, spoke).down.src, CompileBody(b, hub, spoke).down.dst)])
  {
    PairBodies(b, hub, spoke);
    PairPath(b);
  }

  lemma PairPath(b: Body)
    requires PairBody(b)
    ensures HubSpokePathPairs(b) == Success([(if SinglePath(b) then b.path else b.hub, if SinglePath(b) then b.path else b.spoke)])
    ensures SpokePathsOf(b) == {if SinglePath(b) then b.path else b.spoke}
  {
  }

  /** The promoted pairs are the two ends of the promoted rules' ties. */
  lemma PairOfTies(rules: seq<Rule>, hub: Schema, spoke: Schema, h: Path, s: Path)
    requires PairRules(rules, hub, spoke) && AllPairs(rules)
    ensures PairsExtracted(rules)
    ensures PairOf(rules, h, s) <==> exists t :: t in RuleTies(rules, hub, spoke) && t.hub == h && t.spoke == s
  {
    hide CompileBody, HubSpokePathPairs;
    forall r | r in rules
      ensures HubSpokePathPairs(r.body) == Success([(TieOf(r, hub, spoke).hub, TieOf(r, hub, spoke).spoke)])
    {
      PairPairs(r.body, hub, spoke);
    }
    if PairOf(rules, h, s) {
      var r :| r in rules && HubSpokePathPairs(r.body).Success? && (h, s) in HubSpokePathPairs(r.body).value;
      RuleTieOfRule(rules, hub, spoke, r);
    }
    if exists t :: t in RuleTies(rules, hub, spoke) && t.hub == h && t.spoke == s {
      var t :| t in RuleTies(rules, hub, spoke) && t.hub == h && t.spoke == s;
      TiesMembers(rules, hub, spoke, t);
      var r :| r in rules && TieOf(r, hub, spoke) == t;
      assert (h, s) in HubSpokePathPairs(r.body).value;
    }
  }

  /** The path map sends every hub field to its partner. */
  ghost predicate Along(ties: seq<Tie>, m: PathMap) {
    forall t :: t in ties ==> t.spoke == MapPath(m, t.hub)
  }

  lemma PairTie(rules: seq<Rule>, hub: Schema, spoke: Schema, t: Tie)
    requires PairRules(rules, hub, spoke) && AllPairs(rules) && t in Ties(rules, hub, spoke)
    ensures t.down.Convert? && t.up.Convert?
  {
    TiesMembers(rules, hub, spoke, t);
  }

  lemma PairsFunction(rules: seq<Rule>, hub: Schema, spoke: Schema)
    requires AllPairs(rules) && Compiles(rules, hub, spoke) && "" !in hub.leaves && "" !in spoke.leaves
    ensures PathMapFrom(rules, 0, map[]).Success?
    ensures Along(Ties(rules, hub, spoke), PathMapFrom(rules, 0, map[]).value)
  {
    hide TieOf, CompileBody, Ties, RuleTies, AutoCovered, PathMapFrom;
    var ties, own := Ties(rules, hub, spoke), RuleTies(rules, hub, spoke);
    forall t ensures t in own ==> t in ties {
      TiesMembers(rules, hub, spoke, t);
    }
    forall h, s ensures PairOf(rules, h, s) <==> exists t :: t in own && t.hub == h && t.spoke == s {
      PairOfTies(rules, hub, spoke, h, s);
    }
    PairOfTies(rules, hub, spoke, "", "");
    forall h, s, z | PairOf(rules, h, s) && PairOf(rules, h, z) ensures s == z {
      var t :| t in own && t.hub == h && t.spoke == s;
      var u :| u in own && u.hub == h && u.spoke == z;
      PairEnds(rules, hub, spoke, t);
      assert SameEnd(t, u);
    }
    PathMapSucceedsExactly(rules);
    var m := PathMapFrom(rules, 0, map[]).value;
    forall t | t in ties ensures t.spoke == MapPath(m, t.hub) {
      TieAlong(rules, hub, spoke, m, t);
    }
  }

  lemma PairEnds(rules: seq<Rule>, hub: Schema, spoke: Schema, t: Tie)
    requires AllPairs(rules) && Compiles(rules, hub, spoke) && t in Ties(rules, hub, spoke)
    ensures t.hub != "" && t.hub in hub.leaves && t.spoke != "" && t.spoke in spoke.leaves
  {
    hide Ties;
    PairTie(rules, hub, spoke, t);
    assert TieInside(t, hub, spoke);
  }

  lemma TieAlong(rules: seq<Rule>, hub: Schema, spoke: Schema, m: PathMap, t: Tie)
    requires AllPairs(rules) && Compiles(rules, hub, spoke) && t in Ties(rules, hub, spoke)
    requires forall h, s :: Maps(m, h, s) <==> PairOf(rules, h, s)
    ensures t.spoke == MapPath(m, t.hub)
  {
    hide TieOf, CompileBody, AutoCovered, Ties;
    PairEnds(rules, hub, spoke, t);
    if t in RuleTies(rules, hub, spoke) {
      PairOfTies(rules, hub, spoke, t.hub, t.spoke);
      assert Maps(m, t.hub, t.spoke);
    } else {
      TiesMembers(rules, hub, spoke, t);
      Unclaimed(rules, hub, spoke, t);
      if t.hub in m {
        assert Maps(m, t.hub, m[t.hub]);
        PairOfTies(rules, hub, spoke, t.hub, m[t.hub]);
        assert false;
      }
    }
  }

  lemma Unclaimed(rules: seq<Rule>, hub: Schema, spoke: Schema, t: Tie)
    requires PairRules(rules, hub, spoke) && t in Ties(rules, hub, spoke) && t !in RuleTies(rules, hub, spoke)
    ensures t == CopyTie(t.hub, t.hub)
    ensures forall u :: u in RuleTies(rules, hub, spoke) ==> u.hub != t.hub
  {
    TiesMembers(rules, hub, spoke, t);
  }

  // ---- What becomes of the other versions ----

  function HubEnd(b: Body): Path
    requires PairBody(b)
  {
    if SinglePath(b) then b.path else b.hub
  }

  lemma RewrittenEnd(b: Body, m: PathMap)
    requires PairBody(b)
    ensures RewriteBody(b, m).Success?
    ensures var rw := RewriteBody(b, m).value;
            PairBody(rw) && HubEnd(rw) == MapPath(m, HubEnd(b)) && (rw.FieldRename? <==> b.FieldRename?)
  {
  }

  lemma CopyIsRename(b: Body, hub: Schema, spoke: Schema)
    requires PairPlan(CompileBody(b, hub, spoke))
    ensures CompileBody(b, hub, spoke).down.fn.Copy? <==> b.FieldRename?
    ensures CompileBody(b, hub, spoke).up.fn.Copy? <==> b.FieldRename?
  {
    PairBodies(b, hub, spoke);
    hide KindsOf, TableDown, TableUp, KeyNamesFor, CompileAll, ItemsAt;
  }

  /** u read from the moved path, whatever its rewritten rule converts the value to. */
  ghost predicate RewrittenFrom(m: PathMap, u: Tie, t: Tie) {
    && u.down.Convert? && t.down.Convert?
    && (u.down.fn.Copy? <==> t.down.fn.Copy?)
    && t.hub == MapPath(m, u.hub) && t.hubGuard == u.hubGuard
  }

  lemma RewrittenPairTie(q: Rule, r: Rule, m: PathMap, hub: Schema, next: Schema, spoke: Schema)
    requires PairRule(q, hub, spoke) && PairRule(r, next, spoke) && RewriteHubPaths(q, m) == Success(r)
    requires TieOf(r, next, spoke).down.Convert?
    ensures RewrittenFrom(m, TieOf(q, hub, spoke), TieOf(r, next, spoke))
  {
    hide CompileBody, RewriteBody;
    RewrittenKeepsSides(q.body, m);
    PairBodies(q.body, hub, spoke);
    PairBodies(r.body, next, spoke);
    RewrittenEnd(q.body, m);
    CopyIsRename(q.body, hub, spoke);
    CopyIsRename(r.body, next, spoke);
  }

  /** A converting tie of a recomposed version either copies, unguarded, or comes from one
      of its rules. */
  lemma AfterTie(rules: seq<Rule>, out: seq<Rule>, m: PathMap, hub: Schema, next: Schema, spoke: Schema, t: Tie)
    requires PairRules(rules, hub, spoke) && PairRules(out, next, spoke)
    requires Compose(rules, m, spoke.leaves.Keys) == Success(out)
    requires t in Ties(out, next, spoke) && t.down.Convert?
    ensures || (t.hubGuard.None? && t.down.fn.Copy?)
            || exists u :: u in RuleTies(rules, hub, spoke) && RewrittenFrom(m, u, t)
  {
    hide RewriteHubPaths, CompileBody, TieOf, AutoCovered, PairRule, Ties, RewriteFrom, RuleTies;
    TiesMembers(out, next, spoke, t);
    if t in RuleTies(out, next, spoke) {
      var r :| r in out && TieOf(r, next, spoke) == t;
      ComposedFrom(rules, out, m, spoke, r);
      if exists q :: q in rules && RewriteHubPaths(q, m) == Success(r) {
        var q :| q in rules && RewriteHubPaths(q, m) == Success(r);
        RuleTieOfRule(rules, hub, spoke, q);
        RewrittenPairTie(q, r, m, hub, next, spoke);
      } else {
        RenameTie(r, next, spoke);
      }
    }
  }

  lemma ComposedFrom(rules: seq<Rule>, out: seq<Rule>, m: PathMap, spoke: Schema, r: Rule)
    requires Compose(rules, m, spoke.leaves.Keys) == Success(out) && r in out
    ensures (exists q :: q in rules && RewriteHubPaths(q, m) == Success(r)) || (r.body.FieldRename? && r.when.None?)
  {
    hide RewriteHubPaths, RewriteFrom, ClaimedBy, Lift;
    var rw := RewriteFrom(rules, m, 0).value;
    var lifted := Lift(SortedKeys(m.Keys), m, spoke.leaves.Keys, ClaimedBy(rw));
    RewrittenMembers(rules, m, rw, r);
    LiftedMembers(m, spoke.leaves.Keys, ClaimedBy(rw), r);
    assert out == rw + lifted;
  }

  lemma PairsCompose(rules: seq<Rule>, m: PathMap, hub: Schema, spoke: Schema)
    requires PairRules(rules, hub, spoke)
    ensures Compose(rules, m, spoke.leaves.Keys).Success?
  {
    forall q | q in rules ensures RewriteHubPaths(q, m).Success? {
      PairRewrites(q, m, hub, spoke);
    }
    RewriteAllSucceeds(rules, m, 0);
  }

  /** Promoting a version of pairing rules always succeeds. */
  lemma PairsPromote(c: Config, schemas: Schemas, p: SpokeRules)
    requires ValidConfig(c, schemas) && p in c.spokes && AllPairs(p.rules)
    ensures PathMapFrom(p.rules, 0, map[]).Success?
    ensures Along(Ties(p.rules, schemas[c.hub], schemas[p.version]), PathMapFrom(p.rules, 0, map[]).value)
    ensures Promote(c, schemas, p.version).Success?
    ensures var d := Promote(c, schemas, p.version).value;
            d.hub == p.version && forall t :: t in d.spokes ==> Rebuilt(c, schemas, p, t)
  {
    hide PairRules, Ties, Pairing, Compose, InvertFrom, PathMapFrom;
    var hub, next := schemas[c.hub], schemas[p.version];
    OneVersionEach(c, schemas, p);
    PairsInvert(p.rules, hub, next, 0);
    PairsFunction(p.rules, hub, next);
    var m := PathMapFrom(p.rules, 0, map[]).value;
    var others := Others(c.spokes, p.version);
    forall s | s in others
      ensures s in c.spokes && s != p && s.version in schemas
      ensures LeavesOf(LeafSetsOf(schemas), s.version) == schemas[s.version].leaves.Keys
      ensures Compose(s.rules, m, LeavesOf(LeafSetsOf(schemas), s.version)).Success?
    {
      PairsCompose(s.rules, m, hub, schemas[s.version]);
    }
    AllComposed(others, m, LeafSetsOf(schemas), 0);
    var rest := ComposeFrom(others, m, LeafSetsOf(schemas), 0).value;
    OutputRules(c, schemas, p, m, others, rest);
    var d := Promote(c, schemas, p.version).value;
    assert d.spokes == [SpokeRules(c.hub, InvertFrom(p.rules, 0).value)] + rest;
  }

  /** If another version still compiles against the new hub, its ties are those of its
      recomposed rules. */
  lemma AfterTies(c: Config, schemas: Schemas, p: SpokeRules, s: SpokeRules)
    requires ValidConfig(c, schemas) && p in c.spokes && AllPairs(p.rules) && s in c.spokes && s != p
    requires Promote(c, schemas, p.version).Success? && PathMapFrom(p.rules, 0, map[]).Success?
    requires SpokeTies(Promote(c, schemas, p.version).value, schemas, s.version).Some?
    ensures var next, spoke := schemas[p.version], schemas[s.version];
            var out := Compose(s.rules, PathMapFrom(p.rules, 0, map[]).value, spoke.leaves.Keys);
            && out.Success? && Compiles(out.value, next, spoke)
            && SpokeTies(Promote(c, schemas, p.version).value, schemas, s.version) == Some(Ties(out.value, next, spoke))
  {
    hide Ties, Compiles, Compose, Promote, PathMapFrom, InvertFrom;
    PairsPromote(c, schemas, p);
    var d := Promote(c, schemas, p.version).value;
    var t := Promoted(d.spokes, s.version).value;
    assert Rebuilt(c, schemas, p, t);
  }

  // ---- Values that remember where they come from ----

  /** The field a value was read from, and how often it has been converted. */
  datatype Tagged = Tagged(src: Path, count: int)

  /** Conversions count, and every guard on a field that is there is open or shut. */
  function Counting(open: bool): Values<Tagged> {
    Values((fn: ValueOp, v: Tagged) => Wrote(Tagged(v.src, v.count + 1)), (raw: Raw) => Tagged("", 0), (v: Tagged, raw: Raw) => open)
  }

  function Full(next: Schema): map<Path, Tagged> {
    map p | p in next.leaves :: Tagged(p, 0)
  }

  function Weight(act: Act): int {
    if act.Convert? && act.fn.Copy? then 0 else 1
  }

  function Shut(open: bool, guard: Option<When>): bool {
    guard.Some? && !open
  }

  /** What a converting arrow does to an object that has its fields. */
  lemma CountFire(open: bool, a: Arrow, obj: map<Path, Tagged>)
    requires a.act.Convert? && (a.guard.Some? ==> a.guard.value.path in obj)
    ensures Fire(Counting(open), a, obj) ==
            if Shut(open, a.guard) || a.src !in obj then Skipped
            else Wrote(Tagged(obj[a.src].src, obj[a.src].count + Weight(a.act)))
  {
  }

  lemma NeverBreaks(open: bool, a: Arrow, obj: map<Path, Tagged>)
    ensures !Breaks(Counting(open), a, obj)
  {
  }

  lemma CountUp(open: bool, ties: seq<Tie>, hub: Schema, next: Schema)
    requires Inside(ties, hub, next) && OneEach(ties)
    ensures var r := Push(Counting(open), Up(ties), Full(next));
            r.Some? && forall h, v :: At(r.value, h, v) <==> UpSends(Counting(open), ties, Full(next), h, v)
  {
    hide Fire, Push, Counting, UpSends;
    UpMeans(Counting(open), ties, hub, next, Full(next));
    forall t | t in ties ensures !Breaks(Counting(open), UpArrow(t), Full(next)) {
      NeverBreaks(open, UpArrow(t), Full(next));
    }
  }

  lemma CountDown(open: bool, ties: seq<Tie>, hub: Schema, spoke: Schema, obj: map<Path, Tagged>)
    requires Inside(ties, hub, spoke) && OneEach(ties)
    ensures var r := Push(Counting(open), Down(ties), obj);
            r.Some? && forall h, v :: At(r.value, h, v) <==> DownSends(Counting(open), ties, obj, h, v)
  {
    hide Fire, Push, Counting, DownSends;
    DownMeans(Counting(open), ties, hub, spoke, obj);
    forall t | t in ties ensures !Breaks(Counting(open), DownArrow(t), obj) {
      NeverBreaks(open, DownArrow(t), obj);
    }
  }

  /** A promoted field on its way to the old hub. */
  lemma UpFires(open: bool, t: Tie, hub: Schema, next: Schema)
    requires TieInside(t, hub, next) && t.up.Convert?
    ensures t.hub != "" && t.spoke in next.leaves
    ensures Fire(Counting(open), UpArrow(t), Full(next)) ==
            if Shut(open, t.spokeGuard) then Skipped else Wrote(Tagged(t.spoke, Weight(t.up)))
  {
    CountFire(open, UpArrow(t), Full(next));
  }

  lemma OnlyUpSender(run: Values<Tagged>, ties: seq<Tie>, obj: map<Path, Tagged>, t: Tie, v: Tagged)
    requires OneEach(ties) && t in ties && t.hub != "" && UpSends(run, ties, obj, t.hub, v)
    ensures Sends(run, UpArrow(t), obj, v)
  {
    hide Fire;
    var w :| w in ties && w.hub == t.hub && Sends(run, UpArrow(w), obj, v);
    assert SameEnd(t, w);
  }

  lemma OnlyDownSender(run: Values<Tagged>, ties: seq<Tie>, obj: map<Path, Tagged>, t: Tie, v: Tagged)
    requires OneEach(ties) && t in ties && t.spoke != "" && DownSends(run, ties, obj, t.spoke, v)
    ensures Sends(run, DownArrow(t), obj, v)
  {
    hide Fire;
    var w :| w in ties && w.spoke == t.spoke && Sends(run, DownArrow(w), obj, v);
    assert SameEnd(t, w);
  }

  /** An object of the promoted version on the old hub: under every hub field the value of
      its partner, with the conversions counted. */
  lemma UpCounts(open: bool, ties: seq<Tie>, hub: Schema, next: Schema, t: Tie)
    requires Inside(ties, hub, next) && OneEach(ties) && t in ties && t.up.Convert?
    ensures var r := Push(Counting(open), Up(ties), Full(next));
            r.Some? && if Shut(open, t.spokeGuard) then t.hub !in r.value else At(r.value, t.hub, Tagged(t.spoke, Weight(t.up)))
  {
    hide Fire, Push, Counting, Full, Weight;
    CountUp(open, ties, hub, next);
    UpFires(open, t, hub, next);
    var run, obj := Counting(open), Full(next);
    var r := Push(run, Up(ties), obj).value;
    if !Shut(open, t.spokeGuard) {
      assert UpSends(run, ties, obj, t.hub, Tagged(t.spoke, Weight(t.up)));
    } else if t.hub in r {
      assert At(r, t.hub, r[t.hub]);
      OnlyUpSender(run, ties, obj, t, r[t.hub]);
    }
  }

  lemma UpCoversHub(ties: seq<Tie>, hub: Schema, next: Schema, h: Path)
    requires Pairing(ties, hub, next) && (forall t :: t in ties ==> t.up.Convert?) && h in hub.leaves
    ensures var r := Push(Counting(true), Up(ties), Full(next)); r.Some? && h in r.value
  {
    hide Push, Counting, Full, Weight, Up;
    assert ClaimsHub(ties, h);
    var t :| t in ties && t.hub == h;
    UpCounts(true, ties, hub, next, t);
  }

  /** And on the other version. */
  lemma DownCounts(open: bool, ties: seq<Tie>, hub: Schema, spoke: Schema, obj: map<Path, Tagged>, u: Tie)
    requires Inside(ties, hub, spoke) && OneEach(ties) && u in ties && u.down.Convert?
    requires u.hubGuard.Some? ==> u.hubGuard.value.path in obj
    ensures var r := Push(Counting(open), Down(ties), obj);
            && r.Some?
            && (!Shut(open, u.hubGuard) && u.hub in obj ==> At(r.value, u.spoke, Tagged(obj[u.hub].src, obj[u.hub].count + Weight(u.down))))
            && (u.hub !in obj ==> u.spoke !in r.value)
  {
    hide Fire, Push, Counting, Full, Weight;
    CountDown(open, ties, hub, spoke, obj);
    CountFire(open, DownArrow(u), obj);
    var run := Counting(open);
    var r := Push(run, Down(ties), obj).value;
    assert TieInside(u, hub, spoke);
    if !Shut(open, u.hubGuard) && u.hub in obj {
      assert DownSends(run, ties, obj, u.spoke, Tagged(obj[u.hub].src, obj[u.hub].count + Weight(u.down)));
    }
    if u.hub !in obj && u.spoke in r {
      assert At(r, u.spoke, r[u.spoke]);
      OnlyDownSender(run, ties, obj, u, r[u.spoke]);
    }
  }

  lemma GuardInside(ties: seq<Tie>, hub: Schema, spoke: Schema, u: Tie)
    requires Inside(ties, hub, spoke) && u in ties && u.hubGuard.Some?
    ensures u.hubGuard.value.path in hub.leaves
  {
    assert TieInside(u, hub, spoke);
  }

  /** Through the old hub, with all guards open: u's field holds the promoted field's
      value, converted as often as t and u convert. */
  lemma ThroughOldHub(promoted: seq<Tie>, ties: seq<Tie>, hub: Schema, next: Schema, spoke: Schema, t: Tie, u: Tie)
    requires Pairing(promoted, hub, next) && Pairing(ties, hub, spoke) && forall w :: w in promoted ==> w.up.Convert?
    requires t in promoted && u in ties && u.hub == t.hub && u.down.Convert?
    ensures var mid := Push(Counting(true), Up(promoted), Full(next));
            && mid.Some?
            && var r := Push(Counting(true), Down(ties), mid.value);
               r.Some? && At(r.value, u.spoke, Tagged(t.spoke, Weight(t.up) + Weight(u.down)))
  {
    hide Push, Counting, Up, Down, Weight, Full, Pairing, Inside, OneEach;
    PairingParts(promoted, hub, next);
    PairingParts(ties, hub, spoke);
    UpCounts(true, promoted, hub, next, t);
    if u.hubGuard.Some? {
      GuardInside(ties, hub, spoke, u);
      UpCoversHub(promoted, hub, next, u.hubGuard.value.path);
    }
    DownCounts(true, ties, hub, spoke, Push(Counting(true), Up(promoted), Full(next)).value, u);
  }

  /** With all guards shut nothing of a guarded field arrives. */
  lemma ThroughShutGuard(promoted: seq<Tie>, ties: seq<Tie>, hub: Schema, next: Schema, spoke: Schema, t: Tie, u: Tie)
    requires Pairing(promoted, hub, next) && Pairing(ties, hub, spoke)
    requires t in promoted && t.up.Convert? && u in ties && u.hub == t.hub && u.down.Convert? && t.spokeGuard.Some? && u.hubGuard.None?
    ensures var mid := Push(Counting(false), Up(promoted), Full(next));
            && mid.Some?
            && var r := Push(Counting(false), Down(ties), mid.value);
               r.Some? && u.spoke !in r.value
  {
    hide Push, Counting, Up, Down, Weight, Full;
    UpCounts(false, promoted, hub, next, t);
    DownCounts(false, ties, hub, spoke, Push(Counting(false), Up(promoted), Full(next)).value, u);
  }

  /** Straight from the new hub: which tie can have put a counted value there. */
  lemma FromNewHub(ties: seq<Tie>, next: Schema, spoke: Schema, d: Path, src: Path, n: int) returns (t: Tie)
    requires Pairing(ties, next, spoke) && src != ""
    requires Push(Counting(true), Down(ties), Full(next)).Some?
    requires At(Push(Counting(true), Down(ties), Full(next)).value, d, Tagged(src, n))
    ensures t in ties && t.spoke == d && t.down.Convert? && t.hub == src && Weight(t.down) == n
  {
    hide Push, Counting, Fire, Weight;
    var run, obj := Counting(true), Full(next);
    CountDown(true, ties, next, spoke, obj);
    assert DownSends(run, ties, obj, d, Tagged(src, n));
    t :| t in ties && t.spoke == d && Sends(run, DownArrow(t), obj, Tagged(src, n));
    assert TieInside(t, next, spoke);
    SentByConversion(DownArrow(t), obj, Tagged(src, n));
    CountFire(true, DownArrow(t), obj);
  }

  lemma SentByConversion(a: Arrow, obj: map<Path, Tagged>, v: Tagged)
    requires Sends(Counting(true), a, obj, v) && v.src != ""
    ensures a.act.Convert?
  {
  }

  // ---- The theorem ----

  /** Where on the old hub a rewritten tie's field was. */
  lemma SameOrigin(promoted: seq<Tie>, ties: seq<Tie>, m: PathMap, hub: Schema, next: Schema, spoke: Schema, t: Tie, u: Tie, w: Tie, after: Tie)
    requires Pairing(promoted, hub, next) && Inside(ties, hub, spoke) && OneEach(ties) && Along(promoted, m)
    requires t in promoted && t.spoke != "" && u in ties && u.hub == t.hub && u.hub != "" && w in ties
    requires RewrittenFrom(m, w, after) && after.hub == t.spoke
    ensures w == u
  {
    assert TieInside(w, hub, spoke);
    assert ClaimsHub(promoted, w.hub);
    var x :| x in promoted && x.hub == w.hub;
    assert SameEnd(x, t);
    assert SameEnd(w, u);
  }

  /** Going through the old hub and coming straight from the new one cannot agree on a
      field that the promoted version converts, or guards more than the other does. */
  lemma ShowsUp(rules: seq<Rule>, out: seq<Rule>, promoted: seq<Tie>, m: PathMap, hub: Schema, next: Schema, spoke: Schema, t: Tie, u: Tie)
    requires Pairing(promoted, hub, next) && Along(promoted, m) && forall w :: w in promoted ==> w.up.Convert?
    requires Compiles(rules, hub, spoke) && Compiles(out, next, spoke) && Compose(rules, m, spoke.leaves.Keys) == Success(out)
    requires t in promoted && u in Ties(rules, hub, spoke) && u.hub == t.hub && u.down.Convert?
    requires t.up.fn.Copy? ==> t.spokeGuard.Some? && u.hubGuard.None?
    ensures exists open ::
              var mid := Push(Counting(open), Up(promoted), Full(next));
              && mid.Some?
              && Push(Counting(open), Down(Ties(rules, hub, spoke)), mid.value) !=
                 Push(Counting(open), Down(Ties(out, next, spoke)), Full(next))
  {
    hide Push, Counting, Up, Down, Weight, Full, Ties, PairRules, RuleTies, Compose, Pairing, Inside, OneEach;
    var ties, after := Ties(rules, hub, spoke), Ties(out, next, spoke);
    PairingParts(promoted, hub, next);
    PairingParts(ties, hub, spoke);
    PairingParts(after, next, spoke);
    ThroughOldHub(promoted, ties, hub, next, spoke, t, u);
    UpEnds(promoted, hub, next, t);
    var mid := Push(Counting(true), Up(promoted), Full(next)).value;
    if Push(Counting(true), Down(ties), mid) == Push(Counting(true), Down(after), Full(next)) {
      var w := FromNewHub(after, next, spoke, u.spoke, t.spoke, Weight(t.up) + Weight(u.down));
      Undetected(rules, out, promoted, m, hub, next, spoke, t, u, w);
      ThroughShutGuard(promoted, ties, hub, next, spoke, t, u);
      StraightThrough(after, next, spoke, w);
    }
  }

  lemma UpEnds(promoted: seq<Tie>, hub: Schema, next: Schema, t: Tie)
    requires Inside(promoted, hub, next) && t in promoted && t.up.Convert?
    ensures t.spoke != "" && t.hub != "" && t.spoke in next.leaves
  {
    assert TieInside(t, hub, next);
  }

  /** With the guards open only an unguarded copy goes undetected. */
  lemma Undetected(rules: seq<Rule>, out: seq<Rule>, promoted: seq<Tie>, m: PathMap, hub: Schema, next: Schema, spoke: Schema, t: Tie, u: Tie, w: Tie)
    requires Pairing(promoted, hub, next) && Along(promoted, m)
    requires Compiles(rules, hub, spoke) && Compiles(out, next, spoke) && Compose(rules, m, spoke.leaves.Keys) == Success(out)
    requires t in promoted && t.up.Convert? && t.spoke != "" && t.hub != ""
    requires u in Ties(rules, hub, spoke) && u.hub == t.hub && u.down.Convert?
    requires w in Ties(out, next, spoke) && w.down.Convert? && w.hub == t.spoke && Weight(w.down) == Weight(t.up) + Weight(u.down)
    ensures t.up.fn.Copy?
    ensures u.hubGuard.None? ==> w.hubGuard.None?
  {
    hide Ties, PairRules, RuleTies, Compose, Pairing, Inside, OneEach;
    PairingParts(Ties(rules, hub, spoke), hub, spoke);
    CompiledPairRules(rules, hub, spoke);
    CompiledPairRules(out, next, spoke);
    AfterTie(rules, out, m, hub, next, spoke, w);
    if !(w.hubGuard.None? && w.down.fn.Copy?) {
      var x :| x in RuleTies(rules, hub, spoke) && RewrittenFrom(m, x, w);
      TiesMembers(rules, hub, spoke, x);
      SameOrigin(promoted, Ties(rules, hub, spoke), m, hub, next, spoke, t, u, x, w);
    }
  }

  lemma CompiledPairRules(rules: seq<Rule>, hub: Schema, spoke: Schema)
    requires Compiles(rules, hub, spoke)
    ensures PairRules(rules, hub, spoke)
  {
  }

  /** An unguarded tie brings its field from a full object, guards shut or not. */
  lemma StraightThrough(ties: seq<Tie>, next: Schema, spoke: Schema, w: Tie)
    requires Inside(ties, next, spoke) && OneEach(ties) && w in ties && w.down.Convert? && w.hubGuard.None? && w.hub in next.leaves
    ensures var r := Push(Counting(false), Down(ties), Full(next)); r.Some? && w.spoke in r.value
  {
    hide Push, Counting, Down, Weight, Inside, OneEach;
    DownCounts(false, ties, next, spoke, Full(next), w);
  }

  lemma RouteBefore<V>(run: Values<V>, c: Config, schemas: Schemas, p: SpokeRules, s: SpokeRules, obj: map<Path, V>)
    requires ValidConfig(c, schemas) && p in c.spokes && s in c.spokes && s != p
    ensures s.version != p.version
    ensures Route(run, c, schemas, obj, p.version, s.version) ==
            match Push(run, Up(Ties(p.rules, schemas[c.hub], schemas[p.version])), obj)
            case None => None
            case Some(mid) => Push(run, Down(Ties(s.rules, schemas[c.hub], schemas[s.version])), mid)
  {
    hide Push, Up, Down, Ties, Compiles;
    OneVersionEach(c, schemas, p);
    OneVersionEach(c, schemas, s);
  }

  /** A rule that does more than rename, on a field another version converts too. */
  lemma MoreThanRename(c: Config, schemas: Schemas, p: SpokeRules, r: Rule, s: SpokeRules, u: Tie)
    requires ValidConfig(c, schemas) && p in c.spokes && AllPairs(p.rules) && Promote(c, schemas, p.version).Success?
    requires r in p.rules && !(r.body.FieldRename? && r.when.None?)
    requires PairRule(r, schemas[c.hub], schemas[p.version])
    requires s in c.spokes && s != p && ConvertsToo(c, schemas, s, r, TieOf(r, schemas[c.hub], schemas[p.version]).hub, u)
    ensures exists open ::
              Route(Counting(open), Promote(c, schemas, p.version).value, schemas, Full(schemas[p.version]), p.version, s.version) !=
              Route(Counting(open), c, schemas, Full(schemas[p.version]), p.version, s.version)
  {
    hide Push, Counting, Up, Down, Weight, Full, Ties, RuleTies, Compose, Pairing, Promote, PathMapFrom, CompileBody;
    PairsPromote(c, schemas, p);
    var d := Promote(c, schemas, p.version).value;
    var m := PathMapFrom(p.rules, 0, map[]).value;
    var hub, next, spoke := schemas[c.hub], schemas[p.version], schemas[s.version];
    var promoted, obj := Ties(p.rules, hub, next), Full(next);
    RuleTieOfRule(p.rules, hub, next, r);
    var t := TieOf(r, hub, next);
    TiesMembers(p.rules, hub, next, t);
    CopyIsRename(r.body, hub, next);
    forall w | w in promoted ensures w.up.Convert? {
      PairTie(p.rules, hub, next, w);
    }
    forall open: bool
      ensures Route(Counting(open), c, schemas, obj, p.version, s.version) ==
              match Push(Counting(open), Up(promoted), obj)
              case None => None
              case Some(mid) => Push(Counting(open), Down(Ties(s.rules, hub, spoke)), mid)
    {
      RouteBefore(Counting(open), c, schemas, p, s, obj);
    }
    if SpokeTies(d, schemas, s.version).Some? {
      AfterTies(c, schemas, p, s);
      var out := Compose(s.rules, m, spoke.leaves.Keys).value;
      ShowsUp(s.rules, out, promoted, m, hub, next, spoke, t, u);
    } else {
      ThroughOldHub(promoted, Ties(s.rules, hub, spoke), hub, next, spoke, t, u);
      assert Route(Counting(true), d, schemas, obj, p.version, s.version) == None;
    }
  }

  /** Exactly when promoting a version of pairing rules keeps what its objects convert to:
      for all meanings of the value operations and guards, all objects and all other
      versions, if and only if every promoted rule is an unguarded rename. */
  lemma PromotionPreservesExactly(c: Config, schemas: Schemas, p: SpokeRules)
    requires ValidConfig(c, schemas) && p in c.spokes && AllPairs(p.rules)
    requires FieldsFit(c, schemas, p) && ConvertedElsewhere(c, schemas, p)
    ensures Promote(c, schemas, p.version).Success?
    ensures (forall run: Values<Tagged>, obj: map<Path, Tagged>, to: string :: ObjectOf(schemas, p.version, obj) ==>
               Route(run, Promote(c, schemas, p.version).value, schemas, obj, p.version, to) == Route(run, c, schemas, obj, p.version, to))
            <==> PlainRenames(p.rules)
  {
    hide Route, Ties, Promote;
    PairsPromote(c, schemas, p);
    if PlainRenames(p.rules) {
      RenamesPromotable(c, schemas, p);
      forall run: Values<Tagged>, obj: map<Path, Tagged>, to: string | ObjectOf(schemas, p.version, obj)
        ensures Route(run, Promote(c, schemas, p.version).value, schemas, obj, p.version, to) == Route(run, c, schemas, obj, p.version, to)
      {
        RehubPreservesConversions(run, c, schemas, p.version, obj, p.version, to);
      }
    } else {
      var r :| r in p.rules && !(r.body.FieldRename? && r.when.None?);
      var s, u :| s in c.spokes && s != p && ConvertsToo(c, schemas, s, r, TieOf(r, schemas[c.hub], schemas[p.version]).hub, u);
      MoreThanRename(c, schemas, p, r, s, u);
      assert ObjectOf(schemas, p.version, Full(schemas[p.version]));
    }
  }

  lemma RenamesPromotable(c: Config, schemas: Schemas, p: SpokeRules)
    requires ValidConfig(c, schemas) && p in c.spokes && FieldsFit(c, schemas, p) && PlainRenames(p.rules)
    ensures Promotable(c, schemas, p.version)
  {
    hide Ties, FixedPaths, RuleTies;
    var hub, next := schemas[c.hub], schemas[p.version];
    RenamesCompileToRenameTies(p.rules, hub, next);
    forall s, r, q | s in c.spokes && s != p && r in s.rules && q in p.rules && q.body.hub in FixedPaths(r)
      ensures q.body.spoke == q.body.hub
    {
      RenameTie(q, hub, next);
      RuleTieOfRule(p.rules, hub, next, q);
      TiesMembers(p.rules, hub, next, TieOf(q, hub, next));
    }
    assert PromotableSpoke(c, schemas, p);
  }
}
