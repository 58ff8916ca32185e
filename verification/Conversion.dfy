/** How a compiled plan converts an object, on the fragment where every rule ties at
    most one hub field to at most one spoke field, under an optional guard
    (pkg/engine/convert.go, pkg/engine/ops.go). An object is a map from leaf paths to
    values. */
module Conversion {
  import opened Wrappers
  import opened Ordering
  import opened Rules
  import opened Engine

  datatype Out<+V> = Wrote(value: V) | Skipped | Failed

  /** What is left open about values: the value operations other than a copy, the
      decoding of a literal, and the comparison of a value with a guard's literal. */
  datatype Values<!V> = Values(apply: (ValueOp, V) -> Out<V>, literal: Raw -> V, equals: (V, Raw) -> bool)

  /** A field is converted, a literal is written, or nothing is. */
  datatype Act = Convert(fn: ValueOp) | Write(value: Raw) | Omit

  datatype Arrow = Arrow(guard: Option<When>, src: Path, dst: Path, act: Act)

  /** whenOp: the guard reads the object being converted. */
  predicate Open<V>(run: Values<V>, guard: Option<When>, obj: map<Path, V>) {
    guard.Some? ==> guard.value.path in obj && run.equals(obj[guard.value.path], guard.value.equals)
  }

  function Fire<V>(run: Values<V>, a: Arrow, obj: map<Path, V>): Out<V> {
    if !Open(run, a.guard, obj) then Skipped
    else
      match a.act
      case Omit => Skipped
      case Write(value) => Wrote(run.literal(value))
      case Convert(fn) =>
        if a.src !in obj then Skipped
        else if fn.Copy? then Wrote(obj[a.src])
        else run.apply(fn, obj[a.src])
  }

  /** The operations of one direction, in order, reading the input and writing a
      fresh output; the first failure fails the conversion. */
  function Exec<V>(run: Values<V>, arrows: seq<Arrow>, obj: map<Path, V>, out: map<Path, V>): Option<map<Path, V>>
    decreases |arrows|
  {
    if arrows == [] then Some(out)
    else
      match Fire(run, arrows[0], obj)
      case Failed => None
      case Skipped => Exec(run, arrows[1..], obj, out)
      case Wrote(v) => Exec(run, arrows[1..], obj, out[arrows[0].dst := v])
  }

  function Push<V>(run: Values<V>, arrows: seq<Arrow>, obj: map<Path, V>): Option<map<Path, V>> {
    Exec(run, arrows, obj, map[])
  }

  // ---- What a set of arrows does, whatever order it is listed in ----

  ghost predicate At<V>(m: map<Path, V>, p: Path, v: V) {
    p in m && m[p] == v
  }

  ghost predicate Sends<V>(run: Values<V>, a: Arrow, obj: map<Path, V>, v: V) {
    Fire(run, a, obj) == Wrote(v)
  }

  ghost predicate Breaks<V>(run: Values<V>, a: Arrow, obj: map<Path, V>) {
    Fire(run, a, obj).Failed?
  }

  ghost predicate Means<V(!new)>(run: Values<V>, arrows: iset<Arrow>, obj: map<Path, V>, res: Option<map<Path, V>>) {
    && (res.None? <==> exists a :: a in arrows && Breaks(run, a, obj))
    && (res.Some? ==> forall d, v :: At(res.value, d, v) <==> exists a :: a in arrows && a.dst == d && Sends(run, a, obj, v))
  }

  ghost predicate OneWriterEach(arrows: iset<Arrow>) {
    forall a, b :: a in arrows && b in arrows && a.dst == b.dst && !a.act.Omit? && !b.act.Omit? ==> a == b
  }

  ghost function Listed(arrows: seq<Arrow>): iset<Arrow> {
    iset a | a in arrows
  }

  lemma SameObject<V(!new)>(x: map<Path, V>, y: map<Path, V>)
    requires forall d, v :: At(x, d, v) <==> At(y, d, v)
    ensures x == y
  {
    forall d ensures d in x <==> d in y {
      if d in x { assert At(x, d, x[d]); }
      if d in y { assert At(y, d, y[d]); }
    }
    forall d | d in x ensures x[d] == y[d] {
      assert At(x, d, x[d]);
    }
  }

  lemma MeansUnique<V(!new)>(run: Values<V>, arrows: iset<Arrow>, obj: map<Path, V>,
                             x: Option<map<Path, V>>, y: Option<map<Path, V>>)
    requires Means(run, arrows, obj, x) && Means(run, arrows, obj, y)
    ensures x == y
  {
    if x.Some? && y.Some? {
      forall d, v ensures At(x.value, d, v) <==> At(y.value, d, v) {
        assert At(x.value, d, v) <==> exists a :: a in arrows && a.dst == d && Sends(run, a, obj, v);
      }
      SameObject(x.value, y.value);
    }
  }

  /** Running the operations in order has the set's meaning, on top of what is already
      written, when no two of them write the same field. */
  lemma {:induction false} ExecMeans<V(!new)>(run: Values<V>, arrows: seq<Arrow>, obj: map<Path, V>, out: map<Path, V>)
    requires OneWriterEach(Listed(arrows))
    requires forall a :: a in arrows && !a.act.Omit? ==> forall v :: At(out, a.dst, v) ==> Sends(run, a, obj, v)
    ensures var res := Exec(run, arrows, obj, out);
            && (res.None? <==> exists a :: a in arrows && Breaks(run, a, obj))
            && (res.Some? ==> forall d, v :: At(res.value, d, v) <==>
                                             At(out, d, v) || exists a :: a in arrows && a.dst == d && Sends(run, a, obj, v))
    decreases |arrows|
  {
    hide Fire;
    if arrows == [] {
    } else {
      var a, rest := arrows[0], arrows[1..];
      assert forall b :: b in arrows <==> b == a || b in rest;
      assert OneWriterEach(Listed(rest)) by {
        assert forall b :: b in Listed(rest) ==> b in Listed(arrows);
      }
      OmitWritesNothing(run, a, obj);
      if Breaks(run, a, obj) {
        assert Exec(run, arrows, obj, out).None?;
      } else {
        var next := if Fire(run, a, obj).Wrote? then out[a.dst := Fire(run, a, obj).value] else out;
        assert Exec(run, arrows, obj, out) == Exec(run, rest, obj, next);
        forall d, v ensures At(next, d, v) <==> At(out, d, v) || (a.dst == d && Sends(run, a, obj, v)) {
          if d == a.dst && At(out, d, v) && !a.act.Omit? {
            assert Sends(run, a, obj, v);
          }
        }
        forall b, v | b in rest && !b.act.Omit? && At(next, b.dst, v) ensures Sends(run, b, obj, v) {
          if a.dst == b.dst {
            assert a in Listed(arrows) && b in Listed(arrows);
          }
        }
        ExecMeans(run, rest, obj, next);
      }
    }
  }

  lemma OmitWritesNothing<V>(run: Values<V>, a: Arrow, obj: map<Path, V>)
    ensures a.act.Omit? ==> Fire(run, a, obj).Skipped?
  {
  }

  lemma PushMeans<V(!new)>(run: Values<V>, arrows: seq<Arrow>, obj: map<Path, V>)
    requires OneWriterEach(Listed(arrows))
    ensures Means(run, Listed(arrows), obj, Push(run, arrows, obj))
  {
    ExecMeans(run, arrows, obj, map[]);
    forall d, v | Push(run, arrows, obj).Some?
      ensures At(Push(run, arrows, obj).value, d, v) <==> exists a :: a in Listed(arrows) && a.dst == d && Sends(run, a, obj, v)
    {
      if exists a :: a in arrows && a.dst == d && Sends(run, a, obj, v) {
        var a :| a in arrows && a.dst == d && Sends(run, a, obj, v);
        assert a in Listed(arrows);
      }
    }
    if exists a :: a in arrows && Breaks(run, a, obj) {
      var a :| a in arrows && Breaks(run, a, obj);
      assert a in Listed(arrows);
    }
  }

  // ---- Configs ----

  /** One correspondence of a hub/spoke pair, with what happens each way. A field that
      exists on one side only leaves the other end empty. Each direction's guard reads
      the side it converts from. */
  datatype Tie = Tie(hub: Path, spoke: Path, down: Act, up: Act, hubGuard: Option<When>, spokeGuard: Option<When>)

  function DownArrow(t: Tie): Arrow {
    Arrow(t.hubGuard, t.hub, t.spoke, t.down)
  }

  function UpArrow(t: Tie): Arrow {
    Arrow(t.spokeGuard, t.spoke, t.hub, t.up)
  }

  function CopyTie(hub: Path, spoke: Path): Tie {
    Tie(hub, spoke, Convert(Copy), Convert(Copy), None, None)
  }

  predicate PairPlan(p: Plan) {
    p.down.Move? && p.up.Move? && p.up.src == p.down.dst && p.up.dst == p.down.src
  }

  /** The strategies about a field that only one side declares. */
  predicate OneSided(b: Body) {
    b.DefaultValue? || b.Constant? || b.Delete?
  }

  /** when.path has to exist on both sides. */
  predicate GuardCompiles(w: Option<When>, hub: Schema, spoke: Schema) {
    w.Some? ==> w.value.path in hub.leaves && w.value.path in spoke.leaves
  }

  predicate PairRule(r: Rule, hub: Schema, spoke: Schema) {
    && (OneSided(r.body) || PairPlan(CompileBody(r.body, hub, spoke)))
    && GuardCompiles(r.when, hub, spoke)
  }

  predicate PairRules(rules: seq<Rule>, hub: Schema, spoke: Schema) {
    forall r :: r in rules ==> PairRule(r, hub, spoke)
  }

  function OneSidedTie(b: Body, w: Option<When>): Tie
    requires OneSided(b)
  {
    var act := if b.Delete? then Omit else Write(b.value);
    if b.existsOn == OnHub then Tie(b.path, "", Omit, act, w, w) else Tie("", b.path, act, Omit, w, w)
  }

  function TieOf(r: Rule, hub: Schema, spoke: Schema): Tie
    requires PairRule(r, hub, spoke)
  {
    if OneSided(r.body) then OneSidedTie(r.body, r.when)
    else
      var p := CompileBody(r.body, hub, spoke);
      Tie(p.down.src, p.down.dst, Convert(p.down.fn), Convert(p.up.fn), r.when, r.when)
  }

  /** The operation an arrow stands for. */
  function OpOf(a: Arrow): Op {
    Guard(a.guard,
      match a.act
      case Convert(fn) => Move(a.src, a.dst, fn)
      case Write(value) => Inject(a.dst, value)
      case Omit => Drop)
  }

  /** A tie is exactly what the engine compiles its rule to. */
  lemma TieIsPlan(r: Rule, hub: Schema, spoke: Schema)
    requires PairRule(r, hub, spoke)
    ensures var t := TieOf(r, hub, spoke);
            CompileRule(r, hub, spoke) == Plan(OpOf(DownArrow(t)), OpOf(UpArrow(t)))
  {
  }

  function RuleTies(rules: seq<Rule>, hub: Schema, spoke: Schema): seq<Tie>
    requires PairRules(rules, hub, spoke)
  {
    seq(|rules|, i requires 0 <= i < |rules| => assert rules[i] in rules; TieOf(rules[i], hub, spoke))
  }

  predicate ClaimsHub(ties: seq<Tie>, p: Path) {
    exists t :: t in ties && t.hub == p
  }

  predicate ClaimsSpoke(ties: seq<Tie>, p: Path) {
    exists t :: t in ties && t.spoke == p
  }

  predicate Alike(a: Leaf, b: Leaf) {
    a.kind == b.kind && a.wholesale == b.wholesale && a.construct == b.construct
  }

  /** A field neither side's rules claim and both sides declare alike needs no rule. */
  function AutoCovered(ties: seq<Tie>, hub: Schema, spoke: Schema): set<Path> {
    set p | p in hub.leaves && p in spoke.leaves && !ClaimsHub(ties, p) && !ClaimsSpoke(ties, p)
            && Alike(hub.leaves[p], spoke.leaves[p])
  }

  function CopyTies(paths: seq<Path>): seq<Tie> {
    seq(|paths|, i requires 0 <= i < |paths| => CopyTie(paths[i], paths[i]))
  }

  /** Every correspondence the engine compiles: the rules', then the auto-covered leaves'. */
  function Ties(rules: seq<Rule>, hub: Schema, spoke: Schema): seq<Tie>
    requires PairRules(rules, hub, spoke)
  {
    var own := RuleTies(rules, hub, spoke);
    own + CopyTies(SortedKeys(AutoCovered(own, hub, spoke)))
  }

  function Down(ties: seq<Tie>): (arrows: seq<Arrow>)
  {
    seq(|ties|, i requires 0 <= i < |ties| => DownArrow(ties[i]))
  }

  function Up(ties: seq<Tie>): (arrows: seq<Arrow>)
  {
    seq(|ties|, i requires 0 <= i < |ties| => UpArrow(ties[i]))
  }

  /** Full coverage with no conflict: the ties pair the hub's leaves off with the spoke's. */
  ghost predicate Pairing(ties: seq<Tie>, hub: Schema, spoke: Schema) {
    && Inside(ties, hub, spoke)
    && OneEach(ties)
    && CoversHub(ties, hub)
    && CoversSpoke(ties, spoke)
  }

  /** Every end is a declared field or absent, an absent end is neither read nor written,
      and the guards read declared fields. */
  ghost predicate Inside(ties: seq<Tie>, hub: Schema, spoke: Schema) {
    forall t :: t in ties ==> TieInside(t, hub, spoke)
  }

  ghost predicate TieInside(t: Tie, hub: Schema, spoke: Schema) {
    (t.hub != "" || t.spoke != "") && HubEndInside(t, hub) && SpokeEndInside(t, spoke)
  }

  ghost predicate HubEndInside(t: Tie, hub: Schema) {
    && (if t.hub == "" then !t.down.Convert? && t.up.Omit? else t.hub in hub.leaves)
    && (t.hubGuard.Some? ==> t.hubGuard.value.path in hub.leaves)
  }

  ghost predicate SpokeEndInside(t: Tie, spoke: Schema) {
    && (if t.spoke == "" then !t.up.Convert? && t.down.Omit? else t.spoke in spoke.leaves)
    && (t.spokeGuard.Some? ==> t.spokeGuard.value.path in spoke.leaves)
  }

  ghost predicate SameEnd(t: Tie, u: Tie) {
    (t.hub != "" && t.hub == u.hub) || (t.spoke != "" && t.spoke == u.spoke)
  }

  ghost predicate OneEach(ties: seq<Tie>) {
    forall t, u :: t in ties && u in ties && SameEnd(t, u) ==> t == u
  }

  ghost predicate CoversHub(ties: seq<Tie>, hub: Schema) {
    forall p :: p in hub.leaves ==> ClaimsHub(ties, p)
  }

  ghost predicate CoversSpoke(ties: seq<Tie>, spoke: Schema) {
    forall p :: p in spoke.leaves ==> ClaimsSpoke(ties, p)
  }

  lemma TiesMembers(rules: seq<Rule>, hub: Schema, spoke: Schema, t: Tie)
    requires PairRules(rules, hub, spoke)
    ensures t in RuleTies(rules, hub, spoke) <==> exists r :: r in rules && TieOf(r, hub, spoke) == t
    ensures t in Ties(rules, hub, spoke) <==>
            || t in RuleTies(rules, hub, spoke)
            || (t.hub in AutoCovered(RuleTies(rules, hub, spoke), hub, spoke) && t == CopyTie(t.hub, t.hub))
  {
    var own := RuleTies(rules, hub, spoke);
    if t in own {
      var i :| 0 <= i < |own| && own[i] == t;
      assert rules[i] in rules;
    }
    if exists r :: r in rules && TieOf(r, hub, spoke) == t {
      var r :| r in rules && TieOf(r, hub, spoke) == t;
      var i :| 0 <= i < |rules| && rules[i] == r;
      assert own[i] == t;
    }
    var keys := SortedKeys(AutoCovered(own, hub, spoke));
    var copies := CopyTies(keys);
    if t in copies {
      var i :| 0 <= i < |copies| && copies[i] == t;
      assert keys[i] in keys;
    }
    if t.hub in keys && t == CopyTie(t.hub, t.hub) {
      var i :| 0 <= i < |keys| && keys[i] == t.hub;
      assert copies[i] == t;
    }
  }

  lemma DownMembers(ties: seq<Tie>, a: Arrow)
    ensures a in Down(ties) <==> exists t :: t in ties && a == DownArrow(t)
  {
    if exists t :: t in ties && a == DownArrow(t) {
      var t :| t in ties && a == DownArrow(t);
      var i :| 0 <= i < |ties| && ties[i] == t;
      assert Down(ties)[i] == a;
    }
  }

  lemma UpMembers(ties: seq<Tie>, a: Arrow)
    ensures a in Up(ties) <==> exists t :: t in ties && a == UpArrow(t)
  {
    if exists t :: t in ties && a == UpArrow(t) {
      var t :| t in ties && a == UpArrow(t);
      var i :| 0 <= i < |ties| && ties[i] == t;
      assert Up(ties)[i] == a;
    }
  }

  lemma PairingOneWriter(ties: seq<Tie>, hub: Schema, spoke: Schema)
    requires Inside(ties, hub, spoke) && OneEach(ties)
    ensures OneWriterEach(Listed(Down(ties))) && OneWriterEach(Listed(Up(ties)))
  {
    forall a, b | a in Listed(Down(ties)) && b in Listed(Down(ties)) && a.dst == b.dst && !a.act.Omit? && !b.act.Omit? ensures a == b {
      DownMembers(ties, a);
      DownMembers(ties, b);
      var t :| t in ties && a == DownArrow(t);
      var u :| u in ties && b == DownArrow(u);
      assert SameEnd(t, u);
    }
    forall a, b | a in Listed(Up(ties)) && b in Listed(Up(ties)) && a.dst == b.dst && !a.act.Omit? && !b.act.Omit? ensures a == b {
      UpMembers(ties, a);
      UpMembers(ties, b);
      var t :| t in ties && a == UpArrow(t);
      var u :| u in ties && b == UpArrow(u);
      assert SameEnd(t, u);
    }
  }
}
