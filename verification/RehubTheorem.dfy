/** The main results about hub promotion: RehubSpokes succeeds on a promotable
    config, its output is again a valid config, and every version-to-version
    conversion routed through the hub is unchanged. */
module RehubTheorem {
  import opened Wrappers
  import opened Rules
  import opened Invert
  import opened Engine
  import opened HubPaths
  import opened Rehub
  import opened Conversion
  import opened RehubMeaning

  /** The compiled plan of one spoke; a spoke whose rules do not compile has none. */
  ghost function SpokeTies(c: Config, schemas: Schemas, v: string): Option<seq<Tie>> {
    match Promoted(c.spokes, v)
    case None => None
    case Some(s) =>
      if v in schemas && c.hub in schemas && Compiles(s.rules, schemas[c.hub], schemas[v])
      then Some(Ties(s.rules, schemas[c.hub], schemas[v]))
      else None
  }

  /** pkg/engine/convert.go: Router.Convert, always through the hub. */
  ghost function Route<V>(run: Values<V>, c: Config, schemas: Schemas, obj: map<Path, V>, from: string, to: string): Option<map<Path, V>> {
    if from == to then Some(obj)
    else
      match (if from == c.hub then Some(obj) else ToHub(run, c, schemas, obj, from))
      case None => None
      case Some(hubObj) => if to == c.hub then Some(hubObj) else FromHub(run, c, schemas, hubObj, to)
  }

  ghost function ToHub<V>(run: Values<V>, c: Config, schemas: Schemas, obj: map<Path, V>, from: string): Option<map<Path, V>> {
    match SpokeTies(c, schemas, from)
    case None => None
    case Some(ties) => Push(run, Up(ties), obj)
  }

  ghost function FromHub<V>(run: Values<V>, c: Config, schemas: Schemas, obj: map<Path, V>, to: string): Option<map<Path, V>> {
    match SpokeTies(c, schemas, to)
    case None => None
    case Some(ties) => Push(run, Down(ties), obj)
  }

  // ---- Moving an object from the old hub's paths to the new hub's ----

  function Relocate<V>(m: PathMap, o: map<Path, V>): map<Path, V>
    requires forall p, q :: p in o && q in o && MapPath(m, p) == MapPath(m, q) ==> p == q
  {
    map p | p in o :: MapPath(m, p) := o[p]
  }

  lemma RelocateAt<V(!new)>(m: PathMap, hub: Schema, next: Schema, o: map<Path, V>)
    requires Moves(m, hub, next) && o.Keys <= hub.leaves.Keys
    ensures forall d, v :: At(Relocate(m, o), d, v) <==> exists p :: At(o, p, v) && MapPath(m, p) == d
  {
    forall d, v ensures At(Relocate(m, o), d, v) <==> exists p :: At(o, p, v) && MapPath(m, p) == d {
      if exists p :: At(o, p, v) && MapPath(m, p) == d {
        var p :| At(o, p, v) && MapPath(m, p) == d;
        assert MapPath(m, p) in Relocate(m, o);
      }
    }
  }

  lemma SameArrows<V(!new)>(run: Values<V>, x: seq<Arrow>, y: seq<Arrow>, obj: map<Path, V>)
    requires OneWriterEach(Listed(x))
    requires forall a :: a in x <==> a in y
    ensures Push(run, x, obj) == Push(run, y, obj)
  {
    assert Listed(x) == Listed(y);
    PushMeans(run, x, obj);
    PushMeans(run, y, obj);
    MeansUnique(run, Listed(x), obj, Push(run, x, obj), Push(run, y, obj));
  }

  /** Arrows of the two directions, as ties. */
  ghost predicate UpSends<V>(run: Values<V>, ties: seq<Tie>, obj: map<Path, V>, d: Path, v: V) {
    exists t :: t in ties && t.hub == d && Sends(run, UpArrow(t), obj, v)
  }

  ghost predicate UpBreaks<V>(run: Values<V>, ties: seq<Tie>, obj: map<Path, V>) {
    exists t :: t in ties && Breaks(run, UpArrow(t), obj)
  }

  ghost predicate DownSends<V>(run: Values<V>, ties: seq<Tie>, obj: map<Path, V>, d: Path, v: V) {
    exists t :: t in ties && t.spoke == d && Sends(run, DownArrow(t), obj, v)
  }

  ghost predicate DownBreaks<V>(run: Values<V>, ties: seq<Tie>, obj: map<Path, V>) {
    exists t :: t in ties && Breaks(run, DownArrow(t), obj)
  }

  lemma UpMeans<V(!new)>(run: Values<V>, ties: seq<Tie>, hub: Schema, spoke: Schema, obj: map<Path, V>)
    requires Inside(ties, hub, spoke) && OneEach(ties)
    ensures var r := Push(run, Up(ties), obj);
            && (r.None? <==> UpBreaks(run, ties, obj))
            && (r.Some? ==> forall d, v :: At(r.value, d, v) <==> UpSends(run, ties, obj, d, v))
  {
    hide Fire, Exec, Push;
    PairingOneWriter(ties, hub, spoke);
    var arrows := Up(ties);
    PushMeans(run, arrows, obj);
    forall a ensures a in Listed(arrows) <==> exists t :: t in ties && a == UpArrow(t) {
      UpMembers(ties, a);
    }
    forall d, v ensures (exists a :: a in Listed(arrows) && a.dst == d && Sends(run, a, obj, v)) <==> UpSends(run, ties, obj, d, v) {
      if UpSends(run, ties, obj, d, v) {
        var t :| t in ties && t.hub == d && Sends(run, UpArrow(t), obj, v);
        assert UpArrow(t) in Listed(arrows);
      }
    }
    if UpBreaks(run, ties, obj) {
      var t :| t in ties && Breaks(run, UpArrow(t), obj);
      assert UpArrow(t) in Listed(arrows);
    }
  }

  lemma DownMeans<V(!new)>(run: Values<V>, ties: seq<Tie>, hub: Schema, spoke: Schema, obj: map<Path, V>)
    requires Inside(ties, hub, spoke) && OneEach(ties)
    ensures var r := Push(run, Down(ties), obj);
            && (r.None? <==> DownBreaks(run, ties, obj))
            && (r.Some? ==> forall d, v :: At(r.value, d, v) <==> DownSends(run, ties, obj, d, v))
  {
    hide Fire, Exec, Push;
    PairingOneWriter(ties, hub, spoke);
    var arrows := Down(ties);
    PushMeans(run, arrows, obj);
    forall a ensures a in Listed(arrows) <==> exists t :: t in ties && a == DownArrow(t) {
      DownMembers(ties, a);
    }
    forall d, v ensures (exists a :: a in Listed(arrows) && a.dst == d && Sends(run, a, obj, v)) <==> DownSends(run, ties, obj, d, v) {
      if DownSends(run, ties, obj, d, v) {
        var t :| t in ties && t.spoke == d && Sends(run, DownArrow(t), obj, v);
        assert DownArrow(t) in Listed(arrows);
      }
    }
    if DownBreaks(run, ties, obj) {
      var t :| t in ties && Breaks(run, DownArrow(t), obj);
      assert DownArrow(t) in Listed(arrows);
    }
  }

  /** Up from a remaining spoke a carried tie reads what it read before. */
  lemma CarriedUpArrow<V>(run: Values<V>, t: Tie, m: PathMap, obj: map<Path, V>)
    ensures Fire(run, UpArrow(Carry(m, t)), obj) == Fire(run, UpArrow(t), obj)
  {
  }

  lemma CarriedUp<V(!new)>(run: Values<V>, ties: seq<Tie>, carried: seq<Tie>, m: PathMap, obj: map<Path, V>)
    requires Carried(ties, carried, m)
    ensures UpBreaks(run, carried, obj) <==> UpBreaks(run, ties, obj)
    ensures forall d, v :: UpSends(run, carried, obj, d, v) <==> exists p :: UpSends(run, ties, obj, p, v) && MapPath(m, p) == d
  {
    forall t ensures Fire(run, UpArrow(Carry(m, t)), obj) == Fire(run, UpArrow(t), obj) {
      CarriedUpArrow(run, t, m, obj);
    }
    hide Fire;
    if UpBreaks(run, ties, obj) {
      var t :| t in ties && Breaks(run, UpArrow(t), obj);
      assert Carry(m, t) in carried && Breaks(run, UpArrow(Carry(m, t)), obj);
    }
    if UpBreaks(run, carried, obj) {
      var t :| t in carried && Breaks(run, UpArrow(t), obj);
      var u :| u in ties && t == Carry(m, u);
      assert Breaks(run, UpArrow(u), obj);
    }
    forall d, v ensures UpSends(run, carried, obj, d, v) <==> exists p :: UpSends(run, ties, obj, p, v) && MapPath(m, p) == d {
      CarriedUpSends(run, ties, carried, m, obj, d, v);
    }
  }

  lemma CarriedUpSends<V(!new)>(run: Values<V>, ties: seq<Tie>, carried: seq<Tie>, m: PathMap, obj: map<Path, V>, d: Path, v: V)
    requires Carried(ties, carried, m)
    requires forall t :: Fire(run, UpArrow(Carry(m, t)), obj) == Fire(run, UpArrow(t), obj)
    ensures UpSends(run, carried, obj, d, v) <==> exists p :: UpSends(run, ties, obj, p, v) && MapPath(m, p) == d
  {
    hide Fire;
    if UpSends(run, carried, obj, d, v) {
      var t :| t in carried && t.hub == d && Sends(run, UpArrow(t), obj, v);
      var u :| u in ties && t == Carry(m, u);
      assert Sends(run, UpArrow(u), obj, v);
      assert UpSends(run, ties, obj, u.hub, v);
    }
    if exists p :: UpSends(run, ties, obj, p, v) && MapPath(m, p) == d {
      var p :| UpSends(run, ties, obj, p, v) && MapPath(m, p) == d;
      var u :| u in ties && u.hub == p && Sends(run, UpArrow(u), obj, v);
      assert Carry(m, u) in carried && Sends(run, UpArrow(Carry(m, u)), obj, v);
    }
  }

  /** A remaining spoke writes the same hub object as before, at the moved paths. */
  lemma CarryUp<V(!new)>(run: Values<V>, ties: seq<Tie>, carried: seq<Tie>, m: PathMap,
                         hub: Schema, next: Schema, spoke: Schema, obj: map<Path, V>)
    requires Inside(ties, hub, spoke) && OneEach(ties) && Carried(ties, carried, m) && Moves(m, hub, next)
    ensures var a := Push(run, Up(ties), obj); var b := Push(run, Up(carried), obj);
            && (a.None? <==> b.None?)
            && (a.Some? ==> a.value.Keys <= hub.leaves.Keys && b.value == Relocate(m, a.value))
  {
    CarriedInside(ties, carried, m, hub, next, spoke);
    CarriedOneEach(ties, carried, m, hub, next, spoke);
    UpMeans(run, ties, hub, spoke, obj);
    UpMeans(run, carried, next, spoke, obj);
    CarriedUp(run, ties, carried, m, obj);
    if Push(run, Up(ties), obj).Some? {
      var a, b := Push(run, Up(ties), obj).value, Push(run, Up(carried), obj).value;
      forall p | p in a ensures p in hub.leaves {
        assert At(a, p, a[p]);
        var t :| t in ties && t.hub == p && Sends(run, UpArrow(t), obj, a[p]);
        assert TieInside(t, hub, spoke);
      }
      RelocatedObject(a, b, m, hub, next);
    }
  }

  lemma RelocatedObject<V(!new)>(a: map<Path, V>, b: map<Path, V>, m: PathMap, hub: Schema, next: Schema)
    requires Moves(m, hub, next) && a.Keys <= hub.leaves.Keys
    requires forall d, v :: At(b, d, v) <==> exists p :: At(a, p, v) && MapPath(m, p) == d
    ensures b == Relocate(m, a)
  {
    RelocateAt(m, hub, next, a);
    SameObject(b, Relocate(m, a));
  }

  lemma CarriedDown<V(!new)>(run: Values<V>, ties: seq<Tie>, carried: seq<Tie>, m: PathMap, o: map<Path, V>, moved: map<Path, V>)
    requires Carried(ties, carried, m)
    requires forall u :: u in ties ==> Fire(run, DownArrow(Carry(m, u)), moved) == Fire(run, DownArrow(u), o)
    ensures DownBreaks(run, carried, moved) <==> DownBreaks(run, ties, o)
    ensures forall d, v :: DownSends(run, carried, moved, d, v) <==> DownSends(run, ties, o, d, v)
  {
    hide Fire;
    forall u | u in ties ensures Carry(m, u) in carried {
    }
    forall d, v ensures DownSends(run, carried, moved, d, v) <==> DownSends(run, ties, o, d, v) {
      if DownSends(run, carried, moved, d, v) {
        var t :| t in carried && t.spoke == d && Sends(run, DownArrow(t), moved, v);
        var u :| u in ties && t == Carry(m, u);
        assert Sends(run, DownArrow(u), o, v);
      }
      if DownSends(run, ties, o, d, v) {
        var u :| u in ties && u.spoke == d && Sends(run, DownArrow(u), o, v);
        assert Carry(m, u) in carried && Sends(run, DownArrow(Carry(m, u)), moved, v);
      }
    }
    if DownBreaks(run, carried, moved) {
      var t :| t in carried && Breaks(run, DownArrow(t), moved);
      var u :| u in ties && t == Carry(m, u);
      assert Breaks(run, DownArrow(u), o);
    }
    if DownBreaks(run, ties, o) {
      var u :| u in ties && Breaks(run, DownArrow(u), o);
      assert Carry(m, u) in carried && Breaks(run, DownArrow(Carry(m, u)), moved);
    }
  }

  /** Down to a remaining spoke a carried tie, guard included, reads in the moved object
      what the original read in the original. */
  lemma CarriedDownArrow<V(!new)>(run: Values<V>, t: Tie, m: PathMap, hub: Schema, next: Schema, spoke: Schema, o: map<Path, V>)
    requires TieInside(t, hub, spoke) && Moves(m, hub, next) && o.Keys <= hub.leaves.Keys
    ensures Fire(run, DownArrow(Carry(m, t)), Relocate(m, o)) == Fire(run, DownArrow(t), o)
  {
    hide Fire, Relocate;
    var moved := Relocate(m, o);
    if t.hub != "" {
      MovedField(m, hub, next, o, t.hub);
    }
    if t.hubGuard.Some? {
      MovedField(m, hub, next, o, t.hubGuard.value.path);
    }
    SameFire(run, DownArrow(Carry(m, t)), moved, DownArrow(t), o);
  }

  lemma SameFire<V>(run: Values<V>, a: Arrow, x: map<Path, V>, b: Arrow, y: map<Path, V>)
    requires a.act == b.act && Open(run, a.guard, x) == Open(run, b.guard, y)
    requires a.act.Convert? ==> (a.src in x <==> b.src in y) && (a.src in x ==> x[a.src] == y[b.src])
    ensures Fire(run, a, x) == Fire(run, b, y)
  {
  }

  /** And reads the moved hub object the way it read the original. */
  lemma CarryDown<V(!new)>(run: Values<V>, ties: seq<Tie>, carried: seq<Tie>, m: PathMap,
                           hub: Schema, next: Schema, spoke: Schema, o: map<Path, V>)
    requires Inside(ties, hub, spoke) && OneEach(ties) && Carried(ties, carried, m) && Moves(m, hub, next)
    requires o.Keys <= hub.leaves.Keys
    ensures Push(run, Down(carried), Relocate(m, o)) == Push(run, Down(ties), o)
  {
    CarriedInside(ties, carried, m, hub, next, spoke);
    CarriedOneEach(ties, carried, m, hub, next, spoke);
    var moved := Relocate(m, o);
    DownMeans(run, ties, hub, spoke, o);
    DownMeans(run, carried, next, spoke, moved);
    forall u | u in ties ensures Fire(run, DownArrow(Carry(m, u)), moved) == Fire(run, DownArrow(u), o) {
      CarriedDownArrow(run, u, m, hub, next, spoke, o);
    }
    CarriedDown(run, ties, carried, m, o, moved);
    if Push(run, Down(carried), moved).Some? {
      SameObject(Push(run, Down(carried), moved).value, Push(run, Down(ties), o).value);
    }
  }

  lemma MovedField<V(!new)>(m: PathMap, hub: Schema, next: Schema, o: map<Path, V>, p: Path)
    requires Moves(m, hub, next) && o.Keys <= hub.leaves.Keys && p in hub.leaves
    ensures MapPath(m, p) in Relocate(m, o) <==> p in o
    ensures p in o ==> Relocate(m, o)[MapPath(m, p)] == o[p]
  {
  }

  /** The ties of a promoted spoke: pure renames along m. */
  ghost predicate RenamesAlong(ties: seq<Tie>, m: PathMap) {
    forall t :: t in ties ==> t == CopyTie(t.hub, MapPath(m, t.hub))
  }

  lemma PromotedDown<V(!new)>(run: Values<V>, ties: seq<Tie>, m: PathMap, hub: Schema, next: Schema, o: map<Path, V>)
    requires Pairing(ties, hub, next) && RenamesAlong(ties, m) && Moves(m, hub, next)
    requires o.Keys <= hub.leaves.Keys
    ensures Push(run, Down(ties), o) == Some(Relocate(m, o))
  {
    hide Fire, Push, Relocate;
    forall t | t in ties
      ensures Fire(run, DownArrow(t), o) == if t.hub in o then Wrote(o[t.hub]) else Skipped
    {
      CopyFires(run, t.hub, t.spoke, o);
    }
    DownMeans(run, ties, hub, next, o);
    RelocateAt(m, hub, next, o);
    assert !DownBreaks(run, ties, o);
    var r := Push(run, Down(ties), o).value;
    forall d, v ensures At(r, d, v) <==> At(Relocate(m, o), d, v) {
      PromotedDownAt(run, ties, m, hub, next, o, d, v);
    }
    SameObject(r, Relocate(m, o));
  }

  lemma PromotedDownAt<V(!new)>(run: Values<V>, ties: seq<Tie>, m: PathMap, hub: Schema, next: Schema, o: map<Path, V>, d: Path, v: V)
    requires CoversHub(ties, hub) && RenamesAlong(ties, m) && o.Keys <= hub.leaves.Keys
    requires forall t :: t in ties ==> Fire(run, DownArrow(t), o) == if t.hub in o then Wrote(o[t.hub]) else Skipped
    ensures DownSends(run, ties, o, d, v) <==> exists p :: At(o, p, v) && MapPath(m, p) == d
  {
    hide Fire;
    if DownSends(run, ties, o, d, v) {
      var t :| t in ties && t.spoke == d && Sends(run, DownArrow(t), o, v);
      assert At(o, t.hub, v) && MapPath(m, t.hub) == d;
    }
    if exists p :: At(o, p, v) && MapPath(m, p) == d {
      var p :| At(o, p, v) && MapPath(m, p) == d;
      assert ClaimsHub(ties, p);
      var t :| t in ties && t.hub == p;
      assert Sends(run, DownArrow(t), o, v);
    }
  }

  lemma CopyFires<V>(run: Values<V>, src: Path, dst: Path, o: map<Path, V>)
    ensures Fire(run, DownArrow(CopyTie(src, dst)), o) == if src in o then Wrote(o[src]) else Skipped
    ensures Fire(run, UpArrow(CopyTie(src, dst)), o) == if dst in o then Wrote(o[dst]) else Skipped
  {
  }

  lemma PromotedUp<V(!new)>(run: Values<V>, ties: seq<Tie>, m: PathMap, hub: Schema, next: Schema, n: map<Path, V>)
    requires Pairing(ties, hub, next) && RenamesAlong(ties, m) && Moves(m, hub, next)
    requires n.Keys <= next.leaves.Keys
    ensures Push(run, Up(ties), n).Some?
    ensures Push(run, Up(ties), n).value.Keys <= hub.leaves.Keys
    ensures Relocate(m, Push(run, Up(ties), n).value) == n
  {
    hide Fire, Push, Relocate;
    forall t | t in ties
      ensures Fire(run, UpArrow(t), n) == if t.spoke in n then Wrote(n[t.spoke]) else Skipped
    {
      CopyFires(run, t.hub, t.spoke, n);
    }
    UpMeans(run, ties, hub, next, n);
    assert !UpBreaks(run, ties, n);
    var o := Push(run, Up(ties), n).value;
    forall p | p in o ensures p in hub.leaves && MapPath(m, p) in n && n[MapPath(m, p)] == o[p] {
      assert At(o, p, o[p]);
    }
    RelocateAt(m, hub, next, o);
    forall d, v ensures At(Relocate(m, o), d, v) <==> At(n, d, v) {
      if At(n, d, v) {
        assert ClaimsSpoke(ties, d);
        var t :| t in ties && t.spoke == d;
        assert Sends(run, UpArrow(t), n, v);
        assert UpSends(run, ties, n, t.hub, v);
        assert At(o, t.hub, v) && MapPath(m, t.hub) == d;
      }
    }
    SameObject(Relocate(m, o), n);
  }

  lemma PromotedRoundTrip<V(!new)>(run: Values<V>, ties: seq<Tie>, m: PathMap, hub: Schema, next: Schema, o: map<Path, V>)
    requires Pairing(ties, hub, next) && RenamesAlong(ties, m) && Moves(m, hub, next)
    requires o.Keys <= hub.leaves.Keys
    ensures Push(run, Up(ties), Relocate(m, o)) == Some(o)
  {
    var n := Relocate(m, o);
    forall d | d in n ensures d in next.leaves {
      var p :| p in o && MapPath(m, p) == d;
      assert p in hub.leaves;
    }
    PromotedUp(run, ties, m, hub, next, n);
    RelocateInjective(m, hub, next, Push(run, Up(ties), n).value, o);
  }

  lemma RelocateInjective<V(!new)>(m: PathMap, hub: Schema, next: Schema, x: map<Path, V>, y: map<Path, V>)
    requires Moves(m, hub, next) && x.Keys <= hub.leaves.Keys && y.Keys <= hub.leaves.Keys
    requires Relocate(m, x) == Relocate(m, y)
    ensures x == y
  {
    forall p | p in hub.leaves ensures (p in x <==> p in y) && (p in x ==> x[p] == y[p]) {
      MovedField(m, hub, next, x, p);
      MovedField(m, hub, next, y, p);
    }
    assert x.Keys == y.Keys;
  }

  lemma FlippedPushes<V(!new)>(run: Values<V>, ties: seq<Tie>, flipped: seq<Tie>, hub: Schema, spoke: Schema, obj: map<Path, V>)
    requires Inside(ties, hub, spoke) && OneEach(ties) && Flipped(ties, flipped)
    ensures Push(run, Up(flipped), obj) == Push(run, Down(ties), obj)
    ensures Push(run, Down(flipped), obj) == Push(run, Up(ties), obj)
  {
    PairingOneWriter(ties, hub, spoke);
    forall a ensures a in Down(ties) <==> a in Up(flipped) {
      DownMembers(ties, a);
      UpMembers(flipped, a);
      if a in Down(ties) {
        var t :| t in ties && a == DownArrow(t);
        FlippedMembers(ties, flipped, t);
      }
    }
    forall a ensures a in Up(ties) <==> a in Down(flipped) {
      UpMembers(ties, a);
      DownMembers(flipped, a);
      if a in Up(ties) {
        var t :| t in ties && a == UpArrow(t);
        FlippedMembers(ties, flipped, t);
      }
    }
    SameArrows(run, Down(ties), Up(flipped), obj);
    SameArrows(run, Up(ties), Down(flipped), obj);
  }

  // ---- What RehubSpokes produces ----

  lemma PromotedIs(spokes: seq<SpokeRules>, s: SpokeRules)
    requires s in spokes
    requires forall u :: u in spokes && u.version == s.version ==> u == s
    ensures Promoted(spokes, s.version) == Some(s)
  {
  }

  lemma OneVersionEach(c: Config, schemas: Schemas, s: SpokeRules)
    requires ValidConfig(c, schemas) && s in c.spokes
    ensures Promoted(c.spokes, s.version) == Some(s)
    ensures SpokeTies(c, schemas, s.version) == Some(Ties(s.rules, schemas[c.hub], schemas[s.version]))
  {
    PromotedIs(c.spokes, s);
  }

  function Promote(c: Config, schemas: Schemas, newHub: string): Result<Config, RehubError> {
    match Rehubbed(c.hub, newHub, c.spokes, LeafSetsOf(schemas))
    case Failure(e) => Failure(e)
    case Success(out) => Success(Config(out.0, out.1))
  }

  /** The path map of the promotion, usable for every remaining spoke. */
  lemma PromotionFacts(c: Config, schemas: Schemas, p: SpokeRules)
    requires ValidConfig(c, schemas) && p in c.spokes && PromotableSpoke(c, schemas, p)
    ensures PathMapFrom(p.rules, 0, map[]).Success?
    ensures var m := PathMapFrom(p.rules, 0, map[]).value;
            && Moves(m, schemas[c.hub], schemas[p.version])
            && RenamesAlong(Ties(p.rules, schemas[c.hub], schemas[p.version]), m)
            && forall s :: s in c.spokes && s != p ==> PathsKept(s.rules, m)
  {
    hide PathMapFrom, Ties, Moves, PairRules, PlainRenames, FixedPaths;
    var hub, next := schemas[c.hub], schemas[p.version];
    PromotionMoves(p.rules, hub, next);
    RenamesCompileToRenameTies(p.rules, hub, next);
    PromotedMap(p.rules, Ties(p.rules, hub, next), hub, next);
    forall s | s in c.spokes && s != p ensures PathsKept(s.rules, PathMapFrom(p.rules, 0, map[]).value) {
      UnmovedPaths(p.rules, s.rules);
    }
  }

  lemma UnmovedPaths(rules: seq<Rule>, others: seq<Rule>)
    requires PlainRenames(rules) && PathMapFrom(rules, 0, map[]).Success?
    requires forall r, q :: r in others && q in rules && q.body.hub in FixedPaths(r) ==> q.body.spoke == q.body.hub
    ensures PathsKept(others, PathMapFrom(rules, 0, map[]).value)
  {
    hide PathMapFrom, FixedPaths;
    PathMapSucceedsExactly(rules);
    var m := PathMapFrom(rules, 0, map[]).value;
    forall r, x | r in others && x in FixedPaths(r) ensures MapPath(m, x) == x {
      if x in m {
        assert Maps(m, x, m[x]);
        PlainRenamePairs(rules, x, m[x]);
        var q :| q in rules && q.body == FieldRename(x, m[x]);
      }
    }
  }

  lemma AllInverted(rules: seq<Rule>, i: nat)
    requires i <= |rules| && PlainRenames(rules)
    ensures InvertFrom(rules, i).Success?
    decreases |rules| - i
  {
    if i == |rules| {
    } else {
      assert rules[i] in rules;
      InvertedRename(rules[i]);
      AllInverted(rules, i + 1);
    }
  }

  lemma AllComposed(others: seq<SpokeRules>, m: PathMap, leaves: LeafSets, i: nat)
    requires i <= |others|
    requires forall s :: s in others ==> Compose(s.rules, m, LeavesOf(leaves, s.version)).Success?
    ensures ComposeFrom(others, m, leaves, i).Success?
    decreases |others| - i
  {
    if i == |others| {
    } else {
      assert others[i] in others;
      AllComposed(others, m, leaves, i + 1);
    }
  }

  /** Every remaining spoke can be recomposed, and its ties are carried along. */
  lemma SpokeRecomposed(c: Config, schemas: Schemas, p: SpokeRules, s: SpokeRules)
    requires ValidConfig(c, schemas) && p in c.spokes && PromotableSpoke(c, schemas, p)
    requires s in c.spokes && s != p
    ensures PathMapFrom(p.rules, 0, map[]).Success?
    ensures var m := PathMapFrom(p.rules, 0, map[]).value;
            var next := schemas[p.version]; var spoke := schemas[s.version];
            && Compose(s.rules, m, spoke.leaves.Keys).Success?
            && var out := Compose(s.rules, m, spoke.leaves.Keys).value;
               && PairRules(out, next, spoke)
               && Carried(Ties(s.rules, schemas[c.hub], spoke), Ties(out, next, spoke), m)
               && Pairing(Ties(out, next, spoke), next, spoke)
  {
    PromotionFacts(c, schemas, p);
    var m := PathMapFrom(p.rules, 0, map[]).value;
    var hub, next, spoke := schemas[c.hub], schemas[p.version], schemas[s.version];
    OwnTiesCover(s.rules, hub, spoke);
    ComposedRules(s.rules, m, hub, next, spoke);
    var out := Compose(s.rules, m, spoke.leaves.Keys).value;
    RecomposedTies(s.rules, out, m, hub, next, spoke);
    CarriedPairing(Ties(s.rules, hub, spoke), Ties(out, next, spoke), m, hub, next, spoke);
  }

  /** The old hub, now a spoke, is tied to the new hub by the promoted ties turned round. */
  lemma OldHubInverted(c: Config, schemas: Schemas, p: SpokeRules)
    requires ValidConfig(c, schemas) && p in c.spokes && PromotableSpoke(c, schemas, p)
    ensures InvertFrom(p.rules, 0).Success?
    ensures var inverted := InvertFrom(p.rules, 0).value; var hub := schemas[c.hub]; var next := schemas[p.version];
            && PlainRenames(inverted)
            && PairRules(inverted, next, hub)
            && Flipped(Ties(p.rules, hub, next), Ties(inverted, next, hub))
            && Pairing(Ties(inverted, next, hub), next, hub)
  {
    var hub, next := schemas[c.hub], schemas[p.version];
    AllInverted(p.rules, 0);
    var inverted := InvertFrom(p.rules, 0).value;
    InvertedRenameTies(p.rules, inverted, hub, next);
    FlippedPairing(Ties(p.rules, hub, next), Ties(inverted, next, hub), hub, next);
  }

  /** What the rules of one spoke of the output are. */
  ghost predicate Rebuilt(c: Config, schemas: Schemas, p: SpokeRules, t: SpokeRules) {
    || (t.version == c.hub && InvertFrom(p.rules, 0) == Success(t.rules))
    || (exists s :: s in c.spokes && s != p && s.version == t.version
                    && PathMapFrom(p.rules, 0, map[]).Success? && t.version in schemas
                    && Compose(s.rules, PathMapFrom(p.rules, 0, map[]).value, schemas[t.version].leaves.Keys) == Success(t.rules))
  }

  lemma OthersRecomposed(c: Config, schemas: Schemas, p: SpokeRules, m: PathMap)
    requires ValidConfig(c, schemas) && p in c.spokes && PromotableSpoke(c, schemas, p)
    requires PathMapFrom(p.rules, 0, map[]) == Success(m)
    ensures forall s :: s in Others(c.spokes, p.version) ==>
              && s in c.spokes && s != p
              && LeavesOf(LeafSetsOf(schemas), s.version) == schemas[s.version].leaves.Keys
    ensures ComposeFrom(Others(c.spokes, p.version), m, LeafSetsOf(schemas), 0).Success?
  {
    var others := Others(c.spokes, p.version);
    forall s | s in others ensures Compose(s.rules, m, LeavesOf(LeafSetsOf(schemas), s.version)).Success? {
      SpokeRecomposed(c, schemas, p, s);
    }
    AllComposed(others, m, LeafSetsOf(schemas), 0);
  }

  lemma OutputRules(c: Config, schemas: Schemas, p: SpokeRules, m: PathMap, others: seq<SpokeRules>, rest: seq<SpokeRules>)
    requires PathMapFrom(p.rules, 0, map[]) == Success(m)
    requires ComposeFrom(others, m, LeafSetsOf(schemas), 0) == Success(rest)
    requires forall s :: s in others ==>
               && s in c.spokes && s != p && s.version in schemas
               && LeavesOf(LeafSetsOf(schemas), s.version) == schemas[s.version].leaves.Keys
    ensures forall t :: t in rest ==> Rebuilt(c, schemas, p, t)
    ensures forall s :: s in others ==> exists t :: t in rest && t.version == s.version
  {
    forall t | t in rest ensures Rebuilt(c, schemas, p, t) {
      var i :| 0 <= i < |rest| && rest[i] == t;
      assert others[i] in others && rest[i - 0].version == others[i].version;
    }
    forall s | s in others ensures exists t :: t in rest && t.version == s.version {
      var i :| 0 <= i < |others| && others[i] == s;
      assert rest[i - 0].version == others[i].version;
      assert rest[i] in rest;
    }
  }

  lemma RehubSucceeds(c: Config, schemas: Schemas, p: SpokeRules)
    requires ValidConfig(c, schemas) && p in c.spokes && PromotableSpoke(c, schemas, p)
    ensures Promote(c, schemas, p.version).Success?
    ensures var d := Promote(c, schemas, p.version).value;
            && d.hub == p.version
            && (forall t :: t in d.spokes ==> Rebuilt(c, schemas, p, t))
            && (exists t :: t in d.spokes && t.version == c.hub)
            && (forall s :: s in c.spokes && s != p ==> exists t :: t in d.spokes && t.version == s.version)
  {
    OneVersionEach(c, schemas, p);
    AllInverted(p.rules, 0);
    PromotionFacts(c, schemas, p);
    var m := PathMapFrom(p.rules, 0, map[]).value;
    OthersRecomposed(c, schemas, p, m);
    var others := Others(c.spokes, p.version);
    var rest := ComposeFrom(others, m, LeafSetsOf(schemas), 0).value;
    OutputRules(c, schemas, p, m, others, rest);
    var first := SpokeRules(c.hub, InvertFrom(p.rules, 0).value);
    var d := Promote(c, schemas, p.version).value;
    assert d.spokes == [first] + rest;
    assert forall t :: t in d.spokes <==> t == first || t in rest;
    forall s | s in c.spokes && s != p ensures exists t :: t in d.spokes && t.version == s.version {
      assert s in others;
    }
  }

  /** The output is a valid config again. */
  lemma RehubKeepsValid(c: Config, schemas: Schemas, p: SpokeRules)
    requires ValidConfig(c, schemas) && p in c.spokes && PromotableSpoke(c, schemas, p)
    ensures Promote(c, schemas, p.version).Success?
    ensures ValidConfig(Promote(c, schemas, p.version).value, schemas)
  {
    RehubSucceeds(c, schemas, p);
    var d := Promote(c, schemas, p.version).value;
    OldHubInverted(c, schemas, p);
    forall t | t in d.spokes
      ensures t.version in schemas && t.version != d.hub && t.version != ""
      ensures Compiles(t.rules, schemas[d.hub], schemas[t.version])
    {
      assert Rebuilt(c, schemas, p, t);
      if t.version != c.hub {
        var s :| s in c.spokes && s != p && s.version == t.version &&
                 Compose(s.rules, PathMapFrom(p.rules, 0, map[]).value, schemas[t.version].leaves.Keys) == Success(t.rules);
        SpokeRecomposed(c, schemas, p, s);
      }
    }
    forall t, u | t in d.spokes && u in d.spokes && t.version == u.version ensures t == u {
      RebuiltOnce(c, schemas, p, t, u);
    }
  }

  lemma RebuiltOnce(c: Config, schemas: Schemas, p: SpokeRules, t: SpokeRules, u: SpokeRules)
    requires ValidConfig(c, schemas) && p in c.spokes
    requires Rebuilt(c, schemas, p, t) && Rebuilt(c, schemas, p, u) && t.version == u.version
    ensures t == u
  {
  }

  // ---- The theorem ----

  /** What the promotion makes of each spoke's ties. */
  lemma NewTies(c: Config, schemas: Schemas, p: SpokeRules, v: string)
    requires ValidConfig(c, schemas) && p in c.spokes && PromotableSpoke(c, schemas, p)
    requires v != p.version
    ensures Promote(c, schemas, p.version).Success? && PathMapFrom(p.rules, 0, map[]).Success?
    ensures var d := Promote(c, schemas, p.version).value; var m := PathMapFrom(p.rules, 0, map[]).value;
            var before := SpokeTies(c, schemas, v); var after := SpokeTies(d, schemas, v);
            if v == c.hub then
              after.Some? && Flipped(Ties(p.rules, schemas[c.hub], schemas[p.version]), after.value)
            else if before.Some? then
              after.Some? && Carried(before.value, after.value, m) && v in schemas
              && Pairing(before.value, schemas[c.hub], schemas[v])
            else after.None?
  {
    hide Promote, PathMapFrom, Ties, Moves, CompileRule, Compose, PromotableSpoke;
    RehubSucceeds(c, schemas, p);
    RehubKeepsValid(c, schemas, p);
    PromotionFacts(c, schemas, p);
    OldHubInverted(c, schemas, p);
    var d := Promote(c, schemas, p.version).value;
    if v == c.hub {
      var t :| t in d.spokes && t.version == c.hub;
      assert Rebuilt(c, schemas, p, t);
      OneVersionEach(d, schemas, t);
    } else if exists s :: s in c.spokes && s.version == v {
      var s :| s in c.spokes && s.version == v;
      OneVersionEach(c, schemas, s);
      var t :| t in d.spokes && t.version == v;
      assert Rebuilt(c, schemas, p, t);
      OneVersionEach(d, schemas, t);
      SpokeRecomposed(c, schemas, p, s);
    } else {
      forall t | t in d.spokes ensures t.version != v {
        assert Rebuilt(c, schemas, p, t);
      }
    }
  }

  /** An object of a version holds values at that version's leaves only. */
  ghost predicate ObjectOf<V>(schemas: Schemas, v: string, obj: map<Path, V>) {
    v in schemas ==> obj.Keys <= schemas[v].leaves.Keys
  }

  /** The same hub object, at the moved paths. */
  ghost predicate Relocated<V>(m: PathMap, hub: Schema, next: Schema, before: Option<map<Path, V>>, after: Option<map<Path, V>>)
    requires Moves(m, hub, next)
  {
    && (before.None? <==> after.None?)
    && (before.Some? ==> before.value.Keys <= hub.leaves.Keys && after.value == Relocate(m, before.value))
  }

  ghost function HubObject<V>(run: Values<V>, c: Config, schemas: Schemas, obj: map<Path, V>, from: string): Option<map<Path, V>> {
    if from == c.hub then Some(obj) else ToHub(run, c, schemas, obj, from)
  }

  lemma PromotedSpokeFacts(c: Config, schemas: Schemas, p: SpokeRules)
    requires ValidConfig(c, schemas) && p in c.spokes && PromotableSpoke(c, schemas, p)
    ensures c.hub in schemas && p.version in schemas && p.version != c.hub
    ensures PairRules(p.rules, schemas[c.hub], schemas[p.version])
    ensures Pairing(Ties(p.rules, schemas[c.hub], schemas[p.version]), schemas[c.hub], schemas[p.version])
    ensures SpokeTies(c, schemas, p.version) == Some(Ties(p.rules, schemas[c.hub], schemas[p.version]))
    ensures Promote(c, schemas, p.version).Success? && Promote(c, schemas, p.version).value.hub == p.version
    ensures PathMapFrom(p.rules, 0, map[]).Success?
    ensures RenamesAlong(Ties(p.rules, schemas[c.hub], schemas[p.version]), PathMapFrom(p.rules, 0, map[]).value)
    ensures Moves(PathMapFrom(p.rules, 0, map[]).value, schemas[c.hub], schemas[p.version])
  {
    OneVersionEach(c, schemas, p);
    RehubSucceeds(c, schemas, p);
    PromotionFacts(c, schemas, p);
  }

  /** Converting to the hub, before and after: the same object, relocated. */
  lemma ToHubRelocates<V(!new)>(run: Values<V>, c: Config, schemas: Schemas, p: SpokeRules, obj: map<Path, V>, from: string)
    requires ValidConfig(c, schemas) && p in c.spokes && PromotableSpoke(c, schemas, p)
    requires ObjectOf(schemas, from, obj)
    requires Promote(c, schemas, p.version).Success? && PathMapFrom(p.rules, 0, map[]).Success?
    requires Moves(PathMapFrom(p.rules, 0, map[]).value, schemas[c.hub], schemas[p.version])
    ensures Relocated(PathMapFrom(p.rules, 0, map[]).value, schemas[c.hub], schemas[p.version],
                      HubObject(run, c, schemas, obj, from), HubObject(run, Promote(c, schemas, p.version).value, schemas, obj, from))
  {
    hide Push, Up, Down, ValidConfig, PromotableSpoke, Promote, RenamesAlong, Pairing, Moves, PathMapFrom, Ties, SpokeTies, PairRules, Carried, Relocate;
    PromotedSpokeFacts(c, schemas, p);
    var m := PathMapFrom(p.rules, 0, map[]).value;
    var d := Promote(c, schemas, p.version).value;
    var hub, next := schemas[c.hub], schemas[p.version];
    var promoted := Ties(p.rules, hub, next);
    if from == p.version {
      PromotedUp(run, promoted, m, hub, next, obj);
    } else {
      NewTies(c, schemas, p, from);
      if from == c.hub {
        PairingParts(promoted, hub, next);
        FlippedPushes(run, promoted, SpokeTies(d, schemas, from).value, hub, next, obj);
        PromotedDown(run, promoted, m, hub, next, obj);
      } else if SpokeTies(c, schemas, from).Some? {
        PairingParts(SpokeTies(c, schemas, from).value, hub, schemas[from]);
        CarryUp(run, SpokeTies(c, schemas, from).value, SpokeTies(d, schemas, from).value, m, hub, next, schemas[from], obj);
      }
    }
  }

  lemma PairingParts(ties: seq<Tie>, hub: Schema, spoke: Schema)
    requires Pairing(ties, hub, spoke)
    ensures Inside(ties, hub, spoke) && OneEach(ties)
  {
  }

  /** Converting from the hub, before and after: the same result. */
  lemma FromHubAgrees<V(!new)>(run: Values<V>, c: Config, schemas: Schemas, p: SpokeRules, o: map<Path, V>, to: string)
    requires ValidConfig(c, schemas) && p in c.spokes && PromotableSpoke(c, schemas, p)
    requires o.Keys <= schemas[c.hub].leaves.Keys
    requires Promote(c, schemas, p.version).Success? && PathMapFrom(p.rules, 0, map[]).Success?
    requires Moves(PathMapFrom(p.rules, 0, map[]).value, schemas[c.hub], schemas[p.version])
    ensures var d := Promote(c, schemas, p.version).value; var m := PathMapFrom(p.rules, 0, map[]).value;
            (if to == c.hub then Some(o) else FromHub(run, c, schemas, o, to)) ==
            (if to == d.hub then Some(Relocate(m, o)) else FromHub(run, d, schemas, Relocate(m, o), to))
  {
    hide Push, Up, Down, ValidConfig, PromotableSpoke, Promote, RenamesAlong, Pairing, PathMapFrom, Ties, SpokeTies, PairRules, Carried;
    PromotedSpokeFacts(c, schemas, p);
    var m := PathMapFrom(p.rules, 0, map[]).value;
    var d := Promote(c, schemas, p.version).value;
    var hub, next := schemas[c.hub], schemas[p.version];
    var promoted := Ties(p.rules, hub, next);
    if to == p.version {
      PromotedDown(run, promoted, m, hub, next, o);
    } else {
      NewTies(c, schemas, p, to);
      if to == c.hub {
        PairingParts(promoted, hub, next);
        FlippedPushes(run, promoted, SpokeTies(d, schemas, to).value, hub, next, Relocate(m, o));
        PromotedRoundTrip(run, promoted, m, hub, next, o);
      } else if SpokeTies(c, schemas, to).Some? {
        PairingParts(SpokeTies(c, schemas, to).value, hub, schemas[to]);
        CarryDown(run, SpokeTies(c, schemas, to).value, SpokeTies(d, schemas, to).value, m, hub, next, schemas[to], o);
      }
    }
  }

  /** Promoting a version changes no conversion: for every pair of versions, both
      hubs included, and every object, the rehubbed config converts it to exactly
      what the original did, failures included. */
  lemma RehubPreservesConversions<V(!new)>(run: Values<V>, c: Config, schemas: Schemas, newHub: string,
                                           obj: map<Path, V>, from: string, to: string)
    requires ValidConfig(c, schemas) && Promotable(c, schemas, newHub)
    requires ObjectOf(schemas, from, obj)
    ensures Promote(c, schemas, newHub).Success?
    ensures Route(run, Promote(c, schemas, newHub).value, schemas, obj, from, to) == Route(run, c, schemas, obj, from, to)
  {
    var p :| p in c.spokes && p.version == newHub && PromotableSpoke(c, schemas, p);
    RehubSucceeds(c, schemas, p);
    PromotionFacts(c, schemas, p);
    if from != to {
      ToHubRelocates(run, c, schemas, p, obj, from);
      var before := HubObject(run, c, schemas, obj, from);
      if before.Some? {
        FromHubAgrees(run, c, schemas, p, before.value, to);
      }
    }
  }

  // ---- Promoting back ----

  lemma ShapesKeptBack(c: Config, schemas: Schemas, p: SpokeRules, inverted: seq<Rule>)
    requires ValidConfig(c, schemas) && p in c.spokes && PromotableSpoke(c, schemas, p)
    requires InvertFrom(p.rules, 0) == Success(inverted)
    ensures PlainRenames(inverted) && ShapesKept(inverted, schemas[p.version], schemas[c.hub])
  {
    OldHubInverted(c, schemas, p);
    var hub, next := schemas[c.hub], schemas[p.version];
    forall t | t in Ties(inverted, next, hub)
      ensures t.hub in next.leaves && t.spoke in hub.leaves && next.leaves[t.hub] == hub.leaves[t.spoke]
    {
      assert Flip(t) in Ties(p.rules, hub, next);
    }
  }

  /** A path by which a rule of a recomposed spoke names both sides is one the promotion
      left in place. */
  lemma FixedPathsStay(c: Config, schemas: Schemas, p: SpokeRules, s: SpokeRules, out: seq<Rule>, r: Rule, x: Path)
    requires ValidConfig(c, schemas) && p in c.spokes && PromotableSpoke(c, schemas, p)
    requires s in c.spokes && s != p
    requires PathMapFrom(p.rules, 0, map[]).Success?
    requires Compose(s.rules, PathMapFrom(p.rules, 0, map[]).value, schemas[s.version].leaves.Keys) == Success(out)
    requires r in out && x in FixedPaths(r)
    ensures x in schemas[c.hub].leaves
    ensures MapPath(PathMapFrom(p.rules, 0, map[]).value, x) == x
  {
    hide PathMapFrom, Moves, Compose, Ties, CompileBody;
    PromotionFacts(c, schemas, p);
    var m := PathMapFrom(p.rules, 0, map[]).value;
    var hub, next, spoke := schemas[c.hub], schemas[p.version], schemas[s.version];
    OwnTiesCover(s.rules, hub, spoke);
    ComposedRules(s.rules, m, hub, next, spoke);
    assert ComposedOf(s.rules, m, RuleTies(s.rules, hub, spoke), spoke, r);
    var q :| q in s.rules && RewriteHubPaths(q, m) == Success(r);
    assert FixedKept(q, m);
    RewrittenFixed(q, m, r);
    RuleTieOfRule(s.rules, hub, spoke, q);
    FixedPathDeclared(q, hub, spoke, x);
  }

  lemma RewrittenFixed(q: Rule, m: PathMap, r: Rule)
    requires RewriteHubPaths(q, m) == Success(r) && FixedKept(q, m)
    ensures FixedPaths(r) == FixedPaths(q)
  {
    assert SinglePath(q.body) ==> q.body.path in FixedPaths(q);
    RewrittenSingle(q.body, m);
  }

  lemma RewrittenSingle(b: Body, m: PathMap)
    requires RewriteBody(b, m).Success?
    ensures SinglePath(RewriteBody(b, m).value) == SinglePath(b)
    ensures SinglePath(b) ==> RewriteBody(b, m).value.path == MapPath(m, b.path)
  {
  }

  lemma FixedPathDeclared(q: Rule, hub: Schema, spoke: Schema, x: Path)
    requires PairRule(q, hub, spoke) && TieInside(TieOf(q, hub, spoke), hub, spoke) && x in FixedPaths(q)
    ensures x in hub.leaves
  {
    if SinglePath(q.body) {
      PairBodies(q.body, hub, spoke);
    }
  }

  lemma InvertedRulesOf(rules: seq<Rule>, inverted: seq<Rule>, q: Rule)
    requires PlainRenames(rules) && InvertFrom(rules, 0) == Success(inverted) && q in inverted
    ensures q.body.FieldRename?
    ensures exists r :: r in rules && r.body == FieldRename(q.body.spoke, q.body.hub)
  {
    var i :| 0 <= i < |inverted| && inverted[i] == q;
    assert InvertRule(rules[i]) == Success(inverted[i]);
    assert rules[i] in rules;
    InvertedRename(rules[i]);
  }

  lemma MappedMoves(c: Config, schemas: Schemas, p: SpokeRules, h: Path)
    requires ValidConfig(c, schemas) && p in c.spokes && PromotableSpoke(c, schemas, p)
    requires PathMapFrom(p.rules, 0, map[]).Success? && h in PathMapFrom(p.rules, 0, map[]).value
    ensures var m := PathMapFrom(p.rules, 0, map[]).value; MapPath(m, h) == m[h]
  {
    PromotionFacts(c, schemas, p);
  }

  lemma FixedPathsKeptBack(c: Config, schemas: Schemas, p: SpokeRules, t: SpokeRules, r: Rule, q: Rule)
    requires ValidConfig(c, schemas) && p in c.spokes && PromotableSpoke(c, schemas, p)
    requires Rebuilt(c, schemas, p, t) && t.version != c.hub
    requires r in t.rules
    requires InvertFrom(p.rules, 0).Success? && q in InvertFrom(p.rules, 0).value
    ensures q.body.FieldRename? && (q.body.hub in FixedPaths(r) ==> q.body.spoke == q.body.hub)
  {
    hide ValidConfig, Promote, PathMapFrom, Ties, Moves, CompileRule, Compose, Pairing, InvertFrom, FixedPaths;
    PromotionFacts(c, schemas, p);
    var m := PathMapFrom(p.rules, 0, map[]).value;
    var s :| s in c.spokes && s != p && s.version == t.version &&
             Compose(s.rules, m, schemas[t.version].leaves.Keys) == Success(t.rules);
    InvertedRulesOf(p.rules, InvertFrom(p.rules, 0).value, q);
    PlainRenamePairs(p.rules, q.body.spoke, q.body.hub);
    PathMapSucceedsExactly(p.rules);
    assert Maps(m, q.body.spoke, q.body.hub);
    MappedMoves(c, schemas, p, q.body.spoke);
    assert MapPath(m, q.body.spoke) == q.body.hub;
    if q.body.hub in FixedPaths(r) {
      FixedPathsStay(c, schemas, p, s, t.rules, r, q.body.hub);
      HubLeafOf(c, schemas, p, q.body.spoke, q.body.hub);
    }
  }

  /** Nothing else lands on a leaf that stayed put. */
  lemma HubLeafOf(c: Config, schemas: Schemas, p: SpokeRules, h: Path, x: Path)
    requires ValidConfig(c, schemas) && p in c.spokes && PromotableSpoke(c, schemas, p)
    requires PathMapFrom(p.rules, 0, map[]).Success?
    requires var m := PathMapFrom(p.rules, 0, map[]).value; h in m && MapPath(m, h) == x && MapPath(m, x) == x
    requires x in schemas[c.hub].leaves
    ensures h == x
  {
    PromotionFacts(c, schemas, p);
  }

  /** The old hub can be promoted back, so a promotion can always be undone. */
  lemma PromotableBack(c: Config, schemas: Schemas, newHub: string)
    requires ValidConfig(c, schemas) && Promotable(c, schemas, newHub)
    ensures Promote(c, schemas, newHub).Success?
    ensures ValidConfig(Promote(c, schemas, newHub).value, schemas)
    ensures Promotable(Promote(c, schemas, newHub).value, schemas, c.hub)
  {
    var p :| p in c.spokes && p.version == newHub && PromotableSpoke(c, schemas, p);
    RehubSucceeds(c, schemas, p);
    RehubKeepsValid(c, schemas, p);
    OldHubInverted(c, schemas, p);
    var d := Promote(c, schemas, newHub).value;
    var back :| back in d.spokes && back.version == c.hub;
    assert Rebuilt(c, schemas, p, back);
    ShapesKeptBack(c, schemas, p, back.rules);
    forall t, r, q | t in d.spokes && t != back && r in t.rules && q in back.rules && q.body.hub in FixedPaths(r)
      ensures q.body.spoke == q.body.hub
    {
      assert Rebuilt(c, schemas, p, t);
      FixedPathsKeptBack(c, schemas, p, t, r, q);
    }
    assert PromotableSpoke(d, schemas, back);
  }

  /** Promoting a version and then the old hub again preserves every conversion too. */
  lemma RehubBackPreservesConversions<V(!new)>(run: Values<V>, c: Config, schemas: Schemas, newHub: string,
                                               obj: map<Path, V>, from: string, to: string)
    requires ValidConfig(c, schemas) && Promotable(c, schemas, newHub)
    requires ObjectOf(schemas, from, obj)
    ensures Promote(c, schemas, newHub).Success?
    ensures Promote(Promote(c, schemas, newHub).value, schemas, c.hub).Success?
    ensures Route(run, Promote(Promote(c, schemas, newHub).value, schemas, c.hub).value, schemas, obj, from, to)
            == Route(run, c, schemas, obj, from, to)
  {
    PromotableBack(c, schemas, newHub);
    RehubPreservesConversions(run, c, schemas, newHub, obj, from, to);
    RehubPreservesConversions(run, Promote(c, schemas, newHub).value, schemas, c.hub, obj, from, to);
  }
}
