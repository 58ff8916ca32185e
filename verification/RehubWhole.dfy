/** pkg/engine/passthrough.go: a field neither schema of a hop declares is copied as it is.
    What a promotion does to whole objects, undeclared fields included. */
module RehubWhole {
  import opened Wrappers
  import opened Rules
  import opened Engine
  import opened Conversion
  import opened RehubMeaning
  import opened RehubTheorem

  function LeavesAt(schemas: Schemas, v: string): set<Path> {
    if v in schemas then schemas[v].leaves.Keys else {}
  }

  /** The fields of obj outside the known ones. */
  function Unknown<V>(obj: map<Path, V>, known: set<Path>): map<Path, V> {
    map p | p in obj && p !in known :: obj[p]
  }

  function Declared<V>(obj: map<Path, V>, known: set<Path>): map<Path, V> {
    map p | p in obj && p in known :: obj[p]
  }

  /** One hop: the plan's operations, then the passthrough of what neither side declares. */
  function Hop<V>(run: Values<V>, arrows: seq<Arrow>, known: set<Path>, obj: map<Path, V>): Option<map<Path, V>> {
    match Push(run, arrows, obj)
    case None => None
    case Some(out) => Some(out + Unknown(obj, known))
  }

  ghost function ToHubWhole<V>(run: Values<V>, c: Config, schemas: Schemas, obj: map<Path, V>, from: string): Option<map<Path, V>> {
    match SpokeTies(c, schemas, from)
    case None => None
    case Some(ties) => Hop(run, Up(ties), LeavesAt(schemas, c.hub) + LeavesAt(schemas, from), obj)
  }

  ghost function FromHubWhole<V>(run: Values<V>, c: Config, schemas: Schemas, obj: map<Path, V>, to: string): Option<map<Path, V>> {
    match SpokeTies(c, schemas, to)
    case None => None
    case Some(ties) => Hop(run, Down(ties), LeavesAt(schemas, c.hub) + LeavesAt(schemas, to), obj)
  }

  ghost function RouteWhole<V>(run: Values<V>, c: Config, schemas: Schemas, obj: map<Path, V>, from: string, to: string): Option<map<Path, V>> {
    if from == to then Some(obj)
    else
      match (if from == c.hub then Some(obj) else ToHubWhole(run, c, schemas, obj, from))
      case None => None
      case Some(hubObj) => if to == c.hub then Some(hubObj) else FromHubWhole(run, c, schemas, hubObj, to)
  }

  // ---- The operations neither read nor write an undeclared field ----

  lemma {:induction false} ExecSame<V>(run: Values<V>, arrows: seq<Arrow>, x: map<Path, V>, y: map<Path, V>, out: map<Path, V>)
    requires forall a :: a in arrows ==> Fire(run, a, x) == Fire(run, a, y)
    ensures Exec(run, arrows, x, out) == Exec(run, arrows, y, out)
    decreases |arrows|
  {
    hide Fire;
    if arrows == [] {
    } else {
      assert arrows[0] in arrows;
      match Fire(run, arrows[0], x)
      case Failed =>
      case Skipped => ExecSame(run, arrows[1..], x, y, out);
      case Wrote(v) => ExecSame(run, arrows[1..], x, y, out[arrows[0].dst := v]);
    }
  }

  lemma {:induction false} ExecWrites<V>(run: Values<V>, arrows: seq<Arrow>, obj: map<Path, V>, out: map<Path, V>, known: set<Path>)
    requires out.Keys <= known && forall a :: a in arrows && !a.act.Omit? ==> a.dst in known
    ensures var r := Exec(run, arrows, obj, out); r.Some? ==> r.value.Keys <= known
    decreases |arrows|
  {
    hide Fire;
    if arrows == [] {
    } else {
      assert arrows[0] in arrows;
      OmitWritesNothing(run, arrows[0], obj);
      match Fire(run, arrows[0], obj)
      case Failed =>
      case Skipped => ExecWrites(run, arrows[1..], obj, out, known);
      case Wrote(v) => ExecWrites(run, arrows[1..], obj, out[arrows[0].dst := v], known);
    }
  }

  /** What matters of an object on its way up, and where the result lies. */
  lemma UpDeclared<V>(run: Values<V>, ties: seq<Tie>, hub: Schema, spoke: Schema, obj: map<Path, V>)
    requires Inside(ties, hub, spoke)
    ensures Push(run, Up(ties), obj) == Push(run, Up(ties), Declared(obj, spoke.leaves.Keys))
    ensures Push(run, Up(ties), obj).Some? ==> Push(run, Up(ties), obj).value.Keys <= hub.leaves.Keys
  {
    hide Fire, Exec;
    var less := Declared(obj, spoke.leaves.Keys);
    forall a | a in Up(ties) ensures Fire(run, a, obj) == Fire(run, a, less) && (!a.act.Omit? ==> a.dst in hub.leaves) {
      UpMembers(ties, a);
      var t :| t in ties && a == UpArrow(t);
      assert TieInside(t, hub, spoke);
      SameFire(run, a, obj, a, less);
    }
    ExecSame(run, Up(ties), obj, less, map[]);
    ExecWrites(run, Up(ties), obj, map[], hub.leaves.Keys);
  }

  lemma DownDeclared<V>(run: Values<V>, ties: seq<Tie>, hub: Schema, spoke: Schema, obj: map<Path, V>)
    requires Inside(ties, hub, spoke)
    ensures Push(run, Down(ties), obj) == Push(run, Down(ties), Declared(obj, hub.leaves.Keys))
    ensures Push(run, Down(ties), obj).Some? ==> Push(run, Down(ties), obj).value.Keys <= spoke.leaves.Keys
  {
    hide Fire, Exec;
    var less := Declared(obj, hub.leaves.Keys);
    forall a | a in Down(ties) ensures Fire(run, a, obj) == Fire(run, a, less) && (!a.act.Omit? ==> a.dst in spoke.leaves) {
      DownMembers(ties, a);
      var t :| t in ties && a == DownArrow(t);
      assert TieInside(t, hub, spoke);
      SameFire(run, a, obj, a, less);
    }
    ExecSame(run, Down(ties), obj, less, map[]);
    ExecWrites(run, Down(ties), obj, map[], spoke.leaves.Keys);
  }

  lemma SpokeTiesInside(c: Config, schemas: Schemas, v: string)
    requires SpokeTies(c, schemas, v).Some?
    ensures c.hub in schemas && v in schemas
    ensures Inside(SpokeTies(c, schemas, v).value, schemas[c.hub], schemas[v])
  {
  }

  // ---- Whole objects, hop by hop ----

  lemma ToHubIs<V>(run: Values<V>, c: Config, schemas: Schemas, obj: map<Path, V>, from: string)
    ensures var part := ToHub(run, c, schemas, Declared(obj, LeavesAt(schemas, from)), from);
      var whole := ToHubWhole(run, c, schemas, obj, from);
      && (whole.None? <==> part.None?)
      && (part.Some? ==> part.value.Keys <= LeavesAt(schemas, c.hub))
      && (part.Some? ==> whole.value == part.value + Unknown(obj, LeavesAt(schemas, c.hub) + LeavesAt(schemas, from)))
  {
    hide Push;
    if SpokeTies(c, schemas, from).Some? {
      SpokeTiesInside(c, schemas, from);
      UpDeclared(run, SpokeTies(c, schemas, from).value, schemas[c.hub], schemas[from], obj);
    }
  }

  lemma FromHubIs<V>(run: Values<V>, c: Config, schemas: Schemas, obj: map<Path, V>, to: string)
    ensures var part := FromHub(run, c, schemas, Declared(obj, LeavesAt(schemas, c.hub)), to);
      var whole := FromHubWhole(run, c, schemas, obj, to);
      && (whole.None? <==> part.None?)
      && (part.Some? ==> part.value.Keys <= LeavesAt(schemas, to))
      && (part.Some? ==> whole.value == part.value + Unknown(obj, LeavesAt(schemas, c.hub) + LeavesAt(schemas, to)))
  {
    hide Push;
    if SpokeTies(c, schemas, to).Some? {
      SpokeTiesInside(c, schemas, to);
      DownDeclared(run, SpokeTies(c, schemas, to).value, schemas[c.hub], schemas[to], obj);
    }
  }

  /** The versions an object passes through declare these fields between them. */
  function KnownOnTheWay(schemas: Schemas, hub: string, from: string, to: string): set<Path> {
    LeavesAt(schemas, from) + LeavesAt(schemas, hub) + LeavesAt(schemas, to)
  }

  /** What the second hop sees of the first one's output. */
  lemma SecondHop<V>(part: map<Path, V>, obj: map<Path, V>, from: set<Path>, hub: set<Path>, to: set<Path>)
    requires part.Keys <= hub
    ensures var whole := part + Unknown(obj, hub + from);
      Declared(whole, hub) == part && Unknown(whole, hub + to) == Unknown(obj, from + hub + to)
  {
  }

  /** A whole object converts like its declared part, and its other fields come through
      when no version on the way declares them. */
  lemma RouteWholeIs<V>(run: Values<V>, c: Config, schemas: Schemas, obj: map<Path, V>, from: string, to: string)
    requires from != to
    ensures var part := Route(run, c, schemas, Declared(obj, LeavesAt(schemas, from)), from, to);
      var whole := RouteWhole(run, c, schemas, obj, from, to);
      && (whole.None? <==> part.None?)
      && (part.Some? ==> part.value.Keys <= LeavesAt(schemas, to))
      && (part.Some? ==> whole.value == part.value + Unknown(obj, KnownOnTheWay(schemas, c.hub, from, to)))
  {
    hide ToHub, FromHub, ToHubWhole, FromHubWhole, Unknown, LeavesAt;
    var own := Declared(obj, LeavesAt(schemas, from));
    if from == c.hub {
      FromHubIs(run, c, schemas, obj, to);
      assert KnownOnTheWay(schemas, c.hub, from, to) == LeavesAt(schemas, c.hub) + LeavesAt(schemas, to);
    } else {
      ToHubIs(run, c, schemas, obj, from);
      assert to == c.hub ==> KnownOnTheWay(schemas, c.hub, from, to) == LeavesAt(schemas, c.hub) + LeavesAt(schemas, from);
      var part, whole := ToHub(run, c, schemas, own, from), ToHubWhole(run, c, schemas, obj, from);
      if part.Some? && to != c.hub {
        FromHubIs(run, c, schemas, whole.value, to);
        SecondHop(part.value, obj, LeavesAt(schemas, from), LeavesAt(schemas, c.hub), LeavesAt(schemas, to));
      }
    }
  }

  // ---- Promotion ----

  /** Every field of obj that neither end of the conversion declares is declared by both
      hubs or by neither. */
  predicate HubsAgreeOn<V>(obj: map<Path, V>, schemas: Schemas, oldHub: string, newHub: string, from: string, to: string) {
    forall p :: p in obj && p !in LeavesAt(schemas, from) && p !in LeavesAt(schemas, to) ==>
      (p in LeavesAt(schemas, oldHub) <==> p in LeavesAt(schemas, newHub))
  }

  lemma UnknownAgree<V>(r: map<Path, V>, obj: map<Path, V>, schemas: Schemas, oldHub: string, newHub: string, from: string, to: string)
    requires r.Keys <= LeavesAt(schemas, to)
    ensures r + Unknown(obj, KnownOnTheWay(schemas, oldHub, from, to)) == r + Unknown(obj, KnownOnTheWay(schemas, newHub, from, to))
      <==> HubsAgreeOn(obj, schemas, oldHub, newHub, from, to)
  {
    var x, y := Unknown(obj, KnownOnTheWay(schemas, oldHub, from, to)), Unknown(obj, KnownOnTheWay(schemas, newHub, from, to));
    if HubsAgreeOn(obj, schemas, oldHub, newHub, from, to) {
      assert x == y;
    } else {
      var p :| p in obj && p !in LeavesAt(schemas, from) && p !in LeavesAt(schemas, to) &&
        !(p in LeavesAt(schemas, oldHub) <==> p in LeavesAt(schemas, newHub));
      assert p in r + x <==> p !in LeavesAt(schemas, oldHub);
      assert p in r + y <==> p !in LeavesAt(schemas, newHub);
    }
  }

  /** Exactly when promoting changes nothing for an object with fields its version does
      not declare: none of them is the name of a field the promotion moved, unless the
      version converted to declares it too. */
  lemma RehubPreservesWholeObjects<V(!new)>(run: Values<V>, c: Config, schemas: Schemas, newHub: string,
                                            obj: map<Path, V>, from: string, to: string)
    requires ValidConfig(c, schemas) && Promotable(c, schemas, newHub)
    ensures Promote(c, schemas, newHub).Success?
    ensures RouteWhole(run, Promote(c, schemas, newHub).value, schemas, obj, from, to) == RouteWhole(run, c, schemas, obj, from, to)
      <==> from == to || RouteWhole(run, c, schemas, obj, from, to).None? || HubsAgreeOn(obj, schemas, c.hub, newHub, from, to)
  {
    hide ValidConfig, Promotable, Promote, Route, RouteWhole, HubsAgreeOn, KnownOnTheWay, Unknown;
    var own := Declared(obj, LeavesAt(schemas, from));
    RehubPreservesConversions(run, c, schemas, newHub, own, from, to);
    PromotedHub(c, schemas, newHub);
    var d := Promote(c, schemas, newHub).value;
    if from == to {
      SameVersion(run, c, schemas, obj, from);
      SameVersion(run, d, schemas, obj, from);
    } else {
      RouteWholeIs(run, c, schemas, obj, from, to);
      RouteWholeIs(run, d, schemas, obj, from, to);
      var part := Route(run, c, schemas, own, from, to);
      if part.Some? {
        UnknownAgree(part.value, obj, schemas, c.hub, newHub, from, to);
      }
    }
  }

  lemma SameVersion<V>(run: Values<V>, c: Config, schemas: Schemas, obj: map<Path, V>, v: string)
    ensures RouteWhole(run, c, schemas, obj, v, v) == Some(obj)
  {
  }

  lemma PromotedHub(c: Config, schemas: Schemas, newHub: string)
    requires ValidConfig(c, schemas) && Promotable(c, schemas, newHub)
    ensures Promote(c, schemas, newHub).Success? && Promote(c, schemas, newHub).value.hub == newHub
  {
    var p :| p in c.spokes && p.version == newHub && PromotableSpoke(c, schemas, p);
    PromotedSpokeFacts(c, schemas, p);
  }
}
