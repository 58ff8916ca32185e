/** A config that meets the hypotheses of the promotion theorems, and configs on which a
    promotion changes a conversion: a guard on a moved field, a rule on a moved field that
    names both sides by one path, a promoted rule that changes values, nested rules on a
    moved item field, and an undeclared field named like a moved one. */
module RehubExamples {
  import opened Wrappers
  import opened Ordering
  import opened Rules
  import opened Invert
  import opened Engine
  import opened HubPaths
  import opened Rehub
  import opened Conversion
  import opened RehubMeaning
  import opened RehubTheorem
  import opened RehubExactly
  import opened RehubWhole

  /** Values are strings; every value operation keeps the value. */
  const PLAIN: Values<string> := Values((fn: ValueOp, v: string) => Wrote(v), (raw: Raw) => raw, (v: string, raw: Raw) => v == raw)

  const TEXT := Leaf(KString, false, "", KUnknown, Schema(map[]))

  const XY := Schema(map["x" := TEXT, "y" := TEXT])

  const VERSIONS: Schemas := map["v1" := XY, "v2" := XY, "v3" := XY]

  /** Move x, but only while y is on. */
  const ONLY_WHILE_ON := Rule(FieldRename("x", "x"), false, "", Some(When("y", "on")))

  lemma SortedXY()
    ensures SortedKeys({"x", "y"}) == ["x", "y"] && SortedKeys({}) == []
  {
    var s := ["x", "y"];
    assert Less(s[0], s[1]);
    assert StrictlySorted(s);
    SortedUnique(SortedKeys({"x", "y"}), s);
  }

  lemma NamesDiffer()
    ensures "x" != "y" && "v1" != "v2" && "v1" != "v3" && "v2" != "v3"
  {
    assert "x"[0] != "y"[0] && "v1"[1] != "v2"[1] && "v1"[1] != "v3"[1] && "v2"[1] != "v3"[1];
  }

  // ---- Two ties over the same two fields ----

  ghost predicate Covering(a: Tie, b: Tie) {
    && TieInside(a, XY, XY) && TieInside(b, XY, XY)
    && ((a.hub == "x" && b.hub == "y") || (a.hub == "y" && b.hub == "x"))
    && ((a.spoke == "x" && b.spoke == "y") || (a.spoke == "y" && b.spoke == "x"))
  }

  lemma CoveringPairs(a: Tie, b: Tie)
    requires Covering(a, b)
    ensures Pairing([a, b], XY, XY)
  {
    NamesDiffer();
    var ties := [a, b];
    assert ties[0] == a && ties[1] == b;
    assert forall t :: t in ties <==> t == a || t == b;
  }

  /** Two rules that between them cover both fields compile to their own two ties. */
  lemma TwoRules(r: Rule, q: Rule)
    requires PairRule(r, XY, XY) && PairRule(q, XY, XY)
    requires Covering(TieOf(r, XY, XY), TieOf(q, XY, XY))
    ensures Compiles([r, q], XY, XY)
    ensures Ties([r, q], XY, XY) == [TieOf(r, XY, XY), TieOf(q, XY, XY)]
  {
    hide TieOf, PairRule, TieInside;
    var a, b := TieOf(r, XY, XY), TieOf(q, XY, XY);
    var own := RuleTies([r, q], XY, XY);
    assert own == [a, b];
    NoneAuto(own, a, b);
    SortedXY();
    assert Ties([r, q], XY, XY) == [a, b];
    CoveringPairs(a, b);
    assert PairRules([r, q], XY, XY);
  }

  lemma NoneAuto(own: seq<Tie>, a: Tie, b: Tie)
    requires own == [a, b] && Covering(a, b)
    ensures AutoCovered(own, XY, XY) == {}
  {
    hide TieInside;
    assert own[0] == a && own[1] == b;
    assert ClaimsHub(own, "x") && ClaimsHub(own, "y");
  }

  /** One rule on x leaves y auto-covered. */
  lemma OneRule(r: Rule)
    requires PairRule(r, XY, XY) && TieInside(TieOf(r, XY, XY), XY, XY)
    requires TieOf(r, XY, XY).hub == "x" && TieOf(r, XY, XY).spoke == "x"
    ensures Compiles([r], XY, XY)
    ensures Ties([r], XY, XY) == [TieOf(r, XY, XY), CopyTie("y", "y")]
  {
    NamesDiffer();
    var a := TieOf(r, XY, XY);
    var own := RuleTies([r], XY, XY);
    assert own == [a] && own[0] == a;
    assert AutoCovered(own, XY, XY) == {"y"} by {
      assert ClaimsHub(own, "x");
    }
    SortedOne("y");
    assert CopyTies(["y"]) == [CopyTie("y", "y")];
    assert Ties([r], XY, XY) == [a, CopyTie("y", "y")];
    CoveringPairs(a, CopyTie("y", "y"));
  }

  lemma SortedOne(k: string)
    ensures SortedKeys({k}) == [k]
  {
    var keys := SortedKeys({k});
    assert |keys| == 1 && keys[0] in keys;
  }

  lemma ExecOne(b: Arrow, obj: map<Path, string>, out: map<Path, string>)
    ensures Exec(PLAIN, [b], obj, out) ==
      match Fire(PLAIN, b, obj) case Failed => None case Skipped => Some(out) case Wrote(w) => Some(out[b.dst := w])
  {
    hide Fire;
    assert [b][0] == b && [b][1..] == [];
    assert forall o :: Exec(PLAIN, [], obj, o) == Some(o);
  }

  lemma PushTwo(a: Arrow, b: Arrow, obj: map<Path, string>)
    ensures Push(PLAIN, [a, b], obj) ==
      match Fire(PLAIN, a, obj)
      case Failed => None
      case Skipped =>
        (match Fire(PLAIN, b, obj) case Failed => None case Skipped => Some(map[]) case Wrote(w) => Some(map[b.dst := w]))
      case Wrote(v) =>
        (match Fire(PLAIN, b, obj) case Failed => None case Skipped => Some(map[a.dst := v]) case Wrote(w) => Some(map[a.dst := v][b.dst := w]))
  {
    hide Fire;
    assert [a, b][0] == a && [a, b][1..] == [b];
    ExecOne(b, obj, map[]);
    if Fire(PLAIN, a, obj).Wrote? {
      ExecOne(b, obj, map[a.dst := Fire(PLAIN, a, obj).value]);
    }
  }

  // ---- Promoting v1 in a config of three versions ----

  function Three(schemas: Schemas, promoted: seq<Rule>, rules: seq<Rule>): Config {
    Config("v2", [SpokeRules("v1", promoted), SpokeRules("v3", rules)])
  }

  lemma ThreePromoted(schemas: Schemas, promoted: seq<Rule>, rules: seq<Rule>, inverted: seq<Rule>, m: PathMap, out: seq<Rule>)
    requires "v3" in schemas
    requires InvertFrom(promoted, 0) == Success(inverted) && PathMapFrom(promoted, 0, map[]) == Success(m)
    requires Compose(rules, m, schemas["v3"].leaves.Keys) == Success(out)
    ensures Promote(Three(schemas, promoted, rules), schemas, "v1") ==
      Success(Config("v1", [SpokeRules("v2", inverted), SpokeRules("v3", out)]))
  {
    hide InvertFrom, PathMapFrom, Compose;
    NamesDiffer();
    var a, b := SpokeRules("v1", promoted), SpokeRules("v3", rules);
    var spokes := [a, b];
    assert spokes[..1] == [a] && [a][..0] == [];
    assert Promoted([a], "v1") == Some(a) && Promoted(spokes, "v1") == Some(a);
    assert Others([], "v1") == [] && Others([a], "v1") == [] && Others(spokes, "v1") == [b];
    assert !HasVersion(spokes, "v2");
    assert LeavesOf(LeafSetsOf(schemas), "v3") == schemas["v3"].leaves.Keys;
    var leaves := LeafSetsOf(schemas);
    assert ComposeFrom([b], m, leaves, 1) == Success([]);
    PrependEnd([SpokeRules("v3", out)], ComposeFrom([b], m, leaves, 1));
    assert ComposeFrom([b], m, leaves, 0) == Success([SpokeRules("v3", out)]);
    assert [SpokeRules("v2", inverted)] + [SpokeRules("v3", out)] == [SpokeRules("v2", inverted), SpokeRules("v3", out)];
  }

  lemma ThreeTies(c: Config, schemas: Schemas, a: SpokeRules, b: SpokeRules)
    requires c.spokes == [a, b] && a.version != b.version
    ensures Promoted(c.spokes, a.version) == Some(a) && Promoted(c.spokes, b.version) == Some(b)
  {
    assert a in c.spokes && b in c.spokes;
    assert forall s :: s in c.spokes ==> s == a || s == b;
    PromotedIs(c.spokes, a);
    PromotedIs(c.spokes, b);
  }

  // ---- A promotable config with guarded and one-sided rules ----

  const MACHINES: Schemas := map[
    "v1" := Schema(map["sizeGB" := TEXT, "mode" := TEXT]),
    "v2" := Schema(map["size" := TEXT, "mode" := TEXT]),
    "v3" := Schema(map["size" := TEXT, "mode" := TEXT, "tier" := TEXT])]

  const SIZE_WHILE_ON := Rule(FieldRename("size", "size"), false, "", Some(When("mode", "on")))

  const BASIC_TIER := Rule(DefaultValue("tier", OnSpoke, "basic"), true, "the hub has no tiers", None)

  function Machines(): Config {
    Three(MACHINES, [PlainRename("size", "sizeGB")], [SIZE_WHILE_ON, BASIC_TIER])
  }

  lemma MachineNames()
    ensures "size" != "sizeGB" && "size" != "mode" && "sizeGB" != "mode" && "tier" != "size" && "tier" != "mode"
  {
    assert |"size"| != |"sizeGB"| && "size"[0] != "mode"[0] && "sizeGB"[0] != "mode"[0] && "tier"[0] != "size"[0] && "tier"[0] != "mode"[0];
  }

  lemma SizedTies()
    ensures PairRules([PlainRename("size", "sizeGB")], MACHINES["v2"], MACHINES["v1"])
    ensures Ties([PlainRename("size", "sizeGB")], MACHINES["v2"], MACHINES["v1"]) == [CopyTie("size", "sizeGB"), CopyTie("mode", "mode")]
  {
    NamesDiffer();
    MachineNames();
    var r, hub, spoke := PlainRename("size", "sizeGB"), MACHINES["v2"], MACHINES["v1"];
    RenameTie(r, hub, spoke);
    var own := RuleTies([r], hub, spoke);
    assert own == [CopyTie("size", "sizeGB")] && own[0] == CopyTie("size", "sizeGB");
    assert AutoCovered(own, hub, spoke) == {"mode"};
    SortedOne("mode");
    assert Ties([r], hub, spoke) == [CopyTie("size", "sizeGB"), CopyTie("mode", "mode")];
  }

  lemma SizedCompiles()
    ensures Compiles([PlainRename("size", "sizeGB")], MACHINES["v2"], MACHINES["v1"])
    ensures ShapesKept([PlainRename("size", "sizeGB")], MACHINES["v2"], MACHINES["v1"])
  {
    hide Ties, PairRules;
    NamesDiffer();
    MachineNames();
    SizedTies();
    var ties := Ties([PlainRename("size", "sizeGB")], MACHINES["v2"], MACHINES["v1"]);
    assert forall t :: t in ties <==> t == ties[0] || t == ties[1];
    assert ties[0] in ties && ties[1] in ties;
  }

  lemma TieredTies()
    ensures var hub, spoke := MACHINES["v2"], MACHINES["v3"]; var rules := [SIZE_WHILE_ON, BASIC_TIER];
      && PairRules(rules, hub, spoke)
      && Ties(rules, hub, spoke) == [
           Tie("size", "size", Convert(Copy), Convert(Copy), SIZE_WHILE_ON.when, SIZE_WHILE_ON.when),
           Tie("", "tier", Write("basic"), Omit, None, None),
           CopyTie("mode", "mode")]
  {
    NamesDiffer();
    MachineNames();
    var hub, spoke := MACHINES["v2"], MACHINES["v3"];
    var rules := [SIZE_WHILE_ON, BASIC_TIER];
    var a := Tie("size", "size", Convert(Copy), Convert(Copy), SIZE_WHILE_ON.when, SIZE_WHILE_ON.when);
    var b := Tie("", "tier", Write("basic"), Omit, None, None);
    assert TieOf(SIZE_WHILE_ON, hub, spoke) == a && TieOf(BASIC_TIER, hub, spoke) == b;
    var own := RuleTies(rules, hub, spoke);
    assert own == [a, b] && own[0] == a && own[1] == b;
    assert AutoCovered(own, hub, spoke) == {"mode"} by {
      assert ClaimsHub(own, "size");
    }
    SortedOne("mode");
    assert CopyTies(["mode"]) == [CopyTie("mode", "mode")];
    assert Ties(rules, hub, spoke) == [a, b, CopyTie("mode", "mode")];
  }

  lemma TieredCompiles()
    ensures Compiles([SIZE_WHILE_ON, BASIC_TIER], MACHINES["v2"], MACHINES["v3"])
  {
    hide Ties, PairRules;
    NamesDiffer();
    MachineNames();
    TieredTies();
    var ties := Ties([SIZE_WHILE_ON, BASIC_TIER], MACHINES["v2"], MACHINES["v3"]);
    assert forall t :: t in ties <==> t == ties[0] || t == ties[1] || t == ties[2];
    assert ties[0] in ties && ties[1] in ties && ties[2] in ties;
  }

  /** A renamed field in the promoted version, and a guarded rename, a default and an
      auto-covered field in another one. */
  lemma MachinesArePromotable()
    ensures ValidConfig(Machines(), MACHINES) && Promotable(Machines(), MACHINES, "v1")
  {
    hide Compiles, Ties, ShapesKept, PairRules;
    NamesDiffer();
    MachineNames();
    SizedCompiles();
    TieredCompiles();
    var c := Machines();
    assert forall s :: s in c.spokes ==> s == c.spokes[0] || s == c.spokes[1];
    assert PromotableSpoke(c, MACHINES, c.spokes[0]);
  }

  // ---- A guard on a moved field ----

  const SWAP: seq<Rule> := [PlainRename("x", "y"), PlainRename("y", "x")]
  const SWAP_BACK: seq<Rule> := [PlainRename("y", "x"), PlainRename("x", "y")]

  lemma SwapFacts()
    ensures InvertFrom(SWAP, 0) == Success(SWAP_BACK)
    ensures PathMapFrom(SWAP, 0, map[]) == Success(map["x" := "y", "y" := "x"])
  {
    NamesDiffer();
    assert InvertFrom(SWAP, 2) == Success([]);
    assert InvertRule(SWAP[1]) == Success(SWAP_BACK[1]) && InvertRule(SWAP[0]) == Success(SWAP_BACK[0]);
    PrependEnd([SWAP_BACK[1]], InvertFrom(SWAP, 2));
    assert InvertFrom(SWAP, 1) == Success([SWAP_BACK[1]]);
    assert [SWAP_BACK[0]] + [SWAP_BACK[1]] == SWAP_BACK;
    assert InvertFrom(SWAP, 0) == Success(SWAP_BACK);
    assert HubSpokePathPairs(SWAP[0].body) == Success([("x", "y")]) && HubSpokePathPairs(SWAP[1].body) == Success([("y", "x")]);
    assert [("x", "y")][1..] == [] && [("y", "x")][1..] == [];
    assert AddPairs(map[], [("x", "y")]) == Success(map["x" := "y"]);
    assert AddPairs(map["x" := "y"], [("y", "x")]) == Success(map["x" := "y", "y" := "x"]);
    assert PathMapFrom(SWAP, 1, map["x" := "y"]) == PathMapFrom(SWAP, 2, map["x" := "y", "y" := "x"]);
  }

  const MOVED_ONLY_WHILE_ON := Rule(FieldRename("y", "x"), false, "", Some(When("y", "on")))

  lemma RewriteOne(r: Rule, m: PathMap, out: Rule)
    requires RewriteHubPaths(r, m) == Success(out)
    ensures RewriteFrom([r], m, 0) == Success([out])
  {
    assert RewriteFrom([r], m, 1) == Success([]);
    PrependEnd([out], RewriteFrom([r], m, 1));
  }

  lemma ClaimedByOne(r: Rule)
    ensures ClaimedBy([r]) == SpokePathsOf(r.body)
  {
    assert [] + [r] == [r];
    ClaimedByAppend([], r);
  }

  lemma GuardedComposed()
    ensures Compose([ONLY_WHILE_ON], map["x" := "y", "y" := "x"], {"x", "y"}) == Success([MOVED_ONLY_WHILE_ON, PlainRename("x", "y")])
  {
    NamesDiffer();
    var m := map["x" := "y", "y" := "x"];
    assert RewriteHubPaths(ONLY_WHILE_ON, m) == Success(MOVED_ONLY_WHILE_ON);
    RewriteOne(ONLY_WHILE_ON, m, MOVED_ONLY_WHILE_ON);
    ClaimedByOne(MOVED_ONLY_WHILE_ON);
    SortedXY();
    assert m.Keys == {"x", "y"};
    assert ["x", "y"][1..] == ["y"] && ["y"][1..] == [];
    assert Lift(["y"], m, {"x", "y"}, {"x"}) == [PlainRename("x", "y")] + Lift([], m, {"x", "y"}, {"x", "y"});
    assert Lift(["y"], m, {"x", "y"}, {"x"}) == [PlainRename("x", "y")];
    assert Lift(["x", "y"], m, {"x", "y"}, {"x"}) == [PlainRename("x", "y")];
    assert [MOVED_ONLY_WHILE_ON] + [PlainRename("x", "y")] == [MOVED_ONLY_WHILE_ON, PlainRename("x", "y")];
  }

  lemma XYTies(h: Path, s: Path, w: Option<When>)
    requires h in {"x", "y"} && s in {"x", "y"} && (w.Some? ==> w.value.path in {"x", "y"})
    ensures var r := Rule(FieldRename(h, s), false, "", w);
      PairRule(r, XY, XY) && TieOf(r, XY, XY) == Tie(h, s, Convert(Copy), Convert(Copy), w, w) && TieInside(TieOf(r, XY, XY), XY, XY)
  {
    assert "x" != "" && "y" != "";
  }

  /** The config is valid, and its one rule on v3 names a moved field by its guard only. */
  lemma GuardedIsValid()
    ensures ValidConfig(Three(VERSIONS, SWAP, [ONLY_WHILE_ON]), VERSIONS)
  {
    hide Compiles, Ties;
    NamesDiffer();
    XYTies("x", "y", None);
    XYTies("y", "x", None);
    TwoRules(SWAP[0], SWAP[1]);
    XYTies("x", "x", ONLY_WHILE_ON.when);
    OneRule(ONLY_WHILE_ON);
    var c := Three(VERSIONS, SWAP, [ONLY_WHILE_ON]);
    assert forall s :: s in c.spokes ==> s == c.spokes[0] || s == c.spokes[1];
    assert SWAP == [SWAP[0], SWAP[1]];
  }

  const ON_OFF: map<Path, string> := map["x" := "on", "y" := "off"]

  /** Promoting v1 turns the guard, unrewritten, on the other field: v1 to v3 used to carry
      x along and now drops it. */
  lemma MovedGuardChangesConversion()
    ensures var c := Three(VERSIONS, SWAP, [ONLY_WHILE_ON]);
      && ValidConfig(c, VERSIONS)
      && Promote(c, VERSIONS, "v1").Success?
      && Route(PLAIN, c, VERSIONS, ON_OFF, "v1", "v3") == Some(map["x" := "off", "y" := "on"])
      && Route(PLAIN, Promote(c, VERSIONS, "v1").value, VERSIONS, ON_OFF, "v1", "v3") == Some(map["y" := "on"])
  {
    hide Compiles, Ties, Compose, InvertFrom, PathMapFrom, ValidConfig, Promote, Route;
    GuardedIsValid();
    SwapFacts();
    GuardedComposed();
    assert VERSIONS["v3"].leaves.Keys == {"x", "y"} by { NamesDiffer(); }
    ThreePromoted(VERSIONS, SWAP, [ONLY_WHILE_ON], SWAP_BACK, map["x" := "y", "y" := "x"], [MOVED_ONLY_WHILE_ON, PlainRename("x", "y")]);
    GuardedBefore();
    GuardedAfter();
  }

  lemma GuardedBefore()
    ensures Route(PLAIN, Three(VERSIONS, SWAP, [ONLY_WHILE_ON]), VERSIONS, ON_OFF, "v1", "v3") == Some(map["x" := "off", "y" := "on"])
  {
    hide Compiles, Ties, Fire, Exec, Push;
    NamesDiffer();
    var c := Three(VERSIONS, SWAP, [ONLY_WHILE_ON]);
    ThreeTies(c, VERSIONS, c.spokes[0], c.spokes[1]);
    XYTies("x", "y", None);
    XYTies("y", "x", None);
    TwoRules(SWAP[0], SWAP[1]);
    assert SWAP == [SWAP[0], SWAP[1]];
    XYTies("x", "x", ONLY_WHILE_ON.when);
    OneRule(ONLY_WHILE_ON);
    var mid := map["x" := "off", "y" := "on"];
    PushSwapUp();
    PushGuardedDown(mid);
  }

  lemma PushSwapUp()
    ensures Push(PLAIN, Up([CopyTie("x", "y"), CopyTie("y", "x")]), ON_OFF) == Some(map["x" := "off", "y" := "on"])
  {
    NamesDiffer();
    var a, b := UpArrow(CopyTie("x", "y")), UpArrow(CopyTie("y", "x"));
    assert Up([CopyTie("x", "y"), CopyTie("y", "x")]) == [a, b];
    PushTwo(a, b, ON_OFF);
    CopyFires(PLAIN, "x", "y", ON_OFF);
    CopyFires(PLAIN, "y", "x", ON_OFF);
  }

  lemma PushGuardedDown(mid: map<Path, string>)
    requires mid == map["x" := "off", "y" := "on"]
    ensures Push(PLAIN, Down([Tie("x", "x", Convert(Copy), Convert(Copy), ONLY_WHILE_ON.when, ONLY_WHILE_ON.when), CopyTie("y", "y")]), mid)
      == Some(map["x" := "off", "y" := "on"])
  {
    NamesDiffer();
    var t := Tie("x", "x", Convert(Copy), Convert(Copy), ONLY_WHILE_ON.when, ONLY_WHILE_ON.when);
    assert Down([t, CopyTie("y", "y")]) == [DownArrow(t), DownArrow(CopyTie("y", "y"))];
    assert Fire(PLAIN, DownArrow(t), mid) == Wrote("off");
    CopyFires(PLAIN, "y", "y", mid);
    PushTwo(DownArrow(t), DownArrow(CopyTie("y", "y")), mid);
  }

  lemma GuardedAfter()
    ensures Route(PLAIN, Config("v1", [SpokeRules("v2", SWAP_BACK), SpokeRules("v3", [MOVED_ONLY_WHILE_ON, PlainRename("x", "y")])]), VERSIONS, ON_OFF, "v1", "v3")
      == Some(map["y" := "on"])
  {
    hide Compiles, Ties, Fire, Exec, Push;
    NamesDiffer();
    var d := Config("v1", [SpokeRules("v2", SWAP_BACK), SpokeRules("v3", [MOVED_ONLY_WHILE_ON, PlainRename("x", "y")])]);
    ThreeTies(d, VERSIONS, d.spokes[0], d.spokes[1]);
    XYTies("y", "x", MOVED_ONLY_WHILE_ON.when);
    XYTies("x", "y", None);
    TwoRules(MOVED_ONLY_WHILE_ON, PlainRename("x", "y"));
    PushMovedDown();
  }

  lemma PushMovedDown()
    ensures Push(PLAIN, Down([Tie("y", "x", Convert(Copy), Convert(Copy), ONLY_WHILE_ON.when, ONLY_WHILE_ON.when), CopyTie("x", "y")]), ON_OFF)
      == Some(map["y" := "on"])
  {
    NamesDiffer();
    assert "on" != "off" by { assert "on"[1] != "off"[1]; }
    var t := Tie("y", "x", Convert(Copy), Convert(Copy), ONLY_WHILE_ON.when, ONLY_WHILE_ON.when);
    assert Down([t, CopyTie("x", "y")]) == [DownArrow(t), DownArrow(CopyTie("x", "y"))];
    assert Fire(PLAIN, DownArrow(t), ON_OFF) == Skipped;
    CopyFires(PLAIN, "x", "y", ON_OFF);
    PushTwo(DownArrow(t), DownArrow(CopyTie("x", "y")), ON_OFF);
  }

  // ---- A single-path rule on a moved field ----

  const NUMBER := Leaf(KInteger, false, "", KUnknown, Schema(map[]))

  const SIZES: Schemas := map["v1" := Schema(map["replicas" := NUMBER]), "v2" := Schema(map["count" := NUMBER]), "v3" := Schema(map["count" := TEXT])]

  const COUNT_TO_REPLICAS := PlainRename("count", "replicas")

  /** count is a number on the hub and a string on v3. */
  const AS_TEXT := Rule(TypeCoerce("count", ""), false, "", None)

  const MOVED_AS_TEXT := Rule(TypeCoerce("replicas", ""), false, "", None)

  lemma OneTie(r: Rule, hub: Schema, spoke: Schema)
    requires PairRule(r, hub, spoke)
    requires var t := TieOf(r, hub, spoke);
      TieInside(t, hub, spoke) && hub.leaves.Keys == {t.hub} && spoke.leaves.Keys == {t.spoke}
    ensures Compiles([r], hub, spoke) && Ties([r], hub, spoke) == [TieOf(r, hub, spoke)]
  {
    hide TieOf, PairRule, TieInside;
    var t := TieOf(r, hub, spoke);
    var own := RuleTies([r], hub, spoke);
    assert own == [t] && own[0] == t;
    assert AutoCovered(own, hub, spoke) == {} by {
      assert ClaimsHub(own, t.hub);
    }
    SortedXY();
    assert Ties([r], hub, spoke) == [t];
    var ties := [t];
    assert ties[0] == t && forall u :: u in ties <==> u == t;
  }

  lemma SizesCompile()
    ensures Compiles([COUNT_TO_REPLICAS], SIZES["v2"], SIZES["v1"])
    ensures Ties([COUNT_TO_REPLICAS], SIZES["v2"], SIZES["v1"]) == [CopyTie("count", "replicas")]
    ensures Compiles([AS_TEXT], SIZES["v2"], SIZES["v3"])
    ensures Ties([AS_TEXT], SIZES["v2"], SIZES["v3"])
      == [Tie("count", "count", Convert(Coerce(KString, "Error")), Convert(Coerce(KInteger, "Error")), None, None)]
  {
    NamesDiffer();
    OneTie(COUNT_TO_REPLICAS, SIZES["v2"], SIZES["v1"]);
    OneTie(AS_TEXT, SIZES["v2"], SIZES["v3"]);
  }

  lemma SizesDiffer()
    ensures "count" != "replicas"
  {
    assert "count"[0] != "replicas"[0];
  }

  lemma CoercedIsValid()
    ensures ValidConfig(Three(SIZES, [COUNT_TO_REPLICAS], [AS_TEXT]), SIZES)
  {
    hide Compiles, Ties;
    NamesDiffer();
    SizesCompile();
    var c := Three(SIZES, [COUNT_TO_REPLICAS], [AS_TEXT]);
    assert forall s :: s in c.spokes ==> s == c.spokes[0] || s == c.spokes[1];
  }

  lemma CoercedComposed()
    ensures PathMapFrom([COUNT_TO_REPLICAS], 0, map[]) == Success(map["count" := "replicas"])
    ensures InvertFrom([COUNT_TO_REPLICAS], 0) == Success([PlainRename("replicas", "count")])
    ensures Compose([AS_TEXT], map["count" := "replicas"], {"count"}) == Success([MOVED_AS_TEXT, PlainRename("replicas", "count")])
  {
    SizesDiffer();
    var m := map["count" := "replicas"];
    assert [("count", "replicas")][1..] == [];
    assert AddPairs(map[], [("count", "replicas")]) == Success(m);
    assert PathMapFrom([COUNT_TO_REPLICAS], 0, map[]) == PathMapFrom([COUNT_TO_REPLICAS], 1, m);
    assert InvertRule(COUNT_TO_REPLICAS) == Success(PlainRename("replicas", "count"));
    PrependEnd([PlainRename("replicas", "count")], InvertFrom([COUNT_TO_REPLICAS], 1));
    RewriteOne(AS_TEXT, m, MOVED_AS_TEXT);
    ClaimedByOne(MOVED_AS_TEXT);
    SortedOne("count");
    assert m.Keys == {"count"} && ["count"][1..] == [];
    assert Lift(["count"], m, {"count"}, {"replicas"}) == [PlainRename("replicas", "count")];
    assert [MOVED_AS_TEXT] + [PlainRename("replicas", "count")] == [MOVED_AS_TEXT, PlainRename("replicas", "count")];
  }

  lemma CompiledInside(rules: seq<Rule>, r: Rule, hub: Schema, spoke: Schema)
    requires Compiles(rules, hub, spoke) && r in rules
    ensures PairRule(r, hub, spoke) && TieInside(TieOf(r, hub, spoke), hub, spoke)
  {
    hide Ties, TieOf, TieInside, PairRule;
    RuleTieOfRule(rules, hub, spoke, r);
    TiesMembers(rules, hub, spoke, TieOf(r, hub, spoke));
  }

  /** v3 has no field called replicas. */
  lemma MovedAsTextFails()
    ensures !Compiles([MOVED_AS_TEXT, PlainRename("replicas", "count")], SIZES["v1"], SIZES["v3"])
  {
    hide Compiles;
    NamesDiffer();
    SizesDiffer();
    var rules := [MOVED_AS_TEXT, PlainRename("replicas", "count")];
    assert rules[0] in rules;
    assert "replicas" !in SIZES["v3"].leaves;
    if Compiles(rules, SIZES["v1"], SIZES["v3"]) {
      CompiledInside(rules, MOVED_AS_TEXT, SIZES["v1"], SIZES["v3"]);
      assert false;
    }
  }

  const THREE_REPLICAS: map<Path, string> := map["replicas" := "3"]

  /** Promoting v1 moves the rule's one path on both sides: v1 to v3 used to write the
      count as a string, and afterwards no longer compiles. */
  lemma MovedCoercionChangesConversion()
    ensures var c := Three(SIZES, [COUNT_TO_REPLICAS], [AS_TEXT]);
      && ValidConfig(c, SIZES)
      && Promote(c, SIZES, "v1").Success?
      && Route(PLAIN, c, SIZES, THREE_REPLICAS, "v1", "v3") == Some(map["count" := "3"])
      && Route(PLAIN, Promote(c, SIZES, "v1").value, SIZES, THREE_REPLICAS, "v1", "v3") == None
  {
    hide Compiles, Ties, Compose, InvertFrom, PathMapFrom, ValidConfig, Promote, Route;
    CoercedIsValid();
    CoercedComposed();
    assert SIZES["v3"].leaves.Keys == {"count"} by { NamesDiffer(); }
    ThreePromoted(SIZES, [COUNT_TO_REPLICAS], [AS_TEXT], [PlainRename("replicas", "count")], map["count" := "replicas"],
      [MOVED_AS_TEXT, PlainRename("replicas", "count")]);
    CoercedBefore();
    CoercedAfter();
  }

  lemma CoercedBefore()
    ensures Route(PLAIN, Three(SIZES, [COUNT_TO_REPLICAS], [AS_TEXT]), SIZES, THREE_REPLICAS, "v1", "v3") == Some(map["count" := "3"])
  {
    hide Compiles, Ties, Fire, Exec, Push;
    NamesDiffer();
    var c := Three(SIZES, [COUNT_TO_REPLICAS], [AS_TEXT]);
    ThreeTies(c, SIZES, c.spokes[0], c.spokes[1]);
    SizesCompile();
    PushCount();
  }

  lemma PushCount()
    ensures Push(PLAIN, Up([CopyTie("count", "replicas")]), THREE_REPLICAS) == Some(map["count" := "3"])
    ensures Push(PLAIN, Down([Tie("count", "count", Convert(Coerce(KString, "Error")), Convert(Coerce(KInteger, "Error")), None, None)]),
      map["count" := "3"]) == Some(map["count" := "3"])
  {
    var t := Tie("count", "count", Convert(Coerce(KString, "Error")), Convert(Coerce(KInteger, "Error")), None, None);
    var a := UpArrow(CopyTie("count", "replicas"));
    assert Up([CopyTie("count", "replicas")]) == [a] && Down([t]) == [DownArrow(t)];
    CopyFires(PLAIN, "count", "replicas", THREE_REPLICAS);
    ExecOne(a, THREE_REPLICAS, map[]);
    ExecOne(DownArrow(t), map["count" := "3"], map[]);
    assert Fire(PLAIN, DownArrow(t), map["count" := "3"]) == Wrote("3");
  }

  lemma CoercedAfter()
    ensures Route(PLAIN, Config("v1", [SpokeRules("v2", [PlainRename("replicas", "count")]),
                                       SpokeRules("v3", [MOVED_AS_TEXT, PlainRename("replicas", "count")])]),
                  SIZES, THREE_REPLICAS, "v1", "v3") == None
  {
    hide Compiles;
    NamesDiffer();
    var d := Config("v1", [SpokeRules("v2", [PlainRename("replicas", "count")]),
                           SpokeRules("v3", [MOVED_AS_TEXT, PlainRename("replicas", "count")])]);
    ThreeTies(d, SIZES, d.spokes[0], d.spokes[1]);
    MovedAsTextFails();
  }

  // ---- A promoted rule that changes values ----

  const COUNTS: Schemas := map["v1" := Schema(map["replicas" := NUMBER]), "v2" := Schema(map["count" := NUMBER]), "v3" := Schema(map["count" := NUMBER])]

  lemma OneCopy(hub: Schema, spoke: Schema)
    requires hub.leaves == map["count" := NUMBER] && spoke.leaves == map["count" := NUMBER]
    ensures Compiles([], hub, spoke) && Ties([], hub, spoke) == [CopyTie("count", "count")]
  {
    var own := RuleTies([], hub, spoke);
    assert own == [];
    assert AutoCovered(own, hub, spoke) == {"count"};
    SortedOne("count");
    var ties := [CopyTie("count", "count")];
    assert Ties([], hub, spoke) == ties;
    assert ties[0] == CopyTie("count", "count") && forall u :: u in ties <==> u == ties[0];
  }

  /** Every value operation but a copy marks the value. */
  const MARKED: Values<string> := Values((fn: ValueOp, v: string) => Wrote(v + "*"), (raw: Raw) => raw, (v: string, raw: Raw) => v == raw)

  const DOUBLED := Rule(NumericScale("count", "replicas", 2.0), true, "", None)

  const DOUBLED_BACK := Rule(NumericScale("replicas", "count", 2.0), true, "", None)

  lemma DoubledTie()
    ensures PairRule(DOUBLED, COUNTS["v2"], COUNTS["v1"])
    ensures TieOf(DOUBLED, COUNTS["v2"], COUNTS["v1"]) ==
      Tie("count", "replicas", Convert(Scale(1.0 / 2.0, true)), Convert(Scale(2.0, true)), None, None)
  {
    NamesDiffer();
    assert CompileBody(DOUBLED.body, COUNTS["v2"], COUNTS["v1"]) ==
      Plan(Move("count", "replicas", Scale(1.0 / 2.0, true)), Move("replicas", "count", Scale(2.0, true)));
  }

  lemma DoubledCompiles()
    ensures Compiles([DOUBLED], COUNTS["v2"], COUNTS["v1"])
    ensures Ties([DOUBLED], COUNTS["v2"], COUNTS["v1"]) ==
      [Tie("count", "replicas", Convert(Scale(1.0 / 2.0, true)), Convert(Scale(2.0, true)), None, None)]
  {
    hide PairRule, TieOf;
    NamesDiffer();
    DoubledTie();
    OneTie(DOUBLED, COUNTS["v2"], COUNTS["v1"]);
  }

  lemma RestCompiles()
    ensures Compiles([], COUNTS["v2"], COUNTS["v3"]) && Ties([], COUNTS["v2"], COUNTS["v3"]) == [CopyTie("count", "count")]
    ensures Compiles([PlainRename("replicas", "count")], COUNTS["v1"], COUNTS["v3"])
    ensures Ties([PlainRename("replicas", "count")], COUNTS["v1"], COUNTS["v3"]) == [CopyTie("replicas", "count")]
  {
    hide PairRule, TieOf, Compiles, Ties;
    NamesDiffer();
    OneCopy(COUNTS["v2"], COUNTS["v3"]);
    RenameTie(PlainRename("replicas", "count"), COUNTS["v1"], COUNTS["v3"]);
    OneTie(PlainRename("replicas", "count"), COUNTS["v1"], COUNTS["v3"]);
  }

  lemma DoubledIsValid()
    ensures ValidConfig(Three(COUNTS, [DOUBLED], []), COUNTS)
  {
    hide Compiles, Ties;
    NamesDiffer();
    DoubledCompiles();
    RestCompiles();
    var c := Three(COUNTS, [DOUBLED], []);
    assert forall s :: s in c.spokes ==> s == c.spokes[0] || s == c.spokes[1];
  }

  lemma DoubledComposed()
    ensures PathMapFrom([DOUBLED], 0, map[]) == Success(map["count" := "replicas"])
    ensures InvertFrom([DOUBLED], 0) == Success([DOUBLED_BACK])
    ensures Compose([], map["count" := "replicas"], {"count"}) == Success([PlainRename("replicas", "count")])
  {
    SizesDiffer();
    var m := map["count" := "replicas"];
    assert [("count", "replicas")][1..] == [];
    assert AddPairs(map[], [("count", "replicas")]) == Success(m);
    assert PathMapFrom([DOUBLED], 0, map[]) == PathMapFrom([DOUBLED], 1, m);
    assert InvertRule(DOUBLED) == Success(DOUBLED_BACK);
    PrependEnd([DOUBLED_BACK], InvertFrom([DOUBLED], 1));
    assert RewriteFrom([], m, 0) == Success([]) && ClaimedBy([]) == {};
    SortedOne("count");
    assert m.Keys == {"count"} && ["count"][1..] == [];
    assert Lift(["count"], m, {"count"}, {}) == [PlainRename("replicas", "count")];
    assert [] + [PlainRename("replicas", "count")] == [PlainRename("replicas", "count")];
  }

  /** The other spokes are rewritten through paths alone: v1 to v3 used to scale the
      value, and after promoting v1 it copies it. */
  lemma ValuesAreNotComposed()
    ensures var c := Three(COUNTS, [DOUBLED], []);
      && ValidConfig(c, COUNTS)
      && Promote(c, COUNTS, "v1").Success?
      && Route(MARKED, c, COUNTS, THREE_REPLICAS, "v1", "v3") == Some(map["count" := "3*"])
      && Route(MARKED, Promote(c, COUNTS, "v1").value, COUNTS, THREE_REPLICAS, "v1", "v3") == Some(map["count" := "3"])
  {
    hide Compiles, Ties, Compose, InvertFrom, PathMapFrom, ValidConfig, Promote, Route;
    DoubledIsValid();
    DoubledComposed();
    assert COUNTS["v3"].leaves.Keys == {"count"} by { NamesDiffer(); }
    ThreePromoted(COUNTS, [DOUBLED], [], [DOUBLED_BACK], map["count" := "replicas"], [PlainRename("replicas", "count")]);
    DoubledBefore();
    DoubledAfter();
  }

  /** It meets the hypotheses under which that is so exactly for the rules that do more
      than rename. */
  lemma DoubledFits()
    ensures var c := Three(COUNTS, [DOUBLED], []);
      && ValidConfig(c, COUNTS) && AllPairs(c.spokes[0].rules)
      && FieldsFit(c, COUNTS, c.spokes[0]) && ConvertedElsewhere(c, COUNTS, c.spokes[0])
  {
    hide Compiles, Ties, PairRule, TieOf;
    NamesDiffer();
    DoubledIsValid();
    DoubledTie();
    DoubledCompiles();
    RestCompiles();
    var c := Three(COUNTS, [DOUBLED], []);
    var p, s := c.spokes[0], c.spokes[1];
    assert forall q :: q in c.spokes ==> q == p || q == s;
    var ties := Ties(p.rules, COUNTS["v2"], COUNTS["v1"]);
    assert forall t :: t in ties ==> t == ties[0];
    assert [CopyTie("count", "count")][0] == CopyTie("count", "count");
    assert ConvertsToo(c, COUNTS, s, DOUBLED, "count", CopyTie("count", "count"));
  }

  lemma DoubledBefore()
    ensures Route(MARKED, Three(COUNTS, [DOUBLED], []), COUNTS, THREE_REPLICAS, "v1", "v3") == Some(map["count" := "3*"])
  {
    hide Compiles, Ties, Fire, Exec, Push;
    NamesDiffer();
    var c := Three(COUNTS, [DOUBLED], []);
    ThreeTies(c, COUNTS, c.spokes[0], c.spokes[1]);
    DoubledCompiles();
    RestCompiles();
    PushDoubled(Scale(1.0 / 2.0, true));
  }

  lemma PushDoubled(f: ValueOp)
    ensures var t := Tie("count", "replicas", Convert(f), Convert(Scale(2.0, true)), None, None);
      Push(MARKED, Up([t]), THREE_REPLICAS) == Some(map["count" := "3*"])
    ensures Push(MARKED, Down([CopyTie("count", "count")]), map["count" := "3*"]) == Some(map["count" := "3*"])
  {
    var t := Tie("count", "replicas", Convert(f), Convert(Scale(2.0, true)), None, None);
    var a := DownArrow(CopyTie("count", "count"));
    assert Up([t]) == [UpArrow(t)] && Down([CopyTie("count", "count")]) == [a];
    assert "3" + "*" == "3*";
    assert Fire(MARKED, UpArrow(t), THREE_REPLICAS) == Wrote("3*");
    PushOne(UpArrow(t), THREE_REPLICAS);
    CopyFires(MARKED, "count", "count", map["count" := "3*"]);
    PushOne(a, map["count" := "3*"]);
  }

  lemma PushOne(a: Arrow, obj: map<Path, string>)
    ensures Push(MARKED, [a], obj) ==
      match Fire(MARKED, a, obj) case Failed => None case Skipped => Some(map[]) case Wrote(w) => Some(map[a.dst := w])
  {
    hide Fire;
    assert [a][0] == a && [a][1..] == [];
    assert forall o :: Exec(MARKED, [], obj, o) == Some(o);
  }

  lemma DoubledAfter()
    ensures Route(MARKED, Config("v1", [SpokeRules("v2", [DOUBLED_BACK]), SpokeRules("v3", [PlainRename("replicas", "count")])]),
                  COUNTS, THREE_REPLICAS, "v1", "v3") == Some(map["count" := "3"])
  {
    hide Compiles, Ties, Fire, Exec, Push;
    NamesDiffer();
    var d := Config("v1", [SpokeRules("v2", [DOUBLED_BACK]), SpokeRules("v3", [PlainRename("replicas", "count")])]);
    ThreeTies(d, COUNTS, d.spokes[0], d.spokes[1]);
    RestCompiles();
    var a := DownArrow(CopyTie("replicas", "count"));
    assert Down([CopyTie("replicas", "count")]) == [a];
    CopyFires(MARKED, "replicas", "count", THREE_REPLICAS);
    PushOne(a, THREE_REPLICAS);
  }

  // ---- Nested rules on a moved item field ----

  const OLD_ITEM := Schema(map["a" := TEXT])

  const NEW_ITEM := Schema(map["b" := TEXT])

  function ItemsOf(item: Schema): Schema {
    Schema(map["items" := Leaf(KArray, false, "", KObject, item)])
  }

  /** Promoting a version that renames an item field leaves the nested rules of the others
      reading the old name, which the new hub's items do not have. */
  lemma NestedRulesStayBehind()
    ensures var promoted := Rule(ForEach("items", "items", [PlainRename("a", "b")]), false, "", None);
      var other := Rule(ForEach("items", "items", [PlainRename("a", "c")]), false, "", None);
      var m := PathMapFrom([promoted], 0, map[]);
      && m.Success? && RewriteHubPaths(other, m.value) == Success(other)
      && (forall spoke :: CompileRule(other, ItemsOf(NEW_ITEM), spoke).down == Each("items", "items", [Move("a", "c", Copy)]))
      && "a" !in ItemsAt(ItemsOf(NEW_ITEM), "items").leaves
  {
    var promoted := Rule(ForEach("items", "items", [PlainRename("a", "b")]), false, "", None);
    var other := Rule(ForEach("items", "items", [PlainRename("a", "c")]), false, "", None);
    assert [("items", "items")][1..] == [];
    assert AddPairs(map[], [("items", "items")]) == Success(map["items" := "items"]);
    assert PathMapFrom([promoted], 0, map[]) == PathMapFrom([promoted], 1, map["items" := "items"]);
    forall spoke ensures CompileRule(other, ItemsOf(NEW_ITEM), spoke).down == Each("items", "items", [Move("a", "c", Copy)]) {
      NestedPlan(ItemsAt(ItemsOf(NEW_ITEM), "items"), ItemsAt(spoke, "items"));
    }
    assert "a"[0] != "b"[0];
  }

  /** Exactly when copying the nested rules is as good as rewriting them through the map of
      the item fields: when it moves none of the paths they name. */
  lemma NestedKeptExactly(h: Path, s: Path, rules: seq<Rule>, m: PathMap, items: PathMap)
    requires RewriteFrom(rules, items, 0).Success?
    ensures RewriteBody(ForEach(h, s, rules), m) == Success(ForEach(MapPath(m, h), s, RewriteFrom(rules, items, 0).value))
            <==> forall r :: r in rules ==> Unmoved(HubPathsOf(r.body), items)
  {
    hide RewriteBody, HubPathsOf, Unmoved, MapPath;
    var rw := RewriteFrom(rules, items, 0).value;
    ForEachKeepsRules(h, s, rules, m);
    forall i | 0 <= i < |rules| ensures rw[i] == rules[i] <==> Unmoved(HubPathsOf(rules[i].body), items) {
      assert RewriteHubPaths(rules[i], items) == Success(rw[i]);
      KeptExactly(rules[i].body, items);
    }
    if rw == rules {
      forall r | r in rules ensures Unmoved(HubPathsOf(r.body), items) {
        var i :| 0 <= i < |rules| && rules[i] == r;
        assert rw[i] == rules[i];
      }
    }
    if forall r :: r in rules ==> Unmoved(HubPathsOf(r.body), items) {
      forall i | 0 <= i < |rules| ensures rw[i] == rules[i] {
        assert rules[i] in rules;
      }
      assert rw == rules;
    }
  }

  lemma ForEachKeepsRules(h: Path, s: Path, rules: seq<Rule>, m: PathMap)
    ensures RewriteBody(ForEach(h, s, rules), m) == Success(ForEach(MapPath(m, h), s, rules))
  {
  }

  lemma NestedPlan(hub: Schema, spoke: Schema)
    ensures Downs(CompileAll([PlainRename("a", "c")], hub, spoke, 0)) == [Move("a", "c", Copy)]
  {
    var plans := CompileAll([PlainRename("a", "c")], hub, spoke, 0);
    assert plans[0 - 0] == CompileRule(PlainRename("a", "c"), hub, spoke);
  }

  // ---- An undeclared field named like a moved one ----

  const STRAY: map<Path, string> := map["count" := "3", "replicas" := "9"]

  lemma CountsCompile()
    ensures Compiles([COUNT_TO_REPLICAS], COUNTS["v2"], COUNTS["v1"])
    ensures Ties([COUNT_TO_REPLICAS], COUNTS["v2"], COUNTS["v1"]) == [CopyTie("count", "replicas")]
    ensures Compiles([], COUNTS["v2"], COUNTS["v3"])
    ensures Ties([], COUNTS["v2"], COUNTS["v3"]) == [CopyTie("count", "count")]
  {
    NamesDiffer();
    OneTie(COUNT_TO_REPLICAS, COUNTS["v2"], COUNTS["v1"]);
    OneCopy(COUNTS["v2"], COUNTS["v3"]);
  }

  lemma CountsIsPromotable()
    ensures var c := Three(COUNTS, [COUNT_TO_REPLICAS], []);
      ValidConfig(c, COUNTS) && Promotable(c, COUNTS, "v1")
  {
    hide Compiles, Ties;
    NamesDiffer();
    CountsCompile();
    var c := Three(COUNTS, [COUNT_TO_REPLICAS], []);
    assert forall s :: s in c.spokes ==> s == c.spokes[0] || s == c.spokes[1];
    var p := c.spokes[0];
    var ties := Ties(p.rules, COUNTS["v2"], COUNTS["v1"]);
    assert forall t :: t in ties ==> t == ties[0];
    assert PairRules(p.rules, COUNTS["v2"], COUNTS["v1"]) by { CompiledPairRules(p.rules, COUNTS["v2"], COUNTS["v1"]); }
    assert PromotableSpoke(c, COUNTS, p);
  }

  /** A replicas field that v3 does not declare used to reach the hub untouched; the new
      hub declares a field of that name, and the stray value no longer gets past it. */
  lemma StrayFieldIsDropped()
    ensures var c := Three(COUNTS, [COUNT_TO_REPLICAS], []);
      && ValidConfig(c, COUNTS) && Promotable(c, COUNTS, "v1")
      && Promote(c, COUNTS, "v1").Success?
      && RouteWhole(PLAIN, c, COUNTS, STRAY, "v3", "v2") == Some(STRAY)
      && RouteWhole(PLAIN, Promote(c, COUNTS, "v1").value, COUNTS, STRAY, "v3", "v2") != Some(STRAY)
  {
    hide ValidConfig, Promotable, Promote, RouteWhole;
    CountsIsPromotable();
    NamesDiffer();
    SizesDiffer();
    StrayBefore();
    var c := Three(COUNTS, [COUNT_TO_REPLICAS], []);
    RehubPreservesWholeObjects(PLAIN, c, COUNTS, "v1", STRAY, "v3", "v2");
    assert "replicas" in STRAY;
    assert !HubsAgreeOn(STRAY, COUNTS, "v2", "v1", "v3", "v2");
  }

  lemma StrayBefore()
    ensures RouteWhole(PLAIN, Three(COUNTS, [COUNT_TO_REPLICAS], []), COUNTS, STRAY, "v3", "v2") == Some(STRAY)
  {
    hide Compiles, Ties, Fire, Exec;
    NamesDiffer();
    SizesDiffer();
    CountsCompile();
    var c := Three(COUNTS, [COUNT_TO_REPLICAS], []);
    ThreeTies(c, COUNTS, c.spokes[0], c.spokes[1]);
    var a := UpArrow(CopyTie("count", "count"));
    assert Up([CopyTie("count", "count")]) == [a];
    CopyFires(PLAIN, "count", "count", STRAY);
    ExecOne(a, STRAY, map[]);
    assert Push(PLAIN, Up([CopyTie("count", "count")]), STRAY) == Some(map["count" := "3"]);
    assert map["count" := "3"] + Unknown(STRAY, {"count"}) == STRAY;
    assert LeavesAt(COUNTS, "v2") + LeavesAt(COUNTS, "v3") == {"count"};
  }
}
