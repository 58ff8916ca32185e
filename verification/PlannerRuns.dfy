/** What the plan guarantees over whole runs of "do the offered step, plan again". */
module PlannerRuns {
  import opened Wrappers
  import opened Planner

  /** Version names are non-empty and no two alike. */
  ghost predicate WellNamed(versions: seq<Version>) {
    && (forall v :: v in versions ==> v.name != "")
    && (forall i, j :: 0 <= i < j < |versions| ==> versions[i].name != versions[j].name)
  }

  ghost predicate Declares(versions: seq<Version>, name: string) {
    exists v :: v in versions && v.name == name
  }

  lemma FindFinds(versions: seq<Version>, v: Version)
    requires WellNamed(versions) && v in versions
    ensures Find(versions, v.name) == Some(v)
  {
    var w := Find(versions, v.name);
    assert w.Some?;
    var i :| 0 <= i < |versions| && versions[i] == v;
    var j :| 0 <= j < |versions| && versions[j] == w.value;
    assert i == j;
  }

  // ---- The next step ----

  function Next(st: PlanState, to: string, assumeVerified: bool): Option<Kind> {
    var s := FirstReady(PlanOf(st, to, assumeVerified));
    if s.None? then None else Some(s.value.kind)
  }

  ghost predicate FirstAt(steps: seq<PlanStep>, i: int) {
    0 <= i < |steps| && steps[i].status == Ready && forall j :: 0 <= j < i ==> steps[j].status != Ready
  }

  lemma {:induction false} FirstReadyAt(steps: seq<PlanStep>) returns (i: int)
    ensures FirstReady(steps).None? ==> forall j :: 0 <= j < |steps| ==> steps[j].status != Ready
    ensures FirstReady(steps).Some? ==> FirstAt(steps, i) && FirstReady(steps).value == steps[i]
  {
    i := 0;
    if steps != [] && steps[0].status != Ready {
      i := FirstReadyAt(steps[1..]);
      i := i + 1;
      assert forall j :: 1 <= j < |steps| ==> steps[j] == steps[1..][j - 1];
    }
  }

  /** At most one step is ever offered. */
  lemma AtMostOneReady(st: PlanState, to: string, assumeVerified: bool, i: nat, j: nat)
    requires i < j < |PlanOf(st, to, assumeVerified)|
    ensures !(PlanOf(st, to, assumeVerified)[i].status == Ready && PlanOf(st, to, assumeVerified)[j].status == Ready)
  {
    var w := Withheld(Raw(st, to), assumeVerified);
    if w[i].status == Ready {
      assert ReadyBefore(w, j);
    }
  }

  lemma SequencingKeepsFirst(w: seq<PlanStep>)
    ensures FirstReady(Sequenced(w)) == FirstReady(w)
  {
    var i := FirstReadyAt(w);
    var k := FirstReadyAt(Sequenced(w));
    if FirstReady(w).Some? {
      assert !ReadyBefore(w, i);
      assert Sequenced(w)[i] == w[i];
      assert k == i;
    }
  }

  ghost predicate Withholds(kind: Kind, assumeVerified: bool) {
    !assumeVerified && IsRetirement(kind)
  }

  /** The offered step is the first one, in order, that is outstanding and not withheld. */
  lemma NextAt(st: PlanState, to: string, assumeVerified: bool) returns (i: int)
    ensures var kinds := Kinds(st, to);
      Next(st, to, assumeVerified).Some? ==>
        && 0 <= i < |kinds| && kinds[i] == Next(st, to, assumeVerified).value
        && StatusOf(st, to, kinds[i]) == Ready && !Withholds(kinds[i], assumeVerified)
        && forall j :: 0 <= j < i ==> StatusOf(st, to, kinds[j]) != Ready || Withholds(kinds[j], assumeVerified)
    ensures var kinds := Kinds(st, to);
      Next(st, to, assumeVerified).None? ==>
        forall j :: 0 <= j < |kinds| ==> StatusOf(st, to, kinds[j]) != Ready || Withholds(kinds[j], assumeVerified)
  {
    var kinds := Kinds(st, to);
    var w := Withheld(Raw(st, to), assumeVerified);
    SequencingKeepsFirst(w);
    i := FirstReadyAt(w);
    forall j | 0 <= j < |kinds|
      ensures w[j].kind == kinds[j]
      ensures w[j].status == Ready <==> StatusOf(st, to, kinds[j]) == Ready && !Withholds(kinds[j], assumeVerified)
    {
    }
  }

  lemma {:induction false} RetiringFromHas(versions: seq<Version>, to: string, out: seq<string>, name: string)
    requires "" !in out && to !in out
    ensures name in RetiringFrom(versions, to, out) <==>
      name in out || (name != "" && name != to && exists v :: v in versions && v.name == name && (v.deprecated || !v.served))
    decreases |versions|
  {
    if versions == [] {
    } else {
      var v := versions[0];
      assert versions == [v] + versions[1..];
      var next := if v.deprecated || !v.served then AppendOnce(out, v.name, to) else out;
      RetiringFromHas(versions[1..], to, next, name);
    }
  }

  /** The versions on their way out: the outgoing hub, and every other version that is
      deprecated or no longer served. */
  lemma RetiringExactly(st: PlanState, to: string, name: string)
    requires to != ""
    ensures name in Retiring(st, to) <==>
      name != "" && name != to &&
      (name == Hub(st.versions) || exists v :: v in st.versions && v.name == name && (v.deprecated || !v.served))
  {
    var hub := Hub(st.versions);
    RetiringFromHas(st.versions, to, if hub != to then AppendOnce([], hub, to) else [], name);
  }

  // ---- What an offered retirement implies ----

  ghost predicate Settled(st: PlanState, to: string) {
    IsServed(st, to) && IsWired(st, to) && IsPromoted(st, to)
  }

  lemma OpeningFirst(st: PlanState, to: string, i: int, assumeVerified: bool)
    requires 3 <= i <= |Kinds(st, to)|
    requires forall j :: 0 <= j < i ==> StatusOf(st, to, Kinds(st, to)[j]) != Ready || Withholds(Kinds(st, to)[j], assumeVerified)
    ensures Settled(st, to)
  {
    var kinds := Kinds(st, to);
    assert kinds[0] in {Serve, Wire} && kinds[1] in {Serve, Wire} && kinds[0] != kinds[1] && kinds[2] == Promote;
    assert StatusOf(st, to, kinds[0]) != Ready && StatusOf(st, to, kinds[1]) != Ready && StatusOf(st, to, kinds[2]) != Ready;
  }

  /** A retirement step in the list stands where the list of retiring versions says. */
  lemma RetirementStands(st: PlanState, to: string, i: int)
    requires 0 <= i < |Kinds(st, to)| && IsRetirement(Kinds(st, to)[i])
    ensures i >= 5 && Kinds(st, to)[i].version in Retiring(st, to)
    ensures Kinds(st, to)[i].Drop? ==> Kinds(st, to)[i - 1] == StopServing(Kinds(st, to)[i].version)
  {
    var front, retiring := Front(st), Retiring(st, to);
    assert i >= |front|;
    RetirementAt(retiring, i - |front|);
    if Kinds(st, to)[i].Drop? {
      RetirementAt(retiring, i - |front| - 1);
    }
  }

  /** A version is stopped being served only when the operator vouched for the storage
      steps, the new hub is served, wired and promoted, and the version is deprecated. A
      served, undeprecated version is never un-served. */
  lemma StopServingIsSafe(st: PlanState, to: string, assumeVerified: bool, name: string)
    requires WellNamed(st.versions) && to != "" && Next(st, to, assumeVerified) == Some(StopServing(name))
    ensures assumeVerified && Settled(st, to) && name != to
    ensures exists v :: v in st.versions && v.name == name && v.deprecated && v.served
  {
    var i := NextAt(st, to, assumeVerified);
    RetirementStands(st, to, i);
    OpeningFirst(st, to, i, assumeVerified);
    RetiringExactly(st, to, name);
    var v :| v in st.versions && v.name == name && (v.deprecated || !v.served);
    FindFinds(st.versions, v);
  }

  /** A version block is dropped only under the same conditions, and only once the
      version is not served. */
  lemma DropIsSafe(st: PlanState, to: string, assumeVerified: bool, name: string)
    requires WellNamed(st.versions) && to != "" && Next(st, to, assumeVerified) == Some(Drop(name))
    ensures assumeVerified && Settled(st, to) && name != to
    ensures exists v :: v in st.versions && v.name == name && !v.served
  {
    var i := NextAt(st, to, assumeVerified);
    RetirementStands(st, to, i);
    OpeningFirst(st, to, i, assumeVerified);
    assert StatusOf(st, to, Kinds(st, to)[i - 1]) != Ready;
    RetiringExactly(st, to, name);
    var v :| v in st.versions && v.name == name;
    FindFinds(st.versions, v);
  }

  /** The hub is promoted only when the version is served and wired; under a package the
      version is served only once it is wired, otherwise the other way round. */
  lemma OpeningOrder(st: PlanState, to: string, assumeVerified: bool)
    ensures Next(st, to, assumeVerified) == Some(Promote) ==> IsServed(st, to) && IsWired(st, to) && !IsPromoted(st, to)
    ensures Next(st, to, assumeVerified) == Some(Serve) ==> !IsServed(st, to) && (st.packaged ==> IsWired(st, to))
    ensures Next(st, to, assumeVerified) == Some(Wire) ==> !IsWired(st, to) && (!st.packaged ==> IsServed(st, to))
    ensures Next(st, to, assumeVerified).Some? ==> Next(st, to, assumeVerified).value !in {Retarget, MigrateStorage, PruneStored}
  {
    var i := NextAt(st, to, assumeVerified);
    var kinds := Kinds(st, to);
    assert kinds[..3] == Opening(st.packaged);
    assert kinds[0] == kinds[..3][0] && kinds[1] == kinds[..3][1] && kinds[2] == kinds[..3][2];
    if Next(st, to, assumeVerified).Some? && i >= 3 {
      assert kinds[i] !in {Serve, Wire, Promote} by {
        LaterKinds(st, to, i);
      }
    }
  }

  lemma LaterKinds(st: PlanState, to: string, i: int)
    requires 3 <= i < |Kinds(st, to)|
    ensures Kinds(st, to)[i] !in {Serve, Wire, Promote}
  {
    var front := Front(st);
    if i < |front| {
      assert Kinds(st, to)[i] == front[i] == Storage(st.native)[i - 3];
    } else {
      RetirementAt(Retiring(st, to), i - |front|);
    }
  }

  /** Nothing is offered exactly when the new hub is served, wired and promoted and, if
      the operator vouched for storage, no other version is deprecated or unserved. */
  lemma NothingLeftExactly(st: PlanState, to: string, assumeVerified: bool)
    requires WellNamed(st.versions) && to != ""
    ensures Next(st, to, assumeVerified).None? <==>
      Settled(st, to) && (assumeVerified ==> forall v :: v in st.versions && v.name != to ==> v.served && !v.deprecated)
  {
    var i := NextAt(st, to, assumeVerified);
    var kinds := Kinds(st, to);
    if Next(st, to, assumeVerified).None? {
      OpeningFirst(st, to, |kinds|, assumeVerified);
      if assumeVerified {
        forall v | v in st.versions && v.name != to ensures v.served && !v.deprecated {
          if v.deprecated || !v.served {
            RetiringExactly(st, to, v.name);
            DropOutstanding(st, to, v);
          }
        }
      }
    } else if Settled(st, to) {
      OpeningOrder(st, to, assumeVerified);
      if IsRetirement(kinds[i]) {
        RetirementStands(st, to, i);
        RetiringExactly(st, to, kinds[i].version);
      }
    }
  }

  /** As long as a retiring version is in the manifest, dropping it is outstanding. */
  lemma DropOutstanding(st: PlanState, to: string, v: Version)
    requires WellNamed(st.versions) && v in st.versions && v.name in Retiring(st, to)
    ensures exists j :: 0 <= j < |Kinds(st, to)| && Kinds(st, to)[j] == Drop(v.name) && StatusOf(st, to, Kinds(st, to)[j]) == Ready
  {
    var front, retiring := Front(st), Retiring(st, to);
    var k :| 0 <= k < |retiring| && retiring[k] == v.name;
    RetirementAt(retiring, 2 * k + 1);
    FindFinds(st.versions, v);
    assert Kinds(st, to)[|front| + 2 * k + 1] == Drop(v.name);
  }

  // ---- Doing the offered step ----

  function SetServed(versions: seq<Version>, name: string, served: bool): (out: seq<Version>)
    ensures |out| == |versions|
    ensures forall i :: 0 <= i < |versions| ==> out[i] == if versions[i].name == name then versions[i].(served := served) else versions[i]
  {
    seq(|versions|, i requires 0 <= i < |versions| => if versions[i].name == name then versions[i].(served := served) else versions[i])
  }

  function Promoted(v: Version, hub: string, to: string): Version {
    if v.name == to then v.(referenceable := true)
    else if v.name == hub then v.(referenceable := false)
    else v
  }

  /** Moving the hub mark from the old hub, if there is one, to the new. */
  function MoveHub(versions: seq<Version>, to: string): (out: seq<Version>)
    ensures |out| == |versions| && forall i :: 0 <= i < |versions| ==> out[i] == Promoted(versions[i], Hub(versions), to)
  {
    seq(|versions|, i requires 0 <= i < |versions| => Promoted(versions[i], Hub(versions), to))
  }

  function Remove(versions: seq<Version>, name: string): (out: seq<Version>)
    ensures forall v :: v in out <==> v in versions && v.name != name
  {
    if versions == [] then []
    else
      assert versions == [versions[0]] + versions[1..];
      (if versions[0].name == name then [] else [versions[0]]) + Remove(versions[1..], name)
  }

  /** The state after the operator has carried out a step's instruction. */
  function Exec(st: PlanState, kind: Kind, to: string): PlanState {
    match kind
    case Serve => st.(versions := SetServed(st.versions, to, true))
    case Wire =>
      var hub := Hub(st.versions);
      st.(config := Some(
        if st.config.None? then ConfigView(if hub != "" then hub else to, {to})
        else st.config.value.(spokes := st.config.value.spokes + {to})))
    case Promote =>
      st.(versions := MoveHub(st.versions, to), config := if st.config.None? then None else Some(st.config.value.(hub := to)))
    case StopServing(v) => st.(versions := SetServed(st.versions, v, false))
    case Drop(v) =>
      st.(versions := Remove(st.versions, v),
          config := if st.config.None? then None else Some(st.config.value.(spokes := st.config.value.spokes - {v})))
    case _ => st
  }

  // ---- The run ends ----

  function Weight(v: Version, to: string): nat {
    if v.name == to then 1 + (if v.served then 0 else 1) + (if v.referenceable then 0 else 1)
    else 1 + (if v.served then 1 else 0) + (if v.referenceable then 1 else 0)
  }

  function Weights(versions: seq<Version>, to: string): nat {
    if versions == [] then 0 else Weight(versions[0], to) + Weights(versions[1..], to)
  }

  function ConfigWeight(st: PlanState, to: string): nat {
    if st.config.None? then 3
    else (if IsWired(st, to) then 0 else 1) + (if st.config.value.hub == to then 0 else 1)
  }

  function Measure(st: PlanState, to: string): nat {
    Weights(st.versions, to) + ConfigWeight(st, to)
  }

  lemma {:induction false} WeightsDrop(a: seq<Version>, b: seq<Version>, to: string, k: int)
    requires |a| == |b|
    requires forall i :: 0 <= i < |a| ==> Weight(b[i], to) <= Weight(a[i], to)
    requires 0 <= k < |a| ==> Weight(b[k], to) < Weight(a[k], to)
    ensures Weights(b, to) <= Weights(a, to)
    ensures 0 <= k < |a| ==> Weights(b, to) < Weights(a, to)
    decreases |a|
  {
    if a == [] {
    } else {
      WeightsDrop(a[1..], b[1..], to, k - 1);
    }
  }

  lemma RemoveFirst(versions: seq<Version>, name: string)
    requires versions != []
    ensures var rest := Remove(versions[1..], name);
      Remove(versions, name) == if versions[0].name == name then rest else [versions[0]] + rest
  {
    assert [] + Remove(versions[1..], name) == Remove(versions[1..], name);
  }

  lemma DeclaresFirst(versions: seq<Version>, name: string)
    requires versions != []
    ensures Declares(versions, name) <==> versions[0].name == name || Declares(versions[1..], name)
  {
    assert versions == [versions[0]] + versions[1..];
    assert forall v :: v in versions <==> v == versions[0] || v in versions[1..];
  }

  lemma {:induction false} RemoveDrops(versions: seq<Version>, name: string, to: string)
    ensures Weights(Remove(versions, name), to) <= Weights(versions, to)
    ensures Declares(versions, name) ==> Weights(Remove(versions, name), to) < Weights(versions, to)
  {
    if versions == [] {
    } else {
      RemoveDrops(versions[1..], name, to);
      RemoveFirst(versions, name);
      DeclaresFirst(versions, name);
      var rest := Remove(versions[1..], name);
      assert versions[0].name != name ==> ([versions[0]] + rest)[1..] == rest;
    }
  }

  lemma {:induction false} HubIsMarked(versions: seq<Version>)
    ensures Hub(versions) != "" ==> exists v :: v in versions && v.name == Hub(versions) && v.referenceable
    ensures (forall v :: v in versions ==> v.name != "") && Hub(versions) == "" ==> forall v :: v in versions ==> !v.referenceable
    decreases |versions|
  {
    if versions == [] {
    } else {
      var n := |versions| - 1;
      assert versions == versions[..n] + [versions[n]];
      HubIsMarked(versions[..n]);
    }
  }

  lemma ServedDrops(versions: seq<Version>, name: string, to: string, served: bool)
    requires exists v :: v in versions && v.name == name && v.served != served
    requires served == (name == to)
    ensures Weights(SetServed(versions, name, served), to) < Weights(versions, to)
  {
    var v :| v in versions && v.name == name && v.served != served;
    var k :| 0 <= k < |versions| && versions[k] == v;
    WeightsDrop(versions, SetServed(versions, name, served), to, k);
  }

  lemma PromotionDrops(st: PlanState, to: string)
    requires WellNamed(st.versions) && to != "" && Declares(st.versions, to)
    requires !IsPromoted(st, to) && IsWired(st, to)
    ensures Measure(Exec(st, Promote, to), to) < Measure(st, to)
  {
    hide Weights, Hub;
    MovingDrops(st.versions, to);
    assert IsWired(Exec(st, Promote, to), to);
  }

  lemma MovingDrops(versions: seq<Version>, to: string)
    requires WellNamed(versions) && to != "" && Declares(versions, to)
    ensures Weights(MoveHub(versions, to), to) <= Weights(versions, to)
    ensures Hub(versions) != to ==> Weights(MoveHub(versions, to), to) < Weights(versions, to)
  {
    hide Weights, Hub;
    var after, hub := MoveHub(versions, to), Hub(versions);
    HubIsMarked(versions);
    if hub == to {
      WeightsDrop(versions, after, to, -1);
    } else {
      var v :| v in versions && v.name == (if hub == "" then to else hub) && (hub != "" ==> v.referenceable);
      var k :| 0 <= k < |versions| && versions[k] == v;
      WeightsDrop(versions, after, to, k);
    }
  }

  /** Every step carried out brings the plan closer to its end. */
  lemma StepDecreases(st: PlanState, to: string, assumeVerified: bool)
    requires WellNamed(st.versions) && to != "" && Declares(st.versions, to)
    requires Next(st, to, assumeVerified).Some?
    ensures Measure(Exec(st, Next(st, to, assumeVerified).value, to), to) < Measure(st, to)
  {
    hide Next, Weights, Settled, Hub;
    OpeningOrder(st, to, assumeVerified);
    match Next(st, to, assumeVerified).value
    case Serve =>
      var v :| v in st.versions && v.name == to;
      FindFinds(st.versions, v);
      ServedDrops(st.versions, to, to, true);
    case Wire =>
    case Promote => PromotionDrops(st, to);
    case StopServing(name) =>
      StopServingIsSafe(st, to, assumeVerified, name);
      ServedDrops(st.versions, name, to, false);
    case Drop(name) =>
      DropIsSafe(st, to, assumeVerified, name);
      RemoveDrops(st.versions, name, to);
  }

  lemma {:induction false} RemoveKeepsNames(versions: seq<Version>, name: string)
    requires WellNamed(versions)
    ensures WellNamed(Remove(versions, name))
  {
    hide Remove;
    if versions == [] {
    } else {
      assert forall v :: v in versions[1..] ==> v in versions;
      RemoveKeepsNames(versions[1..], name);
      RemoveFirst(versions, name);
      var rest := Remove(versions[1..], name);
      forall i | 0 <= i < |rest| ensures rest[i].name != versions[0].name {
        assert rest[i] in rest && rest[i] in versions[1..];
        var j :| 0 <= j < |versions[1..]| && versions[1..][j] == rest[i];
        assert versions[j + 1] == rest[i];
      }
    }
  }

  lemma RenamingNothing(before: seq<Version>, after: seq<Version>, to: string)
    requires WellNamed(before) && Declares(before, to)
    requires |after| == |before| && forall i :: 0 <= i < |before| ==> after[i].name == before[i].name
    ensures WellNamed(after) && Declares(after, to)
  {
    var t :| t in before && t.name == to;
    var k :| 0 <= k < |before| && before[k] == t;
    assert after[k] in after;
    forall v | v in after ensures v.name != "" {
      var i :| 0 <= i < |after| && after[i] == v;
      assert before[i] in before;
    }
  }

  lemma ExecKeepsNames(st: PlanState, kind: Kind, to: string)
    requires WellNamed(st.versions) && Declares(st.versions, to) && kind != Drop(to)
    ensures WellNamed(Exec(st, kind, to).versions) && Declares(Exec(st, kind, to).versions, to)
  {
    if kind.Drop? {
      RemoveKeepsNames(st.versions, kind.version);
      var t :| t in st.versions && t.name == to;
      assert t in Remove(st.versions, kind.version);
    } else {
      RenamingNothing(st.versions, Exec(st, kind, to).versions, to);
    }
  }

  lemma NeverDropsTarget(st: PlanState, to: string, assumeVerified: bool)
    requires WellNamed(st.versions) && to != ""
    ensures Next(st, to, assumeVerified) != Some(Drop(to))
  {
    if Next(st, to, assumeVerified).Some? && Next(st, to, assumeVerified).value.Drop? {
      DropIsSafe(st, to, assumeVerified, Next(st, to, assumeVerified).value.version);
    }
  }

  /** The whole run: do the offered step, plan again, until nothing is offered. */
  function Finish(st: PlanState, to: string, assumeVerified: bool): PlanState
    requires WellNamed(st.versions) && to != "" && Declares(st.versions, to)
    decreases Measure(st, to)
  {
    var next := Next(st, to, assumeVerified);
    if next.None? then st
    else
      StepDecreases(st, to, assumeVerified);
      NeverDropsTarget(st, to, assumeVerified);
      ExecKeepsNames(st, next.value, to);
      Finish(Exec(st, next.value, to), to, assumeVerified)
  }

  // ---- What a run keeps and where it ends ----

  ghost predicate Current(versions: seq<Version>, name: string) {
    exists v :: v in versions && v.name == name && v.served && !v.deprecated
  }

  /** Versions other than the target that are served and not deprecated. */
  ghost predicate SameCurrent(before: seq<Version>, after: seq<Version>, to: string) {
    && (forall name :: name != to ==> (Current(before, name) <==> Current(after, name)))
    && (forall v :: v in after ==> Declares(before, v.name))
  }

  lemma UpdatedCurrent(before: seq<Version>, after: seq<Version>, to: string)
    requires |after| == |before|
    requires forall i :: 0 <= i < |before| ==>
      after[i].name == before[i].name &&
      (before[i].name != to ==> (after[i].served && !after[i].deprecated <==> before[i].served && !before[i].deprecated))
    ensures SameCurrent(before, after, to)
  {
    forall name | name != to ensures Current(before, name) <==> Current(after, name) {
      if Current(before, name) {
        var v :| v in before && v.name == name && v.served && !v.deprecated;
        var i :| 0 <= i < |before| && before[i] == v;
        assert after[i] in after;
      }
      if Current(after, name) {
        var v :| v in after && v.name == name && v.served && !v.deprecated;
        var i :| 0 <= i < |after| && after[i] == v;
        assert before[i] in before;
      }
    }
    forall v | v in after ensures Declares(before, v.name) {
      var i :| 0 <= i < |after| && after[i] == v;
      assert before[i] in before;
    }
  }

  /** No step touches a served, undeprecated version, and no step adds one. */
  lemma StepKeepsCurrent(st: PlanState, to: string, assumeVerified: bool)
    requires WellNamed(st.versions) && to != "" && Next(st, to, assumeVerified).Some?
    ensures SameCurrent(st.versions, Exec(st, Next(st, to, assumeVerified).value, to).versions, to)
  {
    hide Next, Hub, Settled, SameCurrent;
    var kind := Next(st, to, assumeVerified).value;
    match kind
    case StopServing(name) =>
      StopServingIsSafe(st, to, assumeVerified, name);
      StoppingKeepsCurrent(st.versions, name, to);
    case Drop(name) =>
      DropIsSafe(st, to, assumeVerified, name);
      DroppingKeepsCurrent(st.versions, name, to);
    case Serve => UpdatedCurrent(st.versions, SetServed(st.versions, to, true), to);
    case Promote => UpdatedCurrent(st.versions, MoveHub(st.versions, to), to);
    case _ => UpdatedCurrent(st.versions, st.versions, to);
  }

  lemma StoppingKeepsCurrent(versions: seq<Version>, name: string, to: string)
    requires WellNamed(versions) && exists v :: v in versions && v.name == name && v.deprecated
    ensures SameCurrent(versions, SetServed(versions, name, false), to)
  {
    var v :| v in versions && v.name == name && v.deprecated;
    OnlyOne(versions, v);
    assert forall i :: 0 <= i < |versions| ==> versions[i] in versions;
    UpdatedCurrent(versions, SetServed(versions, name, false), to);
  }

  lemma DroppingKeepsCurrent(versions: seq<Version>, name: string, to: string)
    requires WellNamed(versions) && exists v :: v in versions && v.name == name && !v.served
    ensures SameCurrent(versions, Remove(versions, name), to)
  {
    var v :| v in versions && v.name == name && !v.served;
    OnlyOne(versions, v);
    assert !Current(versions, name);
    forall other ensures Current(versions, other) <==> Current(Remove(versions, name), other) {
      if Current(versions, other) {
        var w :| w in versions && w.name == other && w.served && !w.deprecated;
        assert w in Remove(versions, name);
      }
    }
  }

  lemma OnlyOne(versions: seq<Version>, v: Version)
    requires WellNamed(versions) && v in versions
    ensures forall w :: w in versions && w.name == v.name ==> w == v
  {
    FindFinds(versions, v);
    forall w | w in versions && w.name == v.name ensures w == v {
      FindFinds(versions, w);
    }
  }

  lemma {:induction false} RunKeepsCurrent(st: PlanState, to: string, assumeVerified: bool)
    requires WellNamed(st.versions) && to != "" && Declares(st.versions, to)
    ensures SameCurrent(st.versions, Finish(st, to, assumeVerified).versions, to)
    ensures WellNamed(Finish(st, to, assumeVerified).versions)
    ensures Next(Finish(st, to, assumeVerified), to, assumeVerified).None?
    decreases Measure(st, to)
  {
    var next := Next(st, to, assumeVerified);
    if next.Some? {
      StepDecreases(st, to, assumeVerified);
      NeverDropsTarget(st, to, assumeVerified);
      ExecKeepsNames(st, next.value, to);
      StepKeepsCurrent(st, to, assumeVerified);
      var mid := Exec(st, next.value, to);
      RunKeepsCurrent(mid, to, assumeVerified);
      CurrentTransitive(st.versions, mid.versions, Finish(mid, to, assumeVerified).versions, to);
    }
  }

  lemma CurrentTransitive(a: seq<Version>, b: seq<Version>, c: seq<Version>, to: string)
    requires SameCurrent(a, b, to) && SameCurrent(b, c, to)
    ensures SameCurrent(a, c, to)
  {
    forall v | v in c ensures Declares(a, v.name) {
      var w :| w in b && w.name == v.name;
    }
  }

  /** The run ends with the target served, wired and the hub. With storage vouched for,
      the versions left besides it are exactly those that were served and undeprecated
      when it began. */
  lemma RunReachesTarget(st: PlanState, to: string, assumeVerified: bool)
    requires WellNamed(st.versions) && to != "" && Declares(st.versions, to)
    ensures Settled(Finish(st, to, assumeVerified), to)
    ensures assumeVerified ==> forall name :: name != to ==>
      (Declares(Finish(st, to, assumeVerified).versions, name) <==> Current(st.versions, name))
  {
    var end := Finish(st, to, assumeVerified);
    RunKeepsCurrent(st, to, assumeVerified);
    NothingLeftExactly(end, to, assumeVerified);
    if assumeVerified {
      forall name | name != to ensures Declares(end.versions, name) <==> Current(st.versions, name) {
        if Declares(end.versions, name) {
          var v :| v in end.versions && v.name == name;
          assert Current(end.versions, name);
        }
      }
    }
  }

  /** Without the operator's word, a whole run retires nothing: every version keeps its
      place, and only the target becomes served. */
  lemma {:induction false} UnverifiedRunRetiresNothing(st: PlanState, to: string)
    requires WellNamed(st.versions) && to != "" && Declares(st.versions, to)
    ensures var end := Finish(st, to, false).versions;
      && |end| == |st.versions|
      && forall i :: 0 <= i < |end| ==> end[i].name == st.versions[i].name && (st.versions[i].served ==> end[i].served)
    decreases Measure(st, to)
  {
    var next := Next(st, to, false);
    if next.Some? {
      StepDecreases(st, to, false);
      NeverDropsTarget(st, to, false);
      ExecKeepsNames(st, next.value, to);
      UnverifiedStep(st, to);
      UnverifiedRunRetiresNothing(Exec(st, next.value, to), to);
    }
  }

  lemma UnverifiedStep(st: PlanState, to: string)
    requires WellNamed(st.versions) && to != "" && Next(st, to, false).Some?
    ensures var after := Exec(st, Next(st, to, false).value, to).versions;
      && |after| == |st.versions|
      && forall i :: 0 <= i < |after| ==> after[i].name == st.versions[i].name && (st.versions[i].served ==> after[i].served)
  {
    hide Next, Hub, StatusOf, Exec;
    var i := NextAt(st, to, false);
    OtherStepsKeepVersions(st, Next(st, to, false).value, to);
  }

  lemma OtherStepsKeepVersions(st: PlanState, kind: Kind, to: string)
    requires !IsRetirement(kind)
    ensures var after := Exec(st, kind, to).versions;
      && |after| == |st.versions|
      && forall i :: 0 <= i < |after| ==> after[i].name == st.versions[i].name && (st.versions[i].served ==> after[i].served)
  {
    hide Hub;
  }
}
