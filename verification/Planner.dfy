/** internal/cli/plan.go: the ordered, gated steps that make one version the hub. */
module Planner {
  import opened Wrappers

  datatype Version = Version(name: string, served: bool, referenceable: bool, deprecated: bool)

  /** The hub and spokes of the conversion config supplied with the target. */
  datatype ConfigView = ConfigView(hub: string, spokes: set<string>)

  datatype PlanState = PlanState(versions: seq<Version>, config: Option<ConfigView>, packaged: bool, native: bool)

  datatype Kind =
    | Serve
    | Wire
    | Promote
    | Retarget
    | MigrateStorage
    | PruneStored
    | StopServing(version: string)
    | Drop(version: string)

  datatype Status = Done | Ready | Blocked | Unknown

  datatype PlanStep = PlanStep(kind: Kind, status: Status)

  // ---- What the manifest says ----

  function Find(versions: seq<Version>, name: string): (v: Option<Version>)
    ensures v.Some? ==> v.value in versions && v.value.name == name
    ensures v.None? ==> forall x :: x in versions ==> x.name != name
  {
    if versions == [] then None
    else if versions[0].name == name then Some(versions[0])
    else Find(versions[1..], name)
  }

  /** The last version marked referenceable (storage, on a CRD); "" if none is. */
  function Hub(versions: seq<Version>): string
    decreases |versions|
  {
    if versions == [] then ""
    else if versions[|versions| - 1].referenceable then versions[|versions| - 1].name
    else Hub(versions[..|versions| - 1])
  }

  predicate IsServed(st: PlanState, name: string) {
    var v := Find(st.versions, name);
    v.Some? && v.value.served
  }

  predicate IsWired(st: PlanState, to: string) {
    st.config.Some? && (to in st.config.value.spokes || st.config.value.hub == to)
  }

  /** Promotion is two edits: the target's hub and the config's. */
  predicate IsPromoted(st: PlanState, to: string) {
    Hub(st.versions) == to && (st.config.None? || st.config.value.hub == to)
  }

  function DoneIf(b: bool): Status {
    if b then Done else Ready
  }

  function StatusOf(st: PlanState, to: string, kind: Kind): Status {
    match kind
    case Serve => DoneIf(IsServed(st, to))
    case Wire => DoneIf(IsWired(st, to))
    case Promote => DoneIf(IsPromoted(st, to))
    case StopServing(v) => DoneIf(Find(st.versions, v).Some? && !IsServed(st, v))
    case Drop(v) => DoneIf(Find(st.versions, v).None?)
    case _ => Unknown
  }

  function AppendOnce(out: seq<string>, name: string, to: string): seq<string> {
    if name == "" || name == to || name in out then out else out + [name]
  }

  function RetiringFrom(versions: seq<Version>, to: string, out: seq<string>): seq<string>
    decreases |versions|
  {
    if versions == [] then out
    else RetiringFrom(versions[1..], to,
      if versions[0].deprecated || !versions[0].served then AppendOnce(out, versions[0].name, to) else out)
  }

  function Retiring(st: PlanState, to: string): seq<string> {
    var hub := Hub(st.versions);
    RetiringFrom(st.versions, to, if hub != to then AppendOnce([], hub, to) else [])
  }

  method RetiringVersions(st: PlanState, to: string) returns (out: seq<string>)
    ensures out == Retiring(st, to)
  {
    out := [];
    var hub := Hub(st.versions);
    if hub != to {
      out := AppendOnce(out, hub, to);
    }
    for i := 0 to |st.versions|
      invariant RetiringFrom(st.versions[i..], to, out) == Retiring(st, to)
    {
      var v := st.versions[i];
      assert st.versions[i..][0] == v && st.versions[i..][1..] == st.versions[i + 1..];
      if v.deprecated || !v.served {
        out := AppendOnce(out, v.name, to);
      }
    }
  }

  // ---- The steps ----

  function Opening(packaged: bool): seq<Kind> {
    if packaged then [Wire, Serve, Promote] else [Serve, Wire, Promote]
  }

  function Storage(native: bool): seq<Kind> {
    if native then [MigrateStorage, PruneStored] else [Retarget, MigrateStorage, PruneStored]
  }

  /** For each retiring version: stop serving it, then drop it. */
  function Retirement(retiring: seq<string>): (kinds: seq<Kind>)
    ensures |kinds| == 2 * |retiring|
  {
    if retiring == [] then []
    else
      var n := |retiring| - 1;
      Retirement(retiring[..n]) + [StopServing(retiring[n]), Drop(retiring[n])]
  }

  function Kinds(st: PlanState, to: string): seq<Kind> {
    Front(st) + Retirement(Retiring(st, to))
  }

  function Raw(st: PlanState, to: string): seq<PlanStep> {
    StepsOf(st, to, Kinds(st, to))
  }

  predicate IsRetirement(kind: Kind) {
    kind.StopServing? || kind.Drop?
  }

  /** Without the operator's word that the storage steps were verified, no retirement
      step is offered. */
  function WithheldStep(s: PlanStep, assumeVerified: bool): PlanStep {
    if !assumeVerified && IsRetirement(s.kind) && s.status == Ready then s.(status := Blocked) else s
  }

  function Withheld(steps: seq<PlanStep>, assumeVerified: bool): (out: seq<PlanStep>)
    ensures |out| == |steps| && forall i :: 0 <= i < |steps| ==> out[i] == WithheldStep(steps[i], assumeVerified)
  {
    seq(|steps|, i requires 0 <= i < |steps| => WithheldStep(steps[i], assumeVerified))
  }

  predicate ReadyBefore(steps: seq<PlanStep>, n: nat)
    requires n <= |steps|
  {
    exists i :: 0 <= i < n && steps[i].status == Ready
  }

  /** Everything ready after the first ready step waits for it. */
  function Sequenced(steps: seq<PlanStep>): (out: seq<PlanStep>)
    ensures |out| == |steps|
    ensures forall i :: 0 <= i < |steps| ==>
      out[i] == if steps[i].status == Ready && ReadyBefore(steps, i) then steps[i].(status := Blocked) else steps[i]
  {
    seq(|steps|, i requires 0 <= i < |steps| =>
      if steps[i].status == Ready && ReadyBefore(steps, i) then steps[i].(status := Blocked) else steps[i])
  }

  function PlanOf(st: PlanState, to: string, assumeVerified: bool): seq<PlanStep> {
    Sequenced(Withheld(Raw(st, to), assumeVerified))
  }

  method BuildSteps(st: PlanState, to: string, assumeVerified: bool) returns (steps: seq<PlanStep>)
    ensures steps == PlanOf(st, to, assumeVerified)
  {
    var retirement: seq<nat>;
    steps, retirement := ListSteps(st, to);
    if !assumeVerified {
      assert steps[3].status == Unknown;
      steps := Withhold(steps, retirement);
    }
    assert steps == Withheld(Raw(st, to), assumeVerified);
    steps := Sequence(steps);
  }

  function Front(st: PlanState): (kinds: seq<Kind>)
    ensures |kinds| >= 5 && kinds[3] in {Retarget, MigrateStorage}
    ensures forall i :: 0 <= i < |kinds| ==> !IsRetirement(kinds[i])
  {
    Opening(st.packaged) + Storage(st.native)
  }

  /** retirement collects the indexes of the steps that retire a version. */
  method ListSteps(st: PlanState, to: string) returns (steps: seq<PlanStep>, retirement: seq<nat>)
    ensures steps == Raw(st, to)
    ensures forall i :: i in retirement <==> 0 <= i < |steps| && IsRetirement(steps[i].kind)
  {
    var front := Front(st);
    steps, retirement := [], [];
    for i := 0 to |front|
      invariant steps == StepsOf(st, to, front[..i])
    {
      steps := steps + [PlanStep(front[i], StatusOf(st, to, front[i]))];
    }
    assert front[..|front|] == front;
    assert steps == StepsOf(st, to, front);
    var retiring := RetiringVersions(st, to);
    var more;
    more, retirement := RetireSteps(st, to, retiring, |steps|);
    steps := steps + more;
    StepsAppend(st, to, front, Retirement(retiring));
    RetirementKinds(retiring);
  }

  method RetireSteps(st: PlanState, to: string, retiring: seq<string>, base: nat) returns (steps: seq<PlanStep>, retirement: seq<nat>)
    ensures steps == StepsOf(st, to, Retirement(retiring))
    ensures forall k :: k in retirement <==> base <= k < base + |steps|
  {
    steps, retirement := [], [];
    for i := 0 to |retiring|
      invariant steps == StepsOf(st, to, Retirement(retiring[..i]))
      invariant forall k :: k in retirement <==> base <= k < base + |steps|
    {
      var v := retiring[i];
      assert retiring[..i + 1][..i] == retiring[..i];
      retirement := retirement + [base + |steps|, base + |steps| + 1];
      StepsAppend(st, to, Retirement(retiring[..i]), [StopServing(v), Drop(v)]);
      steps := steps + [PlanStep(StopServing(v), StatusOf(st, to, StopServing(v)))];
      steps := steps + [PlanStep(Drop(v), StatusOf(st, to, Drop(v)))];
    }
    assert retiring[..|retiring|] == retiring;
  }

  lemma {:induction false} RetirementAt(retiring: seq<string>, k: nat)
    requires k < 2 * |retiring|
    ensures Retirement(retiring)[k] == if k % 2 == 0 then StopServing(retiring[k / 2]) else Drop(retiring[k / 2])
    decreases |retiring|
  {
    var n := |retiring| - 1;
    if k < 2 * n {
      RetirementAt(retiring[..n], k);
      assert Retirement(retiring)[k] == Retirement(retiring[..n])[k];
    }
  }

  lemma RetirementKinds(retiring: seq<string>)
    ensures forall i :: 0 <= i < |Retirement(retiring)| ==> IsRetirement(Retirement(retiring)[i])
  {
    forall i | 0 <= i < |Retirement(retiring)| ensures IsRetirement(Retirement(retiring)[i]) {
      RetirementAt(retiring, i);
    }
  }

  lemma StepsAppend(st: PlanState, to: string, a: seq<Kind>, b: seq<Kind>)
    ensures StepsOf(st, to, a + b) == StepsOf(st, to, a) + StepsOf(st, to, b)
  {
  }

  function StepsOf(st: PlanState, to: string, kinds: seq<Kind>): (steps: seq<PlanStep>)
    ensures |steps| == |kinds| && forall i :: 0 <= i < |kinds| ==> steps[i] == PlanStep(kinds[i], StatusOf(st, to, kinds[i]))
  {
    seq(|kinds|, i requires 0 <= i < |kinds| => PlanStep(kinds[i], StatusOf(st, to, kinds[i])))
  }

  method Withhold(before: seq<PlanStep>, retirement: seq<nat>) returns (steps: seq<PlanStep>)
    requires forall i :: i in retirement <==> 0 <= i < |before| && IsRetirement(before[i].kind)
    requires exists i :: 0 <= i < |before| && before[i].status == Unknown
    ensures steps == Withheld(before, false)
  {
    steps := before;
    var unknown := 0;
    for i := 0 to |steps|
      invariant unknown > 0 <==> exists j :: 0 <= j < i && steps[j].status == Unknown
    {
      if steps[i].status == Unknown {
        unknown := unknown + 1;
      }
    }
    if unknown > 0 {
      for k := 0 to |retirement|
        invariant |steps| == |before|
        invariant forall i :: 0 <= i < |before| ==>
          steps[i] == if i in retirement[..k] then WithheldStep(before[i], false) else before[i]
      {
        var i := retirement[k];
        assert i in retirement;
        if i < |steps| && steps[i].status == Ready {
          steps := steps[i := steps[i].(status := Blocked)];
        }
        assert retirement[..k + 1] == retirement[..k] + [i];
      }
      assert retirement[..|retirement|] == retirement;
    }
  }

  method Sequence(before: seq<PlanStep>) returns (steps: seq<PlanStep>)
    ensures steps == Sequenced(before)
  {
    steps := before;
    var first := -1;
    for i := 0 to |steps|
      invariant first == -1 && !ReadyBefore(steps, i)
    {
      if steps[i].status == Ready {
        first := i;
        break;
      }
    }
    assert first >= 0 ==> first < |before| && before[first].status == Ready && !ReadyBefore(before, first);
    assert first < 0 ==> !ReadyBefore(before, |before|);
    for i := 0 to |steps|
      invariant |steps| == |before|
      invariant forall j :: i <= j < |before| ==> steps[j] == before[j]
      invariant forall j :: 0 <= j < i ==> steps[j] == Sequenced(before)[j]
    {
      if first >= 0 && i > first && steps[i].status == Ready {
        steps := steps[i := steps[i].(status := Blocked)];
      }
    }
  }

  method NextStep(steps: seq<PlanStep>) returns (next: Option<PlanStep>)
    ensures next == FirstReady(steps)
  {
    for i := 0 to |steps|
      invariant FirstReady(steps) == FirstReady(steps[i..])
    {
      assert steps[i..][0] == steps[i] && steps[i..][1..] == steps[i + 1..];
      if steps[i].status == Ready {
        return Some(steps[i]);
      }
    }
    next := None;
  }

  function FirstReady(steps: seq<PlanStep>): Option<PlanStep> {
    if steps == [] then None
    else if steps[0].status == Ready then Some(steps[0])
    else FirstReady(steps[1..])
  }
}
