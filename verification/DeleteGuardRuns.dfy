/** The delete guard over whole runs: server edits, config edits, URL applies and delete
    reconciles in any order. */
module DeleteGuardRuns {
  import opened Wrappers
  import opened Ordering
  import opened Assign
  import opened DeleteGuard

  datatype Instance = Instance(spec: Server, annotations: map<string, string>, finalizer: bool, deleting: bool, ready: bool)

  datatype Ref = XRDConfig(name: string) | CRDConfig(name: string)

  /** What an apply writes: the server and namespace of the URL, and its target path. */
  datatype Endpoint = Endpoint(server: string, namespace: string, target: string)

  datatype Target = Target(ref: Option<string>, shardKey: string, applied: Option<Endpoint>)

  /** inFlight: applies that have resolved their server and not yet written the URL. */
  datatype World = World(servers: map<string, Instance>, configs: map<Ref, Target>, inFlight: map<Ref, Endpoint>)

  const EMPTY := World(map[], map[], map[])

  datatype Step =
    | CreateServer(s: Server)
    | EditServer(s: Server)
    | Annotate(server: string, annotations: map<string, string>)
    | Manage(server: string, ready: bool)
    | RequestDelete(server: string)
    | ReconcileDelete(server: string)
    | PutConfig(config: Ref, ref: Option<string>, shardKey: string)
    | DropConfig(config: Ref)
    | BeginApply(config: Ref, namespace: string)
    | CommitApply(config: Ref)

  // ---- The lists the controllers read ----

  ghost predicate Consistent(w: World) {
    forall n :: n in w.servers ==>
      n != "" && w.servers[n].spec.name == n && (w.servers[n].ready ==> w.servers[n].finalizer)
  }

  function ServerList(w: World): (servers: seq<Server>)
    ensures |servers| == |w.servers.Keys|
  {
    var keys := SortedKeys(w.servers.Keys);
    seq(|keys|, i requires 0 <= i < |keys| => assert keys[i] in keys; w.servers[keys[i]].spec)
  }

  lemma ServerListing(w: World)
    requires Consistent(w)
    ensures Listing(ServerList(w))
    ensures forall n :: n in w.servers <==> Exists(ServerList(w), n)
  {
    var keys, list := SortedKeys(w.servers.Keys), ServerList(w);
    StrictlySortedDistinct(keys);
    assert forall i :: 0 <= i < |keys| ==> keys[i] in keys && list[i].name == keys[i];
    forall n ensures n in w.servers <==> Exists(list, n) {
      if n in w.servers {
        assert n in keys;
        var i :| 0 <= i < |keys| && keys[i] == n;
        assert list[i] in list;
      }
    }
  }

  function AsConfig(r: Ref, t: Target): Config {
    Config(r.name, t.ref, t.shardKey,
      if t.applied.None? then ""
      else WebhookURL(t.applied.value.server, t.applied.value.namespace, t.applied.value.target))
  }

  function RefOf(xrd: bool, name: string): Ref {
    if xrd then XRDConfig(name) else CRDConfig(name)
  }

  function NamesOfKind(w: World, xrd: bool): set<string> {
    set r | r in w.configs.Keys && r.XRDConfig? == xrd :: r.name
  }

  function ConfigNamed(w: World, r: Ref): Option<Config> {
    if r in w.configs then Some(AsConfig(r, w.configs[r])) else None
  }

  /** The configs of one kind, by name. */
  function ConfigList(w: World, xrd: bool): seq<Config> {
    Listed(w, xrd, SortedKeys(NamesOfKind(w, xrd)))
  }

  function Listed(w: World, xrd: bool, names: seq<string>): (configs: seq<Config>)
    ensures forall c :: c in configs <==> exists n :: n in names && ConfigNamed(w, RefOf(xrd, n)) == Some(c)
    decreases |names|
  {
    if names == [] then []
    else
      var last := names[|names| - 1];
      assert names == names[..|names| - 1] + [last];
      Listed(w, xrd, names[..|names| - 1]) +
      if ConfigNamed(w, RefOf(xrd, last)).Some? then [ConfigNamed(w, RefOf(xrd, last)).value] else []
  }

  lemma ConfigListHas(w: World, xrd: bool, c: Config)
    ensures c in ConfigList(w, xrd) <==>
      exists r :: r in w.configs && r.XRDConfig? == xrd && c == AsConfig(r, w.configs[r])
  {
    var names := NamesOfKind(w, xrd);
    if c in ConfigList(w, xrd) {
      var n :| n in names && ConfigNamed(w, RefOf(xrd, n)) == Some(c);
      assert RefOf(xrd, n) in w.configs;
    }
    if r :| r in w.configs && r.XRDConfig? == xrd && c == AsConfig(r, w.configs[r]) {
      assert r == RefOf(xrd, r.name) && r.name in names;
      assert r.name in SortedKeys(names);
    }
  }

  predicate AssignedIn(h: Hash, w: World, r: Ref, server: string)
    requires r in w.configs
  {
    IsAssignedTo(h, AsConfig(r, w.configs[r]), ServerList(w), server)
  }

  predicate AppliedTo(w: World, r: Ref, server: string)
    requires r in w.configs
  {
    w.configs[r].applied.Some? && w.configs[r].applied.value.server == server
  }

  // ---- Steps ----

  function VerdictOn(h: Hash, w: World, server: string): Verdict
    requires server in w.servers
  {
    var o := w.servers[server];
    DeleteVerdict(h, ConfigList(w, true), ConfigList(w, false), ServerList(w), server, o.annotations, o.finalizer)
  }

  predicate LetsGo(h: Hash, w: World, n: string) {
    n in w.servers && w.servers[n].deleting && VerdictOn(h, w, n) == Released
  }

  function Do(h: Hash, w: World, step: Step): World {
    match step
    case CreateServer(s) =>
      if s.name == "" || s.name in w.servers then w
      else w.(servers := w.servers[s.name := Instance(s, map[], false, false, false)])
    case EditServer(s) =>
      if s.name in w.servers then w.(servers := w.servers[s.name := w.servers[s.name].(spec := s)]) else w
    case Annotate(n, annotations) =>
      if n in w.servers then w.(servers := w.servers[n := w.servers[n].(annotations := annotations)]) else w
    case Manage(n, ready) =>
      if n in w.servers && !w.servers[n].deleting
      then w.(servers := w.servers[n := w.servers[n].(finalizer := true, ready := ready)]) else w
    case RequestDelete(n) =>
      if n !in w.servers then w
      else if w.servers[n].finalizer then w.(servers := w.servers[n := w.servers[n].(deleting := true)])
      else w.(servers := w.servers - {n})
    case ReconcileDelete(n) =>
      if LetsGo(h, w, n) then w.(servers := w.servers - {n}) else w
    case PutConfig(r, ref, key) =>
      w.(configs := w.configs[r := Target(ref, key, if r in w.configs then w.configs[r].applied else None)])
    case DropConfig(r) =>
      w.(configs := w.configs - {r}, inFlight := w.inFlight - {r})
    case BeginApply(r, namespace) =>
      if r in w.configs && Resolves(h, w, r).Some? && Resolves(h, w, r).value in w.servers && w.servers[Resolves(h, w, r).value].ready
      then w.(inFlight := w.inFlight[r := Endpoint(Resolves(h, w, r).value, namespace, w.configs[r].shardKey)]) else w
    case CommitApply(r) =>
      if r in w.configs && r in w.inFlight
      then w.(configs := w.configs[r := w.configs[r].(applied := Some(w.inFlight[r]))], inFlight := w.inFlight - {r}) else w
  }

  function Resolves(h: Hash, w: World, r: Ref): Option<string>
    requires r in w.configs
  {
    var answer := Resolve(h, AsConfig(r, w.configs[r]), ServerList(w));
    if answer.Success? then Some(answer.value) else None
  }

  function Run(h: Hash, w: World, steps: seq<Step>): World
    decreases |steps|
  {
    if steps == [] then w else Run(h, Do(h, w, steps[0]), steps[1..])
  }

  // ---- Safety ----

  predicate Standing(w: World, server: string) {
    server in w.servers && w.servers[server].finalizer
  }

  /** Every applied URL names a server that exists and is protected by its finalizer. */
  ghost predicate NoDanglingURL(w: World) {
    forall r :: r in w.configs && w.configs[r].applied.Some? ==> Standing(w, w.configs[r].applied.value.server)
  }

  ghost predicate Named(w: World, server: string) {
    exists r :: r in w.configs && AppliedTo(w, r, server)
  }

  /** The two steps that leave a URL dangling: forcing the release of a named server, and
      writing a URL that was resolved before its server went away. */
  ghost predicate Dangles(w: World, step: Step) {
    match step
    case ReconcileDelete(n) =>
      n in w.servers && w.servers[n].deleting && Forced(w.servers[n].annotations) && Named(w, n)
    case CommitApply(r) => r in w.configs && r in w.inFlight && !Standing(w, w.inFlight[r].server)
    case _ => false
  }

  lemma DoConsistent(h: Hash, w: World, step: Step)
    requires Consistent(w)
    ensures Consistent(Do(h, w, step))
  {
    hide LetsGo, Resolves;
  }

  lemma InUseMeans(h: Hash, w: World, server: string)
    ensures InUse(h, ConfigList(w, true), ConfigList(w, false), ServerList(w), server) <==>
      exists r :: r in w.configs && ServedBy(h, AsConfig(r, w.configs[r]), ServerList(w), server)
  {
    var xrds, crds, list := ConfigList(w, true), ConfigList(w, false), ServerList(w);
    if InUse(h, xrds, crds, list, server) {
      var c :| (c in xrds || c in crds) && ServedBy(h, c, list, server);
      ConfigListHas(w, true, c);
      ConfigListHas(w, false, c);
      var r :| r in w.configs && c == AsConfig(r, w.configs[r]);
    }
    if exists r :: r in w.configs && ServedBy(h, AsConfig(r, w.configs[r]), list, server) {
      var r :| r in w.configs && ServedBy(h, AsConfig(r, w.configs[r]), list, server);
      var c := AsConfig(r, w.configs[r]);
      ConfigListHas(w, r.XRDConfig?, c);
      assert c in xrds || c in crds;
    }
  }

  lemma AppliedIsServed(h: Hash, w: World, r: Ref, server: string)
    requires r in w.configs && AppliedTo(w, r, server)
    ensures ServedBy(h, AsConfig(r, w.configs[r]), ServerList(w), server)
  {
    var e := w.configs[r].applied.value;
    PointsAtItself(server, e.namespace, e.target);
  }

  ghost predicate ServedIn(h: Hash, w: World, r: Ref, server: string)
    requires r in w.configs
  {
    ServedBy(h, AsConfig(r, w.configs[r]), ServerList(w), server)
  }

  lemma LetsGoMeans(h: Hash, w: World, n: string)
    requires n in w.servers && w.servers[n].deleting && w.servers[n].finalizer
    ensures LetsGo(h, w, n) <==>
      Forced(w.servers[n].annotations) || forall r :: r in w.configs ==> !ServedIn(h, w, r, n)
  {
    var xrds, crds, list := ConfigList(w, true), ConfigList(w, false), ServerList(w);
    var annotations := w.servers[n].annotations;
    InUseMeans(h, w, n);
    if !Forced(annotations) {
      HeldExactlyWhileInUse(h, xrds, crds, list, n, annotations);
      assert LetsGo(h, w, n) <==> !InUse(h, xrds, crds, list, n);
    }
  }

  /** In any state of any run, whatever the names: an unforced delete reconcile lets go
      of no server that a config resolves to or that an applied URL names. */
  lemma UnforcedReleaseIsUnused(h: Hash, w: World, server: string)
    requires LetsGo(h, w, server) && !Forced(w.servers[server].annotations)
    ensures forall r :: r in w.configs ==> !AssignedIn(h, w, r, server) && !AppliedTo(w, r, server)
  {
    LetsGoMeans(h, w, server);
    forall r | r in w.configs ensures !AssignedIn(h, w, r, server) && !AppliedTo(w, r, server) {
      assert !ServedIn(h, w, r, server);
      if AppliedTo(w, r, server) {
        AppliedIsServed(h, w, r, server);
      }
    }
  }

  ghost predicate DotFreeWorld(w: World) {
    forall r :: r in w.configs && w.configs[r].applied.Some? ==> DotFree(w.configs[r].applied.value.server)
  }

  /** Between dot-free names the guard is exact: a server being deleted is released
      exactly when it is forced, or nothing is assigned to it and no URL names it. */
  lemma ReleasedExactly(h: Hash, w: World, server: string)
    requires server in w.servers && w.servers[server].deleting && w.servers[server].finalizer
    requires DotFreeWorld(w) && DotFree(server)
    ensures LetsGo(h, w, server) <==>
      Forced(w.servers[server].annotations) ||
      forall r :: r in w.configs ==> !AssignedIn(h, w, r, server) && !AppliedTo(w, r, server)
  {
    LetsGoMeans(h, w, server);
    forall r | r in w.configs
      ensures ServedIn(h, w, r, server) <==> AssignedIn(h, w, r, server) || AppliedTo(w, r, server)
    {
      ServedExactly(h, w, r, server);
    }
  }

  lemma ServedExactly(h: Hash, w: World, r: Ref, server: string)
    requires DotFreeWorld(w) && DotFree(server) && r in w.configs
    ensures ServedIn(h, w, r, server) <==> AssignedIn(h, w, r, server) || AppliedTo(w, r, server)
  {
    if w.configs[r].applied.Some? {
      var e := w.configs[r].applied.value;
      PointsAtOnlyItself(e.server, e.namespace, e.target, server);
    }
  }

  /** One step from a state without dangling URLs leads to another one, except exactly in
      the two cases named. */
  lemma StepDanglesExactly(h: Hash, w: World, step: Step)
    requires Consistent(w) && NoDanglingURL(w)
    ensures NoDanglingURL(Do(h, w, step)) <==> !Dangles(w, step)
  {
    match step
    case ReconcileDelete(n) => ReleaseDanglesExactly(h, w, n);
    case CommitApply(r) => CommitDanglesExactly(h, w, r);
    case _ =>
  }

  lemma ReleaseDanglesExactly(h: Hash, w: World, n: string)
    requires NoDanglingURL(w)
    ensures NoDanglingURL(Do(h, w, ReconcileDelete(n))) <==> !Dangles(w, ReconcileDelete(n))
  {
    hide VerdictOn, AssignedIn, NoDanglingURL;
    var after := Do(h, w, ReconcileDelete(n));
    if LetsGo(h, w, n) {
      assert after == w.(servers := w.servers - {n});
      if Forced(w.servers[n].annotations) {
        GoneDanglesExactly(w, n);
      } else {
        UnforcedReleaseIsUnused(h, w, n);
        GoneDanglesExactly(w, n);
      }
    } else {
      assert after == w;
      HeldNeverDangles(h, w, n);
    }
  }

  lemma GoneDanglesExactly(w: World, n: string)
    requires NoDanglingURL(w)
    ensures NoDanglingURL(w.(servers := w.servers - {n})) <==> !Named(w, n)
  {
    if Named(w, n) {
      var r :| r in w.configs && AppliedTo(w, r, n);
      assert !Standing(w.(servers := w.servers - {n}), w.configs[r].applied.value.server);
    }
  }

  lemma HeldNeverDangles(h: Hash, w: World, n: string)
    requires NoDanglingURL(w) && !LetsGo(h, w, n)
    ensures !Dangles(w, ReconcileDelete(n))
  {
    if n in w.servers && w.servers[n].deleting && w.servers[n].finalizer {
      LetsGoMeans(h, w, n);
    }
  }

  lemma CommitDanglesExactly(h: Hash, w: World, r: Ref)
    requires NoDanglingURL(w)
    ensures NoDanglingURL(Do(h, w, CommitApply(r))) <==> !Dangles(w, CommitApply(r))
  {
    var after := Do(h, w, CommitApply(r));
    if r in w.configs && r in w.inFlight {
      assert after.configs[r].applied == Some(w.inFlight[r]);
    }
  }

  ghost predicate Unbroken(h: Hash, w: World, steps: seq<Step>)
    decreases |steps|
  {
    steps == [] || (!Dangles(w, steps[0]) && Unbroken(h, Do(h, w, steps[0]), steps[1..]))
  }

  /** Over any sequence of steps: no applied URL ever dangles, as long as no named server
      is released by force and no URL is written after its server went away. */
  lemma {:induction false} RunsKeepURLsServed(h: Hash, w: World, steps: seq<Step>, k: nat)
    requires Consistent(w) && NoDanglingURL(w) && Unbroken(h, w, steps) && k <= |steps|
    ensures Consistent(Run(h, w, steps[..k])) && NoDanglingURL(Run(h, w, steps[..k]))
    decreases |steps|
  {
    if k == 0 {
    } else {
      DoConsistent(h, w, steps[0]);
      StepDanglesExactly(h, w, steps[0]);
      RunsKeepURLsServed(h, Do(h, w, steps[0]), steps[1..], k - 1);
      assert steps[..k][1..] == steps[1..][..k - 1];
    }
  }

  lemma RunsFromEmpty(h: Hash, steps: seq<Step>, k: nat)
    requires Unbroken(h, EMPTY, steps) && k <= |steps|
    ensures NoDanglingURL(Run(h, EMPTY, steps[..k]))
  {
    RunsKeepURLsServed(h, EMPTY, steps, k);
  }

  /** An apply whose two halves run back to back never writes a dangling URL. */
  lemma ImmediateCommitIsSafe(h: Hash, w: World, r: Ref, namespace: string)
    requires Consistent(w) && r !in w.inFlight
    ensures !Dangles(Do(h, w, BeginApply(r, namespace)), CommitApply(r))
  {
  }

  // ---- The window between resolving and writing ----

  function Setup(c: Ref): seq<Step> {
    [CreateServer(Server("s", false, None)), Manage("s", true), PutConfig(c, Some("s"), "t")]
  }

  function Move(c: Ref): seq<Step> {
    [PutConfig(c, Some("other"), "t"), RequestDelete("s")]
  }

  function OverlappingRun(c: Ref): seq<Step> {
    Setup(c) + ([BeginApply(c, "ns")] + (Move(c) + [ReconcileDelete("s"), CommitApply(c)]))
  }

  /** Without any force: the config is moved off the server and the server released
      while an apply to it is still in flight. */
  lemma OverlapDangles(h: Hash, c: Ref)
    ensures !NoDanglingURL(Run(h, EMPTY, OverlappingRun(c)))
  {
    var s := Server("s", false, None);
    var o := Instance(s, map[], true, false, true);
    var e := Endpoint("s", "ns", "t");
    var w1 := World(map["s" := o], map[c := Target(Some("s"), "t", None)], map[]);
    var w2 := w1.(inFlight := map[c := e]);
    var w3 := World(map["s" := o.(deleting := true)], map[c := Target(Some("other"), "t", None)], map[c := e]);
    var w4 := World(map[], map[c := Target(Some("other"), "t", None)], map[c := e]);
    var w5 := World(map[], map[c := Target(Some("other"), "t", Some(e))], map[]);
    ThreeSteps(h, s, c);
    Applies(h, w1, c, s);
    TwoSteps(h, w2, c, s);
    Unpinned(h, w3, c, s);
    Commits(h, w4, c, e);
    assert !Standing(w5, w5.configs[c].applied.value.server);
    RunMore(h, EMPTY, Setup(c), [BeginApply(c, "ns")] + (Move(c) + [ReconcileDelete("s"), CommitApply(c)]));
    RunMore(h, w2, Move(c), [ReconcileDelete("s"), CommitApply(c)]);
    RunTwo(h, w3, ReconcileDelete("s"), CommitApply(c));
    assert Run(h, w1, [BeginApply(c, "ns")] + (Move(c) + [ReconcileDelete("s"), CommitApply(c)])) == w5;
  }

  lemma {:induction false} RunMore(h: Hash, w: World, first: seq<Step>, rest: seq<Step>)
    ensures Run(h, w, first + rest) == Run(h, Run(h, w, first), rest)
    decreases |first|
  {
    if first == [] {
      assert first + rest == rest;
    } else {
      RunMore(h, Do(h, w, first[0]), first[1..], rest);
      assert (first + rest)[1..] == first[1..] + rest;
    }
  }

  lemma RunTwo(h: Hash, w: World, a: Step, b: Step)
    ensures Run(h, w, [a, b]) == Do(h, Do(h, w, a), b)
  {
    assert [a, b][1..] == [b] && [b][1..] == [];
    assert Run(h, Do(h, w, a), [b]) == Run(h, Do(h, Do(h, w, a), b), []);
  }

  lemma RunThree(h: Hash, w: World, a: Step, b: Step, c: Step)
    ensures Run(h, w, [a, b, c]) == Do(h, Do(h, Do(h, w, a), b), c)
  {
    assert [a, b, c][1..] == [b, c];
    RunTwo(h, Do(h, w, a), b, c);
  }

  lemma Commits(h: Hash, w: World, c: Ref, e: Endpoint)
    requires w == World(map[], map[c := Target(Some("other"), "t", None)], map[c := e])
    ensures Do(h, w, CommitApply(c)) == World(map[], map[c := Target(Some("other"), "t", Some(e))], map[])
  {
    assert w.inFlight - {c} == map[];
  }

  lemma ThreeSteps(h: Hash, s: Server, c: Ref)
    requires s == Server("s", false, None)
    ensures Run(h, EMPTY, Setup(c)) ==
      World(map["s" := Instance(s, map[], true, false, true)], map[c := Target(Some("s"), "t", None)], map[])
  {
    RunThree(h, EMPTY, CreateServer(s), Manage("s", true), PutConfig(c, Some("s"), "t"));
  }

  lemma TwoSteps(h: Hash, w: World, c: Ref, s: Server)
    requires w.servers == map["s" := Instance(s, map[], true, false, true)] && w.configs == map[c := Target(Some("s"), "t", None)]
    ensures Run(h, w, Move(c)) ==
      World(map["s" := Instance(s, map[], true, true, true)], map[c := Target(Some("other"), "t", None)], w.inFlight)
  {
    RunTwo(h, w, PutConfig(c, Some("other"), "t"), RequestDelete("s"));
  }

  lemma Applies(h: Hash, w: World, c: Ref, s: Server)
    requires s.name == "s" && w == World(map["s" := Instance(s, map[], true, false, true)], map[c := Target(Some("s"), "t", None)], map[])
    ensures Do(h, w, BeginApply(c, "ns")) == w.(inFlight := map[c := Endpoint("s", "ns", "t")])
  {
    PinnedInOne(h, w, c, "s", s);
  }

  lemma Unpinned(h: Hash, w: World, c: Ref, s: Server)
    requires s.name == "s" && w.servers == map["s" := Instance(s, map[], true, true, true)] && w.configs == map[c := Target(Some("other"), "t", None)]
    ensures Do(h, w, ReconcileDelete("s")) == w.(servers := map[])
  {
    hide LetsGo;
    Goes(h, w, c, s);
    assert w.servers - {"s"} == map[];
  }

  lemma Goes(h: Hash, w: World, c: Ref, s: Server)
    requires s.name == "s" && w.servers == map["s" := Instance(s, map[], true, true, true)] && w.configs == map[c := Target(Some("other"), "t", None)]
    ensures LetsGo(h, w, "s")
  {
    NotServed(h, w, c, s);
    NoneServedGoes(h, w, "s");
  }

  lemma NoneServedGoes(h: Hash, w: World, n: string)
    requires n in w.servers && w.servers[n].deleting && w.servers[n].finalizer
    requires forall r :: r in w.configs ==> !ServedIn(h, w, r, n)
    ensures LetsGo(h, w, n)
  {
    LetsGoMeans(h, w, n);
  }

  lemma NotServed(h: Hash, w: World, c: Ref, s: Server)
    requires w.servers.Keys == {"s"} && w.servers["s"].spec == s && s.name == "s"
    requires c in w.configs && w.configs[c].ref == Some("other") && w.configs[c].applied.None?
    ensures !ServedIn(h, w, c, "s")
  {
    PinnedInOne(h, w, c, "other", s);
  }

  lemma PinnedInOne(h: Hash, w: World, c: Ref, ref: string, s: Server)
    requires w.servers.Keys == {"s"} && w.servers["s"].spec == s && s.name == "s"
    requires c in w.configs && w.configs[c].ref == Some(ref) && ref != ""
    ensures Resolve(h, AsConfig(c, w.configs[c]), ServerList(w)) ==
      if ref == "s" then Success("s") else Failure(RefMissing(ref))
  {
    assert SortedKeys({"s"}) == ["s"] by {
      var keys := SortedKeys({"s"});
      assert |keys| == 1 && keys[0] in keys;
    }
    assert ServerList(w) == [s];
    assert Names([s]) == ["s"];
  }
}
