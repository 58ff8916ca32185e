/** internal/cli/test.go: one conversion path, one sample, and the whole run on the
    worker pool. */
module TestRun {
  import opened Wrappers
  import opened Json
  import opened Diff
  import opened DiffPaths
  import opened WorkerPool

  type Object = map<string, Json>

  datatype Outcome = Pass | Loss | Fail | Error

  datatype Matched = Identity | Rules(ids: seq<string>)

  datatype PathResult = PathResult(from: string, to: string, outcome: Outcome, matched: Matched)

  datatype Sample = Sample(version: string, obj: Object)

  datatype SpokeRules = SpokeRules(version: string, ids: seq<string>)

  /** What a run is given besides its samples: the router, the output validator's
      violation count, the declared lossy paths per spoke, the rules per spoke. */
  datatype Env = Env(
    hub: string,
    convert: (Object, string, string) -> Option<Object>,
    violations: (Object, string) -> nat,
    lossy: map<string, set<string>>,
    rules: seq<SpokeRules>,
    configured: seq<string>,
    targets: seq<string>,
    skipIdentity: bool)

  // ---- Tallies ----

  datatype Counts = Counts(tested: nat, pass: nat, acknowledged: nat, unacknowledged: nat, errors: nat)

  const NO_COUNTS := Counts(0, 0, 0, 0, 0)

  function AddCounts(a: Counts, b: Counts): Counts {
    Counts(a.tested + b.tested, a.pass + b.pass, a.acknowledged + b.acknowledged, a.unacknowledged + b.unacknowledged, a.errors + b.errors)
  }

  function CountOf(o: Outcome): Counts {
    match o
    case Pass => Counts(1, 1, 0, 0, 0)
    case Loss => Counts(1, 0, 1, 0, 0)
    case Fail => Counts(1, 0, 0, 1, 0)
    case Error => Counts(1, 0, 0, 0, 1)
  }

  function Number(paths: seq<PathResult>, o: Outcome): nat
    decreases |paths|
  {
    if paths == [] then 0
    else Number(paths[..|paths| - 1], o) + if paths[|paths| - 1].outcome == o then 1 else 0
  }

  /** Counting a list of path results afresh. */
  function Recount(paths: seq<PathResult>): Counts {
    Counts(|paths|, Number(paths, Pass), Number(paths, Loss), Number(paths, Fail), Number(paths, Error))
  }

  type Usage = map<string, nat>

  function Uses(u: Usage, id: string): nat {
    if id in u then u[id] else 0
  }

  function Merge(u: Usage, v: Usage): Usage {
    map id | id in u.Keys + v.Keys :: Uses(u, id) + Uses(v, id)
  }

  lemma MergeAssociative(u: Usage, v: Usage, w: Usage)
    ensures Merge(Merge(u, v), w) == Merge(u, Merge(v, w))
  {
    var left, right := Merge(Merge(u, v), w), Merge(u, Merge(v, w));
    hide Merge, Uses;
    forall id ensures (id in left <==> id in right) && Uses(left, id) == Uses(right, id) {
      MergeAt(u, v, id);
      MergeAt(Merge(u, v), w, id);
      MergeAt(v, w, id);
      MergeAt(u, Merge(v, w), id);
    }
    SameUsage(left, right);
  }

  lemma MergeAt(u: Usage, v: Usage, id: string)
    ensures Uses(Merge(u, v), id) == Uses(u, id) + Uses(v, id)
    ensures id in Merge(u, v) <==> id in u || id in v
  {
  }

  lemma MergeLast(u: Usage, v: Usage, w: Usage)
    ensures Merge(Merge(u, v), w) == Merge(Merge(u, w), v)
  {
    MergeAssociative(u, v, w);
    MergeAssociative(u, w, v);
    assert Merge(v, w) == Merge(w, v);
  }

  lemma SameUsage(u: Usage, v: Usage)
    requires forall id :: (id in u <==> id in v) && Uses(u, id) == Uses(v, id)
    ensures u == v
  {
    forall id | id in u ensures u[id] == v[id] {
      assert Uses(u, id) == Uses(v, id);
    }
  }

  lemma MergeNothing(u: Usage)
    ensures Merge(u, map[]) == u && Merge(map[], u) == u
  {
  }

  function Occurrences(id: string, ids: seq<string>): nat
    decreases |ids|
  {
    if ids == [] then 0
    else Occurrences(id, ids[..|ids| - 1]) + if ids[|ids| - 1] == id then 1 else 0
  }

  function UsageOf(ids: seq<string>): Usage {
    map id | id in ids :: Occurrences(id, ids)
  }

  function MatchedUsage(m: Matched): Usage {
    match m
    case Identity => map[]
    case Rules(ids) => UsageOf(ids)
  }

  /** Rule usage read back from a list of path results. */
  function Reuse(paths: seq<PathResult>): Usage
    decreases |paths|
  {
    if paths == [] then map[]
    else Merge(Reuse(paths[..|paths| - 1]), MatchedUsage(paths[|paths| - 1].matched))
  }

  lemma {:induction false} NotOccurring(id: string, ids: seq<string>)
    requires id !in ids
    ensures Occurrences(id, ids) == 0
    decreases |ids|
  {
    if ids == [] {
    } else {
      NotOccurring(id, ids[..|ids| - 1]);
    }
  }

  lemma UsageAppend(ids: seq<string>, id: string)
    ensures UsageOf(ids + [id]) == UsageOf(ids)[id := Uses(UsageOf(ids), id) + 1]
  {
    assert (ids + [id])[..|ids|] == ids;
    if id !in ids {
      NotOccurring(id, ids);
    }
    assert forall x :: x in ids + [id] <==> x in ids || x == id;
  }

  // ---- One path ----

  function TouchedSpokes(from: string, to: string, hub: string): seq<string> {
    (if from != hub then [from] else []) + (if to != hub && to != from then [to] else [])
  }

  function RulesTouched(rules: seq<SpokeRules>, spokes: seq<string>): seq<string>
    decreases |rules|
  {
    if rules == [] then []
    else
      var last := rules[|rules| - 1];
      RulesTouched(rules[..|rules| - 1], spokes) + if last.version in spokes then last.ids else []
  }

  predicate Acknowledged(env: Env, spokes: seq<string>, path: string) {
    exists spoke :: spoke in spokes && spoke in env.lossy && Covers(path, env.lossy[spoke])
  }

  function Differences(a: Object, b: Object): set<string> {
    RenderAll(DiffAt([], Obj(a), Obj(b)))
  }

  function Classify(env: Env, s: Sample, target: string, forward: Object, back: Object): Outcome {
    var diffs := Differences(s.obj, back);
    if env.violations(forward, target) > 0 then Error
    else if exists d :: d in diffs && !Acknowledged(env, TouchedSpokes(s.version, target, env.hub), d) then Fail
    else if diffs != {} then Loss
    else Pass
  }

  function PathOf(env: Env, s: Sample, target: string): PathResult {
    if s.version == target then PathResult(s.version, target, Pass, Identity)
    else
      var forward := env.convert(s.obj, s.version, target);
      if forward.None? then PathResult(s.version, target, Error, Rules([]))
      else
        var back := env.convert(forward.value, target, s.version);
        if back.None? then PathResult(s.version, target, Error, Rules([]))
        else PathResult(s.version, target, Classify(env, s, target, forward.value, back.value),
               Rules(RulesTouched(env.rules, TouchedSpokes(s.version, target, env.hub))))
  }

  method TestOnePath(env: Env, s: Sample, target: string, usageBefore: Usage) returns (pr: PathResult, usage: Usage)
    ensures pr == PathOf(env, s, target)
    ensures usage == Merge(usageBefore, MatchedUsage(pr.matched))
  {
    usage := usageBefore;
    if s.version == target {
      return PathResult(s.version, target, Pass, Identity), usage;
    }
    var forward := env.convert(s.obj, s.version, target);
    if forward.None? {
      return PathResult(s.version, target, Error, Rules([])), usage;
    }
    var back := env.convert(forward.value, target, s.version);
    if back.None? {
      return PathResult(s.version, target, Error, Rules([])), usage;
    }
    var spokes := TouchedSpokes(s.version, target, env.hub);
    var diffs := DiffLeaves(s.obj, back.value);
    var unacknowledged := 0;
    for i := 0 to |diffs|
      invariant unacknowledged > 0 <==> exists j :: 0 <= j < i && !Acknowledged(env, spokes, diffs[j])
    {
      var ack := AcknowledgedBy(env, spokes, diffs[i]);
      if !ack {
        unacknowledged := unacknowledged + 1;
      }
    }
    var outcome :=
      if env.violations(forward.value, target) > 0 then Error
      else if unacknowledged > 0 then Fail
      else if |diffs| > 0 then Loss
      else Pass;
    assert outcome == Classify(env, s, target, forward.value, back.value) by {
      SameClass(env, s, target, back.value, diffs);
    }
    var ids;
    ids, usage := CountRules(env.rules, spokes, usageBefore);
    pr := PathResult(s.version, target, outcome, Rules(ids));
  }

  lemma SameClass(env: Env, s: Sample, target: string, back: Object, diffs: seq<string>)
    requires forall d :: d in diffs <==> d in Differences(s.obj, back)
    ensures diffs == [] <==> Differences(s.obj, back) == {}
    ensures var spokes := TouchedSpokes(s.version, target, env.hub);
      (exists j :: 0 <= j < |diffs| && !Acknowledged(env, spokes, diffs[j])) <==>
      exists d :: d in Differences(s.obj, back) && !Acknowledged(env, spokes, d)
  {
    if diffs != [] {
      assert diffs[0] in diffs;
    }
    if Differences(s.obj, back) != {} {
      var d :| d in Differences(s.obj, back);
      assert d in diffs;
    }
    var spokes := TouchedSpokes(s.version, target, env.hub);
    if d :| d in Differences(s.obj, back) && !Acknowledged(env, spokes, d) {
      assert d in diffs;
      var j :| 0 <= j < |diffs| && diffs[j] == d;
    }
    if j :| 0 <= j < |diffs| && !Acknowledged(env, spokes, diffs[j]) {
      assert diffs[j] in diffs;
    }
  }

  method AcknowledgedBy(env: Env, spokes: seq<string>, path: string) returns (ack: bool)
    ensures ack == Acknowledged(env, spokes, path)
  {
    for i := 0 to |spokes|
      invariant forall j :: 0 <= j < i ==> !(spokes[j] in env.lossy && Covers(path, env.lossy[spokes[j]]))
    {
      var declared := if spokes[i] in env.lossy then env.lossy[spokes[i]] else {};
      var found := PathMatchesAny(path, declared);
      if found {
        assert spokes[i] in spokes;
        return true;
      }
    }
    ack := false;
  }

  method CountRules(rules: seq<SpokeRules>, spokes: seq<string>, usageBefore: Usage) returns (ids: seq<string>, usage: Usage)
    ensures ids == RulesTouched(rules, spokes)
    ensures usage == Merge(usageBefore, UsageOf(ids))
  {
    ids, usage := [], usageBefore;
    for i := 0 to |rules|
      invariant ids == RulesTouched(rules[..i], spokes)
      invariant usage == Merge(usageBefore, UsageOf(ids))
    {
      assert rules[..i + 1][..i] == rules[..i];
      if rules[i].version in spokes {
        ids, usage := CountIds(rules[i].ids, ids, usage, usageBefore);
      }
    }
    assert rules[..|rules|] == rules;
  }

  method CountIds(more: seq<string>, idsBefore: seq<string>, usageIn: Usage, ghost base: Usage) returns (ids: seq<string>, usage: Usage)
    requires usageIn == Merge(base, UsageOf(idsBefore))
    ensures ids == idsBefore + more
    ensures usage == Merge(base, UsageOf(ids))
  {
    ids, usage := idsBefore, usageIn;
    for j := 0 to |more|
      invariant ids == idsBefore + more[..j]
      invariant usage == Merge(base, UsageOf(ids))
    {
      var id := more[j];
      assert more[..j + 1] == more[..j] + [id];
      MergeOneMore(base, ids, id);
      usage := usage[id := Uses(usage, id) + 1];
      ids := ids + [id];
    }
    assert more[..|more|] == more;
  }

  lemma MergeOneMore(base: Usage, ids: seq<string>, id: string)
    ensures Merge(base, UsageOf(ids + [id])) ==
      Merge(base, UsageOf(ids))[id := Uses(Merge(base, UsageOf(ids)), id) + 1]
  {
    UsageAppend(ids, id);
    MergeBump(base, UsageOf(ids), id);
  }

  lemma MergeBump(base: Usage, u: Usage, id: string)
    ensures Merge(base, u[id := Uses(u, id) + 1]) == Merge(base, u)[id := Uses(Merge(base, u), id) + 1]
  {
  }

  /** A path that is not the identity passes exactly when both conversions succeed, the
      result violates no schema, and the round trip agrees with the sample everywhere
      outside the ignored fields. */
  lemma PassesExactly(env: Env, s: Sample, target: string)
    requires s.version != target
    ensures PathOf(env, s, target).outcome == Pass <==>
      var forward := env.convert(s.obj, s.version, target);
      forward.Some? &&
      var back := env.convert(forward.value, target, s.version);
      back.Some? && env.violations(forward.value, target) == 0 &&
      Canon([], Obj(s.obj)) == Canon([], Obj(back.value))
  {
    hide DiffAt, Canon, Acknowledged, RulesTouched;
    var forward := env.convert(s.obj, s.version, target);
    if forward.Some? && env.convert(forward.value, target, s.version).Some? {
      var back := env.convert(forward.value, target, s.version).value;
      EmptyExactlyWhenAgree([], Obj(s.obj), Obj(back));
      var ps := DiffAt([], Obj(s.obj), Obj(back));
      if ps != {} {
        var p :| p in ps;
        assert Render(p) in RenderAll(ps);
      }
    }
  }

  /** A declared lossy path of a spoke on the way is the position's own dotted keys or
      those of an ancestor. */
  ghost predicate Declared(env: Env, spokes: seq<string>, p: Position) {
    exists spoke :: spoke in spokes && spoke in env.lossy &&
      exists keys :: keys != [] && keys <= KeysOf(p) && Join(keys) in env.lossy[spoke]
  }

  lemma AcknowledgedMeans(env: Env, spokes: seq<string>, a: Object, b: Object, p: Position)
    requires Clean(Obj(a)) && Clean(Obj(b)) && p in DiffAt([], Obj(a), Obj(b))
    ensures Acknowledged(env, spokes, Render(p)) <==> Declared(env, spokes, p)
  {
    hide DiffAt, Clean;
    CleanDiff([], Obj(a), Obj(b), p);
    DiffStartsWithKey(a, b, p);
    forall spoke | spoke in spokes && spoke in env.lossy
      ensures Covers(Render(p), env.lossy[spoke]) <==>
        exists keys :: keys != [] && keys <= KeysOf(p) && Join(keys) in env.lossy[spoke]
    {
      CoveredExactly(p, env.lossy[spoke]);
    }
  }

  /** With clean keys, a round trip that converts and violates nothing fails exactly when
      it changes some field that no rule on the way declares lossy, and is an
      acknowledged loss exactly when it changes some and all of them are declared. */
  lemma FailsExactly(env: Env, s: Sample, target: string, forward: Object, back: Object)
    requires Clean(Obj(s.obj)) && Clean(Obj(back)) && env.violations(forward, target) == 0
    ensures var spokes := TouchedSpokes(s.version, target, env.hub); var ps := DiffAt([], Obj(s.obj), Obj(back));
      && (Classify(env, s, target, forward, back) == Fail <==> exists p :: p in ps && !Declared(env, spokes, p))
      && (Classify(env, s, target, forward, back) == Loss <==> ps != {} && forall p :: p in ps ==> Declared(env, spokes, p))
  {
    hide DiffAt, Clean, Covers, Declared;
    var spokes := TouchedSpokes(s.version, target, env.hub);
    var ps := DiffAt([], Obj(s.obj), Obj(back));
    forall p | p in ps ensures Acknowledged(env, spokes, Render(p)) <==> Declared(env, spokes, p) {
      AcknowledgedMeans(env, spokes, s.obj, back, p);
    }
    assert forall p :: p in ps ==> Render(p) in Differences(s.obj, back);
    assert ps != {} ==> Differences(s.obj, back) != {} by {
      if ps != {} {
        var p :| p in ps;
        assert Render(p) in Differences(s.obj, back);
      }
    }
  }

  // ---- One sample ----

  function PathsOf(env: Env, s: Sample, targets: seq<string>): seq<PathResult>
    decreases |targets|
  {
    if targets == [] then []
    else
      var target := targets[|targets| - 1];
      PathsOf(env, s, targets[..|targets| - 1]) +
      if env.skipIdentity && target == s.version then [] else [PathOf(env, s, target)]
  }

  function SamplePaths(env: Env, s: Sample): seq<PathResult> {
    if s.version !in env.configured then [PathResult(s.version, s.version, Error, Rules([]))]
    else PathsOf(env, s, env.targets)
  }

  /** One result per target, the identity left out when it is skipped, in order. */
  lemma {:induction false} OnePathPerTarget(env: Env, s: Sample, targets: seq<string>, r: PathResult)
    ensures r in PathsOf(env, s, targets) <==>
      exists t :: t in targets && !(env.skipIdentity && t == s.version) && r == PathOf(env, s, t)
    ensures !env.skipIdentity || s.version !in targets ==> |PathsOf(env, s, targets)| == |targets|
    decreases |targets|
  {
    hide PathOf;
    if targets == [] {
    } else {
      var n := |targets| - 1;
      assert targets == targets[..n] + [targets[n]];
      OnePathPerTarget(env, s, targets[..n], r);
    }
  }

  datatype SampleOutcome = SampleOutcome(paths: seq<PathResult>, counts: Counts, usage: Usage)

  method TestOneSample(env: Env, s: Sample) returns (sr: seq<PathResult>, counts: Counts, usage: Usage)
    ensures sr == SamplePaths(env, s)
    ensures counts == Recount(sr) && usage == Reuse(sr)
  {
    hide PathsOf, Recount, Reuse, AddCounts, CountOf;
    if s.version !in env.configured {
      sr, counts, usage := [PathResult(s.version, s.version, Error, Rules([]))], NO_COUNTS, map[];
      counts := CountOne(counts, Error);
      RecountUnconfigured(sr[0]);
    } else {
      sr, counts, usage := TestTargets(env, s, env.targets);
    }
  }

  lemma RecountUnconfigured(pr: PathResult)
    requires pr.outcome == Error && pr.matched == Rules([])
    ensures Recount([pr]) == AddCounts(NO_COUNTS, CountOf(Error)) && Reuse([pr]) == map[]
  {
    hide Recount, Reuse, Merge, AddCounts, CountOf;
    RecountMore([], pr);
    ReuseMore([], pr);
    RecountNothing();
    MergeNothing(map[]);
    assert UsageOf([]) == map[];
    assert [] + [pr] == [pr];
  }

  lemma RecountNothing()
    ensures Recount([]) == NO_COUNTS && Reuse([]) == map[]
  {
  }

  method TestTargets(env: Env, s: Sample, targets: seq<string>) returns (sr: seq<PathResult>, counts: Counts, usage: Usage)
    ensures sr == PathsOf(env, s, targets)
    ensures counts == Recount(sr) && usage == Reuse(sr)
  {
    hide PathOf, Recount, Reuse;
    RecountNothing();
    sr, counts, usage := [], NO_COUNTS, map[];
    for i := 0 to |targets|
      invariant sr == PathsOf(env, s, targets[..i])
      invariant counts == Recount(sr) && usage == Reuse(sr)
    {
      assert targets[..i + 1] == targets[..i] + [targets[i]];
      PathsMore(env, s, targets[..i], targets[i]);
      if !(env.skipIdentity && targets[i] == s.version) {
        sr, counts, usage := TestTarget(env, s, targets[i], sr, counts, usage);
      }
    }
    assert targets[..|targets|] == targets;
  }

  method TestTarget(env: Env, s: Sample, target: string, srBefore: seq<PathResult>, countsBefore: Counts, usageBefore: Usage)
    returns (sr: seq<PathResult>, counts: Counts, usage: Usage)
    requires countsBefore == Recount(srBefore) && usageBefore == Reuse(srBefore)
    ensures sr == srBefore + [PathOf(env, s, target)]
    ensures counts == Recount(sr) && usage == Reuse(sr)
  {
    var pr;
    pr, usage := TestOnePath(env, s, target, usageBefore);
    counts := CountOne(countsBefore, pr.outcome);
    sr := srBefore + [pr];
    RecountMore(srBefore, pr);
    ReuseMore(srBefore, pr);
  }

  method CountOne(before: Counts, outcome: Outcome) returns (counts: Counts)
    ensures counts == AddCounts(before, CountOf(outcome))
  {
    counts := before.(tested := before.tested + 1);
    match outcome
    case Pass => counts := counts.(pass := counts.pass + 1);
    case Loss => counts := counts.(acknowledged := counts.acknowledged + 1);
    case Fail => counts := counts.(unacknowledged := counts.unacknowledged + 1);
    case Error => counts := counts.(errors := counts.errors + 1);
  }

  lemma PathsMore(env: Env, s: Sample, targets: seq<string>, target: string)
    ensures PathsOf(env, s, targets + [target]) ==
      PathsOf(env, s, targets) + if env.skipIdentity && target == s.version then [] else [PathOf(env, s, target)]
  {
    assert (targets + [target])[..|targets|] == targets;
  }

  lemma RecountMore(sr: seq<PathResult>, pr: PathResult)
    ensures Recount(sr + [pr]) == AddCounts(Recount(sr), CountOf(pr.outcome))
  {
    assert (sr + [pr])[..|sr|] == sr;
  }

  lemma ReuseMore(sr: seq<PathResult>, pr: PathResult)
    ensures Reuse(sr + [pr]) == Merge(Reuse(sr), MatchedUsage(pr.matched))
  {
    assert (sr + [pr])[..|sr|] == sr;
  }

  // ---- The whole run ----

  datatype Summary = Summary(counts: Counts, usage: Usage, done: nat)

  function OutcomeOf(env: Env, s: Sample): SampleOutcome {
    SampleOutcome(SamplePaths(env, s), Recount(SamplePaths(env, s)), Reuse(SamplePaths(env, s)))
  }

  function AddOutcome(total: Summary, r: SampleOutcome): Summary {
    Summary(AddCounts(total.counts, r.counts), Merge(total.usage, r.usage), total.done + 1)
  }

  function TestJob(env: Env, samples: seq<Sample>): Job<SampleOutcome, Summary> {
    Job(|samples|,
        (i: nat) => if i < |samples| then OutcomeOf(env, samples[i]) else SampleOutcome([], NO_COUNTS, map[]),
        AddOutcome,
        Summary(NO_COUNTS, map[], 0))
  }

  lemma OutcomesCommute(a: Summary, x: SampleOutcome, y: SampleOutcome)
    ensures AddOutcome(AddOutcome(a, x), y) == AddOutcome(AddOutcome(a, y), x)
  {
    hide Merge;
    MergeLast(a.usage, x.usage, y.usage);
  }

  lemma TestJobCommutes(env: Env, samples: seq<Sample>)
    ensures Commutes(TestJob(env, samples))
  {
    hide AddOutcome;
    forall a: Summary, x: SampleOutcome, y: SampleOutcome ensures AddOutcome(AddOutcome(a, x), y) == AddOutcome(AddOutcome(a, y), x) {
      OutcomesCommute(a, x, y);
    }
  }

  function AllPaths(env: Env, samples: seq<Sample>): seq<PathResult>
    decreases |samples|
  {
    if samples == [] then []
    else AllPaths(env, samples[..|samples| - 1]) + SamplePaths(env, samples[|samples| - 1])
  }

  lemma RecountAppend(p: seq<PathResult>, q: seq<PathResult>)
    ensures Recount(p + q) == AddCounts(Recount(p), Recount(q))
  {
    forall o: Outcome ensures Number(p + q, o) == Number(p, o) + Number(q, o) {
      NumberAppend(p, q, o);
    }
  }

  lemma {:induction false} NumberAppend(p: seq<PathResult>, q: seq<PathResult>, o: Outcome)
    ensures Number(p + q, o) == Number(p, o) + Number(q, o)
    decreases |q|
  {
    if q == [] {
      assert p + q == p;
    } else {
      assert (p + q)[..|p + q| - 1] == p + q[..|q| - 1];
      NumberAppend(p, q[..|q| - 1], o);
    }
  }

  lemma {:induction false} ReuseAppend(p: seq<PathResult>, q: seq<PathResult>)
    ensures Reuse(p + q) == Merge(Reuse(p), Reuse(q))
    decreases |q|
  {
    if q == [] {
      assert p + q == p;
      MergeNothing(Reuse(p));
    } else {
      var init, last := q[..|q| - 1], q[|q| - 1];
      assert p + q == (p + init) + [last];
      ReuseMore(p + init, last);
      ReuseAppend(p, init);
      MergeAssociative(Reuse(p), Reuse(init), MatchedUsage(last.matched));
    }
  }

  /** The tally over the first k samples is a recount of their path results. */
  lemma {:induction false} FoldRecounts(env: Env, samples: seq<Sample>, k: nat)
    requires k <= |samples|
    ensures var paths := AllPaths(env, samples[..k]);
      Fold(TestJob(env, samples), UpTo(k)) == Summary(Recount(paths), Reuse(paths), k)
    decreases k
  {
    hide Recount, Reuse, SamplePaths, Merge, AddCounts, AllPaths, Fold, AddOutcome, TestJob;
    if k == 0 {
      FoldNone(env, samples);
    } else {
      var p, q := AllPaths(env, samples[..k - 1]), SamplePaths(env, samples[k - 1]);
      FoldRecounts(env, samples, k - 1);
      FoldStep(env, samples, k);
      AddRecounts(p, q, k - 1);
      AllPathsMore(env, samples, k);
    }
  }

  lemma FoldNone(env: Env, samples: seq<Sample>)
    ensures Fold(TestJob(env, samples), UpTo(0)) == Summary(Recount(AllPaths(env, samples[..0])), Reuse(AllPaths(env, samples[..0])), 0)
  {
  }

  lemma AllPathsMore(env: Env, samples: seq<Sample>, k: nat)
    requires 0 < k <= |samples|
    ensures AllPaths(env, samples[..k]) == AllPaths(env, samples[..k - 1]) + SamplePaths(env, samples[k - 1])
  {
    assert samples[..k][..k - 1] == samples[..k - 1];
  }

  lemma AddRecounts(p: seq<PathResult>, q: seq<PathResult>, n: nat)
    ensures AddOutcome(Summary(Recount(p), Reuse(p), n), SampleOutcome(q, Recount(q), Reuse(q))) ==
      Summary(Recount(p + q), Reuse(p + q), n + 1)
  {
    hide Recount, Reuse, Merge, AddCounts;
    RecountAppend(p, q);
    ReuseAppend(p, q);
  }

  lemma FoldStep(env: Env, samples: seq<Sample>, k: nat)
    requires 0 < k <= |samples|
    ensures var job := TestJob(env, samples);
      Fold(job, UpTo(k)) == AddOutcome(Fold(job, UpTo(k - 1)), OutcomeOf(env, samples[k - 1]))
  {
    assert UpTo(k)[..k - 1] == UpTo(k - 1);
  }

  /** Every path result is in exactly one class. */
  lemma {:induction false} RecountConserves(paths: seq<PathResult>)
    ensures var c := Recount(paths);
      c.tested == |paths| == c.pass + c.acknowledged + c.unacknowledged + c.errors
    decreases |paths|
  {
    if paths == [] {
    } else {
      RecountConserves(paths[..|paths| - 1]);
    }
  }

  function TotalUses(id: string, paths: seq<PathResult>): nat
    decreases |paths|
  {
    if paths == [] then 0
    else
      var m := paths[|paths| - 1].matched;
      TotalUses(id, paths[..|paths| - 1]) + if m.Identity? then 0 else Occurrences(id, m.ids)
  }

  lemma {:induction false} ReuseCounts(paths: seq<PathResult>, id: string)
    ensures Uses(Reuse(paths), id) == TotalUses(id, paths)
    decreases |paths|
  {
    if paths == [] {
    } else {
      ReuseCounts(paths[..|paths| - 1], id);
      var m := paths[|paths| - 1].matched;
      if m.Rules? && id !in m.ids {
        NotOccurring(id, m.ids);
      }
    }
  }

  /** Every interleaving of every number of workers reports the same: sample i's result
      at index i, a summary that is a recount of the reported path results, every path
      in exactly one class, and every rule's usage the number of times it is listed. */
  lemma EveryRunReportsTheSame(env: Env, samples: seq<Sample>, option: int, procs: int, states: seq<Pool<SampleOutcome, Summary>>)
    requires Run(TestJob(env, samples), states)
    requires states[0] == Start(TestJob(env, samples), EffectiveConcurrency(option, procs, |samples|))
    requires Halted(TestJob(env, samples), states[|states| - 1])
    ensures var last := states[|states| - 1]; var paths := AllPaths(env, samples);
      && |last.results| == |samples|
      && (forall i :: 0 <= i < |samples| ==> last.results[i] == Some(OutcomeOf(env, samples[i])))
      && last.total == Summary(Recount(paths), Reuse(paths), |samples|)
  {
    hide Recount, Reuse, Merge, AddCounts, SamplePaths, Run, Commutes, EffectiveConcurrency;
    var job := TestJob(env, samples);
    TestJobCommutes(env, samples);
    EveryRunIsSequential(job, EffectiveConcurrency(option, procs, |samples|), states);
    FoldRecounts(env, samples, |samples|);
    assert samples[..|samples|] == samples;
  }
}
