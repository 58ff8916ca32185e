/** internal/cli/migratestorage.go: rewriting every object at the storage version, and
    when the record of older stored versions may be dropped. */
module Migrate {
  import opened Wrappers
  import opened WorkerPool

  datatype Id = Id(crd: string, namespace: string, name: string)

  datatype Target = Target(crd: string, storageVersion: string, namespaced: bool)

  datatype Options = Options(dryRun: bool, prune: bool, namespace: string)

  /** What the API server holds: the version each object is encoded at in etcd, and each
      CRD's status.storedVersions. */
  datatype State = State(objects: map<Id, string>, stored: map<string, seq<string>>)

  /** Calls that may fail: listing a CRD's objects, applying to one object, updating a
      CRD's status. */
  datatype Api = Api(
    list: (map<Id, string>, string, string) -> Option<seq<Id>>,
    applyFails: Id -> bool,
    pruneFails: string -> bool)

  datatype MigrateError = PruneNeedsAllNamespaces | ListFailed(crd: string)

  datatype ObjectResult = ObjectResult(id: Id, failed: bool)

  datatype CRDReport = CRDReport(target: Target, objects: seq<ObjectResult>, succeeded: nat, failed: nat, pruned: bool, pruneError: bool)

  datatype Report = Report(crds: seq<CRDReport>, objects: seq<ObjectResult>, succeeded: nat, failed: nat, pruned: bool, pruneError: bool)

  // ---- One object, one CRD ----

  /** An object of a namespaced CRD without a namespace fails before any call. */
  predicate OneFails(api: Api, t: Target, id: Id) {
    (t.namespaced && id.namespace == "") || api.applyFails(id)
  }

  function MigrateOne(api: Api, t: Target, id: Id): ObjectResult {
    ObjectResult(id, OneFails(api, t, id))
  }

  /** A successful apply that is not a dry run re-encodes its object. */
  function Reencoded(opts: Options, t: Target, objects: map<Id, string>, r: ObjectResult): map<Id, string> {
    if r.failed || opts.dryRun then objects else objects[r.id := t.storageVersion]
  }

  const NO_RESULT := ObjectResult(Id("", "", ""), true)

  /** The applies of one CRD as a job for the worker pool; the shared tally is the
      progress counter. */
  function ApplyJob(api: Api, t: Target, items: seq<Id>): Job<ObjectResult, int> {
    Job(|items|,
        (i: nat) => if i < |items| then MigrateOne(api, t, items[i]) else NO_RESULT,
        (done: int, r: ObjectResult) => done + 1,
        0)
  }

  function Results(api: Api, t: Target, items: seq<Id>): (results: seq<ObjectResult>)
    ensures |results| == |items| && forall i :: 0 <= i < |items| ==> results[i] == MigrateOne(api, t, items[i])
  {
    seq(|items|, i requires 0 <= i < |items| => MigrateOne(api, t, items[i]))
  }

  /** The objects after the applies: every listed object that did not fail is at the
      storage version, everything else as it was. */
  function Migrated(api: Api, opts: Options, t: Target, items: seq<Id>, objects: map<Id, string>): map<Id, string> {
    Written(opts, t, Applied(api, t, items), objects)
  }

  function Written(opts: Options, t: Target, ids: set<Id>, objects: map<Id, string>): map<Id, string> {
    if opts.dryRun then objects
    else map id | id in objects.Keys + ids :: if id in ids then t.storageVersion else objects[id]
  }

  /** The listed objects whose apply succeeds. */
  function Applied(api: Api, t: Target, items: seq<Id>): (ids: set<Id>)
    ensures forall id :: id in ids <==> id in items && !OneFails(api, t, id)
  {
    set id | id in items && !OneFails(api, t, id)
  }

  lemma WrittenMore(opts: Options, t: Target, ids: set<Id>, r: ObjectResult, objects: map<Id, string>)
    ensures Written(opts, t, ids + if r.failed then {} else {r.id}, objects) == Reencoded(opts, t, Written(opts, t, ids, objects), r)
  {
    if r.failed {
      assert ids + {} == ids;
    }
  }

  lemma MigratedMore(api: Api, opts: Options, t: Target, items: seq<Id>, id: Id, objects: map<Id, string>)
    ensures Migrated(api, opts, t, items + [id], objects) ==
      Reencoded(opts, t, Migrated(api, opts, t, items, objects), MigrateOne(api, t, id))
  {
    assert Applied(api, t, items + [id]) == Applied(api, t, items) + if OneFails(api, t, id) then {} else {id} by {
      assert forall x :: x in items + [id] <==> x in items || x == id;
    }
    WrittenMore(opts, t, Applied(api, t, items), MigrateOne(api, t, id), objects);
  }

  // ---- The cluster under the pool ----

  /** What one step of the pool does to the cluster: a worker's call is made while it
      computes its result, outside the mutex; no other step touches an object. */
  ghost predicate Calls(opts: Options, t: Target, job: Job<ObjectResult, int>, s: Pool<ObjectResult, int>, next: Pool<ObjectResult, int>,
                        before: map<Id, string>, after: map<Id, string>)
  {
    if exists w: nat :: Computes(job, s, next, w)
    then exists w: nat :: Computes(job, s, next, w) && after == Reencoded(opts, t, before, job.work(s.workers[w].index))
    else after == before
  }

  /** A run of the pool with the cluster's objects after each step. */
  ghost predicate RunsOn(opts: Options, t: Target, job: Job<ObjectResult, int>, states: seq<Pool<ObjectResult, int>>, worlds: seq<map<Id, string>>) {
    && Run(job, states) && |worlds| == |states|
    && forall k :: 0 <= k < |states| - 1 ==> Calls(opts, t, job, states[k], states[k + 1], worlds[k], worlds[k + 1])
  }

  /** The objects whose successful call has been made by now. */
  ghost function Called(api: Api, t: Target, items: seq<Id>, s: Pool<ObjectResult, int>): set<Id> {
    set i | 0 <= i < |items| && Computed(s, i) && !OneFails(api, t, items[i]) :: items[i]
  }

  lemma CalledStays(api: Api, t: Target, items: seq<Id>, s: Pool<ObjectResult, int>, next: Pool<ObjectResult, int>)
    requires var job := ApplyJob(api, t, items); Step(job, s, next) && forall w: nat :: !Computes(job, s, next, w)
    ensures Called(api, t, items, next) == Called(api, t, items, s)
  {
    forall i | 0 <= i < |items| ensures Computed(next, i) <==> Computed(s, i) {
      ComputedStays(ApplyJob(api, t, items), s, next, i);
    }
  }

  lemma CalledMore(api: Api, t: Target, items: seq<Id>, s: Pool<ObjectResult, int>, next: Pool<ObjectResult, int>, w: nat)
    requires var job := ApplyJob(api, t, items); Inv(job, s) && Computes(job, s, next, w)
    ensures s.workers[w].index < |items|
    ensures var id := items[s.workers[w].index];
      Called(api, t, items, next) == Called(api, t, items, s) + if OneFails(api, t, id) then {} else {id}
  {
    var job := ApplyJob(api, t, items);
    assert Busy(s.workers[w]);
    forall i | 0 <= i < |items| ensures Computed(next, i) <==> Computed(s, i) || i == s.workers[w].index {
      ComputedMore(job, s, next, w, i);
    }
  }

  /** At every moment the cluster holds exactly what the calls made so far have written. */
  lemma {:induction false} WorldIsWritten(api: Api, opts: Options, t: Target, items: seq<Id>, states: seq<Pool<ObjectResult, int>>, worlds: seq<map<Id, string>>, workers: nat, k: nat)
    requires RunsOn(opts, t, ApplyJob(api, t, items), states, worlds)
    requires states[0] == Start(ApplyJob(api, t, items), workers) && k < |states|
    ensures worlds[k] == Written(opts, t, Called(api, t, items, states[k]), worlds[0])
    decreases k
  {
    hide Written, Called, Calls, Start, Inv, ApplyJob, Computes;
    var job := ApplyJob(api, t, items);
    if k == 0 {
      NothingCalled(api, opts, t, items, workers, worlds[0]);
    } else {
      WorldIsWritten(api, opts, t, items, states, worlds, workers, k - 1);
      StartInv(job, workers);
      RunKeepsInv(job, states, k - 1);
      assert Calls(opts, t, job, states[k - 1], states[k], worlds[k - 1], worlds[k]);
      WorldStep(api, opts, t, items, states[k - 1], states[k], worlds[0], worlds[k - 1], worlds[k]);
    }
  }

  lemma NothingCalled(api: Api, opts: Options, t: Target, items: seq<Id>, workers: nat, objects: map<Id, string>)
    ensures Written(opts, t, Called(api, t, items, Start(ApplyJob(api, t, items), workers)), objects) == objects
  {
    assert Called(api, t, items, Start(ApplyJob(api, t, items), workers)) == {};
  }

  lemma WorldStep(api: Api, opts: Options, t: Target, items: seq<Id>, s: Pool<ObjectResult, int>, next: Pool<ObjectResult, int>,
                  objects: map<Id, string>, before: map<Id, string>, after: map<Id, string>)
    requires var job := ApplyJob(api, t, items); Inv(job, s) && Step(job, s, next) && Calls(opts, t, job, s, next, before, after)
    requires before == Written(opts, t, Called(api, t, items, s), objects)
    ensures after == Written(opts, t, Called(api, t, items, next), objects)
  {
    hide Written, Called, Inv, Step, Reencoded, OneFails;
    var job := ApplyJob(api, t, items);
    if exists w: nat :: Computes(job, s, next, w) {
      var w: nat :| Computes(job, s, next, w) && after == Reencoded(opts, t, before, job.work(s.workers[w].index));
      CalledMore(api, t, items, s, next, w);
      WrittenMore(opts, t, Called(api, t, items, s), MigrateOne(api, t, items[s.workers[w].index]), objects);
    } else {
      CalledStays(api, t, items, s, next);
    }
  }

  /** Every interleaving of the worker pool, and of its calls, makes each call once,
      reports each object at its own index, and leaves the same objects behind. */
  lemma EveryRunMigratesTheSame(api: Api, opts: Options, t: Target, items: seq<Id>, option: int, states: seq<Pool<ObjectResult, int>>, worlds: seq<map<Id, string>>)
    requires RunsOn(opts, t, ApplyJob(api, t, items), states, worlds)
    requires states[0] == Start(ApplyJob(api, t, items), EffectiveConcurrency(option, 1, |items|))
    requires Halted(ApplyJob(api, t, items), states[|states| - 1])
    ensures var last := states[|states| - 1];
      && |last.results| == |items|
      && (forall i :: 0 <= i < |items| ==> last.results[i] == Some(Results(api, t, items)[i]))
      && worlds[|worlds| - 1] == Migrated(api, opts, t, items, worlds[0])
      && Complete(last.log, |items|)
  {
    hide Written, Computed;
    var job := ApplyJob(api, t, items);
    var last := states[|states| - 1];
    EveryRunIsSequential(job, EffectiveConcurrency(option, 1, |items|), states);
    WorldIsWritten(api, opts, t, items, states, worlds, EffectiveConcurrency(option, 1, |items|), |states| - 1);
    forall i | 0 <= i < |items| ensures Computed(last, i) {
      AllComputed(last, i);
    }
    AllCalled(api, t, items, last);
  }

  lemma AllCalled(api: Api, t: Target, items: seq<Id>, s: Pool<ObjectResult, int>)
    requires forall i :: 0 <= i < |items| ==> Computed(s, i)
    ensures Called(api, t, items, s) == Applied(api, t, items)
  {
    hide Computed;
    forall id | id in Applied(api, t, items) ensures id in Called(api, t, items, s) {
      var i :| 0 <= i < |items| && items[i] == id;
      assert Computed(s, i);
    }
  }

  // ---- The whole command ----

  function ListNamespace(opts: Options, t: Target): string {
    if t.namespaced then opts.namespace else ""
  }

  function Failures(results: seq<ObjectResult>): nat
    decreases |results|
  {
    if results == [] then 0
    else Failures(results[..|results| - 1]) + if results[|results| - 1].failed then 1 else 0
  }

  lemma {:induction false} FailuresAtMost(results: seq<ObjectResult>)
    ensures Failures(results) <= |results|
    ensures Failures(results) == 0 <==> forall i :: 0 <= i < |results| ==> !results[i].failed
    decreases |results|
  {
    if results == [] {
    } else {
      FailuresAtMost(results[..|results| - 1]);
    }
  }

  function ReportOf(t: Target, results: seq<ObjectResult>): CRDReport {
    FailuresAtMost(results);
    CRDReport(t, results, |results| - Failures(results), Failures(results), false, false)
  }

  /** List and migrate one CRD after the other. A listing error ends the command, with
      the writes made so far. */
  function MigrateFrom(api: Api, opts: Options, targets: seq<Target>, objects: map<Id, string>): (map<Id, string>, Result<seq<CRDReport>, MigrateError>)
    decreases |targets|
  {
    if targets == [] then (objects, Success([]))
    else
      var t := targets[0];
      var items := api.list(objects, t.crd, ListNamespace(opts, t));
      if items.None? then (objects, Failure(ListFailed(t.crd)))
      else
        var rest := MigrateFrom(api, opts, targets[1..], Migrated(api, opts, t, items.value, objects));
        (rest.0, Prepend([ReportOf(t, Results(api, t, items.value))], rest.1))
  }

  function TotalFailed(crds: seq<CRDReport>): nat
    decreases |crds|
  {
    if crds == [] then 0 else TotalFailed(crds[..|crds| - 1]) + crds[|crds| - 1].failed
  }

  function TotalSucceeded(crds: seq<CRDReport>): nat
    decreases |crds|
  {
    if crds == [] then 0 else TotalSucceeded(crds[..|crds| - 1]) + crds[|crds| - 1].succeeded
  }

  function AllObjects(crds: seq<CRDReport>): seq<ObjectResult>
    decreases |crds|
  {
    if crds == [] then [] else AllObjects(crds[..|crds| - 1]) + crds[|crds| - 1].objects
  }

  /** Dropping the older versions from the status of every CRD whose update succeeds. */
  function PrunedStored(api: Api, crds: seq<CRDReport>, stored: map<string, seq<string>>): map<string, seq<string>>
    decreases |crds|
  {
    if crds == [] then stored
    else
      var t := crds[|crds| - 1].target;
      var before := PrunedStored(api, crds[..|crds| - 1], stored);
      if api.pruneFails(t.crd) then before else before[t.crd := [t.storageVersion]]
  }

  function PrunedReport(api: Api, r: CRDReport): CRDReport {
    if api.pruneFails(r.target.crd) then r.(pruneError := true) else r.(pruned := true)
  }

  function PrunedReports(api: Api, crds: seq<CRDReport>): (out: seq<CRDReport>)
    ensures |out| == |crds| && forall i :: 0 <= i < |crds| ==> out[i] == PrunedReport(api, crds[i])
  {
    seq(|crds|, i requires 0 <= i < |crds| => PrunedReport(api, crds[i]))
  }

  predicate Refused(opts: Options, targets: seq<Target>) {
    opts.prune && opts.namespace != "" && exists t :: t in targets && t.namespaced
  }

  /** The report's shape: CRDs are itemised only when there is more than one, and the
      top-level prune fields speak of the first. */
  function Assemble(crds: seq<CRDReport>): Report
    requires crds != []
  {
    Report(if |crds| > 1 then crds else [], AllObjects(crds), TotalSucceeded(crds), TotalFailed(crds), crds[0].pruned, crds[0].pruneError)
  }

  function RunSpec(api: Api, opts: Options, targets: seq<Target>, s: State): (State, Result<Report, MigrateError>)
    requires targets != []
  {
    if Refused(opts, targets) then (s, Failure(PruneNeedsAllNamespaces))
    else
      var (objects, crds) := MigrateFrom(api, opts, targets, s.objects);
      if crds.Failure? then (s.(objects := objects), Failure(crds.error))
      else
        MigrateFromCount(api, opts, targets, s.objects);
        if !opts.prune || opts.dryRun || TotalFailed(crds.value) > 0 then (s.(objects := objects), Success(Assemble(crds.value)))
        else (State(objects, PrunedStored(api, crds.value, s.stored)), Success(Assemble(PrunedReports(api, crds.value))))
  }

  lemma {:induction false} MigrateFromCount(api: Api, opts: Options, targets: seq<Target>, objects: map<Id, string>)
    ensures var crds := MigrateFrom(api, opts, targets, objects).1;
      crds.Success? ==> |crds.value| == |targets| && forall i :: 0 <= i < |targets| ==> crds.value[i].target == targets[i]
    decreases |targets|
  {
    if targets == [] {
    } else {
      var t := targets[0];
      var items := api.list(objects, t.crd, ListNamespace(opts, t));
      if items.Some? {
        MigrateFromCount(api, opts, targets[1..], Migrated(api, opts, t, items.value, objects));
      }
    }
  }

  class Cluster {
    var objects: map<Id, string>
    var stored: map<string, seq<string>>

    function Contents(): State
      reads this
    {
      State(objects, stored)
    }

    constructor (s: State)
      ensures Contents() == s
    {
      objects, stored := s.objects, s.stored;
    }

    method Apply(api: Api, opts: Options, t: Target, id: Id) returns (failed: bool)
      modifies this`objects
      ensures failed == api.applyFails(id)
      ensures objects == if failed || opts.dryRun then old(objects) else old(objects)[id := t.storageVersion]
    {
      failed := api.applyFails(id);
      if !failed && !opts.dryRun {
        objects := objects[id := t.storageVersion];
      }
    }

    /** One worker taking the objects one after the other. */
    method MigrateAll(api: Api, opts: Options, t: Target, items: seq<Id>) returns (results: seq<ObjectResult>)
      modifies this`objects
      ensures results == Results(api, t, items)
      ensures objects == Migrated(api, opts, t, items, old(objects))
    {
      results := [];
      MigratedNothing(api, opts, t, objects);
      for i := 0 to |items|
        invariant results == Results(api, t, items[..i])
        invariant objects == Migrated(api, opts, t, items[..i], old(objects))
      {
        var id := items[i];
        assert items[..i + 1] == items[..i] + [id];
        MigratedMore(api, opts, t, items[..i], id, old(objects));
        var failed := t.namespaced && id.namespace == "";
        if !failed {
          failed := Apply(api, opts, t, id);
        }
        results := results + [ObjectResult(id, failed)];
      }
      assert items[..|items|] == items;
    }

    method Prune(api: Api, t: Target) returns (failed: bool)
      modifies this`stored
      ensures failed == api.pruneFails(t.crd)
      ensures stored == if failed then old(stored) else old(stored)[t.crd := [t.storageVersion]]
    {
      failed := api.pruneFails(t.crd);
      if !failed {
        stored := stored[t.crd := [t.storageVersion]];
      }
    }

    method RunMigrateStorage(api: Api, opts: Options, targets: seq<Target>) returns (r: Result<Report, MigrateError>)
      requires targets != []
      modifies this
      ensures (Contents(), r) == RunSpec(api, opts, targets, old(Contents()))
    {
      if opts.prune && opts.namespace != "" {
        for i := 0 to |targets|
          invariant forall j :: 0 <= j < i ==> !targets[j].namespaced
        {
          if targets[i].namespaced {
            assert targets[i] in targets;
            return Failure(PruneNeedsAllNamespaces);
          }
        }
      }
      assert !Refused(opts, targets);
      var crds := CollectReports(api, opts, targets);
      if crds.Failure? {
        return Failure(crds.error);
      }
      MigrateFromCount(api, opts, targets, old(objects));
      if !opts.prune || opts.dryRun || TotalFailed(crds.value) > 0 {
        return Success(Assemble(crds.value));
      }
      var after := PruneReports(api, crds.value);
      r := Success(Assemble(after));
    }

    method CollectReports(api: Api, opts: Options, targets: seq<Target>) returns (crds: Result<seq<CRDReport>, MigrateError>)
      modifies this`objects
      ensures (objects, crds) == MigrateFrom(api, opts, targets, old(objects))
    {
      var done: seq<CRDReport> := [];
      PrependNothing(MigrateFrom(api, opts, targets, objects).1);
      for i := 0 to |targets|
        invariant MigrateFrom(api, opts, targets, old(objects)).0 == MigrateFrom(api, opts, targets[i..], objects).0
        invariant MigrateFrom(api, opts, targets, old(objects)).1 == Prepend(done, MigrateFrom(api, opts, targets[i..], objects).1)
      {
        var t := targets[i];
        assert targets[i..][0] == t && targets[i..][1..] == targets[i + 1..];
        var items := api.list(objects, t.crd, ListNamespace(opts, t));
        if items.None? {
          return Failure(ListFailed(t.crd));
        }
        var results := MigrateAll(api, opts, t, items.value);
        PrependMore(done, ReportOf(t, results), MigrateFrom(api, opts, targets[i + 1..], objects).1);
        done := done + [ReportOf(t, results)];
      }
      PrependEnd(done, MigrateFrom(api, opts, targets[|targets|..], objects).1);
      crds := Success(done);
    }

    method PruneReports(api: Api, crds: seq<CRDReport>) returns (after: seq<CRDReport>)
      modifies this`stored
      ensures after == PrunedReports(api, crds)
      ensures stored == PrunedStored(api, crds, old(stored))
    {
      after := [];
      for i := 0 to |crds|
        invariant after == PrunedReports(api, crds[..i])
        invariant stored == PrunedStored(api, crds[..i], old(stored))
      {
        assert crds[..i + 1][..i] == crds[..i];
        var failed := Prune(api, crds[i].target);
        after := after + [if failed then crds[i].(pruneError := true) else crds[i].(pruned := true)];
      }
      assert crds[..|crds|] == crds;
    }
  }

  lemma MigratedNothing(api: Api, opts: Options, t: Target, objects: map<Id, string>)
    ensures Migrated(api, opts, t, [], objects) == objects
  {
  }
}
