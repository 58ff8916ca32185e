/** What the storage migration guarantees: accounting, exactly when stored versions are
    pruned, and that the record of stored versions never becomes untrue. */
module MigrateSafety {
  import opened Migrate

  /** A listing returns every object of the CRD, or of the one namespace asked for. */
  ghost predicate Faithful(api: Api) {
    forall objects, crd, ns :: api.list(objects, crd, ns).Some? ==> Covers(api.list(objects, crd, ns).value, objects, crd, ns)
  }

  ghost predicate Covers(items: seq<Id>, objects: map<Id, string>, crd: string, ns: string) {
    forall id :: id in items <==> id in objects && id.crd == crd && (ns == "" || id.namespace == ns)
  }

  ghost predicate DistinctCRDs(targets: seq<Target>) {
    forall i, j :: 0 <= i < j < |targets| ==> targets[i].crd != targets[j].crd
  }

  ghost predicate Targeted(targets: seq<Target>, crd: string) {
    exists t :: t in targets && t.crd == crd
  }

  /** status.storedVersions tells the truth: every object is encoded at a version its CRD
      lists, and the storage version is always listed. */
  ghost predicate Truthful(s: State, targets: seq<Target>) {
    && (forall id :: id in s.objects ==> id.crd in s.stored && s.objects[id] in s.stored[id.crd])
    && (forall t :: t in targets ==> t.crd in s.stored && t.storageVersion in s.stored[t.crd])
  }

  // ---- What one CRD's applies change ----

  lemma MigratedOnlyItems(api: Api, opts: Options, t: Target, items: seq<Id>, objects: map<Id, string>)
    requires forall id :: id in items ==> id in objects && id.crd == t.crd
    ensures var after := Migrated(api, opts, t, items, objects);
      && after.Keys == objects.Keys
      && (forall id :: id in objects && id.crd != t.crd ==> after[id] == objects[id])
      && (forall id :: id in objects ==> after[id] == objects[id] || (id.crd == t.crd && after[id] == t.storageVersion))
  {
  }

  ghost predicate AllAt(objects: map<Id, string>, t: Target) {
    forall id :: id in objects && id.crd == t.crd ==> objects[id] == t.storageVersion
  }

  lemma NoFailureMigratesAll(api: Api, opts: Options, t: Target, items: seq<Id>, objects: map<Id, string>)
    requires !opts.dryRun && Covers(items, objects, t.crd, "")
    requires Failures(Results(api, t, items)) == 0
    ensures AllAt(Migrated(api, opts, t, items, objects), t)
  {
    var results := Results(api, t, items);
    FailuresAtMost(results);
    forall id | id in objects && id.crd == t.crd ensures !OneFails(api, t, id) && id in items {
      assert id in items;
      var i :| 0 <= i < |items| && items[i] == id;
      assert !results[i].failed;
    }
  }

  // ---- What the whole pass changes ----

  ghost predicate Preserves(before: map<Id, string>, after: map<Id, string>, targets: seq<Target>) {
    && after.Keys == before.Keys
    && (forall id :: id in before && !Targeted(targets, id.crd) ==> after[id] == before[id])
    && (forall id :: id in before ==> after[id] == before[id] || exists t :: t in targets && t.crd == id.crd && after[id] == t.storageVersion)
  }

  lemma {:induction false} PassPreserves(api: Api, opts: Options, targets: seq<Target>, objects: map<Id, string>)
    requires Faithful(api)
    ensures Preserves(objects, MigrateFrom(api, opts, targets, objects).0, targets)
    decreases |targets|
  {
    if targets == [] {
    } else {
      var t, tail := targets[0], targets[1..];
      assert t in targets && forall x :: x in tail ==> x in targets;
      var items := api.list(objects, t.crd, ListNamespace(opts, t));
      if items.Some? {
        assert Covers(items.value, objects, t.crd, ListNamespace(opts, t));
        var mid := Migrated(api, opts, t, items.value, objects);
        MigratedOnlyItems(api, opts, t, items.value, objects);
        PassPreserves(api, opts, tail, mid);
        PreservesCons(objects, mid, MigrateFrom(api, opts, tail, mid).0, t, tail);
        assert targets == [t] + tail;
      }
    }
  }

  lemma PreservesCons(before: map<Id, string>, mid: map<Id, string>, after: map<Id, string>, t: Target, tail: seq<Target>)
    requires mid.Keys == before.Keys
    requires forall id :: id in before && id.crd != t.crd ==> mid[id] == before[id]
    requires forall id :: id in before ==> mid[id] == before[id] || (id.crd == t.crd && mid[id] == t.storageVersion)
    requires Preserves(mid, after, tail)
    ensures Preserves(before, after, [t] + tail)
  {
    var targets := [t] + tail;
    assert t in targets && forall x :: x in tail ==> x in targets;
    forall id | id in before && !Targeted(targets, id.crd) ensures after[id] == before[id] {
      assert !Targeted(tail, id.crd);
    }
  }

  /** The prune gate: with nothing failed and nothing filtered out, every object of
      every migrated CRD is at the storage version afterwards. */
  lemma {:induction false} CleanPassMigratesAll(api: Api, opts: Options, targets: seq<Target>, objects: map<Id, string>)
    requires Faithful(api) && DistinctCRDs(targets) && !opts.dryRun
    requires forall t :: t in targets ==> ListNamespace(opts, t) == ""
    requires MigrateFrom(api, opts, targets, objects).1.Success?
    requires forall i :: 0 <= i < |MigrateFrom(api, opts, targets, objects).1.value| ==> MigrateFrom(api, opts, targets, objects).1.value[i].failed == 0
    ensures forall t :: t in targets ==> AllAt(MigrateFrom(api, opts, targets, objects).0, t)
    decreases |targets|
  {
    hide Migrated, Results, ReportOf, Covers, AllAt, Preserves;
    if targets == [] {
    } else {
      var t, tail := targets[0], targets[1..];
      assert t in targets && forall x :: x in tail ==> x in targets;
      FirstPass(api, opts, targets, objects);
      var mid := Migrated(api, opts, t, api.list(objects, t.crd, "").value, objects);
      CleanPassMigratesAll(api, opts, tail, mid);
      PassPreserves(api, opts, tail, mid);
      assert !Targeted(tail, t.crd);
      StaysAt(mid, MigrateFrom(api, opts, tail, mid).0, t, tail);
    }
  }

  /** The first CRD of a pass that fails nothing. */
  lemma FirstPass(api: Api, opts: Options, targets: seq<Target>, objects: map<Id, string>)
    requires Faithful(api) && !opts.dryRun && targets != [] && ListNamespace(opts, targets[0]) == ""
    requires MigrateFrom(api, opts, targets, objects).1.Success?
    requires forall i :: 0 <= i < |MigrateFrom(api, opts, targets, objects).1.value| ==> MigrateFrom(api, opts, targets, objects).1.value[i].failed == 0
    ensures var t := targets[0]; var items := api.list(objects, t.crd, "");
      && items.Some?
      && var mid := Migrated(api, opts, t, items.value, objects);
         var rest := MigrateFrom(api, opts, targets[1..], mid);
         && MigrateFrom(api, opts, targets, objects).0 == rest.0
         && rest.1.Success? && (forall i :: 0 <= i < |rest.1.value| ==> rest.1.value[i].failed == 0)
         && AllAt(mid, t)
  {
    hide Migrated, AllAt;
    var t, tail := targets[0], targets[1..];
    var items := api.list(objects, t.crd, "").value;
    assert Covers(items, objects, t.crd, "");
    hide Covers;
    FirstReport(api, opts, targets, objects);
    var crds, rest := MigrateFrom(api, opts, targets, objects).1.value,
      MigrateFrom(api, opts, tail, Migrated(api, opts, t, items, objects)).1.value;
    assert crds[0].failed == 0;
    assert forall i :: 0 <= i < |rest| ==> rest[i] == crds[i + 1];
    NoFailureMigratesAll(api, opts, t, items, objects);
  }

  lemma StaysAt(before: map<Id, string>, after: map<Id, string>, t: Target, tail: seq<Target>)
    requires AllAt(before, t) && Preserves(before, after, tail) && !Targeted(tail, t.crd)
    ensures AllAt(after, t)
  {
  }

  lemma {:induction false} NoneFailed(crds: seq<CRDReport>)
    ensures TotalFailed(crds) == 0 <==> forall i :: 0 <= i < |crds| ==> crds[i].failed == 0
    decreases |crds|
  {
    if crds == [] {
    } else {
      NoneFailed(crds[..|crds| - 1]);
    }
  }

  // ---- Exactly when stored versions are pruned ----

  /** The command gets to the prune. */
  ghost predicate Gate(api: Api, opts: Options, targets: seq<Target>, s: State) {
    var crds := MigrateFrom(api, opts, targets, s.objects).1;
    opts.prune && !opts.dryRun && !Refused(opts, targets) && crds.Success? && TotalFailed(crds.value) == 0
  }

  lemma {:induction false} PrunedStoredAt(api: Api, crds: seq<CRDReport>, stored: map<string, seq<string>>, targets: seq<Target>, crd: string)
    requires |crds| == |targets| && DistinctCRDs(targets)
    requires forall i :: 0 <= i < |crds| ==> crds[i].target == targets[i]
    ensures var after := PrunedStored(api, crds, stored);
      && (api.pruneFails(crd) || !Targeted(targets, crd) ==> (crd in after <==> crd in stored) && (crd in stored ==> after[crd] == stored[crd]))
      && (forall t :: t in targets && t.crd == crd && !api.pruneFails(crd) ==> crd in after && after[crd] == [t.storageVersion])
    decreases |crds|
  {
    if crds == [] {
    } else {
      var n := |crds| - 1;
      var last := targets[n];
      assert forall t :: t in targets <==> t in targets[..n] || t == last by {
        assert targets == targets[..n] + [last];
      }
      PrunedStoredAt(api, crds[..n], stored, targets[..n], crd);
      forall t | t in targets[..n] ensures t.crd != last.crd {
        var i :| 0 <= i < n && targets[i] == t;
      }
      var before := PrunedStored(api, crds[..n], stored);
      assert PrunedStored(api, crds, stored) == if api.pruneFails(last.crd) then before else before[last.crd := [last.storageVersion]];
      hide PrunedStored;
    }
  }

  /** A CRD's stored versions are rewritten exactly when the gate is open, the CRD is one
      of the run's, and its own update succeeds; nothing else ever changes them. */
  lemma PrunedExactly(api: Api, opts: Options, targets: seq<Target>, s: State, t: Target)
    requires targets != [] && DistinctCRDs(targets) && t in targets && t.crd in s.stored
    ensures var after := RunSpec(api, opts, targets, s).0.stored;
      t.crd in after &&
      after[t.crd] == if Gate(api, opts, targets, s) && !api.pruneFails(t.crd) then [t.storageVersion] else s.stored[t.crd]
  {
    var crds := MigrateFrom(api, opts, targets, s.objects).1;
    if Gate(api, opts, targets, s) {
      MigrateFromCount(api, opts, targets, s.objects);
      PrunedStoredAt(api, crds.value, s.stored, targets, t.crd);
    }
  }

  lemma OthersUntouched(api: Api, opts: Options, targets: seq<Target>, s: State, crd: string)
    requires targets != [] && DistinctCRDs(targets) && !Targeted(targets, crd)
    ensures var after := RunSpec(api, opts, targets, s).0.stored;
      (crd in after <==> crd in s.stored) && (crd in after ==> after[crd] == s.stored[crd])
  {
    var crds := MigrateFrom(api, opts, targets, s.objects).1;
    if Gate(api, opts, targets, s) {
      MigrateFromCount(api, opts, targets, s.objects);
      PrunedStoredAt(api, crds.value, s.stored, targets, crd);
    }
  }

  /** The gate in plain terms: not a dry run, no namespaced target under a namespace
      filter, every CRD listed, and every listed object of every CRD applied. */
  lemma GateMeans(api: Api, opts: Options, targets: seq<Target>, s: State)
    requires Gate(api, opts, targets, s) && Faithful(api) && DistinctCRDs(targets)
    ensures !opts.dryRun && forall t :: t in targets ==> ListNamespace(opts, t) == ""
    ensures forall t :: t in targets ==> AllAt(MigrateFrom(api, opts, targets, s.objects).0, t)
  {
    var crds := MigrateFrom(api, opts, targets, s.objects).1;
    NoneFailed(crds.value);
    CleanPassMigratesAll(api, opts, targets, s.objects);
  }

  // ---- Truth ----

  lemma PassKeepsTruth(api: Api, opts: Options, targets: seq<Target>, s: State)
    requires Faithful(api) && Truthful(s, targets)
    ensures Truthful(s.(objects := MigrateFrom(api, opts, targets, s.objects).0), targets)
  {
    PassPreserves(api, opts, targets, s.objects);
    var after := MigrateFrom(api, opts, targets, s.objects).0;
    forall id | id in after ensures id.crd in s.stored && after[id] in s.stored[id.crd] {
      assert s.objects[id] in s.stored[id.crd];
    }
  }

  /** The command never makes status.storedVersions lie, whatever fails on the way: if
      it was true before, it is true after, so a version that is no longer listed is
      really one that no object is stored at. */
  lemma RunKeepsTruth(api: Api, opts: Options, targets: seq<Target>, s: State)
    requires targets != [] && Faithful(api) && DistinctCRDs(targets) && Truthful(s, targets)
    ensures Truthful(RunSpec(api, opts, targets, s).0, targets)
  {
    PassKeepsTruth(api, opts, targets, s);
    if Gate(api, opts, targets, s) {
      var mid := s.(objects := MigrateFrom(api, opts, targets, s.objects).0);
      GateMeans(api, opts, targets, s);
      PruneKeepsTruth(api, opts, targets, s, mid);
    }
  }

  lemma PruneKeepsTruth(api: Api, opts: Options, targets: seq<Target>, s: State, mid: State)
    requires targets != [] && DistinctCRDs(targets) && Gate(api, opts, targets, s)
    requires mid == s.(objects := MigrateFrom(api, opts, targets, s.objects).0)
    requires Truthful(mid, targets) && forall t :: t in targets ==> AllAt(mid.objects, t)
    ensures Truthful(RunSpec(api, opts, targets, s).0, targets)
  {
    var after := RunSpec(api, opts, targets, s).0;
    assert after.objects == mid.objects;
    forall t | t in targets ensures t.crd in after.stored && t.storageVersion in after.stored[t.crd] {
      PrunedExactly(api, opts, targets, s, t);
    }
    forall id | id in after.objects ensures id.crd in after.stored && after.objects[id] in after.stored[id.crd] {
      assert mid.objects[id] in mid.stored[id.crd];
      if Targeted(targets, id.crd) {
        var t :| t in targets && t.crd == id.crd;
        PrunedExactly(api, opts, targets, s, t);
        assert AllAt(mid.objects, t);
      } else {
        OthersUntouched(api, opts, targets, s, id.crd);
      }
    }
  }

  // ---- Accounting ----

  ghost predicate Balanced(r: CRDReport) {
    r.succeeded + r.failed == |r.objects| && r.failed == Failures(r.objects)
  }

  lemma FirstReport(api: Api, opts: Options, targets: seq<Target>, objects: map<Id, string>)
    requires targets != [] && api.list(objects, targets[0].crd, ListNamespace(opts, targets[0])).Some?
    ensures var t := targets[0]; var items := api.list(objects, t.crd, ListNamespace(opts, t)).value;
      var rest := MigrateFrom(api, opts, targets[1..], Migrated(api, opts, t, items, objects)).1;
      var crds := MigrateFrom(api, opts, targets, objects).1;
      crds.Success? == rest.Success? && (crds.Success? ==> crds.value == [ReportOf(t, Results(api, t, items))] + rest.value)
  {
  }

  lemma {:induction false} ReportsBalanced(api: Api, opts: Options, targets: seq<Target>, objects: map<Id, string>)
    ensures var crds := MigrateFrom(api, opts, targets, objects).1;
      crds.Success? ==> forall i :: 0 <= i < |crds.value| ==> Balanced(crds.value[i])
    decreases |targets|
  {
    if targets == [] {
    } else {
      var t := targets[0];
      var items := api.list(objects, t.crd, ListNamespace(opts, t));
      if items.Some? {
        var after := Migrated(api, opts, t, items.value, objects);
        ReportsBalanced(api, opts, targets[1..], after);
        FirstReport(api, opts, targets, objects);
      }
    }
  }

  lemma {:induction false} FailuresAppend(p: seq<ObjectResult>, q: seq<ObjectResult>)
    ensures Failures(p + q) == Failures(p) + Failures(q)
    decreases |q|
  {
    if q == [] {
      assert p + q == p;
    } else {
      assert (p + q)[..|p + q| - 1] == p + q[..|q| - 1];
      FailuresAppend(p, q[..|q| - 1]);
    }
  }

  lemma {:induction false} TotalsBalanced(crds: seq<CRDReport>)
    requires forall i :: 0 <= i < |crds| ==> Balanced(crds[i])
    ensures TotalSucceeded(crds) + TotalFailed(crds) == |AllObjects(crds)|
    ensures TotalFailed(crds) == Failures(AllObjects(crds))
    decreases |crds|
  {
    if crds == [] {
    } else {
      var n := |crds| - 1;
      TotalsBalanced(crds[..n]);
      FailuresAppend(AllObjects(crds[..n]), crds[n].objects);
    }
  }

  lemma {:induction false} PruningCountsNothing(api: Api, crds: seq<CRDReport>)
    ensures var after := PrunedReports(api, crds);
      AllObjects(after) == AllObjects(crds) && TotalSucceeded(after) == TotalSucceeded(crds) && TotalFailed(after) == TotalFailed(crds)
    decreases |crds|
  {
    if crds == [] {
    } else {
      var n := |crds| - 1;
      PruningCountsNothing(api, crds[..n]);
      assert PrunedReports(api, crds)[..n] == PrunedReports(api, crds[..n]);
    }
  }

  lemma AssembledAccounts(crds: seq<CRDReport>)
    requires crds != [] && forall i :: 0 <= i < |crds| ==> Balanced(crds[i])
    ensures var rep := Assemble(crds);
      && rep.succeeded + rep.failed == |rep.objects|
      && rep.failed == Failures(rep.objects) == TotalFailed(crds)
      && (forall i :: 0 <= i < |rep.crds| ==> Balanced(rep.crds[i]))
      && (rep.failed == 0 ==> forall i :: 0 <= i < |rep.objects| ==> !rep.objects[i].failed)
  {
    TotalsBalanced(crds);
    FailuresAtMost(AllObjects(crds));
  }

  lemma PrunedBalanced(api: Api, crds: seq<CRDReport>)
    requires forall i :: 0 <= i < |crds| ==> Balanced(crds[i])
    ensures var after := PrunedReports(api, crds); forall i :: 0 <= i < |after| ==> Balanced(after[i])
  {
  }

  /** Every listed object is reported once, as succeeded or failed; and whenever the
      report says it pruned, nothing at all had failed. */
  lemma ReportAccounts(api: Api, opts: Options, targets: seq<Target>, s: State)
    requires targets != [] && RunSpec(api, opts, targets, s).1.Success?
    ensures var rep := RunSpec(api, opts, targets, s).1.value;
      && rep.succeeded + rep.failed == |rep.objects|
      && rep.failed == Failures(rep.objects)
      && (forall i :: 0 <= i < |rep.crds| ==> Balanced(rep.crds[i]))
      && (rep.pruned <==> Gate(api, opts, targets, s) && !api.pruneFails(targets[0].crd))
      && (rep.pruned ==> forall i :: 0 <= i < |rep.objects| ==> !rep.objects[i].failed)
  {
    hide MigrateFrom, TotalFailed, TotalSucceeded, AllObjects, Failures, Balanced;
    var crds := MigrateFrom(api, opts, targets, s.objects).1.value;
    MigrateFromCount(api, opts, targets, s.objects);
    ReportsBalanced(api, opts, targets, s.objects);
    NeverPrunedYet(api, opts, targets, s.objects);
    AssembledAccounts(crds);
    PruningCountsNothing(api, crds);
    PrunedBalanced(api, crds);
    AssembledAccounts(PrunedReports(api, crds));
  }

  lemma {:induction false} NeverPrunedYet(api: Api, opts: Options, targets: seq<Target>, objects: map<Id, string>)
    ensures var crds := MigrateFrom(api, opts, targets, objects).1;
      crds.Success? ==> forall i :: 0 <= i < |crds.value| ==> !crds.value[i].pruned
    decreases |targets|
  {
    if targets == [] {
    } else {
      var t := targets[0];
      var items := api.list(objects, t.crd, ListNamespace(opts, t));
      if items.Some? {
        NeverPrunedYet(api, opts, targets[1..], Migrated(api, opts, t, items.value, objects));
        FirstReport(api, opts, targets, objects);
      }
    }
  }
}
