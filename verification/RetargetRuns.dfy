/** internal/cli/retarget.go: a whole retarget run, its worker pool and its report. */
module RetargetRuns {
  import opened Wrappers
  import opened Retarget
  import opened WorkerPool

  datatype Settings = Settings(scope: Scope, labelKey: string, to: string, dryRun: bool)

  /** What became of one object: what is reported and what the cluster holds afterwards. */
  datatype Done = Done(outcome: Outcome, after: Item)

  function RetargetOne(opts: Settings, it: Item): Done {
    Done(OutcomeOf(it, opts.scope, opts.labelKey, opts.to), AfterOne(it, opts.scope, opts.labelKey, opts.to, opts.dryRun))
  }

  /** The shared tally is the progress counter. */
  function RetargetJob(opts: Settings, items: seq<Item>): Job<Option<Done>, int> {
    Job(|items|, (i: nat) => if i < |items| then Some(RetargetOne(opts, items[i])) else None, (done: int, r: Option<Done>) => done + 1, 0)
  }

  function Outcomes(opts: Settings, items: seq<Item>): (outs: seq<Outcome>)
    ensures |outs| == |items| && forall i :: 0 <= i < |items| ==> outs[i] == RetargetOne(opts, items[i]).outcome
  {
    seq(|items|, i requires 0 <= i < |items| => RetargetOne(opts, items[i]).outcome)
  }

  /** The objects after the run. */
  function Retargeted(opts: Settings, items: seq<Item>): (after: seq<Item>)
    ensures |after| == |items| && forall i :: 0 <= i < |items| ==> after[i] == RetargetOne(opts, items[i]).after
  {
    seq(|items|, i requires 0 <= i < |items| => RetargetOne(opts, items[i]).after)
  }

  function Number(outs: seq<Outcome>, o: Outcome): nat
    decreases |outs|
  {
    if outs == [] then 0 else Number(outs[..|outs| - 1], o) + if outs[|outs| - 1] == o then 1 else 0
  }

  /** The report's three tallies. */
  method Report(outs: seq<Outcome>) returns (failed: nat, skipped: nat, patched: nat)
    ensures failed == Number(outs, Failed) && skipped == Number(outs, Skipped) && patched == Number(outs, Patched)
    ensures failed + skipped + patched == |outs|
  {
    failed, skipped, patched := 0, 0, 0;
    for i := 0 to |outs|
      invariant failed == Number(outs[..i], Failed) && skipped == Number(outs[..i], Skipped) && patched == Number(outs[..i], Patched)
      invariant failed + skipped + patched == i
    {
      assert outs[..i + 1][..i] == outs[..i];
      match outs[i]
      case Failed => failed := failed + 1;
      case Skipped => skipped := skipped + 1;
      case Patched => patched := patched + 1;
    }
    assert outs[..|outs|] == outs;
  }

  lemma {:induction false} FoldCounts(opts: Settings, items: seq<Item>, k: nat)
    requires k <= |items|
    ensures Fold(RetargetJob(opts, items), UpTo(k)) == k
    decreases k
  {
    if k == 0 {
    } else {
      assert UpTo(k)[..k - 1] == UpTo(k - 1);
      FoldCounts(opts, items, k - 1);
    }
  }

  /** Every interleaving of the worker pool treats each object once, stores its outcome
      at its own index and counts all of them. */
  lemma EveryRunRetargetsTheSame(opts: Settings, items: seq<Item>, option: int, states: seq<Pool<Option<Done>, int>>)
    requires Run(RetargetJob(opts, items), states)
    requires states[0] == Start(RetargetJob(opts, items), EffectiveConcurrency(option, 1, |items|))
    requires Halted(RetargetJob(opts, items), states[|states| - 1])
    ensures var last := states[|states| - 1];
      && |last.results| == |items|
      && (forall i :: 0 <= i < |items| ==>
            last.results[i] == Some(Some(Done(Outcomes(opts, items)[i], Retargeted(opts, items)[i]))))
      && last.total == |items|
      && Complete(last.log, |items|)
  {
    var job := RetargetJob(opts, items);
    EveryRunIsSequential(job, EffectiveConcurrency(option, 1, |items|), states);
    FoldCounts(opts, items, |items|);
  }

  ghost predicate AllWellTyped(opts: Settings, items: seq<Item>) {
    forall i :: 0 <= i < |items| ==> WellTyped(items[i].obj, MachineryPrefix(opts.scope, items[i].role))
  }

  lemma {:induction false} OnlySkips(before: seq<Outcome>, after: seq<Outcome>)
    requires |after| == |before|
    requires forall i :: 0 <= i < |before| ==> after[i] == if before[i].Failed? then Failed else Skipped
    ensures Number(after, Failed) == Number(before, Failed) && Number(after, Patched) == 0
    ensures Number(after, Skipped) == Number(before, Skipped) + Number(before, Patched)
    decreases |before|
  {
    if before == [] {
    } else {
      OnlySkips(before[..|before| - 1], after[..|after| - 1]);
    }
  }

  /** Running the command again patches nothing: it skips what was patched or skipped,
      fails where it failed, and leaves the cluster as it is. */
  lemma RerunReports(opts: Settings, items: seq<Item>)
    requires opts.to != "" && !opts.dryRun && AllWellTyped(opts, items)
    ensures var before, after := Outcomes(opts, items), Outcomes(opts, Retargeted(opts, items));
      && Number(after, Patched) == 0
      && Number(after, Failed) == Number(before, Failed)
      && Number(after, Skipped) == Number(before, Skipped) + Number(before, Patched)
    ensures Retargeted(opts, Retargeted(opts, items)) == Retargeted(opts, items)
  {
    hide OutcomeOf, AfterOne, WellTyped;
    var once := Retargeted(opts, items);
    forall i | 0 <= i < |items|
      ensures Outcomes(opts, once)[i] == if Outcomes(opts, items)[i].Failed? then Failed else Skipped
      ensures Retargeted(opts, once)[i] == once[i]
    {
      RerunSkips(items[i], opts.scope, opts.labelKey, opts.to);
      FailedIsUntouched(items[i], opts);
    }
    OnlySkips(Outcomes(opts, items), Outcomes(opts, once));
  }

  lemma FailedIsUntouched(it: Item, opts: Settings)
    ensures OutcomeOf(it, opts.scope, opts.labelKey, opts.to).Failed? ==>
      AfterOne(it, opts.scope, opts.labelKey, opts.to, opts.dryRun) == it
  {
  }
}
