/** The worker pool that the sample tester, the storage migration and the retargeting
    share: a feeder on an unbuffered channel, workers, one mutex, results stored by
    index and a shared tally. Every interleaving is a run of the steps below. */
module WorkerPool {
  import opened Wrappers

  /** What one worker is doing. Adding to the shared tally is a read and a later write;
      only the mutex keeps another worker from coming in between. */
  datatype Phase<R, A> =
    | Idle
    | Working(index: nat)
    | Waiting(index: nat, r: R)
    | Locked(index: nat, r: R)
    | Adding(index: nat, r: R, snapshot: A)
    | Exited

  /** log is the order in which results were stored. */
  datatype Pool<R, A> = Pool(
    fed: nat, closed: bool, workers: seq<Phase<R, A>>, holder: Option<nat>,
    results: seq<Option<R>>, total: A, log: seq<nat>)

  /** n jobs; job i yields work(i); a result r turns the tally a into add(a, r). */
  datatype Job<!R, !A> = Job(n: nat, work: nat -> R, add: (A, R) -> A, zero: A)

  function Start<R(!new), A(!new)>(job: Job<R, A>, workers: nat): Pool<R, A> {
    Pool(0, false, seq(workers, _ => Idle), None, seq(job.n, _ => None), job.zero, [])
  }

  datatype Action = Take | Compute | Lock | Read | StoreAndUnlock | Exit

  function Put<R(!new), A(!new)>(s: Pool<R, A>, w: nat, p: Phase<R, A>): Pool<R, A>
    requires w < |s.workers|
  {
    s.(workers := s.workers[w := p])
  }

  predicate Enabled<R(!new), A(!new)>(job: Job<R, A>, s: Pool<R, A>, w: nat, act: Action) {
    w < |s.workers| &&
    match act
    case Take => s.workers[w].Idle? && s.fed < job.n
    case Compute => s.workers[w].Working?
    case Lock => s.workers[w].Waiting? && s.holder.None?
    case Read => s.workers[w].Locked?
    case StoreAndUnlock => s.workers[w].Adding? && s.workers[w].index < |s.results|
    case Exit => s.workers[w].Idle? && s.closed
  }

  /** One step of worker w; a Take is also a step of the feeder, which hands over the
      next index on the unbuffered channel. */
  function Act<R(!new), A(!new)>(job: Job<R, A>, s: Pool<R, A>, w: nat, act: Action): Pool<R, A>
    requires Enabled(job, s, w, act)
  {
    var p := s.workers[w];
    match act
    case Take => Put(s, w, Working(s.fed)).(fed := s.fed + 1)
    case Compute => Put(s, w, Waiting(p.index, job.work(p.index)))
    case Lock => Put(s, w, Locked(p.index, p.r)).(holder := Some(w))
    case Read => Put(s, w, Adding(p.index, p.r, s.total))
    case StoreAndUnlock =>
      Put(s, w, Idle).(
        holder := None,
        results := s.results[p.index := Some(p.r)],
        total := job.add(p.snapshot, p.r),
        log := s.log + [p.index])
    case Exit => Put(s, w, Exited)
  }

  ghost predicate CanClose<R(!new), A(!new)>(job: Job<R, A>, s: Pool<R, A>) {
    s.fed >= job.n && !s.closed
  }

  ghost predicate Step<R(!new), A(!new)>(job: Job<R, A>, s: Pool<R, A>, t: Pool<R, A>) {
    || (CanClose(job, s) && t == s.(closed := true))
    || exists w: nat, act :: Enabled(job, s, w, act) && t == Act(job, s, w, act)
  }

  // ---- The sequential loop ----

  function Fold<R(!new), A(!new)>(job: Job<R, A>, log: seq<nat>): A
    decreases |log|
  {
    if log == [] then job.zero else job.add(Fold(job, log[..|log| - 1]), job.work(log[|log| - 1]))
  }

  function UpTo(n: nat): (s: seq<nat>)
    ensures |s| == n && forall i :: 0 <= i < n ==> s[i] == i
  {
    seq(n, i => i)
  }

  method Sequential<R(!new), A(!new)>(job: Job<R, A>) returns (results: seq<R>, total: A)
    ensures |results| == job.n && forall i :: 0 <= i < job.n ==> results[i] == job.work(i)
    ensures total == Fold(job, UpTo(job.n))
  {
    results, total := [], job.zero;
    for i := 0 to job.n
      invariant |results| == i && forall j :: 0 <= j < i ==> results[j] == job.work(j)
      invariant total == Fold(job, UpTo(i))
    {
      var r := job.work(i);
      results := results + [r];
      total := job.add(total, r);
      assert UpTo(i + 1)[..i] == UpTo(i);
    }
  }

  /** Nobody can move any more. */
  ghost predicate Halted<R(!new), A(!new)>(job: Job<R, A>, s: Pool<R, A>) {
    forall t :: !Step(job, s, t)
  }

  // ---- What every interleaving keeps ----

  ghost predicate Busy<R(!new), A(!new)>(p: Phase<R, A>) {
    !p.Idle? && !p.Exited?
  }

  ghost predicate InCritical<R(!new), A(!new)>(p: Phase<R, A>) {
    p.Locked? || p.Adding?
  }

  ghost predicate Distinct(log: seq<nat>) {
    forall i, j :: 0 <= i < j < |log| ==> log[i] != log[j]
  }

  /** Each index handed out is in exactly one place. */
  ghost predicate OnePlace<R(!new), A(!new)>(s: Pool<R, A>) {
    && Distinct(s.log)
    && (forall i: nat :: i in s.log ==> i < s.fed)
    && (forall w :: 0 <= w < |s.workers| && Busy(s.workers[w]) ==> s.workers[w].index < s.fed && s.workers[w].index !in s.log)
    && (forall v, w :: 0 <= v < w < |s.workers| && Busy(s.workers[v]) && Busy(s.workers[w]) ==>
          s.workers[v].index != s.workers[w].index)
  }

  ghost predicate NothingLost<R(!new), A(!new)>(s: Pool<R, A>) {
    forall i :: 0 <= i < s.fed ==> i in s.log || exists w :: 0 <= w < |s.workers| && Busy(s.workers[w]) && s.workers[w].index == i
  }

  ghost predicate Exclusive<R(!new), A(!new)>(s: Pool<R, A>) {
    forall w :: 0 <= w < |s.workers| ==> (InCritical(s.workers[w]) <==> s.holder == Some(w))
  }

  ghost predicate HolderExists<R(!new), A(!new)>(s: Pool<R, A>) {
    s.holder.Some? ==> s.holder.value < |s.workers|
  }

  ghost predicate ResultsRight<R(!new), A(!new)>(job: Job<R, A>, s: Pool<R, A>) {
    && |s.results| == job.n
    && (forall w :: 0 <= w < |s.workers| && !s.workers[w].Idle? && !s.workers[w].Working? && !s.workers[w].Exited? ==>
          s.workers[w].r == job.work(s.workers[w].index))
    && (forall i :: 0 <= i < job.n ==> s.results[i] == if i in s.log then Some(job.work(i)) else None)
  }

  ghost predicate TallyRight<R(!new), A(!new)>(job: Job<R, A>, s: Pool<R, A>) {
    && s.total == Fold(job, s.log)
    && (forall w :: 0 <= w < |s.workers| && s.workers[w].Adding? ==> s.workers[w].snapshot == s.total)
  }

  ghost predicate ChannelRight<R(!new), A(!new)>(job: Job<R, A>, s: Pool<R, A>) {
    && s.fed <= job.n
    && (s.closed ==> s.fed == job.n)
    && (forall w :: 0 <= w < |s.workers| && s.workers[w].Exited? ==> s.closed)
  }

  ghost predicate Inv<R(!new), A(!new)>(job: Job<R, A>, s: Pool<R, A>) {
    ChannelRight(job, s) && OnePlace(s) && NothingLost(s) && Exclusive(s) && HolderExists(s) && ResultsRight(job, s) && TallyRight(job, s)
  }

  lemma StartInv<R(!new), A(!new)>(job: Job<R, A>, workers: nat)
    ensures Inv(job, Start(job, workers))
  {
  }

  lemma Others<R(!new), A(!new)>(job: Job<R, A>, s: Pool<R, A>, w: nat, act: Action)
    requires Enabled(job, s, w, act)
    ensures var t := Act(job, s, w, act);
      && |t.workers| == |s.workers|
      && (forall v :: 0 <= v < |s.workers| && v != w ==> t.workers[v] == s.workers[v])
  {
  }

  lemma KeepsOnePlace<R(!new), A(!new)>(job: Job<R, A>, s: Pool<R, A>, w: nat, act: Action)
    requires Inv(job, s) && Enabled(job, s, w, act)
    ensures OnePlace(Act(job, s, w, act))
  {
    var t := Act(job, s, w, act);
    Others(job, s, w, act);
    match act
    case Take => assert s.fed !in s.log;
    case StoreAndUnlock =>
      assert Busy(s.workers[w]) && s.workers[w].index !in s.log;
      assert Distinct(t.log);
    case _ =>
  }

  lemma KeepsNothingLost<R(!new), A(!new)>(job: Job<R, A>, s: Pool<R, A>, w: nat, act: Action)
    requires Inv(job, s) && Enabled(job, s, w, act)
    ensures NothingLost(Act(job, s, w, act))
  {
    var t := Act(job, s, w, act);
    Others(job, s, w, act);
    forall i | 0 <= i < t.fed && i !in t.log
      ensures exists v :: 0 <= v < |t.workers| && Busy(t.workers[v]) && t.workers[v].index == i
    {
      if act.Take? && i == s.fed {
        assert Busy(t.workers[w]) && t.workers[w].index == i;
      } else {
        var v :| 0 <= v < |s.workers| && Busy(s.workers[v]) && s.workers[v].index == i;
        assert Busy(t.workers[v]) && t.workers[v].index == i;
      }
    }
  }

  lemma KeepsRest<R(!new), A(!new)>(job: Job<R, A>, s: Pool<R, A>, w: nat, act: Action)
    requires Inv(job, s) && Enabled(job, s, w, act)
    ensures var t := Act(job, s, w, act);
      ChannelRight(job, t) && Exclusive(t) && HolderExists(t) && ResultsRight(job, t)
  {
    var t := Act(job, s, w, act);
    Others(job, s, w, act);
  }

  lemma KeepsTally<R(!new), A(!new)>(job: Job<R, A>, s: Pool<R, A>, w: nat, act: Action)
    requires Inv(job, s) && Enabled(job, s, w, act)
    ensures TallyRight(job, Act(job, s, w, act))
  {
    if act.StoreAndUnlock? {
      StoreKeepsTally(job, s, w);
    } else {
      Others(job, s, w, act);
    }
  }

  lemma StoreKeepsTally<R(!new), A(!new)>(job: Job<R, A>, s: Pool<R, A>, w: nat)
    requires Exclusive(s) && TallyRight(job, s) && ResultsRight(job, s) && Enabled(job, s, w, StoreAndUnlock)
    ensures TallyRight(job, Act(job, s, w, StoreAndUnlock))
  {
    var t := Act(job, s, w, StoreAndUnlock);
    Others(job, s, w, StoreAndUnlock);
    assert t.log[..|t.log| - 1] == s.log;
    assert InCritical(s.workers[w]);
    assert forall v :: 0 <= v < |t.workers| && v != w ==> !InCritical(s.workers[v]);
  }

  lemma StepKeepsInv<R(!new), A(!new)>(job: Job<R, A>, s: Pool<R, A>, t: Pool<R, A>)
    requires Inv(job, s) && Step(job, s, t)
    ensures Inv(job, t)
  {
    if !(CanClose(job, s) && t == s.(closed := true)) {
      var w: nat, act :| Enabled(job, s, w, act) && t == Act(job, s, w, act);
      KeepsOnePlace(job, s, w, act);
      KeepsNothingLost(job, s, w, act);
      KeepsRest(job, s, w, act);
      KeepsTally(job, s, w, act);
    }
  }

  // ---- Progress and termination ----

  ghost predicate Finished<R(!new), A(!new)>(s: Pool<R, A>) {
    forall w :: 0 <= w < |s.workers| ==> s.workers[w].Exited?
  }

  /** No deadlock: until every worker has exited, somebody can move. */
  lemma NeverStuck<R(!new), A(!new)>(job: Job<R, A>, s: Pool<R, A>)
    requires Inv(job, s) && !Finished(s)
    ensures !Halted(job, s)
  {
    if CanClose(job, s) {
      assert Step(job, s, s.(closed := true));
    } else {
      var w :| 0 <= w < |s.workers| && !s.workers[w].Exited?;
      if s.workers[w].Waiting? && s.holder.Some? {
        CanMove(job, s, s.holder.value);
      } else {
        CanMove(job, s, w);
      }
    }
  }

  lemma CanMove<R(!new), A(!new)>(job: Job<R, A>, s: Pool<R, A>, w: nat)
    requires Inv(job, s) && !CanClose(job, s) && w < |s.workers| && !s.workers[w].Exited?
    requires s.workers[w].Waiting? ==> s.holder.None?
    ensures !Halted(job, s)
  {
    assert Busy(s.workers[w]) ==> s.workers[w].index < job.n;
    var act := match s.workers[w]
      case Idle => if s.fed < job.n then Take else Exit
      case Working(_) => Compute
      case Waiting(_, _) => Lock
      case Locked(_, _) => Read
      case _ => StoreAndUnlock;
    assert Enabled(job, s, w, act);
    assert Step(job, s, Act(job, s, w, act));
  }

  function Rank<R(!new), A(!new)>(p: Phase<R, A>): nat {
    match p
    case Exited => 0
    case Idle => 1
    case Adding(_, _, _) => 2
    case Locked(_, _) => 3
    case Waiting(_, _) => 4
    case Working(_) => 5
  }

  function Ranks<R(!new), A(!new)>(workers: seq<Phase<R, A>>): nat
    decreases |workers|
  {
    if workers == [] then 0 else Ranks(workers[..|workers| - 1]) + Rank(workers[|workers| - 1])
  }

  lemma {:induction false} RanksUpdate<R(!new), A(!new)>(workers: seq<Phase<R, A>>, w: nat, p: Phase<R, A>)
    requires w < |workers|
    ensures Ranks(workers[w := p]) == Ranks(workers) - Rank(workers[w]) + Rank(p)
    decreases |workers|
  {
    var n := |workers| - 1;
    if w < n {
      assert workers[w := p][..n] == workers[..n][w := p];
      RanksUpdate(workers[..n], w, p);
    } else {
      assert workers[w := p][..n] == workers[..n];
    }
  }

  /** How many steps can still come. */
  function Remaining<R(!new), A(!new)>(job: Job<R, A>, s: Pool<R, A>): int {
    5 * (job.n - s.fed) + (if s.closed then 0 else 1) + Ranks(s.workers)
  }

  lemma StepDecreases<R(!new), A(!new)>(job: Job<R, A>, s: Pool<R, A>, t: Pool<R, A>)
    requires Inv(job, s) && Step(job, s, t)
    ensures 0 <= Remaining(job, t) < Remaining(job, s)
  {
    StepKeepsInv(job, s, t);
    if !(CanClose(job, s) && t == s.(closed := true)) {
      var w: nat, act :| Enabled(job, s, w, act) && t == Act(job, s, w, act);
      ActDecreases(job, s, w, act);
    }
  }

  lemma ActDecreases<R(!new), A(!new)>(job: Job<R, A>, s: Pool<R, A>, w: nat, act: Action)
    requires Enabled(job, s, w, act)
    ensures Remaining(job, Act(job, s, w, act)) < Remaining(job, s)
  {
    var t := Act(job, s, w, act);
    assert t.workers == s.workers[w := t.workers[w]];
    RanksUpdate(s.workers, w, t.workers[w]);
  }

  // ---- The end state ----

  ghost predicate Commutes<R(!new), A(!new)>(job: Job<R, A>) {
    forall a, x, y :: job.add(job.add(a, x), y) == job.add(job.add(a, y), x)
  }

  /** A commutative tally does not depend on the order of the log. */
  lemma {:induction false} FoldMoves<R(!new), A(!new)>(job: Job<R, A>, log: seq<nat>, k: nat)
    requires Commutes(job) && k < |log|
    ensures Fold(job, log) == job.add(Fold(job, log[..k] + log[k + 1..]), job.work(log[k]))
    decreases |log|
  {
    var n := |log| - 1;
    var init, last := log[..n], log[n];
    if k == n {
      assert log[..k] + log[k + 1..] == init;
    } else {
      FoldMoves(job, init, k);
      var without := init[..k] + init[k + 1..];
      assert log[..k] + log[k + 1..] == without + [last];
      assert (without + [last])[..n - 1] == without;
    }
  }

  /** The log holds exactly the numbers below n, each once. */
  ghost predicate Complete(log: seq<nat>, n: nat) {
    && Distinct(log)
    && (forall k :: 0 <= k < |log| ==> log[k] < n)
    && (forall i :: 0 <= i < n ==> i in log)
  }

  lemma CompleteIsBounded(log: seq<nat>, n: nat)
    requires Complete(log, n)
    ensures log != [] ==> n > 0
  {
    if log != [] {
      assert log[0] < n;
    }
  }

  lemma Without(log: seq<nat>, k: nat, n: nat)
    requires Complete(log, n) && k < |log| && log[k] == n - 1
    ensures Complete(log[..k] + log[k + 1..], n - 1)
  {
    var rest := log[..k] + log[k + 1..];
    assert forall j :: 0 <= j < |rest| ==> rest[j] == log[if j < k then j else j + 1];
    forall i | 0 <= i < n - 1 ensures i in rest {
      assert i in log;
      var j :| 0 <= j < |log| && log[j] == i;
      assert rest[if j < k then j else j - 1] == i;
    }
  }

  lemma {:induction false} FoldOfPermutation<R(!new), A(!new)>(job: Job<R, A>, log: seq<nat>, n: nat)
    requires Commutes(job) && Complete(log, n)
    ensures |log| == n && Fold(job, log) == Fold(job, UpTo(n))
    decreases n
  {
    if n > 0 {
      assert n - 1 in log;
      var k :| 0 <= k < |log| && log[k] == n - 1;
      var rest := log[..k] + log[k + 1..];
      FoldMoves(job, log, k);
      Without(log, k, n);
      FoldOfPermutation(job, rest, n - 1);
      assert UpTo(n)[..n - 1] == UpTo(n - 1);
    } else {
      CompleteIsBounded(log, n);
    }
  }

  /** A finished pool with at least one worker is the sequential loop's outcome. */
  lemma FinishedIsSequential<R(!new), A(!new)>(job: Job<R, A>, s: Pool<R, A>)
    requires Inv(job, s) && Finished(s) && |s.workers| >= 1 && Commutes(job)
    ensures s.total == Fold(job, UpTo(job.n))
    ensures |s.results| == job.n && forall i :: 0 <= i < job.n ==> s.results[i] == Some(job.work(i))
    ensures Complete(s.log, job.n) && |s.log| == job.n
  {
    assert s.workers[0].Exited?;
    forall i | 0 <= i < job.n ensures i in s.log {
      assert forall w :: 0 <= w < |s.workers| ==> !Busy(s.workers[w]);
    }
    assert forall k :: 0 <= k < |s.log| ==> s.log[k] in s.log;
    FoldOfPermutation(job, s.log, job.n);
  }

  ghost predicate Run<R(!new), A(!new)>(job: Job<R, A>, states: seq<Pool<R, A>>) {
    && states != []
    && forall k :: 0 <= k < |states| - 1 ==> Step(job, states[k], states[k + 1])
  }

  lemma {:induction false} RunKeepsInv<R(!new), A(!new)>(job: Job<R, A>, states: seq<Pool<R, A>>, k: nat)
    requires Run(job, states) && Inv(job, states[0]) && k < |states|
    ensures Inv(job, states[k])
    ensures 0 <= Remaining(job, states[k]) <= Remaining(job, states[0]) - k
    decreases k
  {
    if k > 0 {
      RunKeepsInv(job, states, k - 1);
      assert Step(job, states[k - 1], states[k - 1 + 1]);
      StepKeepsInv(job, states[k - 1], states[k]);
      StepDecreases(job, states[k - 1], states[k]);
    } else {
      RanksNat(job, states[0]);
    }
  }

  lemma RanksNat<R(!new), A(!new)>(job: Job<R, A>, s: Pool<R, A>)
    requires Inv(job, s)
    ensures Remaining(job, s) >= 0
  {
  }

  lemma {:induction false} StartRanks<R(!new), A(!new)>(n: nat)
    ensures Ranks(seq<Phase<R, A>>(n, _ => Idle)) == n
    decreases n
  {
    if n == 0 {
    } else {
      assert seq<Phase<R, A>>(n, _ => Idle)[..n - 1] == seq<Phase<R, A>>(n - 1, _ => Idle);
      StartRanks<R, A>(n - 1);
    }
  }

  /** Every interleaving, whatever the number of workers: at most 5n + workers + 1 steps,
      never a deadlock, and a run that cannot go on ends with exactly the results and
      the tally of the sequential loop, each job having been stored once. */
  lemma EveryRunIsSequential<R(!new), A(!new)>(job: Job<R, A>, workers: nat, states: seq<Pool<R, A>>)
    requires workers >= 1 && Commutes(job)
    requires Run(job, states) && states[0] == Start(job, workers)
    ensures |states| - 1 <= 5 * job.n + workers + 1
    ensures var last := states[|states| - 1];
      Halted(job, last) ==>
        && Finished(last)
        && last.total == Fold(job, UpTo(job.n))
        && |last.results| == job.n
        && (forall i :: 0 <= i < job.n ==> last.results[i] == Some(job.work(i)))
        && Complete(last.log, job.n) && |last.log| == job.n
  {
    var last := states[|states| - 1];
    StartInv(job, workers);
    StartRanks<R, A>(workers);
    RunKeepsInv(job, states, |states| - 1);
    RunKeepsWorkers(job, states, |states| - 1);
    if Halted(job, last) {
      if !Finished(last) {
        NeverStuck(job, last);
      }
      FinishedIsSequential(job, last);
    }
  }

  lemma {:induction false} RunKeepsWorkers<R(!new), A(!new)>(job: Job<R, A>, states: seq<Pool<R, A>>, k: nat)
    requires Run(job, states) && k < |states|
    ensures |states[k].workers| == |states[0].workers|
    decreases k
  {
    if k == 0 {
    } else {
      RunKeepsWorkers(job, states, k - 1);
      assert Step(job, states[k - 1], states[k - 1 + 1]);
    }
  }

  /** Two runs with any two worker counts end alike. */
  lemma WorkerCountIsIrrelevant<R(!new), A(!new)>(job: Job<R, A>, m: nat, n: nat, a: seq<Pool<R, A>>, b: seq<Pool<R, A>>)
    requires m >= 1 && n >= 1 && Commutes(job)
    requires Run(job, a) && a[0] == Start(job, m) && Run(job, b) && b[0] == Start(job, n)
    requires Finished(a[|a| - 1]) && Finished(b[|b| - 1])
    ensures a[|a| - 1].total == b[|b| - 1].total && a[|a| - 1].results == b[|b| - 1].results
  {
    StartInv(job, m);
    StartInv(job, n);
    RunKeepsInv(job, a, |a| - 1);
    RunKeepsInv(job, b, |b| - 1);
    RunKeepsWorkers(job, a, |a| - 1);
    RunKeepsWorkers(job, b, |b| - 1);
    FinishedIsSequential(job, a[|a| - 1]);
    FinishedIsSequential(job, b[|b| - 1]);
  }

  /** The mutex in one sentence: nobody's read of the tally is ever stale when it is
      written back. */
  lemma NoLostUpdate<R(!new), A(!new)>(job: Job<R, A>, s: Pool<R, A>, w: nat)
    requires Inv(job, s) && Enabled(job, s, w, StoreAndUnlock)
    ensures Act(job, s, w, StoreAndUnlock).total == job.add(s.total, job.work(s.workers[w].index))
  {
  }

  // ---- Results that are computed but not stored yet ----

  ghost predicate Computes<R(!new), A(!new)>(job: Job<R, A>, s: Pool<R, A>, t: Pool<R, A>, w: nat) {
    Enabled(job, s, w, Compute) && t == Act(job, s, w, Compute)
  }

  ghost predicate Holding<R(!new), A(!new)>(p: Phase<R, A>, i: nat) {
    (p.Waiting? || p.Locked? || p.Adding?) && p.index == i
  }

  /** job.work(i) has been called. */
  ghost predicate Computed<R(!new), A(!new)>(s: Pool<R, A>, i: nat) {
    i in s.log || exists w :: 0 <= w < |s.workers| && Holding(s.workers[w], i)
  }

  lemma ComputedMore<R(!new), A(!new)>(job: Job<R, A>, s: Pool<R, A>, t: Pool<R, A>, w: nat, i: nat)
    requires Computes(job, s, t, w)
    ensures Computed(t, i) <==> Computed(s, i) || i == s.workers[w].index
  {
    Others(job, s, w, Compute);
    if exists v :: 0 <= v < |s.workers| && Holding(s.workers[v], i) {
      var v :| 0 <= v < |s.workers| && Holding(s.workers[v], i);
      assert Holding(t.workers[v], i);
    }
    if i == s.workers[w].index {
      assert Holding(t.workers[w], i);
    }
  }

  lemma ComputedStays<R(!new), A(!new)>(job: Job<R, A>, s: Pool<R, A>, t: Pool<R, A>, i: nat)
    requires Step(job, s, t) && forall w: nat :: !Computes(job, s, t, w)
    ensures Computed(t, i) <==> Computed(s, i)
  {
    if !(CanClose(job, s) && t == s.(closed := true)) {
      var w: nat, act :| Enabled(job, s, w, act) && t == Act(job, s, w, act);
      assert act.Compute? ==> Computes(job, s, t, w);
      OtherActs(job, s, w, act, i);
    }
  }

  lemma OtherActs<R(!new), A(!new)>(job: Job<R, A>, s: Pool<R, A>, w: nat, act: Action, i: nat)
    requires Enabled(job, s, w, act) && !act.Compute?
    ensures Computed(Act(job, s, w, act), i) <==> Computed(s, i)
  {
    var t := Act(job, s, w, act);
    Others(job, s, w, act);
    if act.StoreAndUnlock? {
      assert forall j :: j in t.log <==> j in s.log || j == s.workers[w].index;
      assert Holding(s.workers[w], s.workers[w].index);
    } else {
      assert Holding(t.workers[w], i) <==> Holding(s.workers[w], i);
    }
    if exists v :: 0 <= v < |s.workers| && Holding(s.workers[v], i) {
      var v :| 0 <= v < |s.workers| && Holding(s.workers[v], i);
      assert v != w ==> Holding(t.workers[v], i);
    }
  }

  lemma AllComputed<R(!new), A(!new)>(s: Pool<R, A>, i: nat)
    requires i in s.log
    ensures Computed(s, i)
  {
  }

  /** The number of workers: the option, or the default when it is not positive, never
      more than the jobs and never none. */
  function EffectiveConcurrency(option: int, fallback: int, jobs: nat): (n: int)
    ensures 1 <= n && (n <= jobs || (jobs == 0 && n == 1))
    ensures jobs >= 1 && 1 <= option <= jobs ==> n == option
  {
    var wanted := if option <= 0 then fallback else option;
    var capped := if wanted > jobs then jobs else wanted;
    if capped < 1 then 1 else capped
  }

  /** Why at least one worker matters: without workers the pool is finished at once,
      with nothing done. */
  lemma NoWorkersNoWork<R(!new), A(!new)>(job: Job<R, A>)
    requires job.n > 0
    ensures var s := Start(job, 0); Finished(s) && s.results[0] == None
  {
  }
}
