/** internal/cli/sampling.go: keeping a bounded sample of a stream of live objects. */
module Sampling {
  import opened Wrappers
  import opened Ordering

  datatype Strategy = First | Random | Newest

  datatype Options = Options(max: int, strategy: Strategy)

  datatype Sample = Sample(file: string)

  /** One object of the stream with its creation timestamp. */
  datatype Offer = Offer(sample: Sample, created: string)

  datatype Report = Report(strategy: Strategy, cap: int, population: nat, truncated: bool, tested: nat)

  predicate Enabled(o: Options) {
    o.max > 0
  }

  ghost predicate DistinctAt(at: seq<nat>) {
    forall i, j :: 0 <= i < j < |at| ==> at[i] != at[j]
  }

  /** Which positions of the stream are held after one more object, under Algorithm R:
      the slot is the random choice among all objects seen. */
  function ReservoirStep(n: nat, at: seq<nat>, seen: nat, choice: nat): seq<nat> {
    if |at| < n then at + [seen]
    else if choice < n && choice < |at| then at[choice := seen]
    else at
  }

  // ---- The newest window ----

  ghost predicate IsOldest(order: seq<string>, k: int) {
    0 <= k < |order| && forall i :: 0 <= i < |order| ==> AtMost(order[k], order[i])
  }

  function Without<T>(s: seq<T>, k: nat): (r: seq<T>)
    requires k < |s|
    ensures |r| == |s| - 1 && forall i :: 0 <= i < |r| ==> r[i] == if i < k then s[i] else s[i + 1]
  {
    s[..k] + s[k + 1..]
  }

  /** Strictly before in the report: created later, or at the same time with the earlier
      file. */
  predicate ComesBefore(a: Offer, b: Offer) {
    Less(b.created, a.created) || (a.created == b.created && Less(a.sample.file, b.sample.file))
  }

  ghost predicate Below(s: seq<nat>, n: nat) {
    forall k :: k in s ==> k < n
  }

  /** The indexes of held, sorted stably: a later index goes after its equals. */
  function InsertNewest(held: seq<Offer>, x: nat, s: seq<nat>): (r: seq<nat>)
    requires x < |held| && Below(s, |held|)
    ensures |r| == |s| + 1 && forall y :: y in r <==> y == x || y in s
    decreases |s|
  {
    if s == [] then [x]
    else
      assert s[0] in s && s == [s[0]] + s[1..] && forall k :: k in s[1..] ==> k in s;
      if ComesBefore(held[x], held[s[0]]) then [x] + s
      else [s[0]] + InsertNewest(held, x, s[1..])
  }

  function NewestFirst(held: seq<Offer>, n: nat): (r: seq<nat>)
    requires n <= |held|
    ensures |r| == n && forall y :: y in r <==> 0 <= y < n
    decreases n
  {
    if n == 0 then [] else InsertNewest(held, n - 1, NewestFirst(held, n - 1))
  }

  ghost predicate Ordered(held: seq<Offer>, s: seq<nat>)
    requires Below(s, |held|)
  {
    forall i, j :: 0 <= i < j < |s| ==> s[i] in s && s[j] in s && !ComesBefore(held[s[j]], held[s[i]])
  }

  lemma ComesBeforeTransitive(a: Offer, b: Offer, c: Offer)
    requires !ComesBefore(b, a) && !ComesBefore(c, b)
    ensures !ComesBefore(c, a)
  {
    LessTotal(a.created, b.created);
    LessTotal(b.created, c.created);
    LessTotal(a.sample.file, b.sample.file);
    LessTotal(b.sample.file, c.sample.file);
    AtMostTransitive(c.created, b.created, a.created);
    if ComesBefore(c, a) {
      if Less(a.created, c.created) {
        LessAsymmetric(a.created, c.created);
      } else {
        LessIrreflexive(a.created);
        if a.created == b.created {
          AtMostTransitive(a.sample.file, b.sample.file, c.sample.file);
          LessAsymmetric(c.sample.file, a.sample.file);
        } else {
          LessAsymmetric(b.created, a.created);
        }
      }
    }
  }

  lemma {:induction false} InsertOrdered(held: seq<Offer>, x: nat, s: seq<nat>)
    requires x < |held| && Below(s, |held|) && Ordered(held, s)
    ensures Ordered(held, InsertNewest(held, x, s))
    decreases |s|
  {
    hide ComesBefore;
    if s == [] {
    } else {
      var first, rest := s[0], s[1..];
      assert first in s && forall k :: k in rest ==> k in s;
      if ComesBefore(held[x], held[first]) {
        BeforeIsNotAfter(held[x], held[first]);
        forall k | k in s ensures !ComesBefore(held[k], held[x]) {
          var j :| 0 <= j < |s| && s[j] == k;
          if j > 0 {
            ComesBeforeTransitive(held[x], held[first], held[k]);
          }
        }
        PrependOrdered(held, x, s);
      } else {
        forall i, j | 0 <= i < j < |rest| ensures !ComesBefore(held[rest[j]], held[rest[i]]) {
          assert rest[i] == s[i + 1] && rest[j] == s[j + 1];
        }
        InsertOrdered(held, x, rest);
        forall k | k in rest ensures !ComesBefore(held[k], held[first]) {
          var j :| 0 <= j < |rest| && rest[j] == k;
          assert s[j + 1] == k;
        }
        PrependOrdered(held, first, InsertNewest(held, x, rest));
      }
    }
  }

  lemma PrependOrdered(held: seq<Offer>, x: nat, s: seq<nat>)
    requires x < |held| && Below(s, |held|) && Ordered(held, s)
    requires forall k :: k in s ==> !ComesBefore(held[k], held[x])
    ensures Below([x] + s, |held|) && Ordered(held, [x] + s)
  {
    var r := [x] + s;
    forall i, j | 0 <= i < j < |r| ensures r[i] in r && r[j] in r && !ComesBefore(held[r[j]], held[r[i]]) {
      assert r[j] == s[j - 1] && s[j - 1] in s;
    }
  }

  lemma BeforeIsNotAfter(a: Offer, b: Offer)
    requires ComesBefore(a, b)
    ensures !ComesBefore(b, a)
  {
    if Less(b.created, a.created) {
      LessAsymmetric(b.created, a.created);
    } else {
      LessIrreflexive(a.created);
      LessAsymmetric(a.sample.file, b.sample.file);
    }
  }

  /** The report lists newest first, then by file, each held object once. */
  lemma {:induction false} NewestFirstOrdered(held: seq<Offer>, n: nat)
    requires n <= |held|
    ensures Ordered(held, NewestFirst(held, n)) && DistinctAt(NewestFirst(held, n))
    decreases n
  {
    if n == 0 {
    } else {
      hide ComesBefore, InsertNewest, Ordered, DistinctAt;
      NewestFirstOrdered(held, n - 1);
      InsertOrdered(held, n - 1, NewestFirst(held, n - 1));
      InsertDistinct(held, n - 1, NewestFirst(held, n - 1));
    }
  }

  lemma {:induction false} InsertDistinct(held: seq<Offer>, x: nat, s: seq<nat>)
    requires x < |held| && Below(s, |held|) && DistinctAt(s) && x !in s
    ensures DistinctAt(InsertNewest(held, x, s))
    decreases |s|
  {
    hide ComesBefore, InsertNewest;
    InsertStep(held, x, s);
    if s != [] {
      var rest := s[1..];
      assert s[0] in s && forall k :: k in rest ==> k in s;
      InsertDistinct(held, x, rest);
      PrependDistinct(s[0], InsertNewest(held, x, rest));
    }
    PrependDistinct(x, s);
  }

  lemma InsertStep(held: seq<Offer>, x: nat, s: seq<nat>)
    requires x < |held| && Below(s, |held|)
    ensures InsertNewest(held, x, s) == [x] + s ||
      (s != [] && Below(s[1..], |held|) && InsertNewest(held, x, s) == [s[0]] + InsertNewest(held, x, s[1..]))
  {
    assert s != [] ==> forall k :: k in s[1..] ==> k in s;
    assert [x] + [] == [x];
  }

  lemma PrependDistinct(x: nat, s: seq<nat>)
    requires DistinctAt(s)
    ensures x !in s ==> DistinctAt([x] + s)
  {
  }

  method Oldest(order: seq<string>) returns (oldest: nat)
    requires order != []
    ensures IsOldest(order, oldest)
  {
    oldest := 0;
    for i := 1 to |order|
      invariant 0 <= oldest < i <= |order|
      invariant forall j :: 0 <= j < i ==> AtMost(order[oldest], order[j])
    {
      LessTotal(order[i], order[oldest]);
      if Less(order[i], order[oldest]) {
        forall j | 0 <= j < i ensures AtMost(order[i], order[j]) {
          AtMostTransitive(order[i], order[oldest], order[j]);
        }
        oldest := i;
      }
    }
  }

  // ---- The sampler ----

  class Sampler {
    const opts: Options
    var seen: nat
    var stoppedEarly: bool
    var kept: seq<Sample>
    var order: seq<string>
    /** Everything offered so far, and the stream position of each kept sample. */
    ghost var stream: seq<Offer>
    ghost var at: seq<nat>

    ghost predicate Positions()
      reads this
    {
      && seen == |stream|
      && |at| == |kept|
      && DistinctAt(at)
      && (forall i :: 0 <= i < |at| ==> at[i] < |stream| && kept[i] == stream[at[i]].sample)
    }

    /** What each strategy holds: everything; the first objects; as many as allowed; or
        the newest ones, nothing left out being newer than anything held. */
    ghost predicate Holds()
      requires Positions()
      reads this
    {
      if !Enabled(opts) then |at| == seen && forall i :: 0 <= i < |at| ==> at[i] == i
      else
        && |at| == (if seen < opts.max then seen else opts.max)
        && (opts.strategy.First? ==> forall i :: 0 <= i < |at| ==> at[i] == i)
        && (opts.strategy.Newest? ==> |order| == |at| && HoldsNewest())
    }

    ghost predicate HoldsNewest()
      requires Positions() && |order| == |at|
      reads this
    {
      && (forall i :: 0 <= i < |at| ==> order[i] == stream[at[i]].created)
      && (forall p, i :: 0 <= p < |stream| && p !in at && 0 <= i < |at| ==> AtMost(stream[p].created, order[i]))
    }

    ghost predicate Valid()
      reads this
    {
      Positions() && Holds() && (stoppedEarly ==> Enabled(opts) && opts.strategy.First? && |kept| >= opts.max)
    }

    constructor (opts: Options)
      ensures Valid() && this.opts == opts && stream == [] && at == [] && !stoppedEarly
    {
      this.opts := opts;
      seen, stoppedEarly, kept, order := 0, false, [], [];
      stream, at := [], [];
    }

    method Full() returns (full: bool)
      requires Valid()
      modifies this`stoppedEarly
      ensures Valid()
      ensures full <==> Enabled(opts) && opts.strategy.First? && |kept| >= opts.max
      ensures stoppedEarly == (old(stoppedEarly) || full)
    {
      full := Enabled(opts) && opts.strategy.First? && |kept| >= opts.max;
      if full {
        stoppedEarly := true;
      }
    }

    /** choice is what Intn(seen) returned; only the random strategy looks at it. */
    method Add(o: Offer, choice: nat)
      requires Valid() && choice <= seen
      modifies this`seen, this`kept, this`order, this`stream, this`at
      ensures Valid() && stream == old(stream) + [o] && stoppedEarly == old(stoppedEarly)
      ensures Enabled(opts) && opts.strategy.Random? ==> at == ReservoirStep(opts.max, old(at), old(seen), choice)
    {
      hide ReservoirStep, AtMost;
      ghost var before := stream;
      stream := stream + [o];
      assert forall p :: 0 <= p < |before| ==> stream[p] == before[p];
      seen := seen + 1;
      if !Enabled(opts) {
        kept, at := kept + [o.sample], at + [seen - 1];
        return;
      }
      match opts.strategy
      case First =>
        if |kept| < opts.max {
          kept, at := kept + [o.sample], at + [seen - 1];
        }
      case Random =>
        AddRandom(o, choice, before);
      case Newest =>
        AddNewest(o, before);
    }

    method AddRandom(o: Offer, choice: nat, ghost before: seq<Offer>)
      requires Enabled(opts) && opts.strategy.Random? && !stoppedEarly
      requires stream == before + [o] && seen == |stream|
      requires |at| == |kept| == (if |before| < opts.max then |before| else opts.max)
      requires DistinctAt(at)
      requires forall i :: 0 <= i < |at| ==> at[i] < |before| && kept[i] == before[at[i]].sample
      modifies this`kept, this`at
      ensures Valid() && at == ReservoirStep(opts.max, old(at), |before|, choice)
    {
      if |kept| < opts.max {
        kept, at := kept + [o.sample], at + [seen - 1];
      } else if choice < opts.max {
        kept, at := kept[choice := o.sample], at[choice := seen - 1];
      }
    }

    method AddNewest(o: Offer, ghost before: seq<Offer>)
      requires Enabled(opts) && opts.strategy.Newest?
      requires stream == before + [o] && seen == |stream|
      requires |at| == |kept| == |order| == (if |before| < opts.max then |before| else opts.max)
      requires DistinctAt(at)
      requires forall i :: 0 <= i < |at| ==> at[i] < |before| && kept[i] == before[at[i]].sample && order[i] == before[at[i]].created
      requires forall p, i :: 0 <= p < |before| && p !in at && 0 <= i < |at| ==> AtMost(before[p].created, order[i])
      requires !stoppedEarly
      modifies this`kept, this`order, this`at
      ensures Valid()
    {
      kept, order, at := kept + [o.sample], order + [o.created], at + [seen - 1];
      if |kept| > opts.max {
        TrimOldest();
      } else {
        assert forall p :: 0 <= p < |stream| ==> p in at by {
          AllHeld(at, |stream|);
        }
      }
    }

    /** Drops one oldest entry from both slices at the same index. */
    method TrimOldest()
      requires Positions() && seen > opts.max && |order| == |at| == opts.max + 1 && opts.max > 0 && opts.strategy.Newest? && !stoppedEarly
      requires forall i :: 0 <= i < |at| ==> order[i] == stream[at[i]].created
      requires forall p, i :: 0 <= p < |stream| && p !in at && 0 <= i < |at| - 1 ==> AtMost(stream[p].created, order[i])
      modifies this`kept, this`order, this`at
      ensures Valid() && |kept| == opts.max
    {
      hide AtMost, IsOldest, DistinctAt;
      var oldest := Oldest(order);
      DropKeepsNewest(stream, at, order, oldest);
      DropAligned(stream, kept, at, order, oldest);
      kept := Without(kept, oldest);
      order := Without(order, oldest);
      at := Without(at, oldest);
    }

    /** The kept samples paired with their timestamps. */
    ghost function Held(): (held: seq<Offer>)
      requires Positions()
      reads this
      ensures |held| == |kept|
    {
      PickAt(stream, at)
    }

    method Result() returns (samples: seq<Sample>, rep: Option<Report>)
      requires Valid()
      ensures rep.None? <==> !Enabled(opts) || (seen <= |kept| && !stoppedEarly)
      ensures rep.Some? ==> rep.value == Report(opts.strategy, opts.max, if stoppedEarly then 0 else seen, stoppedEarly, |kept|)
      ensures samples == if Enabled(opts) && opts.strategy.Newest? then Reorder(kept, NewestFirst(Held(), |kept|)) else kept
    {
      samples := kept;
      if Enabled(opts) && opts.strategy.Newest? {
        var zipped := Zip(kept, order);
        assert zipped == Held();
        samples := Reorder(kept, NewestFirst(zipped, |kept|));
      }
      if !Enabled(opts) || (seen <= |kept| && !stoppedEarly) {
        return samples, None;
      }
      rep := Some(Report(opts.strategy, opts.max, if stoppedEarly then 0 else seen, stoppedEarly, |kept|));
    }
  }

  function PickAt(stream: seq<Offer>, at: seq<nat>): (held: seq<Offer>)
    requires forall i :: 0 <= i < |at| ==> at[i] < |stream|
    ensures |held| == |at| && forall i :: 0 <= i < |at| ==> held[i] == stream[at[i]]
  {
    seq(|at|, i requires 0 <= i < |at| => stream[at[i]])
  }

  function Zip(kept: seq<Sample>, order: seq<string>): (zipped: seq<Offer>)
    requires |kept| == |order|
    ensures |zipped| == |kept| && forall i :: 0 <= i < |kept| ==> zipped[i] == Offer(kept[i], order[i])
  {
    seq(|kept|, i requires 0 <= i < |kept| => Offer(kept[i], order[i]))
  }

  function Reorder<T>(kept: seq<T>, idx: seq<nat>): (r: seq<T>)
    requires forall k :: k in idx ==> k < |kept|
    ensures |r| == |idx| && forall i :: 0 <= i < |idx| ==> idx[i] in idx && r[i] == kept[idx[i]]
  {
    seq(|idx|, i requires 0 <= i < |idx| => assert idx[i] in idx; kept[idx[i]])
  }

  /** Distinct positions below n are at most n. */
  lemma {:induction false} Pigeonhole(at: seq<nat>, n: nat)
    requires DistinctAt(at) && forall i :: 0 <= i < |at| ==> at[i] < n
    ensures |at| <= n
    decreases n
  {
    if at != [] {
      assert at[0] < n;
    }
    if n == 0 {
    } else if k :| 0 <= k < |at| && at[k] == n - 1 {
      Pigeonhole(Without(at, k), n - 1);
    } else {
      Pigeonhole(at, n - 1);
    }
  }

  /** As many distinct positions as there are leave none out. */
  lemma AllHeld(at: seq<nat>, n: nat)
    requires DistinctAt(at) && |at| == n && forall i :: 0 <= i < n ==> at[i] < n
    ensures forall p :: 0 <= p < n ==> p in at
  {
    forall p | 0 <= p < n ensures p in at {
      if p !in at {
        Pigeonhole(at + [p], n);
      }
    }
  }

  lemma DropAligned(stream: seq<Offer>, kept: seq<Sample>, at: seq<nat>, order: seq<string>, k: nat)
    requires |kept| == |at| == |order| && k < |at| && DistinctAt(at)
    requires forall i :: 0 <= i < |at| ==> at[i] < |stream| && kept[i] == stream[at[i]].sample && order[i] == stream[at[i]].created
    ensures var kept', at', order' := Without(kept, k), Without(at, k), Without(order, k);
      DistinctAt(at') &&
      forall i :: 0 <= i < |at'| ==> at'[i] < |stream| && kept'[i] == stream[at'[i]].sample && order'[i] == stream[at'[i]].created
  {
  }

  lemma KeptElsewhere(at: seq<nat>, k: nat, m: nat)
    requires k < |at| && m < |at|
    ensures m != k ==> at[m] in Without(at, k)
  {
    if m < k {
      assert Without(at, k)[m] == at[m];
    } else if m > k {
      assert Without(at, k)[m - 1] == at[m];
    }
  }

  /** Dropping one oldest entry leaves the newest ones: nothing outside the window is
      newer than anything in it. */
  lemma DropKeepsNewest(stream: seq<Offer>, at: seq<nat>, order: seq<string>, oldest: nat)
    requires |order| == |at| && |at| >= 2 && IsOldest(order, oldest)
    requires forall i :: 0 <= i < |at| ==> at[i] < |stream| && order[i] == stream[at[i]].created
    requires forall p, i :: 0 <= p < |stream| && p !in at && 0 <= i < |at| - 1 ==> AtMost(stream[p].created, order[i])
    ensures var at', order' := Without(at, oldest), Without(order, oldest);
      forall p, i :: 0 <= p < |stream| && p !in at' && 0 <= i < |at'| ==> AtMost(stream[p].created, order'[i])
  {
    var at', order' := Without(at, oldest), Without(order, oldest);
    forall p, i | 0 <= p < |stream| && p !in at' && 0 <= i < |at'| ensures AtMost(stream[p].created, order'[i]) {
      var k := if i < oldest then i else i + 1;
      assert order'[i] == order[k];
      if p in at {
        var m :| 0 <= m < |at| && at[m] == p;
        KeptElsewhere(at, oldest, m);
      } else if k == |at| - 1 {
        AtMostTransitive(stream[p].created, order[oldest], order[k]);
      }
    }
  }

  // ---- Offering a population ----

  /** What the random strategy holds after a sequence of choices. */
  function RunChoices(n: nat, choices: seq<nat>): seq<nat>
    decreases |choices|
  {
    if choices == [] then []
    else ReservoirStep(n, RunChoices(n, choices[..|choices| - 1]), |choices| - 1, choices[|choices| - 1])
  }

  ghost predicate Possible(choices: seq<nat>) {
    forall i :: 0 <= i < |choices| ==> choices[i] <= i
  }

  /** The live listing: every object is offered until the sampler says it is full. */
  method Collect(opts: Options, population: seq<Offer>, choices: seq<nat>) returns (s: Sampler)
    requires |choices| == |population| && Possible(choices)
    ensures fresh(s) && s.Valid() && s.opts == opts
    ensures s.stream <= population && (s.stream == population || s.stoppedEarly)
    ensures Enabled(opts) && opts.strategy.Random? ==> s.at == RunChoices(opts.max, choices)
  {
    s := new Sampler(opts);
    for i := 0 to |population|
      invariant fresh(s) && s.Valid() && s.opts == opts && s.stream == population[..i] && !s.stoppedEarly
      invariant Enabled(opts) && opts.strategy.Random? ==> s.at == RunChoices(opts.max, choices[..i])
    {
      s.Add(population[i], choices[i]);
      assert choices[..i + 1][..i] == choices[..i];
      assert population[..i + 1] == population[..i] + [population[i]];
      var full := s.Full();
      if full {
        return;
      }
    }
    assert population[..|population|] == population && choices[..|choices|] == choices;
  }

  /** Nothing left out was created later than anything kept. */
  ghost predicate NewestOf(population: seq<Offer>, at: seq<nat>)
    requires forall i :: 0 <= i < |at| ==> at[i] < |population|
  {
    forall p, i :: 0 <= p < |population| && p !in at && 0 <= i < |at| ==> AtMost(population[p].created, population[at[i]].created)
  }

  ghost predicate NewestToOldest(population: seq<Offer>, at: seq<nat>)
    requires forall i :: 0 <= i < |at| ==> at[i] < |population|
  {
    forall i, j :: 0 <= i < j < |at| ==> !ComesBefore(population[at[j]], population[at[i]])
  }

  lemma ReorderNewest(population: seq<Offer>, at: seq<nat>, idx: seq<nat>)
    requires (forall i :: 0 <= i < |at| ==> at[i] < |population|) && NewestOf(population, at)
    requires |idx| == |at| && forall k :: k in idx <==> 0 <= k < |at|
    requires Ordered(PickAt(population, at), idx)
    ensures NewestOf(population, Reorder(at, idx)) && NewestToOldest(population, Reorder(at, idx))
  {
    var r := Reorder(at, idx);
    forall p | p in at ensures p in r {
      var k :| 0 <= k < |at| && at[k] == p;
      assert k in idx;
      var i :| 0 <= i < |idx| && idx[i] == k;
      assert r[i] == p;
    }
  }

  /** The samples come from distinct positions of the population, never more than the
      cap; and a run that reports no sampling offered every object and kept every one,
      whatever the strategy. */
  method CollectAndReport(opts: Options, population: seq<Offer>, choices: seq<nat>) returns (samples: seq<Sample>, rep: Option<Report>, ghost at: seq<nat>)
    requires |choices| == |population| && Possible(choices)
    ensures |samples| == |at| && DistinctAt(at)
    ensures forall i :: 0 <= i < |at| ==> at[i] < |population| && samples[i] == population[at[i]].sample
    ensures rep.None? ==> |samples| == |population| && forall p :: 0 <= p < |population| ==> p in at
    ensures Enabled(opts) ==> |samples| <= opts.max
    ensures Enabled(opts) && opts.strategy.Newest? ==> NewestOf(population, at) && NewestToOldest(population, at)
    ensures Enabled(opts) && opts.strategy.Random? ==> at == RunChoices(opts.max, choices)
  {
    hide ComesBefore, AtMost, NewestFirst, RunChoices, Possible;
    var s := Collect(opts, population, choices);
    samples, rep := s.Result();
    at := s.at;
    if Enabled(opts) && opts.strategy.Newest? {
      var idx := NewestFirst(s.Held(), |s.kept|);
      NewestFirstOrdered(s.Held(), |s.kept|);
      at := Reorder(s.at, idx);
      assert s.stream == population;
      ReorderNewest(population, s.at, idx);
    }
    if rep.None? {
      assert s.stream == population;
      AllHeld(at, |population|);
    }
  }

  // ---- The reservoir is uniform ----

  /** The reservoirs after the next object, one for each of the seen + 1 equally likely
      choices. */
  function NextReservoirs(n: nat, at: seq<nat>, seen: nat, choices: nat): (outs: seq<seq<nat>>)
    ensures |outs| == choices && forall j :: 0 <= j < choices ==> outs[j] == ReservoirStep(n, at, seen, j)
  {
    seq(choices, j requires 0 <= j < choices => ReservoirStep(n, at, seen, j))
  }

  function NextAll(n: nat, outs: seq<seq<nat>>, seen: nat): seq<seq<nat>>
    decreases |outs|
  {
    if outs == [] then []
    else NextAll(n, outs[..|outs| - 1], seen) + NextReservoirs(n, outs[|outs| - 1], seen, seen + 1)
  }

  /** Every reservoir of size n after t objects, one for each sequence of choices made
      once the reservoir was full; equally likely by construction. */
  function Reservoirs(n: nat, t: nat): seq<seq<nat>>
    decreases t
  {
    if t <= n then [seq(t, i => i)] else NextAll(n, Reservoirs(n, t - 1), t - 1)
  }

  function Holding(x: nat, outs: seq<seq<nat>>): nat
    decreases |outs|
  {
    if outs == [] then 0
    else Holding(x, outs[..|outs| - 1]) + if x in outs[|outs| - 1] then 1 else 0
  }

  lemma {:induction false} HoldingAppend(x: nat, p: seq<seq<nat>>, q: seq<seq<nat>>)
    ensures Holding(x, p + q) == Holding(x, p) + Holding(x, q)
    decreases |q|
  {
    if q == [] {
      assert p + q == p;
    } else {
      assert (p + q)[..|p + q| - 1] == p + q[..|q| - 1];
      HoldingAppend(x, p, q[..|q| - 1]);
    }
  }

  ghost predicate IsReservoir(n: nat, at: seq<nat>, seen: nat) {
    |at| == n && DistinctAt(at) && forall i :: 0 <= i < n ==> at[i] < seen
  }

  /** Of the first m choices, those below n put the new object in, and each held object
      is thrown out by one of them. */
  lemma {:induction false} ChoicesHold(n: nat, at: seq<nat>, seen: nat, m: nat, x: nat)
    requires IsReservoir(n, at, seen)
    ensures var outs := NextReservoirs(n, at, seen, m);
      && (x == seen ==> Holding(x, outs) == if m < n then m else n)
      && (x < seen && x !in at ==> Holding(x, outs) == 0)
      && (forall k :: 0 <= k < n && at[k] == x ==> Holding(x, outs) == if k < m then m - 1 else m)
    decreases m
  {
    if m == 0 {
    } else {
      ChoicesHold(n, at, seen, m - 1, x);
      var outs := NextReservoirs(n, at, seen, m);
      assert outs[..m - 1] == NextReservoirs(n, at, seen, m - 1);
      var last := ReservoirStep(n, at, seen, m - 1);
      forall k | 0 <= k < n && at[k] == x ensures x in last <==> k != m - 1 {
        if k != m - 1 {
          assert last[k] == x;
        }
      }
      if x == seen && m - 1 < n {
        assert last[m - 1] == seen;
      }
    }
  }

  lemma {:induction false} StepKeepsReservoir(n: nat, at: seq<nat>, seen: nat, j: nat)
    requires IsReservoir(n, at, seen)
    ensures IsReservoir(n, ReservoirStep(n, at, seen, j), seen + 1)
  {
  }

  ghost predicate AllReservoirs(n: nat, outs: seq<seq<nat>>, seen: nat) {
    forall i :: 0 <= i < |outs| ==> IsReservoir(n, outs[i], seen)
  }

  lemma {:induction false} NextAllReservoirs(n: nat, outs: seq<seq<nat>>, seen: nat)
    requires AllReservoirs(n, outs, seen)
    ensures AllReservoirs(n, NextAll(n, outs, seen), seen + 1)
    ensures |NextAll(n, outs, seen)| == |outs| * (seen + 1)
    decreases |outs|
  {
    hide IsReservoir, ReservoirStep;
    if outs == [] {
    } else {
      var init, last := outs[..|outs| - 1], outs[|outs| - 1];
      NextAllReservoirs(n, init, seen);
      forall j | 0 <= j <= seen ensures IsReservoir(n, ReservoirStep(n, last, seen, j), seen + 1) {
        StepKeepsReservoir(n, last, seen, j);
      }
      Distribute(|init|, 1, seen + 1);
    }
  }

  lemma Distribute(a: nat, b: nat, c: nat)
    ensures (a + b) * c == a * c + b * c
  {
  }

  /** One more object: every reservoir that held x turns into `seen` that do, and the new
      object is in n of the seen + 1 that follow each. */
  lemma {:induction false} NextAllHold(n: nat, outs: seq<seq<nat>>, seen: nat, x: nat)
    requires AllReservoirs(n, outs, seen) && 0 < n <= seen && x <= seen
    ensures Holding(x, NextAll(n, outs, seen)) == if x < seen then Holding(x, outs) * seen else |outs| * n
    decreases |outs|
  {
    if outs == [] {
    } else {
      var init, last := outs[..|outs| - 1], outs[|outs| - 1];
      NextAllHold(n, init, seen, x);
      NextAllMore(n, outs, seen, x);
      if x < seen {
        Distribute(Holding(x, init), if x in last then 1 else 0, seen);
      } else {
        Distribute(|init|, 1, n);
      }
    }
  }

  lemma NextAllMore(n: nat, outs: seq<seq<nat>>, seen: nat, x: nat)
    requires outs != [] && AllReservoirs(n, outs, seen) && 0 < n <= seen && x <= seen
    ensures var last := outs[|outs| - 1];
      Holding(x, NextAll(n, outs, seen)) ==
      Holding(x, NextAll(n, outs[..|outs| - 1], seen)) + if x == seen then n else if x in last then seen else 0
  {
    var init, last := outs[..|outs| - 1], outs[|outs| - 1];
    HoldingAppend(x, NextAll(n, init, seen), NextReservoirs(n, last, seen, seen + 1));
    OneHolds(n, last, seen, x);
  }

  lemma OneHolds(n: nat, at: seq<nat>, seen: nat, x: nat)
    requires IsReservoir(n, at, seen) && 0 < n <= seen && x <= seen
    ensures Holding(x, NextReservoirs(n, at, seen, seen + 1)) == if x == seen then n else if x in at then seen else 0
  {
    ChoicesHold(n, at, seen, seen + 1, x);
    if x in at {
      var k :| 0 <= k < n && at[k] == x;
    }
  }

  lemma ScaleOld(t: nat, h: nat, n: nat, c: nat)
    requires t > 0 && (t - 1) * h == n * c
    ensures t * (h * (t - 1)) == n * (c * t)
  {
    calc {
      t * (h * (t - 1));
      t * ((t - 1) * h);
      t * (n * c);
      n * (c * t);
    }
  }

  lemma ScaleNew(t: nat, n: nat, c: nat)
    ensures t * (c * n) == n * (c * t)
  {
  }

  /** Over all choice sequences each of the t objects seen is held in exactly n out of
      every t reservoirs, and no reservoir ever holds more than n or one object twice. */
  lemma {:induction false} ReservoirIsUniform(n: nat, t: nat, x: nat)
    requires 0 < n <= t && x < t
    ensures t * Holding(x, Reservoirs(n, t)) == n * |Reservoirs(n, t)|
    ensures |Reservoirs(n, t)| > 0
    ensures AllReservoirs(n, Reservoirs(n, t), t)
    decreases t
  {
    hide Reservoirs, NextAll, Holding, AllReservoirs;
    if t == n {
      FullReservoir(n, x);
    } else {
      ReservoirsNext(n, t);
      var outs := Reservoirs(n, t - 1);
      var y := if x < t - 1 then x else 0;
      ReservoirIsUniform(n, t - 1, y);
      NextAllReservoirs(n, outs, t - 1);
      NextAllHold(n, outs, t - 1, x);
      if x < t - 1 {
        ScaleOld(t, Holding(x, outs), n, |outs|);
      } else {
        ScaleNew(t, n, |outs|);
      }
      Distribute(|outs| - 1, 1, t);
    }
  }

  lemma ReservoirsNext(n: nat, t: nat)
    requires n < t
    ensures Reservoirs(n, t) == NextAll(n, Reservoirs(n, t - 1), t - 1)
  {
  }

  lemma FullReservoir(n: nat, x: nat)
    requires x < n
    ensures |Reservoirs(n, n)| == 1 && Holding(x, Reservoirs(n, n)) == 1 && AllReservoirs(n, Reservoirs(n, n), n)
  {
    var only: seq<nat> := seq(n, i => i);
    assert Reservoirs(n, n) == [only];
    assert only[x] == x;
    assert Holding(x, [only][..0]) == 0;
  }

  /** Any run of the sampler's random steps is one of those reservoirs. */
  lemma {:induction false} RunIsReservoir(n: nat, choices: seq<nat>)
    requires n > 0 && Possible(choices)
    ensures RunChoices(n, choices) in Reservoirs(n, |choices|)
    decreases |choices|
  {
    var t := |choices|;
    if t <= n {
      Filling(n, choices);
    } else {
      var init := choices[..t - 1];
      assert Possible(init);
      RunIsReservoir(n, init);
      NextContains(n, Reservoirs(n, t - 1), t - 1, RunChoices(n, init), choices[t - 1]);
    }
  }

  lemma {:induction false} Filling(n: nat, choices: seq<nat>)
    requires |choices| <= n
    ensures RunChoices(n, choices) == seq(|choices|, i => i)
    decreases |choices|
  {
    if choices == [] {
    } else {
      Filling(n, choices[..|choices| - 1]);
    }
  }

  lemma {:induction false} NextContains(n: nat, outs: seq<seq<nat>>, seen: nat, at: seq<nat>, j: nat)
    requires at in outs && j <= seen
    ensures ReservoirStep(n, at, seen, j) in NextAll(n, outs, seen)
    decreases |outs|
  {
    var init, last := outs[..|outs| - 1], outs[|outs| - 1];
    assert outs == init + [last];
    if at == last {
      assert NextReservoirs(n, last, seen, seen + 1)[j] == ReservoirStep(n, at, seen, j);
    } else {
      NextContains(n, init, seen, at, j);
    }
  }
}
