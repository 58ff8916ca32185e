/** internal/assign: which server a conversion config is served by. */
module Assign {
  import opened Wrappers
  import opened Ordering

  datatype Sharding = Sharding(enabled: Option<bool>, weight: Option<int>)

  datatype Server = Server(name: string, isDefault: bool, sharding: Option<Sharding>)

  /** shardKey is the target resource's name; url is the conversion webhook URL last
      applied to the target, "" if there was none. */
  datatype Config = Config(name: string, ref: Option<string>, shardKey: string, url: string)

  datatype AssignError = RefMissing(name: string) | NoDefault | ManyDefaults(names: seq<string>)

  /** Writing the sharding block at all is the opt-in. */
  predicate ShardingEnabled(s: Server) {
    s.sharding.Some? && (s.sharding.value.enabled.None? || s.sharding.value.enabled.value)
  }

  /** A missing or non-positive weight counts as 1. */
  function ShardWeight(s: Server): (w: nat)
    ensures w >= 1
  {
    if s.sharding.None? || s.sharding.value.weight.None? || s.sharding.value.weight.value <= 0 then 1
    else s.sharding.value.weight.value
  }

  /** The score of one server for one key is its weight times a positive base that
      depends on the two names only (-1 / ln u for the hash u of the pair). A hash
      that rounds to u = 1 has no finite score at all. */
  type Base = b: real | b > 0.0 witness 1.0

  type Hash = (string, string) -> Option<Base>

  datatype Score = NegInf | Finite(v: real)

  predicate Greater(a: Score, b: Score) {
    a.Finite? && (b.NegInf? || a.v > b.v)
  }

  function ShardScore(h: Hash, s: Server, key: string): Score {
    match h(s.name, key)
    case None => NegInf
    case Some(b) => Finite(ShardWeight(s) as real * b)
  }

  /** The servers a loop appends to its result when they satisfy p. */
  function Filter(p: Server -> bool, servers: seq<Server>): (kept: seq<Server>)
    ensures forall s :: s in kept <==> s in servers && p(s)
    decreases |servers|
  {
    if servers == [] then []
    else
      var last := servers[|servers| - 1];
      var init := Filter(p, servers[..|servers| - 1]);
      assert servers == servers[..|servers| - 1] + [last];
      if p(last) then init + [last] else init
  }

  function NameOf(s: Server): string {
    s.name
  }

  /** Every sharding server, sorted by name. */
  function ShardPool(servers: seq<Server>): (pool: seq<Server>)
    ensures forall s :: s in pool <==> s in servers && ShardingEnabled(s)
  {
    SortBy(NameOf, Filter(ShardingEnabled, servers))
  }

  // ---- Weighted rendezvous ----

  /** The loop's test: a strictly higher score, or a tie with an earlier name. */
  predicate Improves(score: Score, name: string, bestScore: Score, best: string) {
    Greater(score, bestScore) || (score == bestScore && Less(name, best))
  }

  function PickFrom(h: Hash, pool: seq<Server>, key: string, best: string, bestScore: Score): string
    decreases |pool|
  {
    if pool == [] then best
    else
      var score := ShardScore(h, pool[0], key);
      if Improves(score, pool[0].name, bestScore, best)
      then PickFrom(h, pool[1..], key, pool[0].name, score)
      else PickFrom(h, pool[1..], key, best, bestScore)
  }

  function Pick(h: Hash, pool: seq<Server>, key: string): string {
    PickFrom(h, pool, key, "", NegInf)
  }

  method PickShard(h: Hash, pool: seq<Server>, key: string) returns (best: string)
    ensures best == Pick(h, pool, key)
  {
    best := "";
    var bestScore := NegInf;
    for i := 0 to |pool|
      invariant Pick(h, pool, key) == PickFrom(h, pool[i..], key, best, bestScore)
    {
      assert pool[i..][0] == pool[i] && pool[i..][1..] == pool[i + 1..];
      var score := ShardScore(h, pool[i], key);
      if Greater(score, bestScore) || (score == bestScore && Less(pool[i].name, best)) {
        best, bestScore := pool[i].name, score;
      }
    }
  }

  ghost predicate UniqueNames(servers: seq<Server>) {
    && (forall s :: s in servers ==> s.name != "")
    && (forall s, t :: s in servers && t in servers && s.name == t.name ==> s == t)
  }

  /** s strictly outranks t for the key: a higher score, or the same score and the
      earlier name. */
  predicate Outranks(h: Hash, key: string, s: Server, t: Server) {
    Improves(ShardScore(h, s, key), s.name, ShardScore(h, t, key), t.name)
  }

  /** s can be picked for the key at all. */
  predicate Scores(h: Hash, key: string, s: Server) {
    ShardScore(h, s, key).Finite?
  }

  /** The declarative meaning of a pick: the top-ranked member with a finite score. */
  ghost predicate Wins(h: Hash, pool: seq<Server>, key: string, w: Server) {
    w in pool && Scores(h, key, w) && forall t :: t in pool && t != w ==> Outranks(h, key, w, t)
  }

  ghost predicate Stuck(h: Hash, pool: seq<Server>, key: string) {
    forall s :: s in pool ==> !Scores(h, key, s)
  }

  lemma OutranksTransitive(h: Hash, key: string, a: Server, b: Server, c: Server)
    requires Outranks(h, key, a, b) && Outranks(h, key, b, c)
    ensures Outranks(h, key, a, c)
  {
    if Less(a.name, b.name) && Less(b.name, c.name) {
      LessTransitive(a.name, b.name, c.name);
    }
  }

  lemma OutranksAsymmetric(h: Hash, key: string, a: Server, b: Server)
    requires Outranks(h, key, a, b)
    ensures !Outranks(h, key, b, a)
  {
    if Less(a.name, b.name) {
      LessAsymmetric(a.name, b.name);
    }
  }

  lemma OutranksTotal(h: Hash, key: string, a: Server, b: Server)
    requires a.name != b.name
    ensures Outranks(h, key, a, b) || Outranks(h, key, b, a)
  {
    LessTotal(a.name, b.name);
  }

  lemma {:induction false} PickFromWins(h: Hash, pool: seq<Server>, key: string, b: Server)
    requires UniqueNames(pool + [b]) && Scores(h, key, b)
    ensures exists w :: Wins(h, pool + [b], key, w) && PickFrom(h, pool, key, b.name, ShardScore(h, b, key)) == w.name
    decreases |pool|
  {
    if pool == [] {
      assert b in pool + [b];
      assert Wins(h, pool + [b], key, b);
    } else {
      var s, rest := pool[0], pool[1..];
      assert pool + [b] == [s] + (rest + [b]);
      assert s in pool + [b] && b in pool + [b];
      var next := if Outranks(h, key, s, b) then s else b;
      assert UniqueNames(rest + [next]) by {
        forall x | x in rest + [next] ensures x in pool + [b] {
        }
      }
      PickFromWins(h, rest, key, next);
      var w :| Wins(h, rest + [next], key, w) && PickFrom(h, rest, key, next.name, ShardScore(h, next, key)) == w.name;
      assert PickFrom(h, pool, key, b.name, ShardScore(h, b, key)) == w.name;
      forall t | t in pool + [b] && t != w ensures Outranks(h, key, w, t) {
        var loser := if next == s then b else s;
        assert next in rest + [next];
        if t == loser && t !in rest + [next] {
          if s != b {
            OutranksTotal(h, key, s, b);
          }
          if w != next {
            OutranksTransitive(h, key, w, next, t);
          }
        }
      }
      assert Wins(h, pool + [b], key, w);
    }
  }

  /** PickShard returns the top-ranked member, whatever the pool's order. */
  lemma PickWins(h: Hash, pool: seq<Server>, key: string)
    requires UniqueNames(pool) && !Stuck(h, pool, key)
    ensures exists w :: Wins(h, pool, key, w) && Pick(h, pool, key) == w.name
  {
    PickSkipsStuck(h, pool, key);
  }

  lemma {:induction false} PickSkipsStuck(h: Hash, pool: seq<Server>, key: string)
    requires UniqueNames(pool)
    ensures Stuck(h, pool, key) ==> Pick(h, pool, key) == ""
    ensures !Stuck(h, pool, key) ==>
      exists w :: Wins(h, pool, key, w) && Pick(h, pool, key) == w.name
    decreases |pool|
  {
    if pool == [] {
    } else {
      var s, rest := pool[0], pool[1..];
      assert pool == [s] + rest;
      assert s in pool;
      assert UniqueNames(rest) by {
        forall x | x in rest ensures x in pool {
        }
      }
      if Scores(h, key, s) {
        assert UniqueNames(rest + [s]) by {
          forall x | x in rest + [s] ensures x in pool {
          }
        }
        PickFromWins(h, rest, key, s);
        var w :| Wins(h, rest + [s], key, w) && PickFrom(h, rest, key, s.name, ShardScore(h, s, key)) == w.name;
        assert Wins(h, pool, key, w) by {
          forall x ensures x in pool <==> x in rest + [s] {
          }
        }
      } else {
        PickSkipsStuck(h, rest, key);
        if !Stuck(h, pool, key) {
          var w :| Wins(h, rest, key, w) && Pick(h, rest, key) == w.name;
          assert Wins(h, pool, key, w);
        }
      }
    }
  }

  lemma WinsUnique(h: Hash, pool: seq<Server>, key: string, v: Server, w: Server)
    requires Wins(h, pool, key, v) && Wins(h, pool, key, w)
    ensures v == w
  {
    if v != w {
      OutranksAsymmetric(h, key, v, w);
    }
  }

  /** The converse reading: whoever wins is the one picked. */
  lemma WinnerIsPicked(h: Hash, pool: seq<Server>, key: string, w: Server)
    requires UniqueNames(pool) && Wins(h, pool, key, w)
    ensures Pick(h, pool, key) == w.name
  {
    assert !Stuck(h, pool, key);
    PickWins(h, pool, key);
    var v :| Wins(h, pool, key, v) && Pick(h, pool, key) == v.name;
    WinsUnique(h, pool, key, v, w);
  }

  /** No key is ever answered by a server outside the pool, and exactly the stuck
      pools answer with no server at all. */
  lemma PickExactly(h: Hash, pool: seq<Server>, key: string, name: string)
    requires UniqueNames(pool)
    ensures Pick(h, pool, key) == name <==>
      if name == "" then Stuck(h, pool, key) else exists w :: Wins(h, pool, key, w) && w.name == name
  {
    PickSkipsStuck(h, pool, key);
    if name != "" && exists w :: Wins(h, pool, key, w) && w.name == name {
      var w :| Wins(h, pool, key, w) && w.name == name;
      WinnerIsPicked(h, pool, key, w);
    }
  }

  lemma PickOrderFree(h: Hash, pool: seq<Server>, other: seq<Server>, key: string)
    requires UniqueNames(pool)
    requires forall s :: s in pool <==> s in other
    ensures Pick(h, pool, key) == Pick(h, other, key)
  {
    PickSkipsStuck(h, other, key);
    if Stuck(h, pool, key) {
      PickSkipsStuck(h, pool, key);
    } else {
      PickWins(h, pool, key);
      var w :| Wins(h, pool, key, w) && Pick(h, pool, key) == w.name;
      WinnerIsPicked(h, other, key, w);
    }
  }

  // ---- Minimal disruption ----

  /** A key that moves between two pools that differ anyhow, anywhere: its old or its
      new server is one of those that differ, and if only its old server differs then
      that server's old form still outranks everything in the new pool. */
  lemma MovedKeys(h: Hash, before: seq<Server>, after: seq<Server>, key: string, w: Server, v: Server)
    requires Wins(h, before, key, w) && Wins(h, after, key, v) && v.name != w.name
    ensures v !in before || (w !in after && Outranks(h, key, w, v))
  {
    if v in before && w in after {
      OutranksAsymmetric(h, key, v, w);
    }
  }

  /** Adding one server moves keys only to it. */
  lemma AddMovesOnlyToNew(h: Hash, pool: seq<Server>, s: Server, key: string)
    requires UniqueNames(pool + [s])
    ensures Pick(h, pool + [s], key) in {Pick(h, pool, key), s.name}
  {
    var more := pool + [s];
    assert UniqueNames(pool) by {
      forall x | x in pool ensures x in more {
      }
    }
    assert s in more;
    if !Stuck(h, more, key) {
      PickWins(h, more, key);
      var w :| Wins(h, more, key, w) && Pick(h, more, key) == w.name;
      if w != s {
        assert w in pool;
        assert Wins(h, pool, key, w) by {
          forall x | x in pool ensures x in more {
          }
        }
        WinnerIsPicked(h, pool, key, w);
      }
    } else {
      PickSkipsStuck(h, more, key);
      assert Stuck(h, pool, key) by {
        forall x | x in pool ensures !Scores(h, key, x) {
          assert x in more;
        }
      }
      PickSkipsStuck(h, pool, key);
    }
  }

  /** Removing one server moves only the keys it held. */
  lemma RemoveMovesOnlyItsKeys(h: Hash, pool: seq<Server>, rest: seq<Server>, s: Server, key: string)
    requires UniqueNames(pool) && s in pool
    requires forall t :: t in rest <==> t in pool && t != s
    requires Pick(h, pool, key) != s.name
    ensures Pick(h, rest, key) == Pick(h, pool, key)
  {
    var more := rest + [s];
    PickOrderFree(h, pool, more, key);
    AddMovesOnlyToNew(h, rest, s, key);
  }

  /** A pool with one member's weight changed. */
  ghost predicate Reweighted(before: seq<Server>, after: seq<Server>, s: Server, t: Server) {
    && s.name == t.name
    && s in before && t in after
    && (forall x :: x in before && x != s <==> x in after && x != t)
  }

  /** Changing one weight moves keys only to or from that server: raising it, only to
      it; lowering it, only from it. */
  lemma ReweightMovesOnlyItsKeys(h: Hash, before: seq<Server>, after: seq<Server>, s: Server, t: Server, key: string)
    requires UniqueNames(before) && UniqueNames(after) && Reweighted(before, after, s, t)
    requires Pick(h, before, key) != Pick(h, after, key)
    ensures ShardWeight(t) > ShardWeight(s) ==> Pick(h, after, key) == s.name
    ensures ShardWeight(t) < ShardWeight(s) ==> Pick(h, before, key) == s.name
    ensures ShardWeight(t) != ShardWeight(s)
  {
    assert forall x :: x in before && x != s ==> x in after;
    assert forall x :: x in after && x != t ==> x in before;
    assert Stuck(h, before, key) <==> Stuck(h, after, key) by {
      assert Scores(h, key, s) == Scores(h, key, t);
    }
    PickSkipsStuck(h, before, key);
    PickSkipsStuck(h, after, key);
    var w :| Wins(h, before, key, w) && Pick(h, before, key) == w.name;
    var v :| Wins(h, after, key, v) && Pick(h, after, key) == v.name;
    HigherWeightOutranks(h, key, s, t);
    if ShardWeight(t) >= ShardWeight(s) && v != t {
      StillOutranked(h, before, after, s, t, key, w, v);
    } else if ShardWeight(t) <= ShardWeight(s) && w != s {
      StillOutranked(h, after, before, t, s, key, v, w);
    }
  }

  lemma HigherWeightOutranks(h: Hash, key: string, s: Server, t: Server)
    requires s.name == t.name
    ensures Scores(h, key, s) == Scores(h, key, t)
    ensures Scores(h, key, s) ==>
      (ShardScore(h, s, key).v <= ShardScore(h, t, key).v <==> ShardWeight(s) <= ShardWeight(t))
  {
    if h(s.name, key).Some? {
      ScaleOrder(ShardWeight(s), ShardWeight(t), h(s.name, key).value);
    }
  }

  lemma ScaleOrder(m: nat, n: nat, b: Base)
    ensures m as real * b <= n as real * b <==> m <= n
  {
    if m <= n {
      assert (n - m) as real * b >= 0.0;
    } else {
      assert (m - n) as real * b > 0.0;
    }
  }

  /** With s raised to t, a winner of the new pool other than t had won before. */
  lemma StillOutranked(h: Hash, before: seq<Server>, after: seq<Server>, s: Server, t: Server, key: string, w: Server, v: Server)
    requires UniqueNames(before) && UniqueNames(after) && Reweighted(before, after, s, t)
    requires ShardWeight(s) <= ShardWeight(t)
    requires Wins(h, before, key, w) && Wins(h, after, key, v) && v != t
    ensures w == v
  {
    HigherWeightOutranks(h, key, s, t);
    assert v in before && v != s;
    assert Outranks(h, key, v, t);
    assert Outranks(h, key, v, s);
    if w != v {
      assert Outranks(h, key, w, v);
      if w != s {
        assert w in after && w != t;
      }
      OutranksAsymmetric(h, key, v, w);
    }
  }

  /** Weights matter only relative to each other. */
  ghost predicate ScaledBy(pool: seq<Server>, scaled: seq<Server>, factor: real) {
    && |pool| == |scaled|
    && forall i :: 0 <= i < |pool| ==>
         scaled[i].name == pool[i].name && ShardWeight(scaled[i]) as real == factor * ShardWeight(pool[i]) as real
  }

  function Rescale(score: Score, factor: real): Score {
    if score.NegInf? then NegInf else Finite(factor * score.v)
  }

  /** f changes no comparison the loop makes. */
  ghost predicate KeepsOrder(f: Score -> Score) {
    forall a, name, b, best :: Improves(f(a), name, f(b), best) <==> Improves(a, name, b, best)
  }

  ghost predicate ScoredBy(h: Hash, pool: seq<Server>, other: seq<Server>, key: string, f: Score -> Score) {
    && |pool| == |other|
    && forall i :: 0 <= i < |pool| ==>
         other[i].name == pool[i].name && ShardScore(h, other[i], key) == f(ShardScore(h, pool[i], key))
  }

  lemma {:induction false} PickFromMonotone(h: Hash, pool: seq<Server>, other: seq<Server>, key: string, f: Score -> Score, best: string, bestScore: Score)
    requires KeepsOrder(f) && ScoredBy(h, pool, other, key, f)
    ensures PickFrom(h, other, key, best, f(bestScore)) == PickFrom(h, pool, key, best, bestScore)
    decreases |pool|
  {
    if pool == [] {
    } else {
      var score := ShardScore(h, pool[0], key);
      assert ShardScore(h, other[0], key) == f(score);
      assert ScoredBy(h, pool[1..], other[1..], key, f);
      if Improves(score, pool[0].name, bestScore, best) {
        PickFromMonotone(h, pool[1..], other[1..], key, f, pool[0].name, score);
      } else {
        PickFromMonotone(h, pool[1..], other[1..], key, f, best, bestScore);
      }
    }
  }

  lemma ScaledScore(h: Hash, s: Server, t: Server, factor: real, key: string)
    requires t.name == s.name && ShardWeight(t) as real == factor * ShardWeight(s) as real
    ensures ShardScore(h, t, key) == Rescale(ShardScore(h, s, key), factor)
  {
    if h(s.name, key).Some? {
      var b, w := h(s.name, key).value, ShardWeight(s) as real;
      assert (factor * w) * b == factor * (w * b);
    }
  }

  lemma RescaleCompares(a: Score, name: string, b: Score, best: string, factor: real)
    requires factor > 0.0
    ensures Improves(Rescale(a, factor), name, Rescale(b, factor), best) <==> Improves(a, name, b, best)
  {
    if a.Finite? && b.Finite? {
      ScaleCompares(a.v, b.v, factor);
    }
  }

  lemma ScaleCompares(x: real, y: real, f: real)
    requires f > 0.0
    ensures f * x > f * y <==> x > y
    ensures f * x == f * y <==> x == y
  {
    if x > y {
      assert f * (x - y) > 0.0;
    } else if y > x {
      assert f * (y - x) > 0.0;
    }
  }

  /** Scaling every weight by one factor moves nothing. */
  lemma ScalingMovesNothing(h: Hash, pool: seq<Server>, scaled: seq<Server>, factor: real, key: string)
    requires factor > 0.0 && ScaledBy(pool, scaled, factor)
    ensures Pick(h, scaled, key) == Pick(h, pool, key)
  {
    var f := (s: Score) => Rescale(s, factor);
    forall a, name, b, best ensures Improves(f(a), name, f(b), best) <==> Improves(a, name, b, best) {
      RescaleCompares(a, name, b, best, factor);
    }
    forall i | 0 <= i < |pool| ensures ShardScore(h, scaled[i], key) == f(ShardScore(h, pool[i], key)) {
      ScaledScore(h, pool[i], scaled[i], factor, key);
    }
    PickFromMonotone(h, pool, scaled, key, f, "", NegInf);
  }

  // ---- Resolution ----

  ghost predicate Exists(servers: seq<Server>, name: string) {
    exists s :: s in servers && s.name == name
  }

  function Names(servers: seq<Server>): (names: seq<string>)
    ensures |names| == |servers| && forall i :: 0 <= i < |names| ==> names[i] == servers[i].name
  {
    seq(|servers|, i requires 0 <= i < |servers| => servers[i].name)
  }

  function DefaultsOf(servers: seq<Server>): seq<Server> {
    Filter((s: Server) => s.isDefault, servers)
  }

  predicate Pinned(cfg: Config) {
    cfg.ref.Some? && cfg.ref.value != ""
  }

  /** Pinned reference, then the shard pool, then the one default. */
  function Resolve(h: Hash, cfg: Config, servers: seq<Server>): Result<string, AssignError> {
    if Pinned(cfg) then
      if cfg.ref.value in Names(servers) then Success(cfg.ref.value) else Failure(RefMissing(cfg.ref.value))
    else if ShardPool(servers) != [] then Success(Pick(h, ShardPool(servers), cfg.shardKey))
    else DefaultOutcome(DefaultsOf(servers))
  }

  function DefaultOutcome(defaults: seq<Server>): Result<string, AssignError> {
    if |defaults| == 0 then Failure(NoDefault)
    else if |defaults| == 1 then Success(defaults[0].name)
    else Failure(ManyDefaults(Names(SortBy(NameOf, defaults))))
  }

  method ResolveAssignment(h: Hash, cfg: Config, servers: seq<Server>) returns (r: Result<string, AssignError>)
    ensures r == Resolve(h, cfg, servers)
  {
    if cfg.ref.Some? && cfg.ref.value != "" {
      var name := cfg.ref.value;
      for i := 0 to |servers|
        invariant forall j :: 0 <= j < i ==> servers[j].name != name
      {
        if servers[i].name == name {
          assert Names(servers)[i] == name;
          return Success(name);
        }
      }
      return Failure(RefMissing(name));
    }
    var pool := ShardPool(servers);
    if |pool| > 0 {
      var picked := PickShard(h, pool, cfg.shardKey);
      return Success(picked);
    }
    var defaults: seq<Server> := [];
    for i := 0 to |servers|
      invariant defaults == DefaultsOf(servers[..i])
    {
      assert servers[..i + 1][..i] == servers[..i];
      if servers[i].isDefault {
        defaults := defaults + [servers[i]];
      }
    }
    assert servers[..|servers|] == servers;
    match |defaults|
    case 0 => r := Failure(NoDefault);
    case 1 => r := Success(defaults[0].name);
    case _ => r := Failure(ManyDefaults(Names(SortBy(NameOf, defaults))));
  }

  /** What a Kubernetes list of servers is: no name twice, none empty. */
  ghost predicate Listing(servers: seq<Server>) {
    && (forall s :: s in servers ==> s.name != "")
    && (forall i, j :: 0 <= i < j < |servers| ==> servers[i].name != servers[j].name)
  }

  lemma {:induction false} FilterListing(p: Server -> bool, servers: seq<Server>)
    requires Listing(servers)
    ensures Listing(Filter(p, servers))
    decreases |servers|
  {
    if servers == [] {
    } else {
      var n := |servers| - 1;
      var init, last := servers[..n], servers[n];
      FilterListing(p, init);
      var kept := Filter(p, init);
      assert Filter(p, servers) == if p(last) then kept + [last] else kept;
      forall i | 0 <= i < |kept| ensures kept[i].name != last.name {
        assert kept[i] in init;
      }
    }
  }

  lemma ListingUnique(servers: seq<Server>)
    requires Listing(servers)
    ensures UniqueNames(servers)
  {
  }

  /** The pool inherits unique names from the list. */
  lemma PoolUnique(servers: seq<Server>)
    requires Listing(servers)
    ensures UniqueNames(ShardPool(servers)) && UniqueNames(servers)
  {
    ListingUnique(servers);
  }

  ghost function DefaultNames(servers: seq<Server>): set<string> {
    set s | s in servers && s.isDefault :: s.name
  }

  /** The default branch read off the set of default names alone. */
  ghost function DefaultMeaning(names: set<string>): Result<string, AssignError> {
    if names == {} then Failure(NoDefault)
    else if |names| == 1 then Success(Least(names))
    else Failure(ManyDefaults(SortedKeys(names)))
  }

  lemma SortedNames(defaults: seq<Server>, names: set<string>)
    requires Listing(defaults)
    requires forall n :: n in names <==> Exists(defaults, n)
    ensures Names(SortBy(NameOf, defaults)) == SortedKeys(names)
  {
    var sorted := SortBy(NameOf, defaults);
    SortByStrict(NameOf, defaults);
    forall n ensures n in Names(sorted) <==> n in SortedKeys(names) {
      if n in Names(sorted) {
        var i :| 0 <= i < |sorted| && Names(sorted)[i] == n;
        assert sorted[i] in defaults;
      }
      if n in names {
        var s :| s in defaults && s.name == n;
        assert s in sorted;
        var i :| 0 <= i < |sorted| && sorted[i] == s;
        assert Names(sorted)[i] == n;
      }
    }
    SortedUnique(Names(sorted), SortedKeys(names));
  }

  lemma DefaultsMean(servers: seq<Server>)
    requires Listing(servers)
    ensures DefaultOutcome(DefaultsOf(servers)) == DefaultMeaning(DefaultNames(servers))
  {
    var p := (s: Server) => s.isDefault;
    var defaults, names := DefaultsOf(servers), DefaultNames(servers);
    FilterListing(p, servers);
    forall n ensures n in names <==> Exists(defaults, n) {
    }
    SortedNames(defaults, names);
    var sorted := SortedKeys(names);
    assert |sorted| == |names| == |defaults|;
    if |defaults| == 1 {
      assert defaults[0] in defaults;
      assert Least(names) in sorted && defaults[0].name in sorted;
    }
  }

  /** Every party that lists the same servers, in any order, computes the same answer. */
  lemma ResolveOrderFree(h: Hash, cfg: Config, a: seq<Server>, b: seq<Server>)
    requires Listing(a) && Listing(b)
    requires forall s :: s in a <==> s in b
    ensures Resolve(h, cfg, a) == Resolve(h, cfg, b)
  {
    if Pinned(cfg) {
      NamesHold(a, cfg.ref.value);
      NamesHold(b, cfg.ref.value);
    } else {
      PoolUnique(a);
      SameEmptiness(ShardPool(a), ShardPool(b));
      PickOrderFree(h, ShardPool(a), ShardPool(b), cfg.shardKey);
      DefaultsMean(a);
      DefaultsMean(b);
      assert DefaultNames(a) == DefaultNames(b);
    }
  }

  lemma SameEmptiness(a: seq<Server>, b: seq<Server>)
    requires forall s :: s in a <==> s in b
    ensures a == [] <==> b == []
  {
    if a != [] {
      assert a[0] in b;
    }
    if b != [] {
      assert b[0] in a;
    }
  }

  lemma NamesHold(servers: seq<Server>, name: string)
    ensures name in Names(servers) <==> Exists(servers, name)
  {
    if Exists(servers, name) {
      var s :| s in servers && s.name == name;
      var i :| 0 <= i < |servers| && servers[i] == s;
      assert Names(servers)[i] == name;
    }
    if name in Names(servers) {
      var i :| 0 <= i < |servers| && Names(servers)[i] == name;
      assert servers[i] in servers;
    }
  }

  /** Precedence: a pinned config never depends on the pool or the defaults, a pool
      overrides any default, and a default counts only when it is the only one. */
  lemma ResolvesTo(h: Hash, cfg: Config, servers: seq<Server>, name: string)
    requires Listing(servers) && name != ""
    ensures Resolve(h, cfg, servers) == Success(name) <==>
      if Pinned(cfg) then cfg.ref.value == name && Exists(servers, name)
      else if exists s :: s in servers && ShardingEnabled(s) then
        exists w :: Wins(h, ShardPool(servers), cfg.shardKey, w) && w.name == name
      else DefaultNames(servers) == {name}
  {
    if Pinned(cfg) {
      NamesHold(servers, cfg.ref.value);
    } else if exists s :: s in servers && ShardingEnabled(s) {
      var s :| s in servers && ShardingEnabled(s);
      assert s in ShardPool(servers);
      PoolUnique(servers);
      PickExactly(h, ShardPool(servers), cfg.shardKey, name);
    } else {
      NonePooled(servers);
      DefaultsMean(servers);
      SingletonNames(DefaultNames(servers), name);
    }
  }

  lemma NonePooled(servers: seq<Server>)
    requires forall s :: s in servers ==> !ShardingEnabled(s)
    ensures ShardPool(servers) == []
  {
    SameEmptiness(ShardPool(servers), []);
  }

  lemma OnlyMember(names: set<string>, k: string)
    requires |names| == 1 && k in names
    ensures names == {k}
  {
    var rest := names - {k};
    assert |rest| == 0;
    assert names == rest + {k};
  }

  lemma SingletonNames(names: set<string>, name: string)
    ensures DefaultMeaning(names) == Success(name) <==> names == {name}
  {
    if |names| == 1 {
      var k := Least(names);
      OnlyMember(names, k);
    }
  }

  /** An assigned server is always one of the listed ones, or "" for a stuck pool. */
  lemma ResolvesToListed(h: Hash, cfg: Config, servers: seq<Server>)
    requires Listing(servers) && Resolve(h, cfg, servers).Success?
    requires Resolve(h, cfg, servers).value != ""
    ensures Exists(servers, Resolve(h, cfg, servers).value)
  {
    var name := Resolve(h, cfg, servers).value;
    ResolvesTo(h, cfg, servers, name);
    if !Pinned(cfg) {
      if exists s :: s in servers && ShardingEnabled(s) {
        var w :| Wins(h, ShardPool(servers), cfg.shardKey, w) && w.name == name;
        assert w in servers;
      } else {
        assert name in DefaultNames(servers);
      }
    }
  }

  predicate IsAssignedTo(h: Hash, cfg: Config, servers: seq<Server>, server: string) {
    Resolve(h, cfg, servers) == Success(server)
  }

  function Assigned(h: Hash, configs: seq<Config>, servers: seq<Server>, server: string): (out: seq<Config>)
    ensures forall c :: c in out <==> c in configs && IsAssignedTo(h, c, servers, server)
    decreases |configs|
  {
    if configs == [] then []
    else
      var n := |configs| - 1;
      var init := Assigned(h, configs[..n], servers, server);
      assert configs == configs[..n] + [configs[n]];
      if IsAssignedTo(h, configs[n], servers, server) then init + [configs[n]] else init
  }

  method ConfigsAssignedTo(h: Hash, configs: seq<Config>, servers: seq<Server>, server: string) returns (out: seq<Config>)
    ensures out == Assigned(h, configs, servers, server)
  {
    out := [];
    for i := 0 to |configs|
      invariant out == Assigned(h, configs[..i], servers, server)
    {
      assert configs[..i + 1][..i] == configs[..i];
      var r := ResolveAssignment(h, configs[i], servers);
      if r == Success(server) {
        out := out + [configs[i]];
      }
    }
    assert configs[..|configs|] == configs;
  }
}
