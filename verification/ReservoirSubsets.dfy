/** internal/cli/sampling.go: the random strategy draws every subset of the objects seen
    equally often. */
module ReservoirSubsets {
  import opened Sampling

  function Members(at: seq<nat>): set<nat> {
    set x | x in at
  }

  /** How many of the reservoirs hold exactly the objects of s. */
  function Drawn(s: set<nat>, outs: seq<seq<nat>>): nat
    decreases |outs|
  {
    if outs == [] then 0
    else Drawn(s, outs[..|outs| - 1]) + if Members(outs[|outs| - 1]) == s then 1 else 0
  }

  lemma {:induction false} DrawnAppend(s: set<nat>, p: seq<seq<nat>>, q: seq<seq<nat>>)
    ensures Drawn(s, p + q) == Drawn(s, p) + Drawn(s, q)
    decreases |q|
  {
    if q == [] {
      assert p + q == p;
    } else {
      assert (p + q)[..|p + q| - 1] == p + q[..|q| - 1];
      DrawnAppend(s, p, q[..|q| - 1]);
    }
  }

  lemma {:induction false} MembersCount(at: seq<nat>)
    requires DistinctAt(at)
    ensures |Members(at)| == |at|
    decreases |at|
  {
    if at == [] {
    } else {
      var n := |at| - 1;
      assert at == at[..n] + [at[n]];
      assert Members(at) == Members(at[..n]) + {at[n]};
      assert at[n] !in at[..n];
      MembersCount(at[..n]);
    }
  }

  lemma ReplacedMembers(at: seq<nat>, j: nat, x: nat)
    requires DistinctAt(at) && j < |at|
    ensures Members(at[j := x]) == Members(at) - {at[j]} + {x}
  {
    var out := at[j := x];
    forall y | y in Members(at) - {at[j]} ensures y in out {
      var i :| 0 <= i < |at| && at[i] == y;
      assert out[i] == y;
    }
    assert out[j] == x;
  }

  // ---- The reservoirs that follow one reservoir ----

  /** The new object not being in s, it has to be turned away. */
  lemma {:induction false} TurnedAway(n: nat, at: seq<nat>, seen: nat, m: nat, s: set<nat>)
    requires IsReservoir(n, at, seen) && seen !in s
    ensures Drawn(s, NextReservoirs(n, at, seen, m)) == if Members(at) == s && m > n then m - n else 0
    decreases m
  {
    if m == 0 {
    } else {
      TurnedAway(n, at, seen, m - 1, s);
      var outs := NextReservoirs(n, at, seen, m);
      assert outs[..m - 1] == NextReservoirs(n, at, seen, m - 1);
      assert outs[m - 1] == ReservoirStep(n, at, seen, m - 1);
      if m - 1 < n {
        ReplacedMembers(at, m - 1, seen);
      }
    }
  }

  /** It being in s, the choice has to throw out the one object that is not. */
  lemma {:induction false} ThrownOut(n: nat, at: seq<nat>, seen: nat, m: nat, s: set<nat>, k: nat)
    requires IsReservoir(n, at, seen) && seen in s
    requires k < n && Members(at) - {at[k]} == s - {seen}
    ensures Drawn(s, NextReservoirs(n, at, seen, m)) == if k < m then 1 else 0
    decreases m
  {
    if m == 0 {
    } else {
      ThrownOut(n, at, seen, m - 1, s, k);
      var outs := NextReservoirs(n, at, seen, m);
      assert outs[..m - 1] == NextReservoirs(n, at, seen, m - 1);
      StepDraws(n, at, seen, m - 1, s);
      if m - 1 < n && m - 1 != k {
        assert at[m - 1] in Members(at) - {at[k]};
      }
    }
  }

  lemma {:induction false} NeverDrawn(n: nat, at: seq<nat>, seen: nat, m: nat, s: set<nat>)
    requires IsReservoir(n, at, seen) && seen in s
    requires !(s - {seen} <= Members(at))
    ensures Drawn(s, NextReservoirs(n, at, seen, m)) == 0
    decreases m
  {
    if m == 0 {
    } else {
      NeverDrawn(n, at, seen, m - 1, s);
      var outs := NextReservoirs(n, at, seen, m);
      assert outs[..m - 1] == NextReservoirs(n, at, seen, m - 1);
      StepDraws(n, at, seen, m - 1, s);
    }
  }

  lemma StepDraws(n: nat, at: seq<nat>, seen: nat, j: nat, s: set<nat>)
    requires IsReservoir(n, at, seen) && seen in s
    ensures Members(ReservoirStep(n, at, seen, j)) == s <==> j < n && Members(at) - {at[j]} == s - {seen}
  {
    if j < n {
      ReplacedMembers(at, j, seen);
      var rest := Members(at) - {at[j]};
      assert seen !in rest;
      assert rest + {seen} == s <==> rest == s - {seen};
    }
  }

  lemma AllButOne(at: seq<nat>, rest: set<nat>) returns (k: nat)
    requires DistinctAt(at) && rest <= Members(at) && |rest| + 1 == |at|
    ensures k < |at| && Members(at) - {at[k]} == rest && at[k] !in rest
  {
    MembersCount(at);
    var gap := Members(at) - rest;
    assert |gap| == 1;
    var x :| x in gap;
    assert |gap - {x}| == 0;
    assert gap == {x};
    k :| 0 <= k < |at| && at[k] == x;
  }

  lemma NextDrawsOld(n: nat, at: seq<nat>, seen: nat, s: set<nat>)
    requires IsReservoir(n, at, seen) && n <= seen && seen !in s
    ensures Drawn(s, NextReservoirs(n, at, seen, seen + 1)) == if Members(at) == s then seen + 1 - n else 0
  {
    TurnedAway(n, at, seen, seen + 1, s);
  }

  lemma NextDrawsNew(n: nat, at: seq<nat>, seen: nat, s: set<nat>, rest: set<nat>)
    requires IsReservoir(n, at, seen) && n <= seen
    requires seen in s && rest == s - {seen} && |rest| + 1 == n
    ensures Drawn(s, NextReservoirs(n, at, seen, seen + 1)) == if rest <= Members(at) then 1 else 0
  {
    if rest <= Members(at) {
      DrawnOnce(n, at, seen, s, rest);
    } else {
      NeverDrawn(n, at, seen, seen + 1, s);
    }
  }

  lemma DrawnOnce(n: nat, at: seq<nat>, seen: nat, s: set<nat>, rest: set<nat>)
    requires IsReservoir(n, at, seen) && n <= seen
    requires seen in s && rest == s - {seen} && |rest| + 1 == n && rest <= Members(at)
    ensures Drawn(s, NextReservoirs(n, at, seen, seen + 1)) == 1
  {
    hide NextReservoirs, Drawn, Members, ReservoirStep;
    var k := AllButOne(at, rest);
    ThrownOut(n, at, seen, seen + 1, s, k);
  }

  // ---- The reservoirs that follow all of them ----

  /** How many of the reservoirs hold the objects of rest, whatever else. */
  function Covering(rest: set<nat>, outs: seq<seq<nat>>): nat
    decreases |outs|
  {
    if outs == [] then 0
    else Covering(rest, outs[..|outs| - 1]) + if rest <= Members(outs[|outs| - 1]) then 1 else 0
  }

  lemma {:induction false} NextAllDrawOld(n: nat, outs: seq<seq<nat>>, seen: nat, s: set<nat>)
    requires AllReservoirs(n, outs, seen) && n <= seen && seen !in s
    ensures Drawn(s, NextAll(n, outs, seen)) == Drawn(s, outs) * (seen + 1 - n)
    decreases |outs|
  {
    hide IsReservoir, NextReservoirs, Members;
    if outs == [] {
    } else {
      NextAllDrawOld(n, outs[..|outs| - 1], seen, s);
      OneMoreDrawsOld(n, outs, seen, s);
      Distribute(Drawn(s, outs[..|outs| - 1]), if Members(outs[|outs| - 1]) == s then 1 else 0, seen + 1 - n);
    }
  }

  lemma OneMoreDrawsOld(n: nat, outs: seq<seq<nat>>, seen: nat, s: set<nat>)
    requires outs != [] && AllReservoirs(n, outs, seen) && n <= seen && seen !in s
    ensures Drawn(s, NextAll(n, outs, seen)) ==
      Drawn(s, NextAll(n, outs[..|outs| - 1], seen)) + if Members(outs[|outs| - 1]) == s then seen + 1 - n else 0
  {
    hide IsReservoir, NextReservoirs, Members, Drawn;
    var init, last := outs[..|outs| - 1], outs[|outs| - 1];
    DrawnAppend(s, NextAll(n, init, seen), NextReservoirs(n, last, seen, seen + 1));
    NextDrawsOld(n, last, seen, s);
  }

  lemma {:induction false} NextAllDrawNew(n: nat, outs: seq<seq<nat>>, seen: nat, s: set<nat>)
    requires AllReservoirs(n, outs, seen) && |s - {seen}| + 1 == n <= seen && seen in s
    ensures Drawn(s, NextAll(n, outs, seen)) == Covering(s - {seen}, outs)
    decreases |outs|
  {
    hide IsReservoir, NextReservoirs, Members, Drawn;
    if outs == [] {
      DrawnNone(s);
    } else {
      var init, last := outs[..|outs| - 1], outs[|outs| - 1];
      NextAllDrawNew(n, init, seen, s);
      DrawnAppend(s, NextAll(n, init, seen), NextReservoirs(n, last, seen, seen + 1));
      NextDrawsNew(n, last, seen, s, s - {seen});
    }
  }

  lemma DrawnNone(s: set<nat>)
    ensures Drawn(s, []) == 0
  {
  }

  /** The reservoirs that hold rest and one more object below m, counted by that object. */
  function Extending(rest: set<nat>, outs: seq<seq<nat>>, m: nat): nat {
    if m == 0 then 0
    else Extending(rest, outs, m - 1) + if m - 1 in rest then 0 else Drawn(rest + {m - 1}, outs)
  }

  lemma {:induction false} ExtendingMore(rest: set<nat>, outs: seq<seq<nat>>, m: nat)
    requires outs != []
    ensures Extending(rest, outs, m) == Extending(rest, outs[..|outs| - 1], m) + Extending(rest, [outs[|outs| - 1]], m)
    decreases m
  {
    if m == 0 {
    } else {
      ExtendingMore(rest, outs, m - 1);
      DrawnOne(rest + {m - 1}, outs[|outs| - 1]);
    }
  }

  lemma DrawnOne(s: set<nat>, at: seq<nat>)
    ensures Drawn(s, [at]) == if Members(at) == s then 1 else 0
  {
    assert [at][..0] == [];
  }

  /** One reservoir extends rest by one object, if it holds rest at all. */
  lemma {:induction false} ExtendingOne(rest: set<nat>, at: seq<nat>, m: nat, x: nat)
    requires x !in rest && Members(at) == rest + {x}
    ensures Extending(rest, [at], m) == if x < m then 1 else 0
    decreases m
  {
    if m == 0 {
    } else {
      ExtendingOne(rest, at, m - 1, x);
      DrawnOne(rest + {m - 1}, at);
      if m - 1 != x {
        assert x in rest + {x} && x !in rest + {m - 1};
      }
    }
  }

  lemma {:induction false} ExtendingNone(rest: set<nat>, at: seq<nat>, m: nat)
    requires !(rest <= Members(at))
    ensures Extending(rest, [at], m) == 0
    decreases m
  {
    if m == 0 {
    } else {
      ExtendingNone(rest, at, m - 1);
      DrawnOne(rest + {m - 1}, at);
    }
  }

  lemma {:induction false} CoveringIsExtending(n: nat, outs: seq<seq<nat>>, seen: nat, rest: set<nat>)
    requires AllReservoirs(n, outs, seen) && |rest| + 1 == n
    ensures Covering(rest, outs) == Extending(rest, outs, seen)
    decreases |outs|
  {
    if outs == [] {
      ExtendingEmpty(rest, seen);
    } else {
      var last := outs[|outs| - 1];
      CoveringIsExtending(n, outs[..|outs| - 1], seen, rest);
      ExtendingMore(rest, outs, seen);
      if rest <= Members(last) {
        var k := AllButOne(last, rest);
        assert Members(last) == rest + {last[k]};
        ExtendingOne(rest, last, seen, last[k]);
      } else {
        ExtendingNone(rest, last, seen);
      }
    }
  }

  lemma {:induction false} ExtendingEmpty(rest: set<nat>, m: nat)
    ensures Extending(rest, [], m) == 0
    decreases m
  {
    if m == 0 {
    } else {
      ExtendingEmpty(rest, m - 1);
    }
  }

  /** The objects of rest below m. */
  function Below(rest: set<nat>, m: nat): set<nat> {
    set x | x in rest && x < m
  }

  lemma BelowMore(rest: set<nat>, m: nat)
    ensures |Below(rest, m + 1)| == |Below(rest, m)| + if m in rest then 1 else 0
  {
    assert Below(rest, m + 1) == Below(rest, m) + if m in rest then {m} else {};
  }

  /** When each extension is drawn c times, there are c for every object outside rest. */
  lemma {:induction false} ExtendingEvenly(rest: set<nat>, outs: seq<seq<nat>>, m: nat, c: nat)
    requires forall x :: 0 <= x < m && x !in rest ==> Drawn(rest + {x}, outs) == c
    ensures Extending(rest, outs, m) == c * (m - |Below(rest, m)|)
    decreases m
  {
    hide Drawn, Below;
    if m == 0 {
      NoneBelow(rest);
    } else {
      ExtendingEvenly(rest, outs, m - 1, c);
      BelowMore(rest, m - 1);
      if m - 1 !in rest {
        OneMore(c, m - 1 - |Below(rest, m - 1)|);
      }
    }
  }

  lemma NoneBelow(rest: set<nat>)
    ensures Below(rest, 0) == {}
  {
  }

  lemma OneMore(c: nat, k: int)
    ensures c * (k + 1) == c * k + c
  {
  }

  function Factorial(k: nat): nat {
    if k == 0 then 1 else k * Factorial(k - 1)
  }

  lemma FullSubset(n: nat, s: set<nat>)
    requires |s| == n && forall x :: x in s ==> x < n
    ensures Drawn(s, Reservoirs(n, n)) == 1
  {
    var only: seq<nat> := seq(n, i => i);
    assert Reservoirs(n, n) == [only];
    MembersCount(only);
    forall x | x in s ensures x in Members(only) {
      assert only[x] == x;
    }
    assert |Members(only) - s| == 0;
    assert Members(only) == s;
    DrawnOne(s, only);
  }

  /** Over all choice sequences every set of n of the t objects seen is held equally
      often. */
  lemma {:induction false} EverySubsetAlike(n: nat, t: nat, s: set<nat>)
    requires 0 < n <= t && |s| == n && forall x :: x in s ==> x < t
    ensures Drawn(s, Reservoirs(n, t)) == Factorial(t - n)
    decreases t
  {
    hide Reservoirs, NextAll, Drawn, AllReservoirs;
    if t == n {
      FullSubset(n, s);
    } else {
      var seen, outs := t - 1, Reservoirs(n, t - 1);
      ReservoirsNext(n, t);
      ReservoirIsUniform(n, seen, 0);
      if seen in s {
        var rest := s - {seen};
        forall x | 0 <= x < seen && x !in rest ensures Drawn(rest + {x}, outs) == Factorial(seen - n) {
          EverySubsetAlike(n, seen, rest + {x});
        }
        NextAllDrawNew(n, outs, seen, s);
        ExtendedEvenly(n, outs, seen, rest, Factorial(seen - n));
        Commute(Factorial(seen - n), t - n);
      } else {
        EverySubsetAlike(n, seen, s);
        NextAllDrawOld(n, outs, seen, s);
        Commute(Factorial(seen - n), t - n);
      }
    }
  }

  lemma ExtendedEvenly(n: nat, outs: seq<seq<nat>>, seen: nat, rest: set<nat>, c: nat)
    requires AllReservoirs(n, outs, seen) && |rest| + 1 == n && forall x :: x in rest ==> x < seen
    requires forall x :: 0 <= x < seen && x !in rest ==> Drawn(rest + {x}, outs) == c
    ensures Covering(rest, outs) == c * (seen + 1 - n)
  {
    hide AllReservoirs, Drawn, Covering, Extending;
    CoveringIsExtending(n, outs, seen, rest);
    ExtendingEvenly(rest, outs, seen, c);
    assert Below(rest, seen) == rest;
  }

  lemma Commute(a: nat, b: nat)
    ensures a * b == b * a
  {
  }
}
