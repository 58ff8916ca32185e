/** The lexicographic order on strings and the sorted list of a set of keys,
    as Go's `<` on strings and `sort.Strings` over the keys of a map give them. */
module Ordering {

  predicate Less(a: string, b: string) {
    b != [] && (a == [] || a[0] < b[0] || (a[0] == b[0] && Less(a[1..], b[1..])))
  }

  predicate AtMost(a: string, b: string) {
    a == b || Less(a, b)
  }

  lemma {:induction false} LessIrreflexive(a: string)
    ensures !Less(a, a)
  {
    if a == [] {
    } else {
      LessIrreflexive(a[1..]);
    }
  }

  lemma {:induction false} LessTransitive(a: string, b: string, c: string)
    requires Less(a, b) && Less(b, c)
    ensures Less(a, c)
  {
    if a != [] && a[0] == b[0] && b[0] == c[0] {
      LessTransitive(a[1..], b[1..], c[1..]);
    }
  }

  lemma {:induction false} LessTotal(a: string, b: string)
    ensures a == b || Less(a, b) || Less(b, a)
  {
    if a != [] && b != [] && a[0] == b[0] {
      LessTotal(a[1..], b[1..]);
      if a[1..] == b[1..] {
        assert a == [a[0]] + a[1..] && b == [b[0]] + b[1..];
      }
    }
  }

  lemma LessAsymmetric(a: string, b: string)
    requires Less(a, b)
    ensures !Less(b, a) && a != b
  {
    LessIrreflexive(a);
    if Less(b, a) {
      LessTransitive(a, b, a);
    }
  }

  lemma AtMostTransitive(a: string, b: string, c: string)
    requires AtMost(a, b) && AtMost(b, c)
    ensures AtMost(a, c)
  {
    if a != b && b != c {
      LessTransitive(a, b, c);
    }
  }

  predicate IsLeast(k: string, keys: set<string>) {
    k in keys && forall j :: j in keys ==> AtMost(k, j)
  }

  lemma {:induction false} LeastExists(keys: set<string>)
    requires keys != {}
    ensures exists k :: IsLeast(k, keys)
    decreases |keys|
  {
    var x :| x in keys;
    var rest := keys - {x};
    if rest == {} {
      assert keys == {x};
      assert IsLeast(x, keys);
    } else {
      LeastExists(rest);
      var k :| IsLeast(k, rest);
      LessTotal(k, x);
      if AtMost(k, x) {
        assert IsLeast(k, keys);
      } else {
        forall j | j in keys ensures AtMost(x, j) {
          if j != x {
            AtMostTransitive(x, k, j);
          }
        }
        assert IsLeast(x, keys);
      }
    }
  }

  lemma LeastUnique(j: string, k: string, keys: set<string>)
    requires IsLeast(j, keys) && IsLeast(k, keys)
    ensures j == k
  {
    if j != k {
      LessAsymmetric(j, k);
    }
  }

  function Least(keys: set<string>): (k: string)
    requires keys != {}
    ensures IsLeast(k, keys)
  {
    LeastExists(keys);
    assert forall i, j | IsLeast(i, keys) && IsLeast(j, keys) :: i == j by {
      forall i, j | IsLeast(i, keys) && IsLeast(j, keys) ensures i == j {
        LeastUnique(i, j, keys);
      }
    }
    var k :| k in keys && IsLeast(k, keys);
    k
  }

  ghost predicate StrictlySorted(s: seq<string>) {
    forall i, j :: 0 <= i < j < |s| ==> Less(s[i], s[j])
  }

  lemma SortedPrepend(k: string, rest: seq<string>)
    requires StrictlySorted(rest)
    requires forall r :: r in rest ==> AtMost(k, r) && k != r
    ensures StrictlySorted([k] + rest)
  {
    var s := [k] + rest;
    forall i, j | 0 <= i < j < |s| ensures Less(s[i], s[j]) {
      assert s[j] == rest[j - 1] && rest[j - 1] in rest;
    }
  }

  lemma NonEmptyHasMember(t: seq<string>)
    requires t != []
    ensures exists x :: x in t
  {
    assert t[0] in t;
  }

  /** The keys of a map in ascending order: a Go map range followed by sort.Strings. */
  function SortedKeys(keys: set<string>): (s: seq<string>)
    ensures StrictlySorted(s)
    ensures forall k :: k in s <==> k in keys
    ensures |s| == |keys|
    decreases |keys|
  {
    if keys == {} then []
    else
      var k := Least(keys);
      var rest := SortedKeys(keys - {k});
      SortedPrepend(k, rest);
      [k] + rest
  }

  lemma StrictlySortedDistinct(s: seq<string>)
    requires StrictlySorted(s)
    ensures forall i, j :: 0 <= i < j < |s| ==> s[i] != s[j]
  {
    forall i, j | 0 <= i < j < |s| ensures s[i] != s[j] {
      LessAsymmetric(s[i], s[j]);
    }
  }

  /** Two strictly sorted lists of the same keys are the same list: what makes a
      sorted result independent of the order a Go map was ranged in. */
  lemma {:induction false} SortedUnique(s: seq<string>, t: seq<string>)
    requires StrictlySorted(s) && StrictlySorted(t)
    requires forall k :: k in s <==> k in t
    ensures s == t
  {
    StrictlySortedDistinct(s);
    StrictlySortedDistinct(t);
    if s == [] {
      if t != [] {
        NonEmptyHasMember(t);
      }
    } else {
      assert s[0] in t;
      assert t[0] in s;
      var i :| 0 <= i < |t| && t[i] == s[0];
      var j :| 0 <= j < |s| && s[j] == t[0];
      if s[0] != t[0] {
        assert Less(t[0], t[i]) && Less(s[0], s[j]);
        LessAsymmetric(t[0], s[0]);
      }
      forall k ensures k in s[1..] <==> k in t[1..] {
        if k in s[1..] {
          assert k in s && k != s[0];
          assert k in t;
        }
        if k in t[1..] {
          assert k in t && k != t[0];
          assert k in s;
        }
      }
      SortedUnique(s[1..], t[1..]);
      assert s == [s[0]] + s[1..] && t == [t[0]] + t[1..];
    }
  }

  // ---- sort.Strings and sort.Slice by a string key ----

  function InsertBy<T(!new)>(key: T -> string, x: T, items: seq<T>): (r: seq<T>)
    ensures multiset(r) == multiset(items) + multiset{x}
    ensures forall y :: y in r <==> y == x || y in items
    decreases |items|
  {
    if items == [] || Less(key(x), key(items[0])) then [x] + items
    else
      assert items == [items[0]] + items[1..];
      [items[0]] + InsertBy(key, x, items[1..])
  }

  function SortBy<T(!new)>(key: T -> string, items: seq<T>): (r: seq<T>)
    ensures multiset(r) == multiset(items)
    ensures |r| == |items|
    ensures forall y :: y in r <==> y in items
    decreases |items|
  {
    if items == [] then []
    else
      var init := items[..|items| - 1];
      assert items == init + [items[|items| - 1]];
      var r := InsertBy(key, items[|items| - 1], SortBy(key, init));
      assert |multiset(r)| == |r|;
      r
  }

  ghost predicate DistinctKeys<T(!new)>(key: T -> string, items: seq<T>) {
    forall i, j :: 0 <= i < j < |items| ==> key(items[i]) != key(items[j])
  }

  ghost predicate StrictlyBy<T(!new)>(key: T -> string, items: seq<T>) {
    forall i, j :: 0 <= i < j < |items| ==> Less(key(items[i]), key(items[j]))
  }

  lemma {:induction false} InsertKeepsStrict<T(!new)>(key: T -> string, x: T, items: seq<T>)
    requires StrictlyBy(key, items)
    requires forall y :: y in items ==> key(y) != key(x)
    ensures StrictlyBy(key, InsertBy(key, x, items))
    decreases |items|
  {
    if items == [] {
    } else if Less(key(x), key(items[0])) {
      forall j | 0 <= j < |items| ensures Less(key(x), key(items[j])) {
        if j > 0 {
          LessTransitive(key(x), key(items[0]), key(items[j]));
        }
      }
    } else {
      assert items[0] in items;
      LessTotal(key(x), key(items[0]));
      InsertKeepsStrict(key, x, items[1..]);
      var rest := InsertBy(key, x, items[1..]);
      forall j | 0 <= j < |rest| ensures Less(key(items[0]), key(rest[j])) {
        assert rest[j] in rest;
      }
    }
  }

  /** Sorting items whose keys are all different gives strictly ascending keys. */
  lemma {:induction false} SortByStrict<T(!new)>(key: T -> string, items: seq<T>)
    requires DistinctKeys(key, items)
    ensures StrictlyBy(key, SortBy(key, items))
    decreases |items|
  {
    if items == [] {
    } else {
      var n := |items| - 1;
      SortByStrict(key, items[..n]);
      InsertKeepsStrict(key, items[n], SortBy(key, items[..n]));
    }
  }

  ghost predicate AscendingBy<T(!new)>(key: T -> string, items: seq<T>) {
    forall i, j :: 0 <= i < j < |items| ==> AtMost(key(items[i]), key(items[j]))
  }

  lemma {:induction false} InsertKeepsAscending<T(!new)>(key: T -> string, x: T, items: seq<T>)
    requires AscendingBy(key, items)
    ensures AscendingBy(key, InsertBy(key, x, items))
    decreases |items|
  {
    if items == [] {
    } else if Less(key(x), key(items[0])) {
      forall j | 0 <= j < |items| ensures AtMost(key(x), key(items[j])) {
        if j > 0 {
          AtMostTransitive(key(x), key(items[0]), key(items[j]));
        }
      }
    } else {
      LessTotal(key(x), key(items[0]));
      InsertKeepsAscending(key, x, items[1..]);
      var rest := InsertBy(key, x, items[1..]);
      forall j | 0 <= j < |rest| ensures AtMost(key(items[0]), key(rest[j])) {
        assert rest[j] in rest;
      }
    }
  }

  lemma {:induction false} SortByAscends<T(!new)>(key: T -> string, items: seq<T>)
    ensures AscendingBy(key, SortBy(key, items))
    decreases |items|
  {
    if items == [] {
    } else {
      var n := |items| - 1;
      SortByAscends(key, items[..n]);
      InsertKeepsAscending(key, items[n], SortBy(key, items[..n]));
    }
  }

  function Itself(s: string): string {
    s
  }

  /** sort.Strings of a list without duplicates is the sorted list of its members. */
  lemma SortDistinctStrings(s: seq<string>, members: set<string>)
    requires forall i, j :: 0 <= i < j < |s| ==> s[i] != s[j]
    requires forall k :: k in s <==> k in members
    ensures SortBy(Itself, s) == SortedKeys(members)
  {
    SortByStrict(Itself, s);
    SortedUnique(SortBy(Itself, s), SortedKeys(members));
  }
}
