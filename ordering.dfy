/** Row filters, the ORDER BY sort and LIMIT, shared by every query of the model.

    SQLite's `WHERE` is `Filter`, `ORDER BY k DESC` is `SortDesc`, `LIMIT n` and a
    Python slice `[:n]` are `TakeAtMost`. The sort is a stable insertion sort:
    the order it gives rows with equal keys (their order in the table) is one of
    the orders SQLite may return; none of the lemmas depend on it. */
module Ordering {

  /** A timestamp is a count of whole seconds on one linear clock. The source
      stores `datetime.now().isoformat()` strings; the model takes their
      lexical order to be this clock's order and drops sub-second digits. */
  type Timestamp = nat

  function Filter<T>(s: seq<T>, p: T -> bool): (r: seq<T>)
    ensures |r| <= |s|
    ensures forall x :: x in r ==> x in s && p(x)
    ensures forall x :: x in s && p(x) ==> x in r
  {
    if s == [] then [] else (if p(s[0]) then [s[0]] else []) + Filter(s[1..], p)
  }

  lemma {:induction false} FilterAppend<T>(a: seq<T>, b: seq<T>, p: T -> bool)
    ensures Filter(a + b, p) == Filter(a, p) + Filter(b, p)
  {
    if a == [] {
      assert a + b == b;
    } else {
      assert (a + b)[1..] == a[1..] + b;
      FilterAppend(a[1..], b, p);
    }
  }

  /** One more element is kept at the end when it passes, and dropped otherwise. */
  lemma FilterSnoc<T>(s: seq<T>, x: T, p: T -> bool)
    ensures Filter(s + [x], p) == Filter(s, p) + (if p(x) then [x] else [])
  {
    FilterAppend(s, [x], p);
    assert [x][1..] == [];
  }

  /** Filtering keeps each element as often as it occurs, or drops it entirely. */
  lemma {:induction false} FilterMultiset<T>(s: seq<T>, p: T -> bool, x: T)
    ensures multiset(Filter(s, p))[x] == if p(x) then multiset(s)[x] else 0
  {
    if s != [] {
      FilterMultiset(s[1..], p, x);
      assert s == [s[0]] + s[1..];
    }
  }

  /** A filter that keeps everything changes nothing. */
  lemma {:induction false} FilterAll<T>(s: seq<T>, p: T -> bool)
    requires forall x :: x in s ==> p(x)
    ensures Filter(s, p) == s
  {
    if s != [] {
      FilterAll(s[1..], p);
    }
  }

  ghost predicate SortedDesc<T>(s: seq<T>, key: T -> int) {
    forall i, j :: 0 <= i < j < |s| ==> key(s[j]) <= key(s[i])
  }

  ghost predicate SortedAsc<T>(s: seq<T>, key: T -> int) {
    forall i, j :: 0 <= i < j < |s| ==> key(s[i]) <= key(s[j])
  }

  /** Puts `x` in front of the first element whose key is not larger than its own. */
  function Insert<T>(x: T, s: seq<T>, key: T -> int): (r: seq<T>)
    ensures multiset(r) == multiset(s) + multiset{x}
    ensures |r| == |s| + 1
  {
    if s == [] || key(s[0]) <= key(x) then [x] + s
    else
      assert s == [s[0]] + s[1..];
      [s[0]] + Insert(x, s[1..], key)
  }

  /** Inserting adds `x` and nothing else. */
  lemma InsertMembers<T>(x: T, s: seq<T>, key: T -> int)
    ensures forall y :: y in Insert(x, s, key) ==> y == x || y in s
  {
    var r := Insert(x, s, key);
    forall y | y in r ensures y == x || y in s {
      assert y in multiset(r);
    }
  }

  lemma {:induction false} InsertSorted<T>(x: T, s: seq<T>, key: T -> int)
    requires SortedDesc(s, key)
    ensures SortedDesc(Insert(x, s, key), key)
  {
    if s == [] || key(s[0]) <= key(x) {
    } else {
      InsertSorted(x, s[1..], key);
      InsertMembers(x, s[1..], key);
      var r := Insert(x, s[1..], key);
      assert forall k :: 0 <= k < |r| ==> key(r[k]) <= key(s[0]) by {
        forall k | 0 <= k < |r| ensures key(r[k]) <= key(s[0]) {
          assert r[k] in r;
          if r[k] != x {
            var j :| 0 <= j < |s[1..]| && s[1..][j] == r[k];
            assert s[j + 1] == r[k];
          }
        }
      }
      assert Insert(x, s, key) == [s[0]] + r;
    }
  }

  /** ORDER BY key DESC. */
  function SortDesc<T>(s: seq<T>, key: T -> int): (r: seq<T>)
    ensures multiset(r) == multiset(s)
    ensures |r| == |s|
  {
    if s == [] then []
    else
      assert s == [s[0]] + s[1..];
      Insert(s[0], SortDesc(s[1..], key), key)
  }

  lemma {:induction false} SortDescSorted<T>(s: seq<T>, key: T -> int)
    ensures SortedDesc(SortDesc(s, key), key)
  {
    if s != [] {
      SortDescSorted(s[1..], key);
      InsertSorted(s[0], SortDesc(s[1..], key), key);
    }
  }

  /** A sorted sequence holds the same elements as the input. */
  lemma SortDescMembers<T>(s: seq<T>, key: T -> int)
    ensures forall x :: x in SortDesc(s, key) <==> x in s
  {
    var r := SortDesc(s, key);
    forall x ensures x in r <==> x in s {
      assert x in r <==> x in multiset(r);
      assert x in s <==> x in multiset(s);
    }
  }

  /** The first element of the sorted sequence has the largest key. */
  lemma SortDescHead<T>(s: seq<T>, key: T -> int)
    requires s != []
    ensures SortDesc(s, key)[0] in s
    ensures forall x :: x in s ==> key(x) <= key(SortDesc(s, key)[0])
  {
    var r := SortDesc(s, key);
    SortDescMembers(s, key);
    SortDescSorted(s, key);
    assert r[0] in r;
    forall x | x in s ensures key(x) <= key(r[0]) {
      var k :| 0 <= k < |r| && r[k] == x;
    }
  }

  /** What `ORDER BY key DESC LIMIT n` leaves out is no newer than anything it keeps. */
  lemma SortDescTakeNewest<T>(s: seq<T>, key: T -> int, n: nat)
    ensures var kept := TakeAtMost(SortDesc(s, key), n);
            forall x, y :: x in s && x !in kept && y in kept ==> key(x) <= key(y)
  {
    var r := SortDesc(s, key);
    var kept := TakeAtMost(r, n);
    SortDescMembers(s, key);
    SortDescSorted(s, key);
    forall x, y | x in s && x !in kept && y in kept ensures key(x) <= key(y) {
      var i :| 0 <= i < |r| && r[i] == x;
      var j :| 0 <= j < |kept| && kept[j] == y;
      assert i >= |kept|;
    }
  }

  /** The first `n` of a sorted sequence are sorted. */
  lemma SortDescTakeSorted<T>(s: seq<T>, key: T -> int, n: nat)
    ensures SortedDesc(TakeAtMost(SortDesc(s, key), n), key)
  {
    SortDescSorted(s, key);
  }

  /** The key, negated: sorting by it descending sorts ascending. */
  function Negated<T>(key: T -> int): T -> int {
    (x: T) => -key(x)
  }

  /** Python's `sorted(s, key=key)`, ascending. */
  function SortAsc<T>(s: seq<T>, key: T -> int): (r: seq<T>)
    ensures multiset(r) == multiset(s)
    ensures |r| == |s|
  {
    SortDesc(s, Negated(key))
  }

  lemma SortAscSorted<T>(s: seq<T>, key: T -> int)
    ensures SortedAsc(SortAsc(s, key), key)
  {
    SortDescSorted(s, Negated(key));
  }

  lemma SortAscMembers<T>(s: seq<T>, key: T -> int)
    ensures forall x :: x in SortAsc(s, key) <==> x in s
  {
    SortDescMembers(s, Negated(key));
  }

  /** SQL `LIMIT n`, or Python's slice `s[:n]`. */
  function TakeAtMost<T>(s: seq<T>, n: nat): (r: seq<T>)
    ensures |r| <= n && |r| <= |s|
    ensures |r| == if |s| <= n then |s| else n
    ensures r == s[..|r|]
  {
    if |s| <= n then s else s[..n]
  }

  function Sum(s: seq<int>): int {
    if s == [] then 0 else Sum(s[..|s| - 1]) + s[|s| - 1]
  }
}
