/** Grouping a sequence of records by a key, as the dashboard's
    `map[key] ||= []; map[key].push(x)` and `map[key].count += 1` loops do,
    and the sorting of keys and records that follows them. */
module Grouping {

  /** The records of `xs` whose key is `k`, in input order. */
  function Group<T, K(==)>(xs: seq<T>, key: T -> K, k: K): (g: seq<T>)
    ensures |g| <= |xs|
    ensures forall x :: x in g ==> x in xs && key(x) == k
  {
    if xs == [] then []
    else
      var init := Group(xs[..|xs| - 1], key, k);
      if key(xs[|xs| - 1]) == k then init + [xs[|xs| - 1]] else init
  }

  /** Appending a record extends its own group and no other. */
  lemma GroupSnoc<T, K>(xs: seq<T>, x: T, key: T -> K, k: K)
    ensures Group(xs + [x], key, k) == if key(x) == k then Group(xs, key, k) + [x] else Group(xs, key, k)
  {
    assert (xs + [x])[..|xs|] == xs;
  }

  /** Every record whose key is `k` is in the group of `k`. */
  lemma {:induction false} InGroup<T, K>(xs: seq<T>, key: T -> K, i: nat)
    requires i < |xs|
    ensures xs[i] in Group(xs, key, key(xs[i]))
  {
    if i < |xs| - 1 {
      InGroup(xs[..|xs| - 1], key, i);
    }
  }

  /** The group of a key that no record has is empty. */
  lemma {:induction false} GroupOfAbsentKey<T, K>(xs: seq<T>, key: T -> K, k: K)
    requires forall i :: 0 <= i < |xs| ==> key(xs[i]) != k
    ensures Group(xs, key, k) == []
  {
    if xs != [] {
      GroupOfAbsentKey(xs[..|xs| - 1], key, k);
    }
  }

  predicate Distinct<K(==)>(ks: seq<K>) {
    forall i, j :: 0 <= i < j < |ks| ==> ks[i] != ks[j]
  }

  /** Sum of the group sizes over the keys `ks`. */
  function GroupSizes<T, K(==)>(xs: seq<T>, key: T -> K, ks: seq<K>): nat
  {
    if ks == [] then 0 else |Group(xs, key, ks[0])| + GroupSizes(xs, key, ks[1..])
  }

  /** Number of positions of `ks` that hold `k`. */
  function Occurrences<K(==)>(ks: seq<K>, k: K): nat
  {
    if ks == [] then 0 else (if ks[0] == k then 1 else 0) + Occurrences(ks[1..], k)
  }

  lemma {:induction false} OccurrencesOfDistinct<K>(ks: seq<K>, k: K)
    requires Distinct(ks)
    ensures Occurrences(ks, k) == if k in ks then 1 else 0
  {
    if ks != [] {
      OccurrencesOfDistinct(ks[1..], k);
      assert k in ks[1..] ==> ks[0] != k;
      assert k in ks <==> ks[0] == k || k in ks[1..];
    }
  }

  lemma {:induction false} GroupSizesSnoc<T, K>(xs: seq<T>, key: T -> K, ks: seq<K>)
    requires xs != []
    ensures GroupSizes(xs, key, ks)
         == GroupSizes(xs[..|xs| - 1], key, ks) + Occurrences(ks, key(xs[|xs| - 1]))
  {
    if ks != [] {
      GroupSizesSnoc(xs, key, ks[1..]);
    }
  }

  lemma {:induction false} GroupSizesOfEmpty<T, K>(xs: seq<T>, key: T -> K, ks: seq<K>)
    requires xs == []
    ensures GroupSizes(xs, key, ks) == 0
  {
    if ks != [] {
      GroupSizesOfEmpty(xs, key, ks[1..]);
    }
  }

  /** Grouping loses and duplicates nothing: over any list of distinct keys
      that covers every record's key, the group sizes add up to the number of records. */
  lemma {:induction false} GroupSizesCount<T, K>(xs: seq<T>, key: T -> K, ks: seq<K>)
    requires Distinct(ks)
    requires forall i :: 0 <= i < |xs| ==> key(xs[i]) in ks
    ensures GroupSizes(xs, key, ks) == |xs|
  {
    if xs == [] {
      GroupSizesOfEmpty(xs, key, ks);
    } else {
      GroupSizesCount(xs[..|xs| - 1], key, ks);
      GroupSizesSnoc(xs, key, ks);
      OccurrencesOfDistinct(ks, key(xs[|xs| - 1]));
    }
  }

  /** Strictly ascending integers. */
  predicate StrictlyAscending(ks: seq<int>) {
    forall i, j :: 0 <= i < j < |ks| ==> ks[i] < ks[j]
  }

  /** Inserts `k` into an ascending list unless it is already there. */
  function InsertKey(k: int, ks: seq<int>): (r: seq<int>)
    requires StrictlyAscending(ks)
    ensures StrictlyAscending(r)
    ensures forall x :: x in r <==> x == k || x in ks
  {
    if ks == [] then [k]
    else if k < ks[0] then
      PrependAscending(k, ks);
      [k] + ks
    else if k == ks[0] then ks
    else
      var rest := InsertKey(k, ks[1..]);
      assert forall x :: x in rest ==> ks[0] < x by {
        forall x | x in rest ensures ks[0] < x {
          if x != k {
            var m :| 0 <= m < |ks[1..]| && ks[1..][m] == x;
            assert ks[m + 1] == x;
          }
        }
      }
      PrependAscending(ks[0], rest);
      [ks[0]] + rest
  }

  lemma PrependAscending(a: int, s: seq<int>)
    requires StrictlyAscending(s)
    requires forall x :: x in s ==> a < x
    ensures StrictlyAscending([a] + s)
  {
    forall i, j | 0 <= i < j < |[a] + s| ensures ([a] + s)[i] < ([a] + s)[j] {
      assert ([a] + s)[j] == s[j - 1];
      if i == 0 {
        assert s[j - 1] in s;
      } else {
        assert ([a] + s)[i] == s[i - 1];
      }
    }
  }

  /** The distinct values of `ks`, ascending: the keys of a dictionary sorted
      with an ascending comparator. */
  function SortedKeys(ks: seq<int>): (r: seq<int>)
    ensures StrictlyAscending(r)
    ensures forall x :: x in r <==> x in ks
  {
    if ks == [] then [] else InsertKey(ks[|ks| - 1], SortedKeys(ks[..|ks| - 1]))
  }

  /** A strictly ascending list is fixed by its elements. */
  lemma {:induction false} StrictlyAscendingUnique(a: seq<int>, b: seq<int>)
    requires StrictlyAscending(a) && StrictlyAscending(b)
    requires forall x :: x in a <==> x in b
    ensures a == b
  {
    assert a != [] ==> a[0] in a;
    assert b != [] ==> b[0] in b;
    if a != [] && b != [] {
      assert a[0] in b && b[0] in a;
      assert a[0] == b[0];
      forall x ensures x in a[1..] <==> x in b[1..] {
        assert x in a[1..] <==> x in a && x != a[0];
        assert x in b[1..] <==> x in b && x != b[0];
      }
      StrictlyAscendingUnique(a[1..], b[1..]);
      assert a == [a[0]] + a[1..] && b == [b[0]] + b[1..];
    }
  }

  /** Ascending by an integer key, ties allowed. */
  predicate AscendingBy<T>(s: seq<T>, key: T -> int) {
    forall i, j :: 0 <= i < j < |s| ==> key(s[i]) <= key(s[j])
  }

  /** Inserts `x` after every element whose key is not greater than its own,
      so that equal keys keep their input order. */
  function InsertBy<T>(x: T, s: seq<T>, key: T -> int): (r: seq<T>)
    requires AscendingBy(s, key)
    ensures AscendingBy(r, key)
    ensures forall y :: y in r ==> y == x || y in s
    ensures multiset(r) == multiset(s) + multiset{x}
  {
    if s == [] then [x]
    else if key(x) < key(s[0]) then
      PrependAscendingBy(x, s, key);
      [x] + s
    else
      var rest := InsertBy(x, s[1..], key);
      HeadBelowRest(x, s, rest, key);
      PrependAscendingBy(s[0], rest, key);
      assert s == [s[0]] + s[1..];
      [s[0]] + rest
  }

  lemma HeadBelowRest<T>(x: T, s: seq<T>, rest: seq<T>, key: T -> int)
    requires s != [] && AscendingBy(s, key) && key(s[0]) <= key(x)
    requires forall y :: y in rest ==> y == x || y in s[1..]
    ensures forall y :: y in rest ==> key(s[0]) <= key(y)
  {
    forall y | y in rest ensures key(s[0]) <= key(y) {
      if y != x {
        var m :| 0 <= m < |s[1..]| && s[1..][m] == y;
        assert s[m + 1] == y;
      }
    }
  }

  lemma PrependAscendingBy<T>(a: T, s: seq<T>, key: T -> int)
    requires AscendingBy(s, key)
    requires forall y :: y in s ==> key(a) <= key(y)
    ensures AscendingBy([a] + s, key)
  {
    forall i, j | 0 <= i < j < |[a] + s| ensures key(([a] + s)[i]) <= key(([a] + s)[j]) {
      assert ([a] + s)[j] == s[j - 1];
      if i == 0 {
        assert s[j - 1] in s;
      } else {
        assert ([a] + s)[i] == s[i - 1];
      }
    }
  }

  /** A stable insertion sort by an integer key, as `Array.prototype.sort`
      with a numeric comparator sorts: ascending, and a permutation of the input. */
  function SortBy<T>(s: seq<T>, key: T -> int): (r: seq<T>)
    ensures AscendingBy(r, key)
    ensures multiset(r) == multiset(s)
  {
    if s == [] then []
    else
      assert s == s[..|s| - 1] + [s[|s| - 1]];
      InsertBy(s[|s| - 1], SortBy(s[..|s| - 1], key), key)
  }

  /** Records of `s` that share a key are identical. */
  predicate KeyDetermines<T(==)>(s: seq<T>, key: T -> int) {
    forall i, j :: 0 <= i < |s| && 0 <= j < |s| && key(s[i]) == key(s[j]) ==> s[i] == s[j]
  }

  /** Whether the key determines the record depends only on which records there are. */
  lemma KeyDeterminesPermutation<T>(a: seq<T>, b: seq<T>, key: T -> int)
    requires multiset(a) == multiset(b) && KeyDetermines(a, key)
    ensures KeyDetermines(b, key)
  {
    forall i, j | 0 <= i < |b| && 0 <= j < |b| && key(b[i]) == key(b[j]) ensures b[i] == b[j] {
      assert b[i] in multiset(a) && b[j] in multiset(a);
      var p :| 0 <= p < |a| && a[p] == b[i];
      var q :| 0 <= q < |a| && a[q] == b[j];
    }
  }

  lemma HeadsEqual<T>(a: seq<T>, b: seq<T>, key: T -> int)
    requires a != [] && b != []
    requires AscendingBy(a, key) && AscendingBy(b, key)
    requires multiset(a) == multiset(b)
    requires KeyDetermines(a, key)
    ensures a[0] == b[0]
  {
    assert a[0] in multiset(b);
    var j :| 0 <= j < |b| && b[j] == a[0];
    assert b[0] in multiset(a);
    var k :| 0 <= k < |a| && a[k] == b[0];
    assert key(a[0]) <= key(a[k]);
    assert key(b[0]) <= key(b[j]);
  }

  lemma TailsPermutation<T>(a: seq<T>, b: seq<T>)
    requires a != [] && b != [] && a[0] == b[0]
    requires multiset(a) == multiset(b)
    ensures multiset(a[1..]) == multiset(b[1..])
  {
    assert a == [a[0]] + a[1..];
    assert b == [b[0]] + b[1..];
    forall e ensures multiset(a[1..])[e] == multiset(b[1..])[e] {
      assert multiset(a)[e] == multiset{a[0]}[e] + multiset(a[1..])[e];
      assert multiset(b)[e] == multiset{a[0]}[e] + multiset(b[1..])[e];
    }
  }

  /** Two non-empty ascending permutations start alike, and their tails are
      again ascending permutations in which the key determines the record. */
  lemma Tails<T>(a: seq<T>, b: seq<T>, key: T -> int)
    requires a != [] && b != []
    requires AscendingBy(a, key) && AscendingBy(b, key)
    requires multiset(a) == multiset(b)
    requires KeyDetermines(a, key)
    ensures a[0] == b[0]
    ensures AscendingBy(a[1..], key) && AscendingBy(b[1..], key)
    ensures multiset(a[1..]) == multiset(b[1..])
    ensures KeyDetermines(a[1..], key)
  {
    HeadsEqual(a, b, key);
    TailsPermutation(a, b);
  }

  /** Two ascending permutations of the same records are equal when records
      that share a key are identical: the order of the input does not matter. */
  lemma {:induction false} AscendingPermutationUnique<T>(a: seq<T>, b: seq<T>, key: T -> int)
    requires AscendingBy(a, key) && AscendingBy(b, key)
    requires multiset(a) == multiset(b)
    requires KeyDetermines(a, key)
    ensures a == b
  {
    if a == [] || b == [] {
      assert |a| == |multiset(a)| && |b| == |multiset(b)|;
    } else {
      Tails(a, b, key);
      AscendingPermutationUnique(a[1..], b[1..], key);
      assert a == [a[0]] + a[1..] && b == [b[0]] + b[1..];
    }
  }
}
