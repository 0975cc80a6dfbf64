/** The aggregation-pipeline stages the reports use, over sequences of
    documents: `$match` (Filter), `$sum` (Sum, SumInt, Count), `$sort` on a
    numeric key in descending order (SortDesc), `$sort` on a string key in
    ascending order (SortAsc) and `$limit` (Take). */
module Aggregate {
  import opened Text

  /** A prefix one longer is the prefix and the next element. */
  lemma PrefixSnoc<T>(s: seq<T>, i: nat)
    requires i < |s|
    ensures s[..i + 1] == s[..i] + [s[i]]
  {
  }

  /** Appending leaves the old elements as a prefix. */
  lemma SnocPrefix<T>(s: seq<T>, x: T)
    ensures (s + [x])[..|s|] == s
  {
  }

  function Sum<T>(s: seq<T>, f: T -> real): real
  {
    if s == [] then 0.0 else Sum(s[..|s| - 1], f) + f(s[|s| - 1])
  }

  function SumInt<T>(s: seq<T>, f: T -> int): int
  {
    if s == [] then 0 else SumInt(s[..|s| - 1], f) + f(s[|s| - 1])
  }

  function Count<T>(s: seq<T>, p: T -> bool): (n: nat)
    ensures n <= |s|
  {
    if s == [] then 0 else Count(s[..|s| - 1], p) + (if p(s[|s| - 1]) then 1 else 0)
  }

  function Filter<T>(s: seq<T>, p: T -> bool): (r: seq<T>)
    ensures |r| == Count(s, p)
    ensures forall k :: 0 <= k < |r| ==> r[k] in s && p(r[k])
    ensures forall k :: 0 <= k < |s| && p(s[k]) ==> s[k] in r
  {
    if s == [] then []
    else Filter(s[..|s| - 1], p) + (if p(s[|s| - 1]) then [s[|s| - 1]] else [])
  }

  /** `$match: {key: k}`: the elements whose key is `k`, in order. */
  function Matching<T, K(==)>(s: seq<T>, key: T -> K, k: K): seq<T>
  {
    if s == [] then []
    else Matching(s[..|s| - 1], key, k) + (if key(s[|s| - 1]) == k then [s[|s| - 1]] else [])
  }

  lemma MatchingSnoc<T, K>(s: seq<T>, x: T, key: T -> K, k: K)
    ensures Matching(s + [x], key, k) == Matching(s, key, k) + (if key(x) == k then [x] else [])
  {
    assert (s + [x])[..|s|] == s;
  }

  /** Nothing is kept when no element passes. */
  lemma {:induction false} FilterNone<T>(s: seq<T>, p: T -> bool)
    requires forall x :: x in s ==> !p(x)
    ensures Filter(s, p) == []
  {
    if s != [] {
      var init := s[..|s| - 1];
      assert forall x :: x in init ==> x in s;
      FilterNone(init, p);
      assert s[|s| - 1] in s;
    }
  }

  /** Only elements of `s` with key `k` match. */
  lemma {:induction false} MatchingMembers<T, K>(s: seq<T>, key: T -> K, k: K)
    ensures forall x :: x in Matching(s, key, k) ==> x in s && key(x) == k
  {
    if s != [] {
      var init := s[..|s| - 1];
      MatchingMembers(init, key, k);
      assert forall x :: x in init ==> x in s;
    }
  }

  lemma SumSnoc<T>(s: seq<T>, x: T, f: T -> real)
    ensures Sum(s + [x], f) == Sum(s, f) + f(x)
  {
    assert (s + [x])[..|s|] == s;
  }

  lemma SumIntSnoc<T>(s: seq<T>, x: T, f: T -> int)
    ensures SumInt(s + [x], f) == SumInt(s, f) + f(x)
  {
    assert (s + [x])[..|s|] == s;
  }

  lemma SumSingle<T>(x: T, f: T -> real)
    ensures Sum([x], f) == f(x)
  {
    assert [x][..0] == [];
  }

  lemma {:induction false} SumAppend<T>(s: seq<T>, t: seq<T>, f: T -> real)
    ensures Sum(s + t, f) == Sum(s, f) + Sum(t, f)
    decreases |t|
  {
    if t == [] {
      assert s + t == s;
    } else {
      var t' := t[..|t| - 1];
      assert s + t == (s + t') + [t[|t| - 1]];
      SumAppend(s, t', f);
      SumSnoc(s + t', t[|t| - 1], f);
    }
  }

  /** Reordering does not change a sum. */
  lemma {:induction false} SumPermutation<T>(s: seq<T>, t: seq<T>, f: T -> real)
    requires multiset(s) == multiset(t)
    ensures Sum(s, f) == Sum(t, f)
    decreases |s|
  {
    if s == [] {
      assert |multiset(t)| == 0;
    } else {
      var init, x := s[..|s| - 1], s[|s| - 1];
      assert s == init + [x];
      assert x in multiset(t);
      var i :| 0 <= i < |t| && t[i] == x;
      var before, after := t[..i], t[i + 1..];
      assert t == before + [x] + after;
      assert multiset(t) == multiset(before + after) + multiset{x};
      assert multiset(s) == multiset(init) + multiset{x};
      assert multiset(before + after) == multiset(t) - multiset{x};
      assert multiset(init) == multiset(s) - multiset{x};
      SumPermutation(init, before + after, f);
      SumAppend(before, after, f);
      SumAppend(before + [x], after, f);
      SumSnoc(before, x, f);
      SumSnoc(init, x, f);
    }
  }

  ghost predicate Distinct<K>(ks: seq<K>)
  {
    forall i, j :: 0 <= i < j < |ks| ==> ks[i] != ks[j]
  }

  /** The distinct keys of `s` in order of first appearance: the `_id`s a
      `$group` stage produces. */
  function KeysOf<T, K(==)>(s: seq<T>, key: T -> K): (r: seq<K>)
    ensures Distinct(r)
    ensures |r| <= |s| && (s != [] ==> r != [])
    ensures forall i :: 0 <= i < |s| ==> key(s[i]) in r
    ensures forall k :: k in r ==> exists i :: 0 <= i < |s| && key(s[i]) == k
  {
    if s == [] then []
    else
      var init, x := s[..|s| - 1], s[|s| - 1];
      var r := KeysOf(init, key);
      assert forall i :: 0 <= i < |init| ==> s[i] == init[i];
      if key(x) in r then r else r + [key(x)]
  }

  /** Every key of `KeysOf` selects at least one element. */
  lemma KeySelects<T, K>(s: seq<T>, key: T -> K, k: K)
    requires k in KeysOf(s, key)
    ensures Matching(s, key, k) != []
  {
    var i :| 0 <= i < |s| && key(s[i]) == k;
    MatchingHas(s, key, i);
  }

  lemma {:induction false} MatchingHas<T, K>(s: seq<T>, key: T -> K, i: nat)
    requires i < |s|
    ensures s[i] in Matching(s, key, key(s[i]))
  {
    var init := s[..|s| - 1];
    if i < |s| - 1 {
      MatchingHas(init, key, i);
      assert init[i] == s[i];
    }
  }

  /** `$limit: n`. */
  function Take<T>(s: seq<T>, n: nat): (r: seq<T>)
    ensures |r| <= n && |r| <= |s|
    ensures |r| == if |s| <= n then |s| else n
    ensures r == s[..|r|]
  {
    if |s| <= n then s else s[..n]
  }

  ghost predicate SortedDesc<T>(s: seq<T>, key: T -> real)
  {
    forall i, j :: 0 <= i < j < |s| ==> key(s[i]) >= key(s[j])
  }

  function InsertDesc<T>(x: T, s: seq<T>, key: T -> real): (r: seq<T>)
    requires SortedDesc(s, key)
    ensures |r| == |s| + 1 && (r[0] == x || (s != [] && r[0] == s[0]))
    ensures SortedDesc(r, key)
    ensures multiset(r) == multiset(s) + multiset{x}
  {
    if s == [] then [x]
    else if key(x) >= key(s[0]) then [x] + s
    else
      var rest := InsertDesc(x, s[1..], key);
      assert s == [s[0]] + s[1..];
      assert key(rest[0]) <= key(s[0]);
      [s[0]] + rest
  }

  /** `$sort: {key: -1}`: a permutation of the input in descending key order
      (ties keep no particular order). */
  function SortDesc<T>(s: seq<T>, key: T -> real): (r: seq<T>)
    ensures SortedDesc(r, key)
    ensures multiset(r) == multiset(s)
  {
    if s == [] then []
    else
      assert s == s[..|s| - 1] + [s[|s| - 1]];
      InsertDesc(s[|s| - 1], SortDesc(s[..|s| - 1], key), key)
  }

  /** `$sort` then `$limit`: the first n of a descending order are the n
      largest, and every element left out has a key no larger than any kept. */
  lemma TopIsLargest<T>(s: seq<T>, key: T -> real, n: nat)
    ensures var top := Take(SortDesc(s, key), n);
      forall i, j :: 0 <= i < |top| <= j < |SortDesc(s, key)| ==> key(top[i]) >= key(SortDesc(s, key)[j])
  {
  }

  /** What `$sort` then `$limit` keeps comes from the input. */
  lemma TopMembers<T>(s: seq<T>, key: T -> real, n: nat)
    ensures forall x :: x in Take(SortDesc(s, key), n) ==> x in s
  {
    var sorted := SortDesc(s, key);
    forall x | x in Take(sorted, n) ensures x in s {
      assert x in multiset(sorted);
    }
  }

  /** What `$sort` then `$limit` keeps is still in order. */
  lemma TopSorted<T>(s: seq<T>, key: T -> real, n: nat)
    ensures SortedDesc(Take(SortDesc(s, key), n), key)
  {
    var sorted := SortDesc(s, key);
    var top := Take(sorted, n);
    forall i, j | 0 <= i < j < |top| ensures key(top[i]) >= key(top[j]) {
      assert top[i] == sorted[i] && top[j] == sorted[j];
    }
  }

  /** An element of the input that `$sort` then `$limit` drops ranks no
      higher than anything kept, and the limit was reached. */
  lemma TopOrOutranked<T>(s: seq<T>, key: T -> real, n: nat, x: T)
    requires x in s
    ensures var top := Take(SortDesc(s, key), n);
      x in top || (|top| == n && forall t :: t in top ==> key(t) >= key(x))
  {
    var sorted := SortDesc(s, key);
    var top := Take(sorted, n);
    assert x in multiset(sorted);
    var p :| 0 <= p < |sorted| && sorted[p] == x;
    if x !in top {
      assert p >= |top|;
      forall t | t in top ensures key(t) >= key(x) {
        var q :| 0 <= q < |top| && top[q] == t;
        assert sorted[q] == t;
      }
    }
  }

  /** Ascending in string order: no later key comes before an earlier one. */
  ghost predicate SortedAsc<T>(s: seq<T>, key: T -> string)
  {
    forall i, j :: 0 <= i < j < |s| ==> !Below(key(s[j]), key(s[i]))
  }

  function InsertAsc<T>(x: T, s: seq<T>, key: T -> string): (r: seq<T>)
    requires SortedAsc(s, key)
    ensures SortedAsc(r, key)
    ensures multiset(r) == multiset(s) + multiset{x}
  {
    if s == [] then [x]
    else if !Below(key(s[0]), key(x)) then
      InsertFront(x, s, key);
      [x] + s
    else
      var rest := InsertAsc(x, s[1..], key);
      assert s == [s[0]] + s[1..];
      InsertBehind(x, s, key, rest);
      [s[0]] + rest
  }

  lemma InsertFront<T>(x: T, s: seq<T>, key: T -> string)
    requires SortedAsc(s, key) && s != [] && !Below(key(s[0]), key(x))
    ensures SortedAsc([x] + s, key)
  {
    forall k | 0 <= k < |s| ensures !Below(key(s[k]), key(x)) {
      BelowTotal(key(s[k]), key(s[0]));
      if Below(key(s[k]), key(x)) && Below(key(s[0]), key(s[k])) {
        BelowTransitive(key(s[0]), key(s[k]), key(x));
      }
    }
  }

  lemma InsertBehind<T>(x: T, s: seq<T>, key: T -> string, rest: seq<T>)
    requires SortedAsc(s, key) && s != [] && Below(key(s[0]), key(x))
    requires SortedAsc(rest, key) && multiset(rest) == multiset(s[1..]) + multiset{x}
    ensures SortedAsc([s[0]] + rest, key)
  {
    BelowAsymmetric(key(s[0]), key(x));
    forall j | 0 <= j < |rest| ensures !Below(key(rest[j]), key(s[0])) {
      assert rest[j] in multiset(rest);
      if rest[j] != x {
        assert rest[j] in multiset(s[1..]);
        var k :| 0 <= k < |s[1..]| && s[1..][k] == rest[j];
        assert s[k + 1] == rest[j];
      }
    }
  }

  /** `$sort: {key: 1}` on a string key: a permutation of the input in
      ascending key order. */
  function SortAsc<T>(s: seq<T>, key: T -> string): (r: seq<T>)
    ensures SortedAsc(r, key)
    ensures multiset(r) == multiset(s)
  {
    if s == [] then []
    else
      assert s == s[..|s| - 1] + [s[|s| - 1]];
      InsertAsc(s[|s| - 1], SortAsc(s[..|s| - 1], key), key)
  }
}
