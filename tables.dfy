/**
 * Generic operations on a table held as a sequence of rows: boolean-mask
 * filtering, grouping by a key, summing a measure and ordering by a key.
 * These are the building blocks of the dataframe pipelines (`df[mask]`,
 * `groupby(...).sum()`, `sort_values`) used by the billing projections.
 */
module Tables {

  /** No value occurs twice. */
  predicate Distinct<K(==)>(ks: seq<K>) {
    forall i, j :: 0 <= i < j < |ks| ==> ks[i] != ks[j]
  }

  /** `r` is obtained from `s` by deleting elements: an increasing index map
      picks out, in order, the rows of `s` that make up `r`. */
  ghost predicate IsSubsequence<T>(r: seq<T>, s: seq<T>) {
    exists idx: seq<nat> :: IndexMap(idx, r, s)
  }

  /** The rows of `s` that satisfy `p`, in their original order (a boolean mask). */
  function Filter<T(!new)>(s: seq<T>, p: T -> bool): (r: seq<T>)
    ensures |r| <= |s|
    ensures forall x :: x in r <==> x in s && p(x)
  {
    if s == [] then []
    else
      assert forall x :: x in s <==> x == s[0] || x in s[1..];
      (if p(s[0]) then [s[0]] else []) + Filter(s[1..], p)
  }

  lemma {:induction false} FilterAppend<T(!new)>(s: seq<T>, t: seq<T>, p: T -> bool)
    ensures Filter(s + t, p) == Filter(s, p) + Filter(t, p)
  {
    if s == [] {
      assert s + t == t;
    } else {
      assert (s + t)[1..] == s[1..] + t;
      FilterAppend(s[1..], t, p);
    }
  }

  /** The filtered rows form a subsequence of the input: same rows, same order. */
  lemma {:induction false} FilterIsSubsequence<T(!new)>(s: seq<T>, p: T -> bool)
    ensures IsSubsequence(Filter(s, p), s)
  {
    var idx := FilterIndices(s, p);
  }

  lemma {:induction false} FilterIndices<T(!new)>(s: seq<T>, p: T -> bool) returns (idx: seq<nat>)
    ensures IndexMap(idx, Filter(s, p), s)
  {
    if s == [] {
      idx := [];
    } else {
      var rest := FilterIndices(s[1..], p);
      var tail := Filter(s[1..], p);
      var shifted := ShiftIndices(rest, tail, s);
      if p(s[0]) {
        assert Filter(s, p) == [s[0]] + tail;
        idx := ConsIndex(shifted, tail, s);
      } else {
        assert Filter(s, p) == tail;
        idx := shifted;
      }
    }
  }

  /** `idx` is an increasing index map picking `r` out of `s`. */
  ghost predicate IndexMap<T>(idx: seq<nat>, r: seq<T>, s: seq<T>) {
    && |idx| == |r|
    && (forall i :: 0 <= i < |idx| ==> idx[i] < |s| && r[i] == s[idx[i]])
    && (forall i, j :: 0 <= i < j < |idx| ==> idx[i] < idx[j])
  }

  /** An index map into the tail of `s`, moved one place up, maps into `s`
      and never picks the head. */
  lemma ShiftIndices<T>(rest: seq<nat>, tail: seq<T>, s: seq<T>) returns (shifted: seq<nat>)
    requires |s| > 0 && IndexMap(rest, tail, s[1..])
    ensures IndexMap(shifted, tail, s)
    ensures forall i :: 0 <= i < |shifted| ==> shifted[i] >= 1
  {
    shifted := seq(|rest|, i requires 0 <= i < |rest| => rest[i] + 1);
    forall i | 0 <= i < |shifted| ensures shifted[i] < |s| && tail[i] == s[shifted[i]] {
      assert s[1..][rest[i]] == s[rest[i] + 1];
    }
  }

  /** Picking the head first, then the rows an index map above it picks. */
  lemma ConsIndex<T>(shifted: seq<nat>, tail: seq<T>, s: seq<T>) returns (idx: seq<nat>)
    requires |s| > 0 && IndexMap(shifted, tail, s)
    requires forall i :: 0 <= i < |shifted| ==> shifted[i] >= 1
    ensures IndexMap(idx, [s[0]] + tail, s)
  {
    idx := [0] + shifted;
    var r := [s[0]] + tail;
    forall i | 0 <= i < |idx| ensures idx[i] < |s| && r[i] == s[idx[i]] {
      if i > 0 {
        assert idx[i] == shifted[i - 1] && r[i] == tail[i - 1];
      }
    }
    forall i, j | 0 <= i < j < |idx| ensures idx[i] < idx[j] {
      assert idx[j] == shifted[j - 1];
      if i > 0 {
        assert idx[i] == shifted[i - 1];
      }
    }
  }

  /** Two masks can be applied in either order. */
  lemma {:induction false} FilterCommutes<T(!new)>(s: seq<T>, p: T -> bool, q: T -> bool)
    ensures Filter(Filter(s, p), q) == Filter(Filter(s, q), p)
  {
    if s != [] {
      FilterCommutes(s[1..], p, q);
      var x := s[0];
      var fp := if p(x) then [x] else [];
      var fq := if q(x) then [x] else [];
      FilterAppend(fp, Filter(s[1..], p), q);
      FilterAppend(fq, Filter(s[1..], q), p);
      assert s == [x] + s[1..];
      assert Filter(fp, q) == Filter(fq, p) by {
        if p(x) { assert fp[1..] == []; }
        if q(x) { assert fq[1..] == []; }
      }
    }
  }

  /** Masking keeps keys distinct. */
  lemma {:induction false} FilterKeepsDistinctBy<T(!new), K>(s: seq<T>, p: T -> bool, key: T -> K)
    requires DistinctBy(s, key)
    ensures DistinctBy(Filter(s, p), key)
  {
    if s != [] {
      assert DistinctBy(s[1..], key) by {
        forall i, j | 0 <= i < j < |s[1..]| ensures key(s[1..][i]) != key(s[1..][j]) {
          assert s[1..][i] == s[i + 1] && s[1..][j] == s[j + 1];
        }
      }
      FilterKeepsDistinctBy(s[1..], p, key);
      var rest := Filter(s[1..], p);
      if p(s[0]) {
        forall y | y in rest ensures key(y) != key(s[0]) {
          var j :| 0 <= j < |s[1..]| && s[1..][j] == y;
          assert s[j + 1] == y;
        }
        var r := [s[0]] + rest;
        forall i, j | 0 <= i < j < |r| ensures key(r[i]) != key(r[j]) {
          assert r[j] == rest[j - 1] && rest[j - 1] in rest;
          if i > 0 {
            assert r[i] == rest[i - 1];
          }
        }
      }
    }
  }

  /** A group whose keys `key2` are distinct stays so under any mask. */
  lemma MaskedGroupDistinct<T(!new), K, K2>(s: seq<T>, p: T -> bool, key: T -> K, k: K, key2: T -> K2)
    requires DistinctBy(Where(s, key, k), key2)
    ensures DistinctBy(Where(Filter(s, p), key, k), key2)
  {
    FilterCommutes(s, p, KeyIs(key, k));
    FilterKeepsDistinctBy(Where(s, key, k), p, key2);
  }

  /** A measure that is `v` on every row sums to `|s|` times `v`. */
  lemma {:induction false} SumOfConstant<T>(s: seq<T>, f: T -> real, v: real)
    requires forall x :: x in s ==> f(x) == v
    ensures SumBy(s, f) == (|s| as real) * v
  {
    if s != [] {
      assert s[0] in s;
      assert forall x :: x in s[1..] ==> x in s;
      SumOfConstant(s[1..], f, v);
    }
  }

  /** The rows of `s` whose key is `k`: one group of a `groupby`. */
  function Where<T(!new), K(==)>(s: seq<T>, key: T -> K, k: K): (r: seq<T>)
    ensures |r| <= |s|
    ensures forall x :: x in r <==> x in s && key(x) == k
  {
    Filter(s, KeyIs(key, k))
  }

  /** The mask `key(x) == k`. */
  function KeyIs<T, K(==)>(key: T -> K, k: K): T -> bool {
    x => key(x) == k
  }

  /** The distinct keys occurring in `s`: the groups of a `groupby`. */
  function Keys<T, K(==)>(s: seq<T>, key: T -> K): (ks: seq<K>)
    ensures Distinct(ks)
    ensures |ks| <= |s|
    ensures forall x :: x in s ==> key(x) in ks
    ensures forall k :: k in ks ==> exists i :: 0 <= i < |s| && key(s[i]) == k
  {
    if s == [] then []
    else
      var rest := Keys(s[1..], key);
      assert forall x :: x in s[1..] ==> x in s;
      if key(s[0]) in rest then rest else [key(s[0])] + rest
  }

  /** Every key of `Keys(s, key)` has a non-empty group. */
  lemma KeyGroupNonEmpty<T(!new), K>(s: seq<T>, key: T -> K, k: K)
    requires k in Keys(s, key)
    ensures |Where(s, key, k)| > 0
  {
    var i :| 0 <= i < |s| && key(s[i]) == k;
    assert s[i] in Where(s, key, k);
  }

  /** The sum of measure `f` over the rows of `s` (pandas `sum`; 0 when empty). */
  function SumBy<T>(s: seq<T>, f: T -> real): real {
    if s == [] then 0.0 else f(s[0]) + SumBy(s[1..], f)
  }

  lemma {:induction false} SumByAppend<T>(s: seq<T>, t: seq<T>, f: T -> real)
    ensures SumBy(s + t, f) == SumBy(s, f) + SumBy(t, f)
  {
    if s == [] {
      assert s + t == t;
    } else {
      assert (s + t)[1..] == s[1..] + t;
      SumByAppend(s[1..], t, f);
    }
  }

  /** Taking one row out of a table takes its measure out of the sum. */
  lemma {:induction false} SumByRemove<T>(t: seq<T>, j: nat, f: T -> real)
    requires j < |t|
    ensures SumBy(t, f) == f(t[j]) + SumBy(t[..j] + t[j + 1..], f)
  {
    var rest := t[..j] + t[j + 1..];
    if j == 0 {
      assert rest == t[1..];
    } else {
      var tail := t[1..];
      assert rest[0] == t[0];
      assert rest[1..] == tail[..j - 1] + tail[j..];
      SumByRemove(tail, j - 1, f);
    }
  }

  lemma MultisetRemove<T>(t: seq<T>, j: nat)
    requires j < |t|
    ensures multiset(t[..j] + t[j + 1..]) == multiset(t) - multiset{t[j]}
  {
    assert t == t[..j] + [t[j]] + t[j + 1..];
  }

  /** Reordering the rows does not change a sum. */
  lemma {:induction false} SumByPermutation<T>(s: seq<T>, t: seq<T>, f: T -> real)
    requires multiset(s) == multiset(t)
    ensures SumBy(s, f) == SumBy(t, f)
  {
    if s == [] {
      assert |t| == |multiset(t)| == 0;
    } else {
      var x := s[0];
      assert x in multiset(t);
      assert x in t;
      var j :| 0 <= j < |t| && t[j] == x;
      var t' := t[..j] + t[j + 1..];
      MultisetRemove(t, j);
      assert s == [x] + s[1..];
      assert multiset(s[1..]) == multiset(t');
      SumByPermutation(s[1..], t', f);
      SumByRemove(t, j, f);
    }
  }

  /** Two tables whose rows carry the same measures, position by position,
      have the same sum. */
  lemma {:induction false} SumByPointwise<A, B>(a: seq<A>, f: A -> real, b: seq<B>, g: B -> real)
    requires |a| == |b|
    requires forall i :: 0 <= i < |a| ==> f(a[i]) == g(b[i])
    ensures SumBy(a, f) == SumBy(b, g)
  {
    if a != [] {
      SumByPointwise(a[1..], f, b[1..], g);
    }
  }

  /** A measure that is 1 on every row: its sum counts the rows. */
  function One<T>(x: T): real { 1.0 }

  lemma {:induction false} SumOfOneIsLength<T>(s: seq<T>)
    ensures SumBy(s, One) == |s| as real
  {
    if s != [] {
      SumOfOneIsLength(s[1..]);
    }
  }

  /** Summing `f` group by group, over the key list `ks`. */
  function SumGroups<T(!new), K(==)>(s: seq<T>, key: T -> K, f: T -> real, ks: seq<K>): real {
    if ks == [] then 0.0 else SumBy(Where(s, key, ks[0]), f) + SumGroups(s, key, f, ks[1..])
  }

  lemma {:induction false} SumGroupsEmpty<T(!new), K>(key: T -> K, f: T -> real, ks: seq<K>)
    ensures SumGroups([], key, f, ks) == 0.0
  {
    if ks != [] {
      SumGroupsEmpty(key, f, ks[1..]);
    }
  }

  lemma {:induction false} SumGroupsCons<T(!new), K>(x: T, s: seq<T>, key: T -> K, f: T -> real, ks: seq<K>)
    requires Distinct(ks)
    ensures SumGroups([x] + s, key, f, ks) == (if key(x) in ks then f(x) else 0.0) + SumGroups(s, key, f, ks)
  {
    if ks != [] {
      var w := Where(s, key, ks[0]);
      assert ([x] + s)[1..] == s;
      if key(x) == ks[0] {
        assert Where([x] + s, key, ks[0]) == [x] + w;
        assert ([x] + w)[1..] == w;
        assert SumBy([x] + w, f) == f(x) + SumBy(w, f);
        assert key(x) !in ks[1..];
      } else {
        assert Where([x] + s, key, ks[0]) == w;
        assert key(x) in ks <==> key(x) in ks[1..];
      }
      SumGroupsCons(x, s, key, f, ks[1..]);
    }
  }

  /** Grouping is a partition: when every row's key is listed exactly once, the
      group sums add up to the sum over the whole table. */
  lemma {:induction false} SumGroupsPartition<T(!new), K>(s: seq<T>, key: T -> K, f: T -> real, ks: seq<K>)
    requires Distinct(ks)
    requires forall x :: x in s ==> key(x) in ks
    ensures SumGroups(s, key, f, ks) == SumBy(s, f)
  {
    if s == [] {
      SumGroupsEmpty(key, f, ks);
    } else {
      assert s == [s[0]] + s[1..];
      SumGroupsCons(s[0], s[1..], key, f, ks);
      SumGroupsPartition(s[1..], key, f, ks);
    }
  }

  /** How often each row occurs after filtering: as often as before when it
      passes the mask, never otherwise. */
  lemma {:induction false} FilterCounts<T(!new)>(s: seq<T>, p: T -> bool, x: T)
    ensures multiset(Filter(s, p))[x] == if p(x) then multiset(s)[x] else 0
  {
    if s != [] {
      assert s == [s[0]] + s[1..];
      FilterCounts(s[1..], p, x);
    }
  }

  /** `FilterCounts` for every row at once. */
  lemma FilterCountsAll<T(!new)>(s: seq<T>, p: T -> bool)
    ensures forall x :: multiset(Filter(s, p))[x] == if p(x) then multiset(s)[x] else 0
  {
    forall x ensures multiset(Filter(s, p))[x] == if p(x) then multiset(s)[x] else 0 {
      FilterCounts(s, p, x);
    }
  }

  /** No two rows share a key. */
  predicate DistinctBy<T, K(==)>(s: seq<T>, key: T -> K) {
    forall i, j :: 0 <= i < j < |s| ==> key(s[i]) != key(s[j])
  }

  lemma OccursOnce<T, K>(s: seq<T>, key: T -> K, i: nat)
    requires DistinctBy(s, key) && i < |s|
    ensures multiset(s)[s[i]] == 1
  {
    if i == 0 {
      assert s == [s[0]] + s[1..];
      assert s[0] !in s[1..] by {
        forall j | 0 <= j < |s[1..]| ensures s[1..][j] != s[0] {
          assert key(s[j + 1]) != key(s[0]);
        }
      }
    } else {
      assert s == [s[0]] + s[1..];
      assert s[1..][i - 1] == s[i];
      assert DistinctBy(s[1..], key) by {
        forall a, b | 0 <= a < b < |s[1..]| ensures key(s[1..][a]) != key(s[1..][b]) {
          assert s[1..][a] == s[a + 1] && s[1..][b] == s[b + 1];
        }
      }
      OccursOnce(s[1..], key, i - 1);
      assert s[0] != s[i] by { assert key(s[0]) != key(s[i]); }
    }
  }

  lemma OccursTwice<T>(t: seq<T>, i: nat, j: nat)
    requires i < j < |t| && t[i] == t[j]
    ensures multiset(t)[t[i]] >= 2
  {
    assert t == t[..j] + t[j..];
    assert t[i] in t[..j];
    assert t[j] == t[j..][0];
    assert multiset(t)[t[i]] == multiset(t[..j])[t[i]] + multiset(t[j..])[t[i]];
  }

  /** Reordering rows keeps their keys distinct. */
  lemma DistinctByPermutation<T, K>(s: seq<T>, t: seq<T>, key: T -> K)
    requires DistinctBy(s, key) && multiset(s) == multiset(t)
    ensures DistinctBy(t, key)
  {
    forall i, j | 0 <= i < j < |t| ensures key(t[i]) != key(t[j]) {
      if key(t[i]) == key(t[j]) {
        assert t[i] in multiset(s) && t[j] in multiset(s);
        var p :| 0 <= p < |s| && s[p] == t[i];
        var q :| 0 <= q < |s| && s[q] == t[j];
        assert p == q;
        OccursOnce(s, key, p);
        OccursTwice(t, i, j);
        assert false;
      }
    }
  }

  /** One group of a `groupby(key)[measure].agg(['sum', 'count'])`. */
  datatype Group<K> = Group(key: K, total: real, count: nat)

  function TotalOf<K>(g: Group<K>): real { g.total }
  function CountOf<K>(g: Group<K>): real { g.count as real }
  function KeyOf<K>(g: Group<K>): K { g.key }

  /** The group of each key in `ks`, in that order. */
  function Groups<T(!new), K(==)>(s: seq<T>, key: T -> K, f: T -> real, ks: seq<K>): (r: seq<Group<K>>)
    ensures |r| == |ks|
    ensures forall i :: 0 <= i < |r| ==> r[i].key == ks[i]
  {
    seq(|ks|, i requires 0 <= i < |ks| => Group(ks[i], SumBy(Where(s, key, ks[i]), f), |Where(s, key, ks[i])|))
  }

  /** The group totals add up to the total of the table, and the group counts
      to its number of rows. */
  lemma {:induction false} GroupsPartition<T(!new), K>(s: seq<T>, key: T -> K, f: T -> real)
    ensures SumBy(Groups(s, key, f, Keys(s, key)), TotalOf) == SumBy(s, f)
    ensures SumBy(Groups(s, key, f, Keys(s, key)), CountOf) == |s| as real
  {
    var ks := Keys(s, key);
    GroupsSum(s, key, f, ks);
    SumGroupsPartition(s, key, f, ks);
    GroupsSum(s, key, One, ks);
    SumGroupsPartition(s, key, One, ks);
    SumOfOneIsLength(s);
  }

  lemma {:induction false} GroupsSum<T(!new), K>(s: seq<T>, key: T -> K, f: T -> real, ks: seq<K>)
    ensures SumBy(Groups(s, key, f, ks), TotalOf) == SumGroups(s, key, f, ks)
    ensures SumBy(Groups(s, key, f, ks), CountOf) == SumGroups(s, key, One, ks)
  {
    if ks != [] {
      var g := Groups(s, key, f, ks);
      assert g[1..] == Groups(s, key, f, ks[1..]);
      SumOfOneIsLength(Where(s, key, ks[0]));
      GroupsSum(s, key, f, ks[1..]);
    }
  }

  function Min(a: int, b: int): int { if a <= b then a else b }

  function GroupKeys<K>(r: seq<Group<K>>): (ks: seq<K>)
    ensures |ks| == |r|
    ensures forall i :: 0 <= i < |r| ==> ks[i] == r[i].key
  {
    seq(|r|, i requires 0 <= i < |r| => r[i].key)
  }

  /** The groups of `s` ordered by total, largest first. */
  function RankedGroups<T(!new), K(==)>(s: seq<T>, key: T -> K, f: T -> real): (r: seq<Group<K>>)
    ensures |r| == |Keys(s, key)|
    ensures Ordered(r, TotalOf, true)
    ensures DistinctBy(r, KeyOf)
    ensures forall i :: 0 <= i < |r| ==> r[i].key in Keys(s, key) && r[i].total == SumBy(Where(s, key, r[i].key), f)
    ensures forall i :: 0 <= i < |r| ==> r[i].count == |Where(s, key, r[i].key)|
    ensures forall x :: x in s ==> key(x) in GroupKeys(r)
  {
    var ks := Keys(s, key);
    var all := Groups(s, key, f, ks);
    var sorted := SortBy(all, TotalOf, true);
    assert DistinctBy(all, KeyOf);
    DistinctByPermutation(all, sorted, KeyOf);
    ReorderedGroupsAreGroups(s, key, f, sorted);
    ReorderedGroupsCover(s, key, f, sorted);
    sorted
  }

  /** Each row of a reordering of the groups is the group of its own key. */
  lemma ReorderedGroupsAreGroups<T(!new), K>(s: seq<T>, key: T -> K, f: T -> real, sorted: seq<Group<K>>)
    requires multiset(sorted) == multiset(Groups(s, key, f, Keys(s, key)))
    ensures forall i :: 0 <= i < |sorted| ==> sorted[i].key in Keys(s, key) && sorted[i].total == SumBy(Where(s, key, sorted[i].key), f)
    ensures forall i :: 0 <= i < |sorted| ==> sorted[i].count == |Where(s, key, sorted[i].key)|
  {
    var all := Groups(s, key, f, Keys(s, key));
    forall i | 0 <= i < |sorted|
      ensures sorted[i].key in Keys(s, key) && sorted[i].total == SumBy(Where(s, key, sorted[i].key), f)
      ensures sorted[i].count == |Where(s, key, sorted[i].key)|
    {
      assert sorted[i] in multiset(all);
    }
  }

  /** A reordering of the groups has a group for every row's key. */
  lemma ReorderedGroupsCover<T(!new), K>(s: seq<T>, key: T -> K, f: T -> real, sorted: seq<Group<K>>)
    requires multiset(sorted) == multiset(Groups(s, key, f, Keys(s, key)))
    ensures forall x :: x in s ==> key(x) in GroupKeys(sorted)
  {
    var ks := Keys(s, key);
    var all := Groups(s, key, f, ks);
    forall x | x in s ensures key(x) in GroupKeys(sorted) {
      var p :| 0 <= p < |ks| && ks[p] == key(x);
      assert all[p] in multiset(sorted);
      var q :| 0 <= q < |sorted| && sorted[q] == all[p];
      assert GroupKeys(sorted)[q] == key(x);
    }
  }

  /** Ranking the groups loses no row: their totals add up to the table's
      total and their counts to its number of rows. */
  lemma RankedGroupsPartition<T(!new), K>(s: seq<T>, key: T -> K, f: T -> real)
    ensures SumBy(RankedGroups(s, key, f), TotalOf) == SumBy(s, f)
    ensures SumBy(RankedGroups(s, key, f), CountOf) == |s| as real
  {
    var all := Groups(s, key, f, Keys(s, key));
    var ranked := RankedGroups(s, key, f);
    assert ranked == SortBy(all, TotalOf, true);
    SumByPermutation(ranked, all, TotalOf);
    SumByPermutation(ranked, all, CountOf);
    GroupsPartition(s, key, f);
  }

  /** `r` is a top-`n` table of the groups of `s` by `key`, measured by `f`:
      as many groups as `n` and the number of keys allow, largest total first,
      each a key of `s` once with its own total, and a key left out has a
      total no larger than any key kept. */
  ghost predicate IsTopGroups<T(!new), K>(r: seq<Group<K>>, s: seq<T>, key: T -> K, f: T -> real, n: nat) {
    && |r| == Min(n, |Keys(s, key)|)
    && Ordered(r, TotalOf, true)
    && DistinctBy(r, KeyOf)
    && (forall i :: 0 <= i < |r| ==> r[i].key in Keys(s, key) && r[i].total == SumBy(Where(s, key, r[i].key), f))
    && (forall x, i :: x in s && 0 <= i < |r| && key(x) !in GroupKeys(r) ==> SumBy(Where(s, key, key(x)), f) <= r[i].total)
  }

  /** `groupby(key)[measure].sum().sort_values(ascending=False).head(n)`. */
  function TopGroups<T(!new), K(==)>(s: seq<T>, key: T -> K, f: T -> real, n: nat): (r: seq<Group<K>>)
    ensures IsTopGroups(r, s, key, f, n)
  {
    var ranked := RankedGroups(s, key, f);
    var m := Min(n, |ranked|);
    PrefixOfRanked(ranked, m);
    forall x | x in s ensures key(x) in GroupKeys(ranked) { }
    forall x | x in s && key(x) !in GroupKeys(ranked[..m])
      ensures forall i :: 0 <= i < m ==> SumBy(Where(s, key, key(x)), f) <= ranked[i].total
    {
      LeftOutRanksLower(ranked, m, key(x));
    }
    ranked[..m]
  }

  lemma PrefixOfRanked<K>(ranked: seq<Group<K>>, m: nat)
    requires m <= |ranked| && Ordered(ranked, TotalOf, true) && DistinctBy(ranked, KeyOf)
    ensures Ordered(ranked[..m], TotalOf, true) && DistinctBy(ranked[..m], KeyOf)
  {
  }

  /** A key that is ranked but not among the first `m` has a total no larger
      than any of the first `m`. */
  lemma LeftOutRanksLower<K>(ranked: seq<Group<K>>, m: nat, k: K)
    requires m <= |ranked| && Ordered(ranked, TotalOf, true)
    requires k in GroupKeys(ranked) && k !in GroupKeys(ranked[..m])
    ensures exists q ::
      && m <= q < |ranked| && ranked[q].key == k
      && forall i :: 0 <= i < m ==> ranked[q].total <= ranked[i].total
  {
    var q :| 0 <= q < |ranked| && GroupKeys(ranked)[q] == k;
    assert m <= q;
  }

  /** `a` comes no later than `b` in the requested direction. */
  predicate InOrder(a: real, b: real, descending: bool) {
    if descending then a >= b else a <= b
  }

  predicate Ordered<T>(s: seq<T>, key: T -> real, descending: bool) {
    forall i, j :: 0 <= i < j < |s| ==> InOrder(key(s[i]), key(s[j]), descending)
  }

  function Insert<T>(x: T, s: seq<T>, key: T -> real, descending: bool): (r: seq<T>)
    requires Ordered(s, key, descending)
    ensures Ordered(r, key, descending)
    ensures multiset(r) == multiset(s) + multiset{x}
  {
    if s == [] then [x]
    else if InOrder(key(x), key(s[0]), descending) then [x] + s
    else
      assert s == [s[0]] + s[1..];
      var tail := Insert(x, s[1..], key, descending);
      var r := [s[0]] + tail;
      assert InOrder(key(s[0]), key(x), descending);
      forall k | 0 <= k < |tail| ensures InOrder(key(s[0]), key(tail[k]), descending) {
        assert tail[k] in multiset(s[1..]) + multiset{x};
        if tail[k] != x {
          var m :| 0 <= m < |s[1..]| && s[1..][m] == tail[k];
          assert s[1..][m] == s[m + 1];
        }
      }
      assert multiset(r) == multiset{s[0]} + multiset(tail);
      r
  }

  /** Two orderings of the same rows hold the same rows. */
  lemma SameMembers<T>(a: seq<T>, b: seq<T>)
    requires multiset(a) == multiset(b)
    ensures forall x :: x in a <==> x in b
  {
    forall x ensures x in a <==> x in b {
      assert x in a <==> x in multiset(a);
      assert x in b <==> x in multiset(b);
    }
  }

  /** The rows of `s` ordered by `key` (pandas `sort_values`); ties keep no
      promised order, so the contract speaks only of order and permutation. */
  function SortBy<T>(s: seq<T>, key: T -> real, descending: bool): (r: seq<T>)
    ensures Ordered(r, key, descending)
    ensures multiset(r) == multiset(s)
    ensures |r| == |s|
  {
    if s == [] then []
    else
      assert s == [s[0]] + s[1..];
      var r := Insert(s[0], SortBy(s[1..], key, descending), key, descending);
      assert |r| == |multiset(r)| == |multiset(s)| == |s|;
      r
  }
}
