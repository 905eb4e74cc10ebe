/**
 * Sequence helpers shared by the models: distinctness, the stable sort
 * that `Array.prototype.sort` performs, and "the most frequent value"
 * computed the way the application computes it (sort by frequency, take
 * the last).
 */
module Sequences {

  predicate Distinct<T(==)>(s: seq<T>) {
    forall i, j :: 0 <= i < j < |s| ==> s[i] != s[j]
  }

  /** A value occurring twice in a sequence is counted at least twice. */
  lemma {:induction false} RepeatedCountsTwice<T>(s: seq<T>, i: nat, j: nat)
    requires i < j < |s| && s[i] == s[j]
    ensures multiset(s)[s[i]] >= 2
  {
    assert s == s[..i] + [s[i]] + s[i + 1..j] + [s[j]] + s[j + 1..];
    assert multiset(s) == multiset(s[..i]) + multiset{s[i]} + multiset(s[i + 1..j]) + multiset{s[j]} + multiset(s[j + 1..]);
  }

  /** A distinct sequence counts every value at most once. */
  lemma {:induction false} DistinctCountsOnce<T>(s: seq<T>, x: T)
    requires Distinct(s)
    ensures multiset(s)[x] <= 1
  {
    if s != [] {
      assert s == [s[0]] + s[1..];
      DistinctCountsOnce(s[1..], x);
      if s[0] == x {
        assert x !in s[1..];
        assert multiset(s[1..])[x] == 0;
      }
    }
  }

  /** Rearranging a distinct sequence keeps it distinct. */
  lemma PermutationKeepsDistinct<T>(s: seq<T>, t: seq<T>)
    requires Distinct(s) && multiset(s) == multiset(t)
    ensures Distinct(t)
  {
    forall i, j | 0 <= i < j < |t| ensures t[i] != t[j] {
      if t[i] == t[j] {
        RepeatedCountsTwice(t, i, j);
        DistinctCountsOnce(s, t[i]);
        assert false;
      }
    }
  }

  /** A distinct sequence has as many elements as its set. */
  lemma {:induction false} DistinctCardinality<T>(s: seq<T>)
    requires Distinct(s)
    ensures |set x | x in s| == |s|
  {
    if s != [] {
      DistinctCardinality(s[1..]);
      assert (set x | x in s) == {s[0]} + (set x | x in s[1..]);
      assert s[0] !in (set x | x in s[1..]);
    }
  }

  /** The set of a sequence's elements is no larger than the sequence. */
  lemma {:induction false} SetCardinalityAtMost<T>(s: seq<T>)
    ensures |set x | x in s| <= |s|
  {
    if s != [] {
      SetCardinalityAtMost(s[1..]);
      assert (set x | x in s) == {s[0]} + (set x | x in s[1..]);
    }
  }

  /**
   * Inserts `x` in front of the first element it must precede. Elements
   * that `x` does not precede stay in front of it, which is what makes
   * `SortBy` stable.
   */
  function Insert<T>(x: T, s: seq<T>, before: (T, T) -> bool): (r: seq<T>)
    ensures multiset(r) == multiset(s) + multiset{x}
    ensures |r| == |s| + 1
  {
    if s == [] then [x]
    else if before(x, s[0]) then [x] + s
    else
      assert s == [s[0]] + s[1..];
      [s[0]] + Insert(x, s[1..], before)
  }

  /** Insertion sort of `s`, each element inserted after those of the sorted prefix it does not precede. */
  function SortBy<T>(s: seq<T>, before: (T, T) -> bool): (r: seq<T>)
    ensures multiset(r) == multiset(s)
    ensures |r| == |s|
  {
    if s == [] then []
    else
      assert s == s[..|s| - 1] + [s[|s| - 1]];
      Insert(s[|s| - 1], SortBy(s[..|s| - 1], before), before)
  }

  /** The order of a numeric comparator `(a, b) => a.rank - b.rank`. */
  predicate RankBefore<T>(a: (T, int), b: (T, int)) {
    a.1 < b.1
  }

  predicate SortedByRank<T>(s: seq<(T, int)>) {
    forall i, j :: 0 <= i < j < |s| ==> s[i].1 <= s[j].1
  }

  lemma {:induction false} InsertSorted<T>(x: (T, int), s: seq<(T, int)>)
    requires SortedByRank(s)
    ensures SortedByRank(Insert(x, s, RankBefore))
  {
    if s != [] && !RankBefore(x, s[0]) {
      var t := Insert(x, s[1..], RankBefore);
      InsertSorted(x, s[1..]);
      forall y | y in t ensures s[0].1 <= y.1 {
        assert y in multiset(t);
        assert y == x || y in multiset(s[1..]);
      }
      assert Insert(x, s, RankBefore) == [s[0]] + t;
    }
  }

  /** Sorting by rank yields ascending ranks. */
  lemma {:induction false} SortByRankSorted<T>(s: seq<(T, int)>)
    ensures SortedByRank(SortBy(s, RankBefore))
  {
    if s != [] {
      SortByRankSorted(s[..|s| - 1]);
      InsertSorted(s[|s| - 1], SortBy(s[..|s| - 1], RankBefore));
    }
  }

  /** `a` stands somewhere in `s` ahead of `b`. */
  predicate OccursBefore<T(==)>(s: seq<T>, a: T, b: T) {
    exists p, q :: 0 <= p < q < |s| && s[p] == a && s[q] == b
  }

  /** Elements of equal rank stand in `sorted` in the order they had in `orig`. */
  predicate StableWrt<T(==)>(sorted: seq<(T, int)>, orig: seq<(T, int)>) {
    forall i, j :: 0 <= i < j < |sorted| && sorted[i].1 == sorted[j].1 ==> OccursBefore(orig, sorted[i], sorted[j])
  }

  lemma OccursBeforeExtended<T>(s: seq<T>, x: T, a: T, b: T)
    requires OccursBefore(s, a, b)
    ensures OccursBefore(s + [x], a, b)
  {
    var p, q :| 0 <= p < q < |s| && s[p] == a && s[q] == b;
    assert (s + [x])[p] == a && (s + [x])[q] == b;
  }

  lemma OccursBeforeLast<T>(s: seq<T>, x: T, a: T)
    requires a in s
    ensures OccursBefore(s + [x], a, x)
  {
    var p :| 0 <= p < |s| && s[p] == a;
    assert (s + [x])[p] == a && (s + [x])[|s|] == x;
  }

  /**
   * Inserting the element that comes last in `orig + [x]` keeps the sort
   * stable: it goes behind every element of its rank.
   */
  lemma {:induction false} InsertStable<T>(x: (T, int), s: seq<(T, int)>, orig: seq<(T, int)>)
    requires SortedByRank(s) && StableWrt(s, orig)
    requires forall y :: y in s ==> y in orig
    ensures StableWrt(Insert(x, s, RankBefore), orig + [x])
  {
    if s == [] {
    } else if RankBefore(x, s[0]) {
      InsertInFrontStable(x, s, orig);
    } else {
      InsertStable(x, s[1..], orig);
      InsertBehindStable(x, s, orig, Insert(x, s[1..], RankBefore));
    }
  }

  /** `x` ranked ahead of all of `s` shares its rank with none of them. */
  lemma InsertInFrontStable<T>(x: (T, int), s: seq<(T, int)>, orig: seq<(T, int)>)
    requires SortedByRank(s) && StableWrt(s, orig)
    requires s != [] && RankBefore(x, s[0])
    ensures StableWrt([x] + s, orig + [x])
  {
    var r := [x] + s;
    forall i, j | 0 <= i < j < |r| && r[i].1 == r[j].1 ensures OccursBefore(orig + [x], r[i], r[j]) {
      assert r[i] == s[i - 1] && r[j] == s[j - 1];
      OccursBeforeExtended(orig, x, r[i], r[j]);
    }
  }

  /** `s[0]` stays in front when `x` goes further back, into `t`. */
  lemma InsertBehindStable<T>(x: (T, int), s: seq<(T, int)>, orig: seq<(T, int)>, t: seq<(T, int)>)
    requires s != [] && StableWrt(s, orig)
    requires forall y :: y in s ==> y in orig
    requires multiset(t) == multiset(s[1..]) + multiset{x} && StableWrt(t, orig + [x])
    ensures StableWrt([s[0]] + t, orig + [x])
  {
    var r := [s[0]] + t;
    forall j | 0 < j < |r| && r[0].1 == r[j].1 ensures OccursBefore(orig + [x], r[0], r[j]) {
      assert t[j - 1] in multiset(t);
      HeadBeforeInserted(x, s, orig, t[j - 1]);
    }
    forall i, j | 1 <= i < j < |r| && r[i].1 == r[j].1 ensures OccursBefore(orig + [x], r[i], r[j]) {
      assert r[i] == t[i - 1] && r[j] == t[j - 1];
    }
  }

  /** `s[0]` stands ahead of every element of equal rank that follows it after the insertion. */
  lemma HeadBeforeInserted<T>(x: (T, int), s: seq<(T, int)>, orig: seq<(T, int)>, y: (T, int))
    requires s != [] && StableWrt(s, orig)
    requires forall y :: y in s ==> y in orig
    requires y in multiset(s[1..]) + multiset{x} && y.1 == s[0].1
    ensures OccursBefore(orig + [x], s[0], y)
  {
    if y == x {
      OccursBeforeLast(orig, x, s[0]);
    } else {
      assert y in multiset(s[1..]);
      var k :| 0 <= k < |s[1..]| && s[1..][k] == y;
      assert s[k + 1] == y;
      OccursBeforeExtended(orig, x, s[0], s[k + 1]);
    }
  }

  /** The insertion sort by rank is stable: equal ranks keep their input order. */
  lemma {:induction false} SortByStable<T>(s: seq<(T, int)>)
    ensures StableWrt(SortBy(s, RankBefore), s)
  {
    if s != [] {
      var init, x := s[..|s| - 1], s[|s| - 1];
      assert init + [x] == s;
      SortByStable(init);
      SortByRankSorted(init);
      SortByKeepsMembers(init, RankBefore);
      InsertStable(x, SortBy(init, RankBefore), init);
    }
  }

  /** Sorting adds no element. */
  lemma SortByKeepsMembers<T>(s: seq<T>, before: (T, T) -> bool)
    ensures forall y :: y in SortBy(s, before) ==> y in s
  {
    var r := SortBy(s, before);
    forall y | y in r ensures y in s {
      assert y in multiset(r);
    }
  }

  /** No element of `s` must come before the element ahead of it. */
  predicate NoAdjacentInversion<T>(s: seq<T>, before: (T, T) -> bool) {
    forall i :: 0 <= i < |s| - 1 ==> !before(s[i + 1], s[i])
  }

  /** Under an asymmetric comparator, insertion creates no adjacent inversion. */
  lemma {:induction false} InsertNoAdjacentInversion<T>(x: T, s: seq<T>, before: (T, T) -> bool)
    requires forall a, b :: before(a, b) ==> !before(b, a)
    requires NoAdjacentInversion(s, before)
    ensures NoAdjacentInversion(Insert(x, s, before), before)
  {
    if s != [] && !before(x, s[0]) {
      var t := Insert(x, s[1..], before);
      InsertNoAdjacentInversion(x, s[1..], before);
      assert Insert(x, s, before) == [s[0]] + t;
      assert t[0] == x || t[0] == s[1];
    }
  }

  /**
   * Sorting by an asymmetric comparator, even one that is not transitive,
   * leaves no element directly behind one it must come before.
   */
  lemma {:induction false} SortByNoAdjacentInversion<T>(s: seq<T>, before: (T, T) -> bool)
    requires forall a, b :: before(a, b) ==> !before(b, a)
    ensures NoAdjacentInversion(SortBy(s, before), before)
  {
    if s != [] {
      SortByNoAdjacentInversion(s[..|s| - 1], before);
      InsertNoAdjacentInversion(s[|s| - 1], SortBy(s[..|s| - 1], before), before);
    }
  }

  /** `a` occurs in `s` before the first occurrence of `b`. */
  predicate FirstSeenBefore<T(==)>(s: seq<T>, a: T, b: T) {
    exists p :: 0 <= p < |s| && s[p] == a && b !in s[..p]
  }

  /** `Dedup` lists the values in the order of their first occurrences. */
  lemma {:induction false} DedupFirstSeen<T>(s: seq<T>, a: T, b: T)
    requires OccursBefore(Dedup(s), a, b)
    ensures FirstSeenBefore(s, a, b)
  {
    var init := s[..|s| - 1];
    var rest := Dedup(init);
    var p, q :| 0 <= p < q < |Dedup(s)| && Dedup(s)[p] == a && Dedup(s)[q] == b;
    if q < |rest| {
      assert OccursBefore(rest, a, b);
      DedupFirstSeen(init, a, b);
      var k :| 0 <= k < |init| && init[k] == a && b !in init[..k];
      assert s[..k] == init[..k];
    } else {
      assert b == s[|s| - 1] && b !in rest;
      assert b !in init;
      assert a in rest;
      var k :| 0 <= k < |init| && init[k] == a;
      assert s[k] == a && s[..k] == init[..k];
    }
  }

  /** A distinct sequence with the same values as `s` has as many elements as `s` has distinct values. */
  lemma DedupCardinality<T>(s: seq<T>)
    ensures |Dedup(s)| == |SetOf(s)|
  {
    DistinctCardinality(Dedup(s));
    assert SetOf(Dedup(s)) == SetOf(s);
  }

  /** Number of occurrences of `x` in `s` (`s.filter(v => v === x).length`). */
  function Occurrences<T(==)>(s: seq<T>, x: T): nat
  {
    multiset(s)[x]
  }

  /** Each element paired with its number of occurrences in `within`. */
  function WithCounts<T(==)>(s: seq<T>, within: seq<T>): (r: seq<(T, int)>)
    ensures |r| == |s|
    ensures forall i :: 0 <= i < |s| ==> r[i] == (s[i], Occurrences(within, s[i]))
  {
    if s == [] then [] else [(s[0], Occurrences(within, s[0]))] + WithCounts(s[1..], within)
  }

  /**
   * `xs.sort((a, b) => count(a) - count(b)).pop()`: the last element after a
   * stable ascending sort by frequency.
   */
  function Mode<T(==)>(xs: seq<T>): T
    requires |xs| > 0
  {
    var sorted := SortBy(WithCounts(xs, xs), RankBefore);
    sorted[|sorted| - 1].0
  }

  /** The mode is one of the values and no value is more frequent. */
  lemma ModeIsMostFrequent<T>(xs: seq<T>)
    requires |xs| > 0
    ensures Mode(xs) in xs
    ensures forall y :: y in xs ==> Occurrences(xs, y) <= Occurrences(xs, Mode(xs))
  {
    var pairs := WithCounts(xs, xs);
    var sorted := SortBy(pairs, RankBefore);
    SortByRankSorted(pairs);
    var last := sorted[|sorted| - 1];
    assert last in multiset(pairs);
    var k :| 0 <= k < |pairs| && pairs[k] == last;
    assert last == (xs[k], Occurrences(xs, xs[k]));
    forall y | y in xs ensures Occurrences(xs, y) <= Occurrences(xs, Mode(xs)) {
      var j :| 0 <= j < |xs| && xs[j] == y;
      assert pairs[j] in multiset(sorted);
      var m :| 0 <= m < |sorted| && sorted[m] == pairs[j];
      if m < |sorted| - 1 {
        assert sorted[m].1 <= sorted[|sorted| - 1].1;
      }
    }
  }

  /** The sequence without its repeats, each value kept at its first occurrence. */
  function Dedup<T(==)>(s: seq<T>): (r: seq<T>)
    ensures Distinct(r)
    ensures forall i :: 0 <= i < |r| ==> r[i] in s
    ensures forall i :: 0 <= i < |s| ==> s[i] in r
    ensures |r| <= |s|
  {
    if s == [] then []
    else
      var rest := Dedup(s[..|s| - 1]);
      assert forall i :: 0 <= i < |s| - 1 ==> s[i] in rest by {
        forall i | 0 <= i < |s| - 1 ensures s[i] in rest {
          assert s[..|s| - 1][i] == s[i];
        }
      }
      if s[|s| - 1] in rest then rest else rest + [s[|s| - 1]]
  }

  /** The first `n` elements, or all of them when there are fewer (`s.slice(0, n)`). */
  function Take<T>(s: seq<T>, n: nat): (r: seq<T>)
    ensures |r| == if |s| < n then |s| else n
    ensures r == s[..|r|]
  {
    if |s| <= n then s else s[..n]
  }

  /** A prefix takes no element twice as often as the whole and keeps its adjacent order. */
  lemma TakePrefix<T>(s: seq<T>, n: nat, before: (T, T) -> bool)
    ensures multiset(Take(s, n)) <= multiset(s)
    ensures NoAdjacentInversion(s, before) ==> NoAdjacentInversion(Take(s, n), before)
  {
    var r := Take(s, n);
    assert s == r + s[|r|..];
    assert multiset(s) == multiset(r) + multiset(s[|r|..]);
  }

  /** The first components of a sequence of pairs. */
  function Firsts<T>(pairs: seq<(T, int)>): (r: seq<T>)
    ensures |r| == |pairs|
    ensures forall i :: 0 <= i < |r| ==> r[i] == pairs[i].0
  {
    if pairs == [] then [] else [pairs[0].0] + Firsts(pairs[1..])
  }

  /** The set of a sequence's elements (`new Set(s)`). */
  function SetOf<T>(s: seq<T>): set<T> {
    set x | x in s
  }

  lemma SetOfAppend<T>(s: seq<T>, x: T)
    ensures SetOf(s + [x]) == SetOf(s) + {x}
  {
    assert forall y :: y in s + [x] <==> y in s || y == x;
  }
}
