/**
 * `rows.sort((a, b) => a.position - b.position)` over positions that are integers or
 * `Infinity`. Every finite position is below `Infinity`; two finite positions compare by
 * value; `Infinity - Infinity` is NaN, which the sort treats like 0. Array.prototype.sort
 * is stable, and for a consistent comparator a stable sort has exactly one result, so it
 * is modelled by insertion sort: sorted, a permutation, and keeping the input order of
 * rows with equal positions.
 */
module StableSort {
  import opened Strings

  /** A position: a number, or `Infinity`. */
  datatype Rank = Finite(n: int) | Infinite

  /** `a - b` is not positive: `a` may stay before `b`. */
  predicate RankLe(a: Rank, b: Rank) {
    b.Infinite? || (a.Finite? && a.n <= b.n)
  }

  predicate Sorted<T>(xs: seq<T>, rank: T -> Rank) {
    forall i, j :: 0 <= i < j < |xs| ==> RankLe(rank(xs[i]), rank(xs[j]))
  }

  /** Inserts `x` after every element whose rank is not above its own. */
  function Insert<T>(x: T, s: seq<T>, rank: T -> Rank): seq<T>
    decreases |s|
  {
    if s == [] then [x]
    else if RankLe(rank(s[|s| - 1]), rank(x)) then s + [x]
    else Insert(x, s[..|s| - 1], rank) + [s[|s| - 1]]
  }

  /** The rows taken one by one in input order and each inserted into the sorted prefix. */
  function Sort<T>(xs: seq<T>, rank: T -> Rank): seq<T>
    decreases |xs|
  {
    if xs == [] then [] else Insert(xs[|xs| - 1], Sort(xs[..|xs| - 1], rank), rank)
  }

  /** `xs.map(f)`. */
  function Project<T, U>(xs: seq<T>, f: T -> U): (r: seq<U>)
    ensures |r| == |xs| && forall i :: 0 <= i < |xs| ==> r[i] == f(xs[i])
  {
    seq(|xs|, i requires 0 <= i < |xs| => f(xs[i]))
  }

  /** The rows of one rank, in their order. */
  function OfRank<T>(xs: seq<T>, rank: T -> Rank, k: Rank): seq<T> {
    Filter(xs, AtRank(rank, k))
  }

  /** The test "this row has position `k`". */
  function AtRank<T>(rank: T -> Rank, k: Rank): T -> bool {
    (x: T) => rank(x) == k
  }

  lemma ProjectConcat<T, U>(a: seq<T>, b: seq<T>, f: T -> U)
    ensures Project(a + b, f) == Project(a, f) + Project(b, f)
  {
  }

  lemma {:induction false} InsertProject<T, U>(x: T, s: seq<T>, rank: T -> Rank, f: T -> U)
    ensures multiset(Project(Insert(x, s, rank), f)) == multiset(Project(s, f)) + multiset{f(x)}
    decreases |s|
  {
    if s == [] {
      assert Project([x], f) == [f(x)];
    } else if RankLe(rank(s[|s| - 1]), rank(x)) {
      ProjectConcat(s, [x], f);
      assert Project([x], f) == [f(x)];
    } else {
      InsertProject(x, s[..|s| - 1], rank, f);
      InsertProjectBelow(x, s, rank, f);
    }
  }

  /** The step of `InsertProject` where `x` moves in front of the last row. */
  lemma InsertProjectBelow<T, U>(x: T, s: seq<T>, rank: T -> Rank, f: T -> U)
    requires s != [] && !RankLe(rank(s[|s| - 1]), rank(x))
    requires multiset(Project(Insert(x, s[..|s| - 1], rank), f)) == multiset(Project(s[..|s| - 1], f)) + multiset{f(x)}
    ensures multiset(Project(Insert(x, s, rank), f)) == multiset(Project(s, f)) + multiset{f(x)}
  {
    var init, last := s[..|s| - 1], s[|s| - 1];
    var r := Insert(x, init, rank);
    var pl := Project([last], f);
    ProjectLast(r + [last], f);
    ProjectLast(s, f);
    assert (r + [last])[..|r + [last]| - 1] == r;
    calc {
      multiset(Project(Insert(x, s, rank), f));
      multiset(Project(r + [last], f));
      multiset(Project(r, f) + pl);
      multiset(Project(r, f)) + multiset(pl);
      multiset(Project(init, f)) + multiset{f(x)} + multiset(pl);
      multiset(Project(init, f) + pl) + multiset{f(x)};
      multiset(Project(s, f)) + multiset{f(x)};
    }
  }

  lemma ProjectLast<T, U>(s: seq<T>, f: T -> U)
    requires s != []
    ensures Project(s, f) == Project(s[..|s| - 1], f) + Project([s[|s| - 1]], f)
  {
    assert s == s[..|s| - 1] + [s[|s| - 1]];
    ProjectConcat(s[..|s| - 1], [s[|s| - 1]], f);
  }

  /** Sorting permutes the rows, and so any projection of them. */
  lemma {:induction false} SortProject<T, U>(xs: seq<T>, rank: T -> Rank, f: T -> U)
    ensures multiset(Project(Sort(xs, rank), f)) == multiset(Project(xs, f))
    decreases |xs|
  {
    if xs != [] {
      var init, last := xs[..|xs| - 1], xs[|xs| - 1];
      SortProject(init, rank, f);
      InsertProject(last, Sort(init, rank), rank, f);
      assert xs == init + [last];
      ProjectConcat(init, [last], f);
    }
  }

  lemma {:induction false} InsertPermutes<T>(x: T, s: seq<T>, rank: T -> Rank)
    ensures multiset(Insert(x, s, rank)) == multiset(s) + multiset{x}
    decreases |s|
  {
    if s != [] && !RankLe(rank(s[|s| - 1]), rank(x)) {
      var init := s[..|s| - 1];
      InsertPermutes(x, init, rank);
      assert s == init + [s[|s| - 1]];
    }
  }

  lemma {:induction false} SortPermutes<T>(xs: seq<T>, rank: T -> Rank)
    ensures multiset(Sort(xs, rank)) == multiset(xs)
    decreases |xs|
  {
    if xs != [] {
      var init, last := xs[..|xs| - 1], xs[|xs| - 1];
      SortPermutes(init, rank);
      InsertPermutes(last, Sort(init, rank), rank);
      MultisetSnoc(xs);
    }
  }

  lemma MultisetSnoc<T>(xs: seq<T>)
    requires xs != []
    ensures multiset(xs) == multiset(xs[..|xs| - 1]) + multiset{xs[|xs| - 1]}
  {
    assert xs == xs[..|xs| - 1] + [xs[|xs| - 1]];
  }

  lemma {:induction false} InsertSorted<T>(x: T, s: seq<T>, rank: T -> Rank)
    requires Sorted(s, rank)
    ensures Sorted(Insert(x, s, rank), rank)
    decreases |s|
  {
    if s != [] && !RankLe(rank(s[|s| - 1]), rank(x)) {
      var init, last := s[..|s| - 1], s[|s| - 1];
      InsertSorted(x, init, rank);
      var r := Insert(x, init, rank);
      InsertPermutes(x, init, rank);
      forall i | 0 <= i < |r|
        ensures RankLe(rank(r[i]), rank(last))
      {
        assert r[i] in multiset(r);
        if r[i] != x {
          assert r[i] in multiset(init);
          var m :| 0 <= m < |init| && init[m] == r[i];
          assert s[m] == r[i];
        }
      }
    }
  }

  /** The output is in ascending position order. */
  lemma {:induction false} SortSorted<T>(xs: seq<T>, rank: T -> Rank)
    ensures Sorted(Sort(xs, rank), rank)
    decreases |xs|
  {
    if xs != [] {
      SortSorted(xs[..|xs| - 1], rank);
      InsertSorted(xs[|xs| - 1], Sort(xs[..|xs| - 1], rank), rank);
    }
  }

  lemma {:induction false} InsertOfRank<T>(x: T, s: seq<T>, rank: T -> Rank, k: Rank)
    ensures OfRank(Insert(x, s, rank), rank, k) == OfRank(s, rank, k) + (if rank(x) == k then [x] else [])
    decreases |s|
  {
    var p := AtRank(rank, k);
    FilterSingle(x, p);
    if s == [] {
    } else if RankLe(rank(s[|s| - 1]), rank(x)) {
      FilterConcat(s, [x], p);
    } else {
      InsertOfRank(x, s[..|s| - 1], rank, k);
      InsertOfRankBelow(x, s, rank, k);
    }
  }

  /** The step of `InsertOfRank` where `x` moves in front of the last row. */
  lemma InsertOfRankBelow<T>(x: T, s: seq<T>, rank: T -> Rank, k: Rank)
    requires s != [] && !RankLe(rank(s[|s| - 1]), rank(x))
    requires OfRank(Insert(x, s[..|s| - 1], rank), rank, k)
             == OfRank(s[..|s| - 1], rank, k) + (if rank(x) == k then [x] else [])
    ensures OfRank(Insert(x, s, rank), rank, k) == OfRank(s, rank, k) + (if rank(x) == k then [x] else [])
  {
    var p := AtRank(rank, k);
    var init, last := s[..|s| - 1], s[|s| - 1];
    var a, t, f := Filter(init, p), (if rank(x) == k then [x] else []), Filter([last], p);
    FilterInsertBelow(x, s, p, rank);
    FilterLast(s, p);
    FilterSingle(last, p);
    assert p(last) <==> rank(last) == k;
    SwapDisjoint(a, t, f);
  }

  lemma FilterInsertBelow<T>(x: T, s: seq<T>, p: T -> bool, rank: T -> Rank)
    requires s != [] && !RankLe(rank(s[|s| - 1]), rank(x))
    ensures Filter(Insert(x, s, rank), p) == Filter(Insert(x, s[..|s| - 1], rank), p) + Filter([s[|s| - 1]], p)
  {
    FilterConcat(Insert(x, s[..|s| - 1], rank), [s[|s| - 1]], p);
  }

  lemma FilterLast<T>(s: seq<T>, p: T -> bool)
    requires s != []
    ensures Filter(s, p) == Filter(s[..|s| - 1], p) + Filter([s[|s| - 1]], p)
  {
    var init, last := s[..|s| - 1], [s[|s| - 1]];
    FilterConcat(init, last, p);
    assert init + last == s;
  }

  lemma FilterSingle<T>(x: T, p: T -> bool)
    ensures Filter([x], p) == if p(x) then [x] else []
  {
    assert [x][1..] == [];
  }

  lemma SwapDisjoint<T>(a: seq<T>, t: seq<T>, f: seq<T>)
    requires t == [] || f == []
    ensures a + t + f == a + f + t
  {
    if t == [] {
      assert a + t == a && a + f + t == a + f;
    } else {
      assert a + f == a && a + t + f == a + t;
    }
  }

  /** Stability: the rows of each position come out in the order they went in. */
  lemma {:induction false} SortStable<T>(xs: seq<T>, rank: T -> Rank, k: Rank)
    ensures OfRank(Sort(xs, rank), rank, k) == OfRank(xs, rank, k)
    decreases |xs|
  {
    if xs != [] {
      var init, last := xs[..|xs| - 1], xs[|xs| - 1];
      SortStable(init, rank, k);
      InsertOfRank(last, Sort(init, rank), rank, k);
      assert xs == init + [last];
      FilterConcat(init, [last], AtRank(rank, k));
    }
  }

  /** In a sorted sequence every finite position comes before every `Infinity`. */
  lemma FiniteFirst<T>(xs: seq<T>, rank: T -> Rank, i: nat, j: nat)
    requires Sorted(xs, rank) && i < |xs| && j < |xs|
    requires rank(xs[i]).Finite? && rank(xs[j]).Infinite?
    ensures i < j
  {
  }
}
