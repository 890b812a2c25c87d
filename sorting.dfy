/**
 * `Array.prototype.sort` with a comparator, as the views and the category store use
 * it. JavaScript's sort is stable, and every comparator of the core orders by a key
 * (`a.dueDate - b.dueDate`, `a.order - b.order`, the archive's completion comparator),
 * so the sort is modelled as the stable sort by a `Rank`: `SortBy` is its
 * specification and `SortInPlace` the in-place insertion sort on an array.
 */
module Sorting {
  import opened Lists

  /** A sort key compared lexicographically: first the tier, then the value. */
  datatype Rank = Rank(tier: int, value: int)

  /** `a` sorts strictly before `b`: the comparator returns a negative number. */
  predicate Below(a: Rank, b: Rank) {
    a.tier < b.tier || (a.tier == b.tier && a.value < b.value)
  }

  /**
   * Where stable insertion puts `x` into `p`: scanning from the end, past every
   * element that sorts strictly after `x`.
   */
  function InsertPos<T>(p: seq<T>, x: T, rank: T -> Rank): (k: nat)
    ensures k <= |p|
    ensures forall i :: k <= i < |p| ==> Below(rank(x), rank(p[i]))
    ensures k > 0 ==> !Below(rank(x), rank(p[k - 1]))
  {
    if p == [] || !Below(rank(x), rank(p[|p| - 1])) then |p|
    else
      var k := InsertPos(p[..|p| - 1], x, rank);
      assert forall i :: 0 <= i < |p| - 1 ==> p[..|p| - 1][i] == p[i];
      k
  }

  function Insert<T>(p: seq<T>, x: T, rank: T -> Rank): seq<T> {
    var k := InsertPos(p, x, rank);
    p[..k] + [x] + p[k..]
  }

  /** The stable sort of `s` by `rank`. */
  function SortBy<T>(s: seq<T>, rank: T -> Rank): (r: seq<T>)
    ensures |r| == |s|
  {
    if s == [] then [] else Insert(SortBy(s[..|s| - 1], rank), s[|s| - 1], rank)
  }

  /** No element sorts strictly before one that precedes it. */
  predicate SortedBy<T>(s: seq<T>, rank: T -> Rank) {
    forall i, j :: 0 <= i < j < |s| ==> !Below(rank(s[j]), rank(s[i]))
  }

  /** `x => rank(x) == key`: the elements that tie on `key`. */
  function HasRank<T>(rank: T -> Rank, key: Rank): T -> bool {
    x => rank(x) == key
  }

  /** Inserting into a sorted list keeps it sorted. */
  lemma InsertSorted<T>(p: seq<T>, x: T, rank: T -> Rank)
    requires SortedBy(p, rank)
    ensures SortedBy(Insert(p, x, rank), rank)
  {
    var k := InsertPos(p, x, rank);
    var r := Insert(p, x, rank);
    forall i, j | 0 <= i < j < |r|
      ensures !Below(rank(r[j]), rank(r[i]))
    {
      var ri := if i < k then p[i] else if i == k then x else p[i - 1];
      var rj := if j < k then p[j] else if j == k then x else p[j - 1];
      assert r[i] == ri && r[j] == rj;
      if i < k && j == k {
        assert !Below(rank(p[k - 1]), rank(p[i]));
      }
    }
  }

  /** The stable sort is ordered by `rank`. */
  lemma {:induction false} SortBySorted<T>(s: seq<T>, rank: T -> Rank)
    ensures SortedBy(SortBy(s, rank), rank)
  {
    if s != [] {
      SortBySorted(s[..|s| - 1], rank);
      InsertSorted(SortBy(s[..|s| - 1], rank), s[|s| - 1], rank);
    }
  }

  /** Inserting adds exactly one occurrence of `x`. */
  lemma InsertPermutation<T>(p: seq<T>, x: T, rank: T -> Rank)
    ensures multiset(Insert(p, x, rank)) == multiset(p) + multiset{x}
  {
    var k := InsertPos(p, x, rank);
    var front, back := p[..k], p[k..];
    assert Insert(p, x, rank) == front + [x] + back;
    assert p == front + back;
    assert multiset(front + [x] + back) == multiset(front) + multiset{x} + multiset(back);
  }

  /** The stable sort is a permutation of its input. */
  lemma {:induction false} SortByPermutation<T>(s: seq<T>, rank: T -> Rank)
    ensures multiset(SortBy(s, rank)) == multiset(s)
  {
    if s != [] {
      var init, last := s[..|s| - 1], s[|s| - 1];
      var sorted := SortBy(init, rank);
      calc {
        multiset(SortBy(s, rank));
        multiset(Insert(sorted, last, rank));
        { InsertPermutation(sorted, last, rank); }
        multiset(sorted) + multiset{last};
        { SortByPermutation(init, rank); }
        multiset(init) + multiset{last};
        multiset(init + [last]);
        { assert init + [last] == s; }
        multiset(s);
      }
    }
  }

  /**
   * Inserting `x` adds it at the end of the elements that tie with it, and changes
   * nothing among the elements of any other key.
   */
  lemma InsertFilter<T(!new)>(p: seq<T>, x: T, rank: T -> Rank, key: Rank)
    ensures Filter(Insert(p, x, rank), HasRank(rank, key))
      == Filter(p, HasRank(rank, key)) + (if rank(x) == key then [x] else [])
  {
    var k := InsertPos(p, x, rank);
    var f := HasRank(rank, key);
    var front, back := p[..k], p[k..];
    assert p == front + back;
    assert Insert(p, x, rank) == front + [x] + back;
    FilterAround(front, x, back, f);
    FilterAppend(front, back, f);
    if rank(x) == key {
      InsertTailMisses(p, x, rank);
    }
  }

  /** Nothing after the insertion point shares the inserted element's key. */
  lemma InsertTailMisses<T(!new)>(p: seq<T>, x: T, rank: T -> Rank)
    ensures Filter(p[InsertPos(p, x, rank)..], HasRank(rank, rank(x))) == []
  {
    var k := InsertPos(p, x, rank);
    var back := p[k..];
    forall i | 0 <= i < |back|
      ensures !HasRank(rank, rank(x))(back[i])
    {
      assert back[i] == p[k + i];
    }
    FilterNone(back, HasRank(rank, rank(x)));
  }

  /**
   * The sort is stable: the elements that tie on any key keep their input order.
   */
  lemma {:induction false} SortByStable<T(!new)>(s: seq<T>, rank: T -> Rank, key: Rank)
    ensures Filter(SortBy(s, rank), HasRank(rank, key)) == Filter(s, HasRank(rank, key))
  {
    if s != [] {
      var init, last := s[..|s| - 1], s[|s| - 1];
      var f := HasRank(rank, key);
      calc {
        Filter(SortBy(s, rank), f);
        Filter(Insert(SortBy(init, rank), last, rank), f);
        { InsertFilter(SortBy(init, rank), last, rank, key); }
        Filter(SortBy(init, rank), f) + (if rank(last) == key then [last] else []);
        { SortByStable(init, rank, key); }
        Filter(init, f) + (if rank(last) == key then [last] else []);
        { FilterAppend(init, [last], f); }
        Filter(init + [last], f);
        { assert init + [last] == s; }
        Filter(s, f);
      }
    }
  }

  /** A list that is already sorted is its own stable sort. */
  lemma {:induction false} SortBySortedIsIdentity<T>(s: seq<T>, rank: T -> Rank)
    requires SortedBy(s, rank)
    ensures SortBy(s, rank) == s
  {
    if s != [] {
      var init := s[..|s| - 1];
      assert SortedBy(init, rank);
      SortBySortedIsIdentity(init, rank);
      assert InsertPos(init, s[|s| - 1], rank) == |init|;
      assert init + [s[|s| - 1]] == s;
    }
  }

  /** The stable sort holds exactly the elements of its input. */
  lemma SortByMembers<T>(s: seq<T>, rank: T -> Rank)
    ensures forall x :: x in SortBy(s, rank) <==> x in s
  {
    SortByPermutation(s, rank);
    forall x
      ensures x in SortBy(s, rank) <==> x in s
    {
      assert x in SortBy(s, rank) <==> x in multiset(SortBy(s, rank));
    }
  }

  /** Dropping elements from a sorted list leaves it sorted. */
  lemma {:induction false} FilterSorted<T(!new)>(s: seq<T>, rank: T -> Rank, p: T -> bool)
    requires SortedBy(s, rank)
    ensures SortedBy(Filter(s, p), rank)
  {
    if s != [] {
      FilterSorted(s[1..], rank, p);
      var f := Filter(s[1..], p);
      if p(s[0]) {
        FilterMembers(s[1..], p);
        var r := [s[0]] + f;
        forall i, j | 0 <= i < j < |r|
          ensures !Below(rank(r[j]), rank(r[i]))
        {
          if i == 0 {
            assert r[j] in s[1..];
          }
        }
      }
    }
  }

  /** `[...s].sort(cmp)`: the list copied into a fresh array, which is sorted in place. */
  method SortedCopy<T>(s: seq<T>, rank: T -> Rank) returns (r: seq<T>)
    ensures r == SortBy(s, rank)
  {
    var a := new T[|s|](i requires 0 <= i < |s| => s[i]);
    assert a[..] == s;
    SortInPlace(a, rank);
    r := a[..];
  }

  /** Sorts `a` in place, stably, by `rank`: insertion sort. */
  method SortInPlace<T>(a: array<T>, rank: T -> Rank)
    modifies a
    ensures a[..] == SortBy(old(a[..]), rank)
  {
    ghost var s := a[..];
    var n := 0;
    while n < a.Length
      invariant 0 <= n <= a.Length
      invariant a[..n] == SortBy(s[..n], rank)
      invariant a[n..] == s[n..]
    {
      assert s[..n + 1][..n] == s[..n] && s[..n + 1][n] == s[n] == a[n];
      InsertInto(a, n, rank);
      assert a[n + 1..] == s[n + 1..];
      n := n + 1;
    }
    assert s[..a.Length] == s;
  }

  /** Moves `a[n]` to its place in the prefix `a[..n]`, shifting the larger elements right. */
  method InsertInto<T>(a: array<T>, n: nat, rank: T -> Rank)
    requires n < a.Length
    modifies a
    ensures a[..n + 1] == Insert(old(a[..n]), old(a[n]), rank)
    ensures a[n + 1..] == old(a[n + 1..])
  {
    ghost var p := a[..n];
    var x := a[n];
    var j := n;
    while j > 0 && Below(rank(x), rank(a[j - 1]))
      invariant 0 <= j <= n
      invariant forall i :: 0 <= i < j ==> a[i] == p[i]
      invariant forall i :: j < i <= n ==> a[i] == p[i - 1]
      invariant forall i :: n < i < a.Length ==> a[i] == old(a[i])
      invariant forall i :: j <= i < n ==> Below(rank(x), rank(p[i]))
    {
      a[j] := a[j - 1];
      j := j - 1;
    }
    InsertPosUnique(p, x, rank, j);
    a[j] := x;
    InsertAt(p, x, rank);
    assert a[..n + 1] == Insert(p, x, rank);
  }

  /**
   * The insertion point is the one position with only elements sorting after `x`
   * behind it and, just before it, none that does.
   */
  lemma {:induction false} InsertPosUnique<T>(p: seq<T>, x: T, rank: T -> Rank, j: nat)
    requires j <= |p|
    requires forall i :: j <= i < |p| ==> Below(rank(x), rank(p[i]))
    requires j == 0 || !Below(rank(x), rank(p[j - 1]))
    ensures InsertPos(p, x, rank) == j
    decreases |p|
  {
    if j < |p| {
      var init := p[..|p| - 1];
      assert forall i :: 0 <= i < |init| ==> init[i] == p[i];
      InsertPosUnique(init, x, rank, j);
    }
  }

  /** Element by element, insertion keeps the front, puts `x` at its place, and shifts the rest. */
  lemma InsertAt<T>(p: seq<T>, x: T, rank: T -> Rank)
    ensures var k, r := InsertPos(p, x, rank), Insert(p, x, rank);
      |r| == |p| + 1 && r[k] == x
      && (forall i :: 0 <= i < k ==> r[i] == p[i])
      && (forall i :: k < i < |r| ==> r[i] == p[i - 1])
  {
  }
}
