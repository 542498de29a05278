/** Orderings of finite sequences: duplicate-free lists, permutations of an index range, stable sorting. */
module Sequences {

  ghost predicate NoDup<T>(s: seq<T>) {
    forall i, j :: 0 <= i < j < |s| ==> s[i] != s[j]
  }

  function Elements<T>(s: seq<T>): (r: set<T>) {
    set x | x in s
  }

  lemma {:induction false} NoDupCount<T>(s: seq<T>)
    requires NoDup(s)
    ensures |Elements(s)| == |s|
  {
    if s != [] {
      NoDupCount(s[1..]);
      assert Elements(s) == {s[0]} + Elements(s[1..]);
    }
  }

  lemma {:induction false} FewElements<T>(s: seq<T>)
    ensures |Elements(s)| <= |s|
    ensures |Elements(s)| == |s| ==> NoDup(s)
  {
    if s != [] {
      FewElements(s[1..]);
      assert Elements(s) == {s[0]} + Elements(s[1..]);
      if |Elements(s)| == |s| {
        assert s[0] !in s[1..];
        assert forall i, j :: 0 <= i < j < |s| ==> s[j] == s[1..][j - 1] && (i > 0 ==> s[i] == s[1..][i - 1]);
      }
    }
  }

  lemma Associates<T>(a: seq<T>, b: seq<T>, c: seq<T>)
    ensures a + (b + c) == a + b + c
  {
  }

  lemma TakeSnoc<T>(s: seq<T>, i: nat)
    requires i < |s|
    ensures s[..i] + [s[i]] == s[..i + 1]
  {
  }

  lemma TakeAll<T>(s: seq<T>)
    ensures s[..|s|] == s
  {
  }

  lemma LastOff<T>(a: seq<T>, b: seq<T>)
    requires b != []
    ensures b == b[..|b| - 1] + [b[|b| - 1]] && a + b == (a + b[..|b| - 1]) + [b[|b| - 1]]
  {
  }

  lemma Overwrite<K, V>(m: map<K, V>, k: K, x: V, y: V)
    ensures m[k := x][k := y] == m[k := y]
  {
  }

  lemma TakeOneMore<T>(a: seq<T>, s: seq<T>, i: nat)
    requires i < |s|
    ensures a + s[..i] + [s[i]] == a + s[..i + 1]
  {
    assert s[..i + 1] == s[..i] + [s[i]];
  }

  /** The numbers `0 .. n-1` in order. */
  function Range(n: nat): (r: seq<nat>)
    ensures |r| == n
    ensures forall i :: 0 <= i < n ==> r[i] == i
  {
    seq(n, i => i)
  }

  /** `order` lists every index below `n` exactly once. */
  ghost predicate IsOrder(order: seq<nat>, n: nat) {
    |order| == n && NoDup(order) && forall i :: 0 <= i < n ==> order[i] < n
  }

  lemma SubsetOfSameSize<T>(a: set<T>, b: set<T>)
    requires a <= b && |a| == |b|
    ensures a == b
  {
    if x :| x in b && x !in a {
      assert a <= b - {x};
      SubsetSize(a, b - {x});
    }
  }

  lemma {:induction false} SubsetSize<T>(a: set<T>, b: set<T>)
    requires a <= b
    ensures |a| <= |b|
    decreases |a|
  {
    if x :| x in a {
      SubsetSize(a - {x}, b - {x});
    }
  }

  /** Every index below `n` has its place in an order of `n`. */
  lemma OrderIsOnto(order: seq<nat>, n: nat, x: nat)
    requires IsOrder(order, n) && x < n
    ensures x in order
  {
    NoDupCount(order);
    NoDupCount(Range(n));
    forall i | i in Elements(order) ensures i in Elements(Range(n)) {
      assert Range(n)[i] == i;
    }
    assert Range(n)[x] == x;
    SubsetOfSameSize(Elements(order), Elements(Range(n)));
    assert x in Elements(order);
  }

  /** Where `x` first occurs, or the length of `s`. */
  function IndexOf<T(==)>(s: seq<T>, x: T): (i: nat)
    ensures i <= |s| && (i < |s| <==> x in s)
    ensures i < |s| ==> s[i] == x
    ensures forall k :: 0 <= k < i ==> s[k] != x
  {
    if s == [] || s[0] == x then 0 else 1 + IndexOf(s[1..], x)
  }

  lemma SlotUnique(order: seq<nat>, slot: nat)
    requires NoDup(order) && slot < |order|
    ensures IndexOf(order, order[slot]) == slot
  {
  }

  // ---- filtering ----

  function Filter<T>(s: seq<T>, keep: T -> bool): (r: seq<T>)
    ensures |r| <= |s|
    ensures forall i :: 0 <= i < |r| ==> r[i] in s && keep(r[i])
  {
    if s == [] then [] else (if keep(s[0]) then [s[0]] else []) + Filter(s[1..], keep)
  }

  /** Where the kept members stand. */
  function PlacesOf<T>(s: seq<T>, keep: T -> bool): (r: seq<nat>) {
    if s == [] then []
    else
      var rest := PlacesOf(s[1..], keep);
      (if keep(s[0]) then [0] else []) + seq(|rest|, i requires 0 <= i < |rest| => rest[i] + 1)
  }

  lemma {:induction false} FilterLength<T>(s: seq<T>, keep: T -> bool)
    ensures |PlacesOf(s, keep)| == |Filter(s, keep)|
  {
    if s != [] { FilterLength(s[1..], keep); }
  }

  lemma {:induction false} FilterAt<T>(s: seq<T>, keep: T -> bool, i: nat)
    requires i < |Filter(s, keep)|
    ensures |PlacesOf(s, keep)| == |Filter(s, keep)|
    ensures PlacesOf(s, keep)[i] < |s| && Filter(s, keep)[i] == s[PlacesOf(s, keep)[i]]
  {
    FilterLength(s, keep);
    FilterLength(s[1..], keep);
    var here := if keep(s[0]) then 1 else 0;
    if i >= here { FilterAt(s[1..], keep, i - here); }
  }

  lemma {:induction false} PlacesIncrease<T>(s: seq<T>, keep: T -> bool, i: nat, j: nat)
    requires i < j < |PlacesOf(s, keep)|
    ensures PlacesOf(s, keep)[i] < PlacesOf(s, keep)[j]
  {
    var here := if keep(s[0]) then 1 else 0;
    if i >= here { PlacesIncrease(s[1..], keep, i - here, j - here); }
  }

  // ---- sets of numbers in order ----

  lemma {:induction false} Minimum(s: set<nat>) returns (m: nat)
    requires s != {}
    ensures m in s && forall x :: x in s ==> m <= x
    decreases |s|
  {
    var y :| y in s;
    m := y;
    var rest := s - {y};
    if rest != {} {
      var k := Minimum(rest);
      if k < y { m := k; }
      assert forall x :: x in s ==> x == y || x in rest;
    } else {
      assert forall x :: x in s ==> x == y || x in rest;
    }
  }

  function Least(s: set<nat>): (m: nat)
    requires s != {}
    ensures m in s && forall x :: x in s ==> m <= x
  {
    assert exists m :: m in s && forall x :: x in s ==> m <= x by {
      var m := Minimum(s);
    }
    var m :| m in s && forall x :: x in s ==> m <= x;
    m
  }

  /** The members of a set of numbers, smallest first. */
  function InOrder(s: set<nat>): (r: seq<nat>)
    decreases |s|
  {
    if s == {} then [] else [Least(s)] + InOrder(s - {Least(s)})
  }

  lemma {:induction false} InOrderMembers(s: set<nat>)
    ensures |InOrder(s)| == |s|
    ensures forall x :: x in InOrder(s) <==> x in s
    decreases |s|
  {
    if s != {} {
      InOrderMembers(s - {Least(s)});
    }
  }

  lemma {:induction false} InOrderSorted(s: set<nat>, i: nat, j: nat)
    requires i < j < |InOrder(s)|
    ensures InOrder(s)[i] < InOrder(s)[j]
    decreases |s|
  {
    var rest := s - {Least(s)};
    InOrderMembers(rest);
    if i == 0 {
      assert InOrder(rest)[j - 1] in InOrder(rest);
    } else {
      InOrderSorted(rest, i - 1, j - 1);
    }
  }

  // ---- stable sorting ----

  ghost predicate TotalPreorder<T(!new)>(leq: (T, T) -> bool) {
    && (forall x, y :: leq(x, y) || leq(y, x))
    && (forall x, y, z :: leq(x, y) && leq(y, z) ==> leq(x, z))
  }

  ghost predicate SortedBy<T>(s: seq<T>, leq: (T, T) -> bool) {
    forall i, j :: 0 <= i < j < |s| ==> leq(s[i], s[j])
  }

  function Insert<T>(x: T, s: seq<T>, leq: (T, T) -> bool): (r: seq<T>) {
    if s == [] || leq(x, s[0]) then [x] + s else [s[0]] + Insert(x, s[1..], leq)
  }

  /** Python's `sorted`: stable, so ties keep the order in which they arrived. */
  function Sort<T>(s: seq<T>, leq: (T, T) -> bool): (r: seq<T>) {
    if s == [] then [] else Insert(s[0], Sort(s[1..], leq), leq)
  }

  lemma {:induction false} InsertPermutes<T>(x: T, s: seq<T>, leq: (T, T) -> bool)
    ensures multiset(Insert(x, s, leq)) == multiset{x} + multiset(s)
  {
    if s == [] || leq(x, s[0]) {
    } else {
      InsertPermutes(x, s[1..], leq);
      assert s == [s[0]] + s[1..];
    }
  }

  lemma {:induction false} SortPermutes<T>(s: seq<T>, leq: (T, T) -> bool)
    ensures multiset(Sort(s, leq)) == multiset(s)
    ensures |Sort(s, leq)| == |s|
    ensures forall x :: x in Sort(s, leq) <==> x in s
  {
    if s != [] {
      SortPermutes(s[1..], leq);
      InsertPermutes(s[0], Sort(s[1..], leq), leq);
      assert s == [s[0]] + s[1..];
    }
    assert |multiset(Sort(s, leq))| == |multiset(s)|;
    forall x ensures x in Sort(s, leq) <==> x in s {
      assert x in Sort(s, leq) <==> x in multiset(Sort(s, leq));
    }
  }

  lemma {:induction false} InsertSorted<T(!new)>(x: T, s: seq<T>, leq: (T, T) -> bool)
    requires TotalPreorder(leq) && SortedBy(s, leq)
    ensures SortedBy(Insert(x, s, leq), leq)
  {
    if s == [] || leq(x, s[0]) {
      var r := [x] + s;
      forall i, j | 0 <= i < j < |r| ensures leq(r[i], r[j]) {
        if i == 0 {
          assert leq(x, s[0]) && (j > 1 ==> leq(s[0], s[j - 1]));
        } else {
          assert leq(s[i - 1], s[j - 1]);
        }
      }
    } else {
      InsertSorted(x, s[1..], leq);
      InsertPermutes(x, s[1..], leq);
      var tail := Insert(x, s[1..], leq);
      var r := [s[0]] + tail;
      forall i, j | 0 <= i < j < |r| ensures leq(r[i], r[j]) {
        if i == 0 {
          assert tail[j - 1] in multiset(tail);
          assert tail[j - 1] == x || tail[j - 1] in s[1..];
        } else {
          assert leq(tail[i - 1], tail[j - 1]);
        }
      }
    }
  }

  lemma {:induction false} SortSorts<T(!new)>(s: seq<T>, leq: (T, T) -> bool)
    requires TotalPreorder(leq)
    ensures SortedBy(Sort(s, leq), leq)
  {
    if s != [] {
      SortSorts(s[1..], leq);
      InsertSorted(s[0], Sort(s[1..], leq), leq);
    }
  }

  /** Sorting by two relations that agree on the members gives one list. */
  lemma {:induction false} SortAgrees<T>(s: seq<T>, p: (T, T) -> bool, q: (T, T) -> bool)
    requires forall x, y :: x in s && y in s ==> p(x, y) == q(x, y)
    ensures Sort(s, p) == Sort(s, q)
  {
    if s != [] {
      SortAgrees(s[1..], p, q);
      var (tail, sorted) := (s[1..], Sort(s[1..], p));
      SortPermutes(tail, p);
      forall y | y in sorted ensures p(s[0], y) == q(s[0], y) {
        assert y in multiset(sorted);
        assert y in multiset(tail);
        assert y in tail;
      }
      InsertAgrees(s[0], Sort(s[1..], p), p, q);
    }
  }

  lemma {:induction false} InsertAgrees<T>(x: T, s: seq<T>, p: (T, T) -> bool, q: (T, T) -> bool)
    requires forall y :: y in s ==> p(x, y) == q(x, y)
    ensures Insert(x, s, p) == Insert(x, s, q)
  {
    if s != [] { InsertAgrees(x, s[1..], p, q); }
  }

  lemma PermutationKeepsNoDup<T>(a: seq<T>, b: seq<T>)
    requires multiset(a) == multiset(b) && NoDup(a)
    ensures NoDup(b)
  {
    NoDupCount(a);
    assert |a| == |multiset(a)| == |multiset(b)| == |b|;
    assert Elements(a) == Elements(b) by {
      assert forall x :: x in a <==> x in multiset(a);
      assert forall x :: x in b <==> x in multiset(b);
    }
    FewElements(b);
  }

  /** A strictly increasing list of `n` numbers below `n` is the list `0 .. n-1`. */
  lemma {:induction false} StrictlyIncreasingIsRange(s: seq<int>, i: nat)
    requires forall a, b :: 0 <= a < b < |s| ==> s[a] < s[b]
    requires forall a :: 0 <= a < |s| ==> 0 <= s[a] < |s|
    requires i < |s|
    ensures s[i] == i
  {
    AtLeastIndex(s, i);
    AtMostIndex(s, i);
  }

  lemma {:induction false} AtLeastIndex(s: seq<int>, i: nat)
    requires forall a, b :: 0 <= a < b < |s| ==> s[a] < s[b]
    requires forall a :: 0 <= a < |s| ==> 0 <= s[a] < |s|
    requires i < |s|
    ensures s[i] >= i
  {
    if i > 0 { AtLeastIndex(s, i - 1); }
  }

  lemma {:induction false} AtMostIndex(s: seq<int>, i: nat)
    requires forall a, b :: 0 <= a < b < |s| ==> s[a] < s[b]
    requires forall a :: 0 <= a < |s| ==> 0 <= s[a] < |s|
    requires i < |s|
    ensures s[i] <= i
    decreases |s| - i
  {
    if i + 1 < |s| { AtMostIndex(s, i + 1); }
  }

  /** A duplicate-free list sorted by an order that tells its members apart is the only one with those members. */
  lemma {:induction false} SortedListUnique<T(!new)>(s: seq<T>, t: seq<T>, leq: (T, T) -> bool)
    requires NoDup(s) && NoDup(t) && Elements(s) == Elements(t)
    requires SortedBy(s, leq) && SortedBy(t, leq)
    requires forall x, y :: leq(x, y) && leq(y, x) ==> x == y
    ensures s == t
  {
    NoDupCount(s);
    NoDupCount(t);
    if s != [] {
      assert t != [] by { assert s[0] in Elements(t); }
      SameFirst(s, t, leq);
      assert Elements(s[1..]) == Elements(s) - {s[0]} by {
        assert forall x :: x in s <==> x == s[0] || x in s[1..];
      }
      assert Elements(t[1..]) == Elements(t) - {t[0]} by {
        assert forall x :: x in t <==> x == t[0] || x in t[1..];
      }
      SortedListUnique(s[1..], t[1..], leq);
      assert s == [s[0]] + s[1..] && t == [t[0]] + t[1..];
    }
  }

  lemma SameFirst<T(!new)>(s: seq<T>, t: seq<T>, leq: (T, T) -> bool)
    requires s != [] && t != [] && Elements(s) == Elements(t)
    requires SortedBy(s, leq) && SortedBy(t, leq)
    requires forall x, y :: leq(x, y) && leq(y, x) ==> x == y
    ensures s[0] == t[0]
  {
    assert s[0] in Elements(t) && t[0] in Elements(s);
    var i :| 0 <= i < |t| && t[i] == s[0];
    var j :| 0 <= j < |s| && s[j] == t[0];
    assert i > 0 ==> leq(t[0], t[i]);
    assert j > 0 ==> leq(s[0], s[j]);
  }

  /** Filtering keeps what is kept, in its order. */
  lemma {:induction false} FilterKeeps<T(!new)>(s: seq<T>, keep: T -> bool, leq: (T, T) -> bool)
    ensures forall x :: x in Filter(s, keep) <==> x in s && keep(x)
    ensures NoDup(s) ==> NoDup(Filter(s, keep))
    ensures SortedBy(s, leq) ==> SortedBy(Filter(s, keep), leq)
  {
    if s != [] {
      FilterKeeps(s[1..], keep, leq);
      var rest := Filter(s[1..], keep);
      assert forall x :: x in s <==> x == s[0] || x in s[1..];
      if NoDup(s) {
        assert NoDup(s[1..]) && s[0] !in s[1..];
        assert s[0] !in rest;
      }
      if SortedBy(s, leq) {
        assert SortedBy(s[1..], leq);
        forall i | 0 <= i < |rest| ensures leq(s[0], rest[i]) {
          assert rest[i] in rest && rest[i] in s[1..];
        }
      }
    }
  }

  // ---- runs of steps ----

  function Fold<S, E>(start: S, events: seq<E>, step: (S, E) -> S): (end: S) {
    if events == [] then start else step(Fold(start, events[..|events| - 1], step), events[|events| - 1])
  }

  lemma {:induction false} FoldJoin<S, E>(start: S, a: seq<E>, b: seq<E>, step: (S, E) -> S)
    ensures Fold(start, a + b, step) == Fold(Fold(start, a, step), b, step)
  {
    if b == [] {
      assert a + b == a;
    } else {
      var n := |b| - 1;
      FoldJoin(start, a, b[..n], step);
      assert (a + b)[..|a| + n] == a + b[..n];
    }
  }

  /** Sorting by an order that agrees with a rank sorts by rank. */
  lemma SortedByRank<T(!new)>(s: seq<T>, leq: (T, T) -> bool, rank: T -> int, j: nat, k: nat)
    requires forall x, y :: x in s && y in s ==> (leq(x, y) <==> rank(x) <= rank(y))
    requires j < k < |Sort(s, leq)|
    ensures Sort(s, leq)[j] in s && Sort(s, leq)[k] in s
    ensures rank(Sort(s, leq)[j]) <= rank(Sort(s, leq)[k])
  {
    var total := (x: T, y: T) => rank(x) <= rank(y);
    SortAgrees(s, leq, total);
    SortSorts(s, total);
    SortPermutes(s, leq);
    var sorted := Sort(s, leq);
    assert sorted[j] in sorted && sorted[k] in sorted;
    assert total(sorted[j], sorted[k]);
  }
}
