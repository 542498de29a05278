/**
 * The shuffle behind every question: a downward Fisher-Yates pass over a list, its swaps chosen by a
 * stream of draws. The draws themselves are arbitrary.
 */
module Shuffle {
  import opened Sequences

  /** `draws[i]` is the number drawn for position `i`, at most `i`. */
  ghost predicate Draws(draws: seq<nat>, n: nat) {
    |draws| == n && forall i :: 0 <= i < n ==> draws[i] <= i
  }

  function Swap<T>(s: seq<T>, i: nat, j: nat): (r: seq<T>)
    requires i < |s| && j < |s|
  {
    s[i := s[j]][j := s[i]]
  }

  /** The list after the swaps of positions `i, i-1, .., 1`. */
  function Shuffled<T>(s: seq<T>, draws: seq<nat>, i: nat): (r: seq<T>)
    requires i < |s| || (i == 0 && s == [])
    requires Draws(draws, |s|)
    decreases i
  {
    if i == 0 then s else Shuffled(Swap(s, i, draws[i]), draws, i - 1)
  }

  /** The whole pass. */
  function ShuffleOf<T>(s: seq<T>, draws: seq<nat>): (r: seq<T>)
    requires Draws(draws, |s|)
  {
    Shuffled(s, draws, if s == [] then 0 else |s| - 1)
  }

  lemma SwapPermutes<T>(s: seq<T>, i: nat, j: nat)
    requires i < |s| && j < |s|
    ensures multiset(Swap(s, i, j)) == multiset(s)
  {
  }

  lemma {:induction false} ShuffledPermutes<T>(s: seq<T>, draws: seq<nat>, i: nat)
    requires i < |s| || (i == 0 && s == [])
    requires Draws(draws, |s|)
    ensures multiset(Shuffled(s, draws, i)) == multiset(s)
    ensures |Shuffled(s, draws, i)| == |s|
    decreases i
  {
    if i > 0 {
      SwapPermutes(s, i, draws[i]);
      ShuffledPermutes(Swap(s, i, draws[i]), draws, i - 1);
    }
  }

  /** Shuffling `0 .. n-1` gives an order of `n`. */
  lemma ShuffleIsOrder(n: nat, draws: seq<nat>)
    requires Draws(draws, n)
    ensures IsOrder(ShuffleOf(Range(n), draws), n)
  {
    var order := ShuffleOf(Range(n), draws);
    ShuffledPermutes(Range(n), draws, if n == 0 then 0 else n - 1);
    PermutationKeepsNoDup(Range(n), order);
    forall i | 0 <= i < n ensures order[i] < n {
      assert order[i] in multiset(order);
      assert order[i] in Range(n);
    }
  }

  /** No arrangement is out of reach: some draws turn `s` into any permutation of it. */
  lemma EveryArrangementReachable<T>(s: seq<T>, target: seq<T>) returns (draws: seq<nat>)
    requires multiset(s) == multiset(target)
    ensures Draws(draws, |s|) && ShuffleOf(s, draws) == target
  {
    assert |s| == |multiset(s)| == |target|;
    if s == [] {
      draws := [];
    } else {
      assert s[..|s| - 1 + 1] == s && target[..|s| - 1 + 1] == target;
      draws := ReachBelow(s, target, |s| - 1);
    }
  }

  /** The element the target wants on top is among the first `i + 1`; bringing it there leaves a smaller task. */
  lemma FetchTop<T>(s: seq<T>, target: seq<T>, i: nat) returns (j: nat)
    requires |s| == |target| && 0 < i < |s|
    requires multiset(s[..i + 1]) == multiset(target[..i + 1])
    ensures j <= i && s[j] == target[i]
    ensures multiset(Swap(s, i, j)[..i - 1 + 1]) == multiset(target[..i - 1 + 1])
  {
    var wanted := target[i];
    assert target[..i + 1] == target[..i] + [wanted];
    assert wanted in multiset(target[..i + 1]);
    assert wanted in s[..i + 1];
    j :| 0 <= j <= i && s[j] == wanted;
    SwapTop(s[..i + 1], i, j);
    assert Swap(s, i, j)[..i] == Swap(s[..i + 1], i, j)[..i];
    WithoutLast(target[..i + 1]);
    assert target[..i + 1][..i] == target[..i];
  }

  lemma WithoutLast<T>(s: seq<T>)
    requires s != []
    ensures multiset(s[..|s| - 1]) == multiset(s) - multiset{s[|s| - 1]}
  {
    assert s == s[..|s| - 1] + [s[|s| - 1]];
  }

  lemma LastRemoved<T>(s: seq<T>, t: seq<T>, i: nat)
    requires multiset(t) == multiset(s) && |t| == i + 1
    ensures multiset(t[..i]) == multiset(s) - multiset{t[i]}
  {
    WithoutLast(t);
  }

  lemma SwapAt<T>(s: seq<T>, i: nat, j: nat)
    requires i < |s| && j < |s|
    ensures |Swap(s, i, j)| == |s| && Swap(s, i, j)[i] == s[j]
  {
  }

  lemma SwapTop<T>(s: seq<T>, i: nat, j: nat)
    requires |s| == i + 1 && j <= i
    ensures multiset(Swap(s, i, j)[..i]) == multiset(s) - multiset{s[j]}
  {
    SwapPermutes(s, i, j);
    SwapAt(s, i, j);
    LastRemoved(s, Swap(s, i, j), i);
  }

  lemma {:induction false} ReachBelow<T>(s: seq<T>, target: seq<T>, i: nat) returns (draws: seq<nat>)
    requires |s| == |target| && i < |s|
    requires multiset(s[..i + 1]) == multiset(target[..i + 1])
    requires forall k :: i < k < |s| ==> s[k] == target[k]
    ensures Draws(draws, |s|) && Shuffled(s, draws, i) == target
    decreases i
  {
    if i == 0 {
      draws := seq(|s|, _ => 0);
      assert s[0] in multiset(s[..1]);
      assert s[0] == target[0];
    } else {
      var j := FetchTop(s, target, i);
      var t := Swap(s, i, j);
      var below := ReachBelow(t, target, i - 1);
      draws := below[i := j];
      SameDraws(t, below, draws, i - 1);
    }
  }

  lemma {:induction false} SameDraws<T>(s: seq<T>, a: seq<nat>, b: seq<nat>, i: nat)
    requires i < |s| && Draws(a, |s|) && Draws(b, |s|)
    requires forall k :: 0 <= k <= i ==> a[k] == b[k]
    ensures Shuffled(s, a, i) == Shuffled(s, b, i)
    decreases i
  {
    if i > 0 { SameDraws(Swap(s, i, a[i]), a, b, i - 1); }
  }

  /** The pass in place, as the generators run it on their slot lists. */
  method ShuffleInPlace(a: array<nat>, draws: seq<nat>)
    requires Draws(draws, a.Length)
    modifies a
    ensures a[..] == ShuffleOf(old(a[..]), draws)
  {
    if a.Length == 0 { return; }
    ghost var start := a[..];
    var i := a.Length - 1;
    while i > 0
      invariant 0 <= i < a.Length == |start|
      invariant Shuffled(a[..], draws, i) == Shuffled(start, draws, a.Length - 1)
    {
      var j := draws[i];
      ghost var before := a[..];
      a[i], a[j] := a[j], a[i];
      assert a[..] == Swap(before, i, j);
      i := i - 1;
    }
  }
}
