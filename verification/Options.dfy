/**
 * The four options of a calculation: the rounded result, up to three distractors that survive the
 * filter, and arithmetic slips for the slots that stay empty, in shuffled order.
 *
 * Everything is measured in steps of the display grid, so that a rounded value is a whole number;
 * `unit` is the number of steps in one, ten to the number of decimal places.
 */
module Options {
  import opened Text
  import opened Sequences
  import opened Shuffle
  import opened Numbers
  import opened Rounding

  datatype Candidate = Candidate(mistake: string, value: real)
  datatype Entry = Entry(value: int, mistake: Option<string>)
  datatype Choice = Choice(id: string, value: int)

  const SLIP: string := "make an arithmetic slip"

  function Values(entries: seq<Entry>): (r: seq<int>)
    ensures |r| == |entries|
    ensures forall i :: 0 <= i < |entries| ==> r[i] == entries[i].value
  {
    seq(|entries|, i requires 0 <= i < |entries| => entries[i].value)
  }

  // ---- the filter ----

  /** Distractors of absurd size are turned away. */
  predicate Fits(v: int, correct: int, unit: real) {
    RealAbs(v as real) <= RealAbs(correct as real) * 8.0 + 50.0 * unit
  }

  /** Candidate `i` is kept: the right size, not the answer, and the first with its rounded value. */
  predicate Survives(ds: seq<Candidate>, i: nat, correct: int, unit: real)
    requires i < |ds| && unit > 0.0
  {
    var v := HalfEven(ds[i].value);
    && v != correct
    && Fits(v, correct, unit)
    && forall j :: 0 <= j < i ==> HalfEven(ds[j].value) != v
  }

  /** All the candidates that would be kept, in their order. */
  function Survivors(ds: seq<Candidate>, n: nat, correct: int, unit: real): (r: seq<Entry>)
    requires n <= |ds| && unit > 0.0
  {
    if n == 0 then []
    else Survivors(ds, n - 1, correct, unit)
         + if Survives(ds, n - 1, correct, unit)
           then [Entry(HalfEven(ds[n - 1].value), Some(ds[n - 1].mistake))] else []
  }

  function FirstThree(s: seq<Entry>): (r: seq<Entry>) {
    if |s| <= 3 then s else s[..3]
  }

  lemma {:induction false} SurvivorsPrefix(ds: seq<Candidate>, m: nat, n: nat, correct: int, unit: real)
    requires m <= n <= |ds| && unit > 0.0
    ensures Survivors(ds, m, correct, unit) <= Survivors(ds, n, correct, unit)
  {
    if m < n { SurvivorsPrefix(ds, m, n - 1, correct, unit); }
  }

  /** Each survivor is one of the candidates, with a new value of the right size and its own label. */
  lemma {:induction false} SurvivorsSound(ds: seq<Candidate>, n: nat, correct: int, unit: real)
    requires n <= |ds| && unit > 0.0
    ensures var s := Survivors(ds, n, correct, unit);
      && NoDup(Values(s))
      && (forall e :: e in s ==> e.mistake.Some? && e.value != correct && Fits(e.value, correct, unit))
      && (forall e :: e in s ==>
           exists j :: 0 <= j < n && HalfEven(ds[j].value) == e.value && Some(ds[j].mistake) == e.mistake)
  {
    if n > 0 {
      SurvivorsSound(ds, n - 1, correct, unit);
      var s, v := Survivors(ds, n - 1, correct, unit), HalfEven(ds[n - 1].value);
      if Survives(ds, n - 1, correct, unit) {
        forall e | e in s ensures e.value != v {
          var j :| 0 <= j < n - 1 && HalfEven(ds[j].value) == e.value && Some(ds[j].mistake) == e.mistake;
        }
        var t := Survivors(ds, n, correct, unit);
        assert Values(t) == Values(s) + [v];
        forall i, j | 0 <= i < j < |t| ensures Values(t)[i] != Values(t)[j] {
          if j == |s| { assert s[i] in s; } else { assert Values(s)[i] != Values(s)[j]; }
        }
      }
    }
  }

  /** The survivors keep the candidates' order: the `a`-th is the candidate behind `a` survivors. */
  lemma {:induction false} SurvivorsInOrder(ds: seq<Candidate>, n: nat, correct: int, unit: real, a: nat)
    returns (j: nat)
    requires n <= |ds| && unit > 0.0 && a < |Survivors(ds, n, correct, unit)|
    ensures j < n && Survives(ds, j, correct, unit) && |Survivors(ds, j, correct, unit)| == a
    ensures Survivors(ds, n, correct, unit)[a] == Entry(HalfEven(ds[j].value), Some(ds[j].mistake))
  {
    if a < |Survivors(ds, n - 1, correct, unit)| {
      j := SurvivorsInOrder(ds, n - 1, correct, unit, a);
    } else {
      j := n - 1;
    }
  }

  /** A value of the right size that some candidate rounds to is among the survivors. */
  lemma {:induction false} SurvivorsComplete(ds: seq<Candidate>, n: nat, correct: int, unit: real, i: nat)
    requires i < n <= |ds| && unit > 0.0
    requires HalfEven(ds[i].value) != correct && Fits(HalfEven(ds[i].value), correct, unit)
    ensures HalfEven(ds[i].value) in Values(Survivors(ds, n, correct, unit))
  {
    var v := HalfEven(ds[i].value);
    if Survives(ds, i, correct, unit) {
      var s := Survivors(ds, i + 1, correct, unit);
      assert Values(s)[|s| - 1] == v;
      SurvivorsPrefix(ds, i + 1, n, correct, unit);
      assert Values(Survivors(ds, n, correct, unit))[|s| - 1] == v;
    } else {
      var j :| 0 <= j < i && HalfEven(ds[j].value) == v;
      SurvivorsComplete(ds, n, correct, unit, j);
    }
  }

  // ---- the fallback ----

  /** The size of the `k`-th step away from the result. */
  function Stride(base: real, k: nat): (x: real) {
    base * 0.05 * k as real
  }

  /** The `k`-th slip: upwards for odd `k`, downwards for even `k`. */
  function Slip(expected: real, base: real, k: nat): (x: real) {
    if k % 2 == 1 then expected + Stride(base, k) else expected - Stride(base, k)
  }

  /** Slips lie above the result for odd `k` and below for even, each a twentieth of the base farther out. */
  lemma SlipsAlternate(expected: real, base: real, k: nat)
    requires base > 0.0 && k > 0
    ensures Slip(expected, base, k) > expected <==> k % 2 == 1
    ensures Slip(expected, base, k) < expected <==> k % 2 == 0
    ensures RealAbs(Slip(expected, base, 1) - expected) == base / 20.0
    ensures RealAbs(Slip(expected, base, k + 1) - expected) == RealAbs(Slip(expected, base, k) - expected) + base / 20.0
  {
    var (here, further) := (Stride(base, k), Stride(base, k + 1));
    StrideDifference(base, k, k + 1);
    assert Stride(base, 1) == base / 20.0;
    assert here > 0.0 by { assert base * k as real > 0.0; assert here == 0.05 * (base * k as real); }
    assert further == here + base / 20.0;
  }

  function MaxAbs(s: seq<int>): (m: int)
    ensures m >= 0
    ensures forall v :: v in s ==> -m <= v <= m
  {
    if s == [] then 0
    else
      var m := MaxAbs(s[1..]);
      assert forall v :: v in s ==> v == s[0] || v in s[1..];
      var a := if s[0] < 0 then -s[0] else s[0];
      if a > m then a else m
  }

  /** A `k` from which on every slip rounds to something larger than all values so far. */
  function Reach(expected: real, base: real, values: seq<int>): (k: nat)
    requires base > 0.0
  {
    var k := ((RealAbs(expected) + (MaxAbs(values) + 1) as real) / (base * 0.05)).Floor + 1;
    if k < 0 then 0 else k
  }

  /** How far `k` still is from escaping every value so far. */
  function Ahead(expected: real, base: real, k: nat, values: seq<int>): (n: nat)
    requires base > 0.0
  {
    if Reach(expected, base, values) > k then Reach(expected, base, values) - k else 0
  }

  lemma StrideExceeds(base: real, k: nat, far: real)
    requires base > 0.0 && k as real > far / (base * 0.05)
    ensures Stride(base, k) > far
  {
    var b, ratio := base * 0.05, far / (base * 0.05);
    assert ratio * b == far;
    assert (k as real - ratio) * b > 0.0;
  }

  lemma StrideDifference(base: real, i: nat, j: nat)
    requires i <= j
    ensures Stride(base, j) - Stride(base, i) == Stride(base, j - i)
  {
    assert (j - i) as real == j as real - i as real;
  }

  lemma StrideGrows(base: real, k: nat)
    requires base >= 1.0
    ensures Stride(base, k) >= 0.05 * k as real
  {
    assert (base - 1.0) * k as real >= 0.0;
  }

  /** A slip that repeats a value is short of the escape. */
  lemma RepeatIsShort(expected: real, base: real, k: nat, values: seq<int>)
    requires base > 0.0 && HalfEven(Slip(expected, base, k)) in values
    ensures Ahead(expected, base, k + 1, values) < Ahead(expected, base, k, values)
  {
    if k >= Reach(expected, base, values) {
      StrideExceeds(base, k, RealAbs(expected) + (MaxAbs(values) + 1) as real);
      HalfEvenNear(Slip(expected, base, k));
    }
  }

  datatype Filled = Filled(entries: seq<Entry>, next: nat)

  /** Entries filled up to four, and the first `k` not tried. */
  function Fallback(expected: real, base: real, k: nat, entries: seq<Entry>): (r: Filled)
    requires base > 0.0
    decreases 4 - |entries|, Ahead(expected, base, k, Values(entries))
  {
    if |entries| >= 4 then Filled(entries, k)
    else
      var v := HalfEven(Slip(expected, base, k));
      if v in Values(entries) then
        RepeatIsShort(expected, base, k, Values(entries));
        Fallback(expected, base, k + 1, entries)
      else Fallback(expected, base, k + 1, entries + [Entry(v, Some(SLIP))])
  }

  /** The fallback keeps what is there and adds new values, every one a slip, until there are four. */
  lemma {:induction false} FallbackFills(expected: real, base: real, k: nat, entries: seq<Entry>)
    requires base > 0.0 && |entries| <= 4 && NoDup(Values(entries))
    ensures var r := Fallback(expected, base, k, entries).entries;
      && |r| == 4 && entries <= r && NoDup(Values(r))
      && forall i :: |entries| <= i < 4 ==> r[i].mistake == Some(SLIP)
    decreases 4 - |entries|, Ahead(expected, base, k, Values(entries))
  {
    if |entries| < 4 {
      var v := HalfEven(Slip(expected, base, k));
      if v in Values(entries) {
        RepeatIsShort(expected, base, k, Values(entries));
        FallbackFills(expected, base, k + 1, entries);
      } else {
        var more := entries + [Entry(v, Some(SLIP))];
        assert Values(more) == Values(entries) + [v];
        FallbackFills(expected, base, k + 1, more);
      }
    }
  }

  /** No slip is passed over: each one tried is, rounded, among the values in the end. */
  lemma {:induction false} NoSlipPassedOver(expected: real, base: real, k: nat, entries: seq<Entry>, j: nat)
    requires base > 0.0 && k <= j < Fallback(expected, base, k, entries).next
    ensures HalfEven(Slip(expected, base, j)) in Values(Fallback(expected, base, k, entries).entries)
    decreases 4 - |entries|, Ahead(expected, base, k, Values(entries))
  {
    if |entries| < 4 {
      var v := HalfEven(Slip(expected, base, k));
      var more := if v in Values(entries) then entries else entries + [Entry(v, Some(SLIP))];
      if v in Values(entries) { RepeatIsShort(expected, base, k, Values(entries)); }
      if j > k {
        NoSlipPassedOver(expected, base, k + 1, more, j);
      } else {
        FallbackKeeps(expected, base, k + 1, more);
        var r := Fallback(expected, base, k + 1, more).entries;
        if v in Values(entries) {
          var i :| 0 <= i < |entries| && Values(entries)[i] == v;
          assert Values(r)[i] == v;
        } else {
          assert Values(r)[|entries|] == v;
        }
      }
    }
  }

  // ---- how long the fallback can take ----

  /** Slips of one parity that round alike are at most twenty apart, once a step is at most `base`. */
  lemma SameRoundingIsNear(expected: real, base: real, i: nat, j: nat)
    requires base >= 1.0 && i < j && i % 2 == j % 2
    requires HalfEven(Slip(expected, base, i)) == HalfEven(Slip(expected, base, j))
    ensures j - i <= 20
  {
    HalfEvenNear(Slip(expected, base, i));
    HalfEvenNear(Slip(expected, base, j));
    StrideDifference(base, i, j);
    StrideGrows(base, j - i);
  }

  /** Numbers of one parity within twenty of each other are at most eleven. */
  lemma WindowSize(s: set<nat>)
    requires forall i, j :: i in s && j in s && i < j ==> i % 2 == j % 2 && j - i <= 20
    ensures |s| <= 11
  {
    if s != {} {
      var low := Least(s);
      var window := seq(11, i => low + 2 * i);
      forall j | j in s ensures j in Elements(window) {
        assert window[(j - low) / 2] == j;
      }
      FewElements(window);
      SubsetSize(s, Elements(window));
    }
  }

  /** The numbers of `s` whose slip rounds to `v`. */
  function Hitting(expected: real, base: real, s: set<nat>, v: int): (r: set<nat>)
  {
    set j | j in s && HalfEven(Slip(expected, base, j)) == v
  }

  lemma HittingSize(expected: real, base: real, s: set<nat>, v: int)
    requires base >= 1.0
    ensures |Hitting(expected, base, s, v)| <= 22
  {
    var h := Hitting(expected, base, s, v);
    var odd, even := set j | j in h && j % 2 == 1, set j | j in h && j % 2 == 0;
    forall i, j | i in h && j in h && i < j && i % 2 == j % 2 ensures j - i <= 20 {
      SameRoundingIsNear(expected, base, i, j);
    }
    WindowSize(odd);
    WindowSize(even);
    assert h == odd + even;
  }

  lemma {:induction false} SkippedSize(expected: real, base: real, s: set<nat>, values: seq<int>)
    requires base >= 1.0
    requires forall j :: j in s ==> HalfEven(Slip(expected, base, j)) in values
    ensures |s| <= 22 * |values|
  {
    if values == [] {
      assert s == {};
    } else {
      var h := Hitting(expected, base, s, values[0]);
      HittingSize(expected, base, s, values[0]);
      SkippedSize(expected, base, s - h, values[1..]);
      assert s == h + (s - h);
    }
  }

  /** On a grid no coarser than the base, the fallback tries fewer than seventy slips. */
  lemma {:induction false} FallbackIsShort(
      expected: real, base: real, k: nat, entries: seq<Entry>, start: nat, skipped: set<nat>)
    requires base >= 1.0
    requires 1 <= start <= |entries| <= 4
    requires forall j :: j in skipped ==> HalfEven(Slip(expected, base, j)) in Values(entries) && j < k
    requires k == 1 + |skipped| + (|entries| - start)
    requires |entries| == 4 ==> k <= 70
    ensures Fallback(expected, base, k, entries).next <= 70
    decreases 4 - |entries|, Ahead(expected, base, k, Values(entries))
  {
    if |entries| < 4 {
      SkippedSize(expected, base, skipped, Values(entries));
      var v := HalfEven(Slip(expected, base, k));
      if v in Values(entries) {
        RepeatIsShort(expected, base, k, Values(entries));
        FallbackIsShort(expected, base, k + 1, entries, start, skipped + {k});
      } else {
        var more := entries + [Entry(v, Some(SLIP))];
        assert Values(more) == Values(entries) + [v];
        FallbackIsShort(expected, base, k + 1, more, start, skipped);
      }
    }
  }

  lemma {:induction false} FallbackMovesOn(expected: real, base: real, k: nat, entries: seq<Entry>)
    requires base > 0.0
    ensures Fallback(expected, base, k, entries).next >= k
    ensures |entries| < 4 ==> Fallback(expected, base, k, entries).next > k
    decreases 4 - |entries|, Ahead(expected, base, k, Values(entries))
  {
    if |entries| < 4 {
      var v := HalfEven(Slip(expected, base, k));
      if v in Values(entries) {
        RepeatIsShort(expected, base, k, Values(entries));
        FallbackMovesOn(expected, base, k + 1, entries);
      } else {
        FallbackMovesOn(expected, base, k + 1, entries + [Entry(v, Some(SLIP))]);
      }
    }
  }

  // ---- the whole set of options ----

  /** Half-way there: the answer and the surviving distractors. */
  function Named(expected: real, ds: seq<Candidate>, unit: real): (r: seq<Entry>)
    requires unit > 0.0
  {
    var correct := HalfEven(expected);
    [Entry(correct, None)] + FirstThree(Survivors(ds, |ds|, correct, unit))
  }

  function Base(expected: real, unit: real): (b: real)
    requires unit > 0.0
    ensures b >= unit
  {
    var size := RealAbs(HalfEven(expected) as real);
    if size < unit then unit else size
  }

  /** The answer first, then three wrong values with the mistake behind each. */
  function Entries(expected: real, ds: seq<Candidate>, unit: real): (r: seq<Entry>)
    requires unit > 0.0
  {
    Fallback(expected, Base(expected, unit), 1, Named(expected, ds, unit)).entries
  }

  lemma NamedIsFine(expected: real, ds: seq<Candidate>, unit: real)
    requires unit > 0.0
    ensures var r := Named(expected, ds, unit);
      && 1 <= |r| <= 4 && NoDup(Values(r))
      && r[0] == Entry(HalfEven(expected), None)
      && forall i :: 0 < i < |r| ==> r[i].mistake.Some?
  {
    var correct := HalfEven(expected);
    SurvivorsSound(ds, |ds|, correct, unit);
    var s := Survivors(ds, |ds|, correct, unit);
    var r := Named(expected, ds, unit);
    forall i | 0 < i < |r| ensures r[i].mistake.Some? && r[i].value != correct {
      assert r[i] == s[i - 1] && s[i - 1] in s;
    }
    forall i, j | 0 <= i < j < |r| ensures Values(r)[i] != Values(r)[j] {
      if i > 0 { assert Values(s)[i - 1] != Values(s)[j - 1]; }
    }
  }

  /** Where the builder's fallback stops counting. */
  function LastTried(expected: real, ds: seq<Candidate>, unit: real): (k: nat)
    requires unit > 0.0
  {
    Fallback(expected, Base(expected, unit), 1, Named(expected, ds, unit)).next
  }

  /** No grid is coarser than the base: seventy tries are always enough. */
  lemma SeventyTriesSuffice(expected: real, ds: seq<Candidate>, round: int)
    ensures LastTried(Steps(expected, Grid(round)), InSteps(ds, Grid(round)), Density(Grid(round))) <= 70
  {
    var places := Grid(round);
    var x, steps, unit := Steps(expected, places), InSteps(ds, places), Density(places);
    NamedIsFine(x, steps, unit);
    FallbackIsShort(x, Base(x, unit), 1, Named(x, steps, unit), |Named(x, steps, unit)|, {});
  }

  /** Four pairwise different values: the rounded result, and three wrong ones each with a mistake. */
  lemma EntriesAreFour(expected: real, ds: seq<Candidate>, unit: real)
    requires unit > 0.0
    ensures var r := Entries(expected, ds, unit);
      && |r| == 4 && NoDup(Values(r))
      && r[0] == Entry(HalfEven(expected), None)
      && (forall i :: 0 < i < 4 ==> r[i].mistake.Some?)
      && Named(expected, ds, unit) <= r
  {
    NamedIsFine(expected, ds, unit);
    FallbackFills(expected, Base(expected, unit), 1, Named(expected, ds, unit));
    var n, r := Named(expected, ds, unit), Entries(expected, ds, unit);
    forall i | 0 < i < 4 ensures r[i].mistake.Some? {
      if i < |n| { assert r[i] == n[i]; }
    }
  }

  /** With three survivors no slip is invented; with fewer, exactly the missing ones are. */
  lemma SlipsOnlyFillGaps(expected: real, ds: seq<Candidate>, unit: real)
    requires unit > 0.0
    ensures var n := |Survivors(ds, |ds|, HalfEven(expected), unit)|;
      var r := Entries(expected, ds, unit);
      && (n >= 3 ==> r == Named(expected, ds, unit))
      && |r| == 4
      && forall i :: 1 + n <= i < 4 ==> r[i].mistake == Some(SLIP)
  {
    NamedIsFine(expected, ds, unit);
    FallbackFills(expected, Base(expected, unit), 1, Named(expected, ds, unit));
  }

  // ---- how large an option can be ----

  /** Every entry the fallback adds is a slip it tried. */
  lemma {:induction false} FallbackSlips(expected: real, base: real, k: nat, entries: seq<Entry>, i: nat)
    returns (j: nat)
    requires base > 0.0 && |entries| <= i < |Fallback(expected, base, k, entries).entries|
    ensures k <= j < Fallback(expected, base, k, entries).next
    ensures Fallback(expected, base, k, entries).entries[i].value == HalfEven(Slip(expected, base, j))
    decreases 4 - |entries|, Ahead(expected, base, k, Values(entries))
  {
    var v := HalfEven(Slip(expected, base, k));
    if v in Values(entries) {
      RepeatIsShort(expected, base, k, Values(entries));
      j := FallbackSlips(expected, base, k + 1, entries, i);
    } else {
      var more := entries + [Entry(v, Some(SLIP))];
      FallbackKeeps(expected, base, k + 1, more);
      FallbackMovesOn(expected, base, k + 1, more);
      if i == |entries| { j := k; } else { j := FallbackSlips(expected, base, k + 1, more, i); }
    }
  }

  lemma {:induction false} FallbackKeeps(expected: real, base: real, k: nat, entries: seq<Entry>)
    requires base > 0.0
    ensures entries <= Fallback(expected, base, k, entries).entries
    decreases 4 - |entries|, Ahead(expected, base, k, Values(entries))
  {
    if |entries| < 4 {
      var v := HalfEven(Slip(expected, base, k));
      if v in Values(entries) {
        RepeatIsShort(expected, base, k, Values(entries));
        FallbackKeeps(expected, base, k + 1, entries);
      } else {
        FallbackKeeps(expected, base, k + 1, entries + [Entry(v, Some(SLIP))]);
      }
    }
  }

  /** The first seventy slips stay within five times an answer that is not zero. */
  lemma SlipsStaySmall(expected: real, c: int, k: nat)
    requires c == HalfEven(expected) != 0 && k <= 70
    ensures RealAbs(HalfEven(Slip(expected, RealAbs(c as real), k)) as real) <= 5.0 * RealAbs(c as real) + 1.0
  {
    var base := RealAbs(c as real);
    StrideAtMost(base, k);
    HalfEvenNear(expected);
    HalfEvenNear(Slip(expected, base, k));
  }

  lemma StrideAtMost(base: real, k: nat)
    requires base > 0.0 && k <= 70
    ensures 0.0 <= Stride(base, k) <= 3.5 * base
  {
    var n := k as real;
    assert base * n <= base * 70.0;
    assert Stride(base, k) == 0.05 * (base * n);
    assert base * n >= 0.0;
  }

  /** On a grid no finer than one, no option is a thousand times an answer that is not zero. */
  lemma NoneAThousandfold(expected: real, ds: seq<Candidate>, unit: real, i: nat)
    requires 0.0 < unit <= 1.0 && HalfEven(expected) != 0 && i < |Entries(expected, ds, unit)|
    ensures Entries(expected, ds, unit)[i].value != 1000 * HalfEven(expected)
  {
    var c, named := HalfEven(expected), Named(expected, ds, unit);
    NamedIsFine(expected, ds, unit);
    EntriesAreFour(expected, ds, unit);
    if 0 < i < |named| {
      var s := Survivors(ds, |ds|, c, unit);
      SurvivorsSound(ds, |ds|, c, unit);
      assert named[i] == s[i - 1] && s[i - 1] in s;
      assert Entries(expected, ds, unit)[i] == named[i];
      FittingIsNoThousandfold(named[i].value, c, unit);
    } else if i >= |named| {
      var base := Base(expected, unit);
      FallbackIsShort(expected, base, 1, named, |named|, {});
      var j := FallbackSlips(expected, base, 1, named, i);
      SlipsStaySmall(expected, c, j);
    }
  }

  lemma FittingIsNoThousandfold(v: int, c: int, unit: real)
    requires Fits(v, c, unit) && unit <= 1.0 && c != 0
    ensures v != 1000 * c
  {
  }

  /** The candidates measured in grid steps. */
  function InSteps(ds: seq<Candidate>, places: nat): (r: seq<Candidate>)
    ensures |r| == |ds|
  {
    seq(|ds|, i requires 0 <= i < |ds| => ds[i].(value := Steps(ds[i].value, places)))
  }

  function OptionId(slot: nat): (id: string) {
    "o" + Digits(slot)
  }

  lemma OptionIdInjective(a: nat, b: nat)
    requires OptionId(a) == OptionId(b)
    ensures a == b
  {
    assert OptionId(a)[1..] == Digits(a) && OptionId(b)[1..] == Digits(b);
    DigitsInjective(a, b);
  }

  /** The options as shown: slot `s` holds entry `order[s]`. */
  function Layout(entries: seq<Entry>, order: seq<nat>): (r: seq<Choice>)
    requires forall i :: 0 <= i < |order| ==> order[i] < |entries|
    ensures |r| == |order|
  {
    seq(|order|, s requires 0 <= s < |order| => Choice(OptionId(s), entries[order[s]].value))
  }

  /** The mistake behind each of the first `n` option ids; none for the answer. */
  function Mistakes(entries: seq<Entry>, order: seq<nat>, n: nat): (r: map<string, Option<string>>)
    requires n <= |order| && forall i :: 0 <= i < |order| ==> order[i] < |entries|
  {
    if n == 0 then map[]
    else Mistakes(entries, order, n - 1)[OptionId(n - 1) := entries[order[n - 1]].mistake]
  }

  datatype Built = Built(options: seq<Choice>, correctId: string, mistakes: map<string, Option<string>>)

  /** The shown options, the id of the right one, and the mistake behind each id. */
  function BuildFrom(expected: real, ds: seq<Candidate>, unit: real, draws: seq<nat>): (r: Built)
    requires unit > 0.0 && Draws(draws, 4)
  {
    var entries := Entries(expected, ds, unit);
    var order := ShuffleOf(Range(4), draws);
    EntriesAreFour(expected, ds, unit);
    ShuffleIsOrder(4, draws);
    OrderIsOnto(order, 4, 0);
    Built(Layout(entries, order), OptionId(IndexOf(order, 0)), Mistakes(entries, order, 4))
  }

  /** The same from a result and distractors in natural units. */
  function BuildOptions(expected: real, ds: seq<Candidate>, places: nat, draws: seq<nat>): (r: Built)
    requires Draws(draws, 4)
  {
    BuildFrom(Steps(expected, places), InSteps(ds, places), Density(places), draws)
  }

  lemma {:induction false} MistakesAt(entries: seq<Entry>, order: seq<nat>, n: nat, slot: nat)
    requires n <= |order| && forall i :: 0 <= i < |order| ==> order[i] < |entries|
    ensures slot < n ==> OptionId(slot) in Mistakes(entries, order, n)
                         && Mistakes(entries, order, n)[OptionId(slot)] == entries[order[slot]].mistake
    ensures slot >= n ==> OptionId(slot) !in Mistakes(entries, order, n)
  {
    if n > 0 {
      MistakesAt(entries, order, n - 1, slot);
      if OptionId(slot) == OptionId(n - 1) { OptionIdInjective(slot, n - 1); }
    }
  }

  /** Four options with different ids and different values, exactly one of them right. */
  ghost predicate WellBuilt(b: Built, correct: int) {
    && |b.options| == 4
    && (forall i :: 0 <= i < 4 ==> b.options[i].id == OptionId(i))
    && (forall i, j :: 0 <= i < j < 4 ==> b.options[i].id != b.options[j].id)
    && (forall i, j :: 0 <= i < j < 4 ==> b.options[i].value != b.options[j].value)
    && (exists i :: 0 <= i < 4 && b.options[i].id == b.correctId)
    && (forall i :: 0 <= i < 4 ==> b.options[i].id in b.mistakes)
    && (forall i :: 0 <= i < 4 ==> (b.options[i].value == correct <==> b.options[i].id == b.correctId))
    && (forall i :: 0 <= i < 4 ==> (b.mistakes[b.options[i].id].None? <==> b.options[i].id == b.correctId))
  }

  /** For every result, distractor list, round and shuffle, the option builder ends with four good options. */
  lemma OptionsAreWellBuilt(expected: real, ds: seq<Candidate>, round: int, draws: seq<nat>)
    requires Draws(draws, 4)
    ensures WellBuilt(BuildOptions(expected, ds, Grid(round), draws), HalfEven(Steps(expected, Grid(round))))
  {
    var places := Grid(round);
    BuiltFromIsWellBuilt(Steps(expected, places), InSteps(ds, places), Density(places), draws);
  }

  lemma BuiltFromIsWellBuilt(expected: real, ds: seq<Candidate>, unit: real, draws: seq<nat>)
    requires unit > 0.0 && Draws(draws, 4)
    ensures WellBuilt(BuildFrom(expected, ds, unit, draws), HalfEven(expected))
  {
    var entries := Entries(expected, ds, unit);
    var order := ShuffleOf(Range(4), draws);
    EntriesAreFour(expected, ds, unit);
    ShuffleIsOrder(4, draws);
    OrderIsOnto(order, 4, 0);
    LayoutIsWellBuilt(entries, order, BuildFrom(expected, ds, unit, draws));
  }

  lemma LayoutIsWellBuilt(entries: seq<Entry>, order: seq<nat>, b: Built)
    requires |entries| == 4 && NoDup(Values(entries)) && IsOrder(order, 4) && 0 in order
    requires forall i :: 0 <= i < 4 ==> (entries[i].mistake.None? <==> i == 0)
    requires b == Built(Layout(entries, order), OptionId(IndexOf(order, 0)), Mistakes(entries, order, 4))
    ensures WellBuilt(b, entries[0].value)
  {
    var home := IndexOf(order, 0);
    assert b.options[home].id == b.correctId;
    forall i | 0 <= i < 4
      ensures b.options[i].id in b.mistakes && b.mistakes[b.options[i].id] == entries[order[i]].mistake
      ensures order[i] == 0 <==> i == home
      ensures b.options[i].id == b.correctId <==> i == home
      ensures b.options[i].value == entries[0].value <==> order[i] == 0
    {
      MistakesAt(entries, order, 4, i);
      if order[i] == 0 { SlotUnique(order, i); } else { DifferentEntries(entries, 0, order[i]); }
      if b.options[i].id == b.correctId { OptionIdInjective(i, home); }
    }
    forall i, j | 0 <= i < j < 4
      ensures b.options[i].id != b.options[j].id && b.options[i].value != b.options[j].value
    {
      if b.options[i].id == b.options[j].id { OptionIdInjective(i, j); }
      DifferentEntries(entries, order[i], order[j]);
    }
  }

  lemma DifferentEntries(entries: seq<Entry>, a: nat, b: nat)
    requires NoDup(Values(entries)) && a < |entries| && b < |entries| && a != b
    ensures entries[a].value != entries[b].value
  {
    var v := Values(entries);
    if a < b { assert v[a] != v[b]; } else { assert v[b] != v[a]; }
  }

  // ---- the builder as it runs ----

  lemma OneMore(entries: seq<Entry>, e: Entry)
    ensures Elements(Values(entries + [e])) == Elements(Values(entries)) + {e.value}
  {
    assert Values(entries + [e]) == Values(entries) + [e.value];
  }

  /** The filter loop: candidates in order, three at most, `seen` guarding against repeats. */
  method FilterDistractors(ds: seq<Candidate>, correct: int, unit: real)
    returns (picks: seq<Entry>, seen: set<int>)
    requires unit > 0.0
    ensures picks == FirstThree(Survivors(ds, |ds|, correct, unit))
    ensures seen == {correct} + Elements(Values(picks))
  {
    picks, seen := [], {correct};
    var i := 0;
    while i < |ds|
      invariant 0 <= i <= |ds|
      invariant picks == Survivors(ds, i, correct, unit) && |picks| < 3
      invariant seen == {correct} + Elements(Values(picks))
    {
      var v := HalfEven(ds[i].value);
      KeptExactlyIfNew(ds, i, correct, unit);
      i := i + 1;
      SurvivorsPrefix(ds, i, |ds|, correct, unit);
      if v in seen || RealAbs(v as real) > RealAbs(correct as real) * 8.0 + 50.0 * unit {
        continue;
      }
      OneMore(picks, Entry(v, Some(ds[i - 1].mistake)));
      seen := seen + {v};
      picks := picks + [Entry(v, Some(ds[i - 1].mistake))];
      if |picks| == 3 {
        break;
      }
    }
  }

  /** What the loop asks of a candidate is what survival means. */
  lemma KeptExactlyIfNew(ds: seq<Candidate>, i: nat, correct: int, unit: real)
    requires i < |ds| && unit > 0.0
    ensures var v := HalfEven(ds[i].value);
      Survives(ds, i, correct, unit)
      <==> v !in {correct} + Elements(Values(Survivors(ds, i, correct, unit))) && Fits(v, correct, unit)
  {
    var v, s := HalfEven(ds[i].value), Survivors(ds, i, correct, unit);
    SurvivorsSound(ds, i, correct, unit);
    if v in Values(s) {
      var k :| 0 <= k < |s| && Values(s)[k] == v;
      assert s[k] in s;
      var j :| 0 <= j < i && HalfEven(ds[j].value) == s[k].value && Some(ds[j].mistake) == s[k].mistake;
    }
    if v != correct && Fits(v, correct, unit) && !Survives(ds, i, correct, unit) {
      var j :| 0 <= j < i && HalfEven(ds[j].value) == v;
      SurvivorsComplete(ds, i, correct, unit, j);
    }
  }

  /** The fallback loop, over the answer and the picks behind it. */
  method FillWithSlips(expected: real, base: real, start: seq<Entry>, seen0: set<int>)
    returns (entries: seq<Entry>, k: nat)
    requires base > 0.0 && |start| <= 4
    requires seen0 == Elements(Values(start))
    ensures Filled(entries, k) == Fallback(expected, base, 1, start)
  {
    var seen := seen0;
    entries, k := start, 1;
    while |entries| < 4
      invariant |entries| <= 4 && seen == Elements(Values(entries))
      invariant Fallback(expected, base, k, entries) == Fallback(expected, base, 1, start)
      decreases 4 - |entries|, Ahead(expected, base, k, Values(entries))
    {
      var v := HalfEven(Slip(expected, base, k));
      FallbackStep(expected, base, k, entries);
      if v in seen {
        assert v in Values(entries);
        RepeatIsShort(expected, base, k, Values(entries));
        k := k + 1;
        continue;
      }
      OneMore(entries, Entry(v, Some(SLIP)));
      k := k + 1;
      seen := seen + {v};
      entries := entries + [Entry(v, Some(SLIP))];
    }
  }

  lemma FallbackStep(expected: real, base: real, k: nat, entries: seq<Entry>)
    requires base > 0.0 && |entries| < 4
    ensures var v := HalfEven(Slip(expected, base, k));
      Fallback(expected, base, k, entries)
      == Fallback(expected, base, k + 1,
                  if v in Values(entries) then entries else entries + [Entry(v, Some(SLIP))])
  {
  }

  /** The last loop: one option and one mistake per slot, remembering where the answer went. */
  method LayOut(entries: seq<Entry>, order: seq<nat>)
    returns (options: seq<Choice>, correctId: string, mistakes: map<string, Option<string>>)
    requires |entries| == 4 && IsOrder(order, 4) && 0 in order
    requires forall i :: 0 <= i < 4 ==> (entries[i].mistake.None? <==> i == 0)
    ensures options == Layout(entries, order)
    ensures correctId == OptionId(IndexOf(order, 0))
    ensures mistakes == Mistakes(entries, order, 4)
  {
    options, mistakes, correctId := [], map[], "o0";
    var slot := 0;
    while slot < 4
      invariant 0 <= slot <= 4
      invariant |options| == slot && forall k :: 0 <= k < slot ==> options[k] == Layout(entries, order)[k]
      invariant mistakes == Mistakes(entries, order, slot)
      invariant IndexOf(order, 0) < slot ==> correctId == OptionId(IndexOf(order, 0))
    {
      var id := OptionId(slot);
      var entry := entries[order[slot]];
      options := options + [Choice(id, entry.value)];
      mistakes := mistakes[id := entry.mistake];
      if entry.mistake.None? {
        SlotUnique(order, slot);
        correctId := id;
      }
      slot := slot + 1;
    }
  }

  /** The option builder: filter, fill, shuffle, lay out. */
  method OptionsForParams(result: real, distractors: seq<Candidate>, round: int, draws: seq<nat>)
    returns (options: seq<Choice>, correctId: string, mistakes: map<string, Option<string>>)
    requires Draws(draws, 4)
    ensures Built(options, correctId, mistakes) == BuildOptions(result, distractors, Grid(round), draws)
  {
    var places := Grid(round);
    options, correctId, mistakes :=
      OptionsInSteps(Steps(result, places), InSteps(distractors, places), Density(places), draws);
  }

  method OptionsInSteps(expected: real, ds: seq<Candidate>, unit: real, draws: seq<nat>)
    returns (options: seq<Choice>, correctId: string, mistakes: map<string, Option<string>>)
    requires unit > 0.0 && Draws(draws, 4)
    ensures Built(options, correctId, mistakes) == BuildFrom(expected, ds, unit, draws)
  {
    var correct := HalfEven(expected);
    var head := Entry(correct, None);
    var picks, seen := FilterDistractors(ds, correct, unit);
    assert Values([head] + picks) == [correct] + Values(picks);
    var size := RealAbs(correct as real);
    var entries, _ := FillWithSlips(expected, if size < unit then unit else size, [head] + picks, seen);
    assert entries == Entries(expected, ds, unit);
    EntriesAreFour(expected, ds, unit);
    var order := ShuffledSlots(draws);
    options, correctId, mistakes := LayOut(entries, order);
  }

  method ShuffledSlots(draws: seq<nat>) returns (order: seq<nat>)
    requires Draws(draws, 4)
    ensures order == ShuffleOf(Range(4), draws)
    ensures IsOrder(order, 4) && 0 in order
  {
    var slots := new nat[4](i => i);
    assert slots[..] == Range(4);
    ShuffleInPlace(slots, draws);
    order := slots[..];
    ShuffleIsOrder(4, draws);
    OrderIsOnto(order, 4, 0);
  }
}
