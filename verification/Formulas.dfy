/**
 * Four of the named formulas with the wrong answers their typical mistakes lead to, and when those wrong
 * answers make a full set of options without any invented slip.
 */
module Formulas {
  import opened Text
  import opened Numbers
  import opened Rounding
  import opened Sequences
  import opened Options

  /** A formula's result and its distractors. */
  datatype Worked = Worked(result: real, distractors: seq<Candidate>)

  function Liquidation(entry: real, leverage: real, mmr: real, long: bool): (w: Worked)
    requires leverage != 0.0
  {
    var imr := 1.0 / leverage;
    if long then
      Worked(entry * (1.0 - imr + mmr), [
        Candidate("forget the maintenance-margin term", entry * (1.0 - imr)),
        Candidate("subtract mmr as well (wrong sign)", entry * (1.0 - imr - mmr)),
        Candidate("double the initial-margin cushion", entry * (1.0 - 2.0 * imr + mmr))])
    else
      Worked(entry * (1.0 + imr - mmr), [
        Candidate("forget the maintenance-margin term", entry * (1.0 + imr)),
        Candidate("add mmr as well (wrong sign)", entry * (1.0 + imr + mmr)),
        Candidate("double the initial-margin cushion", entry * (1.0 + 2.0 * imr - mmr))])
  }

  function Funding(notional: real, rate: real, long: bool): (w: Worked) {
    var result := notional * rate * (if long then 1.0 else -1.0);
    Worked(result, [
      Candidate("use the wrong side (flip the sign)", -result),
      Candidate("count two funding intervals", result * 2.0),
      Candidate("count only half an interval", result / 2.0)])
  }

  function InitialMargin(entry: real, quantity: real, leverage: real): (w: Worked)
    requires leverage != 0.0 && leverage != -1.0
  {
    var notional := entry * quantity;
    Worked(notional / leverage, [
      Candidate("compute the margin for only half the position", notional / leverage / 2.0),
      Candidate("divide by leverage minus one",
                if leverage > 1.0 then notional / (leverage - 1.0) else notional * 2.0),
      Candidate("divide by leverage plus one", notional / (leverage + 1.0))])
  }

  function PositionSize(equity: real, riskPct: real, stop: real): (w: Worked)
    requires stop != 0.0
  {
    var risk := equity * riskPct;
    Worked(risk / stop, [
      Candidate("double the risk percentage", 2.0 * risk / stop),
      Candidate("halve the risk percentage", risk / 2.0 / stop),
      Candidate("slip a decimal and size ten times too small", risk / stop / 10.0)])
  }

  // ---- what makes a full set ----

  /** Result and distractors are pairwise different. */
  ghost predicate AllDifferent(w: Worked) {
    && (forall i :: 0 <= i < |w.distractors| ==> w.distractors[i].value != w.result)
    && (forall i, j :: 0 <= i < j < |w.distractors| ==> w.distractors[i].value != w.distractors[j].value)
  }

  predicate Alike(x: real, y: real) {
    RealAbs(x) <= 8.0 * RealAbs(y)
  }

  /** No distractor is more than eight times the result: the filter's allowance of fifty is not even needed. */
  ghost predicate SameMagnitude(w: Worked) {
    forall i :: 0 <= i < |w.distractors| ==> Alike(w.distractors[i].value, w.result)
  }

  /** The filter's bound on the size of a wrong answer, before anything is rounded. */
  predicate InRange(x: real, result: real) {
    RealAbs(x) <= 8.0 * RealAbs(result) + 50.0
  }

  ghost predicate AllInRange(w: Worked) {
    forall i :: 0 <= i < |w.distractors| ==> InRange(w.distractors[i].value, w.result)
  }

  ghost predicate Apart(x: real, y: real, gap: real) {
    RealAbs(x - y) > gap
  }

  /** Result and distractors lie pairwise more than one display step apart. */
  ghost predicate Spread(w: Worked, places: nat) {
    && (forall i :: 0 <= i < |w.distractors| ==>
         Apart(Steps(w.distractors[i].value, places), Steps(w.result, places), 1.0))
    && (forall i, j :: 0 <= i < j < |w.distractors| ==>
         Apart(Steps(w.distractors[i].value, places), Steps(w.distractors[j].value, places), 1.0))
  }

  lemma ApartRoundsApart(x: real, y: real)
    requires Apart(x, y, 1.0)
    ensures HalfEven(x) != HalfEven(y)
  {
    if x > y { RoundedApart(x, y); } else { RoundedApart(y, x); }
  }

  lemma StepsKeepMagnitude(x: real, y: real, places: nat)
    requires Alike(x, y)
    ensures Alike(Steps(x, places), Steps(y, places))
  {
    ScalingKeepsMagnitude(x, y, Density(places));
  }

  lemma ScalingKeepsMagnitude(x: real, y: real, g: real)
    requires g > 0.0
    ensures Alike(x, y) <==> Alike(x * g, y * g)
  {
    AbsTimes(x, g);
    AbsTimes(y, g);
    var a, b := RealAbs(x), RealAbs(y);
    Associate(8.0, b, g);
    if a <= 8.0 * b { TimesOrder(a, 8.0 * b, g); } else { LessTimes(8.0 * b, a, g); }
  }

  lemma AbsTimes(x: real, g: real)
    requires g > 0.0
    ensures RealAbs(x * g) == RealAbs(x) * g
  {
    if x >= 0.0 { assert x * g >= 0.0; } else { assert x * g < 0.0; }
  }

  lemma TimesOrder(x: real, y: real, g: real)
    requires g > 0.0 && x <= y
    ensures x * g <= y * g
  {
  }

  /** Of one magnitude, rounded to a grid no coarser than one, is never too large. */
  lemma RoundedFits(x: real, y: real, unit: real)
    requires unit >= 1.0 && Alike(x, y)
    ensures Fits(HalfEven(x), HalfEven(y), unit)
  {
    HalfEvenNear(x);
    HalfEvenNear(y);
  }

  /** No wrong answer is turned away for its size: what the filter asks, rounding included. */
  ghost predicate NoneTooLarge(w: Worked, places: nat) {
    forall i :: 0 <= i < |w.distractors| ==> Fitting(w, places, i)
  }

  predicate Fitting(w: Worked, places: nat, i: nat)
    requires i < |w.distractors|
  {
    Fits(HalfEven(Steps(w.distractors[i].value, places)), HalfEven(Steps(w.result, places)), Density(places))
  }

  lemma SameMagnitudeIsNeverTooLarge(w: Worked, places: nat)
    requires SameMagnitude(w)
    ensures NoneTooLarge(w, places)
  {
    forall i | 0 <= i < |w.distractors| ensures Fitting(w, places, i) {
      AlikeFits(w, places, i);
    }
  }

  lemma AlikeFits(w: Worked, places: nat, i: nat)
    requires i < |w.distractors| && Alike(w.distractors[i].value, w.result)
    ensures Fitting(w, places, i)
  {
    StepsKeepMagnitude(w.distractors[i].value, w.result, places);
    RoundedFits(Steps(w.distractors[i].value, places), Steps(w.result, places), Density(places));
  }

  /** The three named wrong answers, rounded, behind the answer. */
  function NamedEntries(w: Worked, places: nat): (r: seq<Entry>)
    requires |w.distractors| == 3
  {
    [Entry(HalfEven(Steps(w.result, places)), None),
     Entry(HalfEven(Steps(w.distractors[0].value, places)), Some(w.distractors[0].mistake)),
     Entry(HalfEven(Steps(w.distractors[1].value, places)), Some(w.distractors[1].mistake)),
     Entry(HalfEven(Steps(w.distractors[2].value, places)), Some(w.distractors[2].mistake))]
  }

  /** Exactly when rounding keeps all four values apart and none is too large are the named mistakes shown. */
  lemma NamedMistakesExactly(w: Worked, places: nat)
    requires |w.distractors| == 3 && forall i :: 0 <= i < 3 ==> w.distractors[i].mistake != SLIP
    ensures Entries(Steps(w.result, places), InSteps(w.distractors, places), Density(places)) == NamedEntries(w, places)
       <==> NoDup(Values(NamedEntries(w, places))) && NoneTooLarge(w, places)
  {
    var x, ds, unit := Steps(w.result, places), InSteps(w.distractors, places), Density(places);
    var correct, named := HalfEven(x), NamedEntries(w, places);
    EntriesAreFour(x, ds, unit);
    if NoDup(Values(named)) && NoneTooLarge(w, places) {
      forall i | 0 <= i < 3 ensures Survives(ds, i, correct, unit) {
        assert Fitting(w, places, i);
        assert Values(named)[0] != Values(named)[i + 1];
        forall j | 0 <= j < i ensures HalfEven(ds[j].value) != HalfEven(ds[i].value) {
          assert Values(named)[j + 1] != Values(named)[i + 1];
        }
      }
      ThreeSurvivors(ds, correct, unit);
      SlipsOnlyFillGaps(x, ds, unit);
    }
    if !NoneTooLarge(w, places) {
      var i :| 0 <= i < 3 && !Fitting(w, places, i);
      TooLargeIsReplaced(w, places, i);
      assert named[3].mistake != Some(SLIP);
    }
  }

  lemma FewerSurvivors(ds: seq<Candidate>, i: nat, correct: int, unit: real)
    requires |ds| == 3 && i < 3 && unit > 0.0 && !Survives(ds, i, correct, unit)
    ensures |Survivors(ds, 3, correct, unit)| <= 2
  {
    assert |Survivors(ds, 1, correct, unit)| <= 1;
    assert |Survivors(ds, 2, correct, unit)| <= 2;
  }

  /** Values more than a display step apart stay apart, so only their size can cost a mistake its place. */
  lemma NamedMistakesSuffice(w: Worked, places: nat)
    requires |w.distractors| == 3 && Spread(w, places)
    requires forall i :: 0 <= i < 3 ==> w.distractors[i].mistake != SLIP
    ensures Entries(Steps(w.result, places), InSteps(w.distractors, places), Density(places)) == NamedEntries(w, places)
       <==> NoneTooLarge(w, places)
  {
    NamedMistakesExactly(w, places);
    var named := NamedEntries(w, places);
    forall i, j | 0 <= i < j < 4 ensures Values(named)[i] != Values(named)[j] {
      if i == 0 {
        ApartRoundsApart(Steps(w.distractors[j - 1].value, places), Steps(w.result, places));
      } else {
        ApartRoundsApart(Steps(w.distractors[i - 1].value, places), Steps(w.distractors[j - 1].value, places));
      }
    }
  }

  lemma ThreeSurvivors(ds: seq<Candidate>, correct: int, unit: real)
    requires |ds| == 3 && unit > 0.0 && forall i :: 0 <= i < 3 ==> Survives(ds, i, correct, unit)
    ensures Survivors(ds, 3, correct, unit)
         == [Entry(HalfEven(ds[0].value), Some(ds[0].mistake)), Entry(HalfEven(ds[1].value), Some(ds[1].mistake)),
             Entry(HalfEven(ds[2].value), Some(ds[2].mistake))]
  {
    assert Survivors(ds, 1, correct, unit) == [Entry(HalfEven(ds[0].value), Some(ds[0].mistake))];
    assert Survivors(ds, 2, correct, unit)
        == [Entry(HalfEven(ds[0].value), Some(ds[0].mistake)), Entry(HalfEven(ds[1].value), Some(ds[1].mistake))];
  }

  // ---- formula by formula ----

  /** Funding distractors are always of one magnitude, and differ exactly when anything is paid at all. */
  lemma FundingDistractors(notional: real, rate: real, long: bool)
    ensures AllDifferent(Funding(notional, rate, long)) <==> Funding(notional, rate, long).result != 0.0
    ensures SameMagnitude(Funding(notional, rate, long))
  {
    var w := Funding(notional, rate, long);
    if AllDifferent(w) { assert w.distractors[0].value != w.result; }
  }

  lemma ScaledQuotient(c: real, x: real, s: real)
    requires s != 0.0
    ensures c * x / s == c * (x / s)
    ensures x * c / s == c * (x / s)
  {
    var q := x / s;
    assert q * s == x;
    QuotientIs(c * x, s, c * q);
    QuotientIs(x * c, s, c * q);
  }

  lemma QuotientIs(x: real, s: real, q: real)
    requires s != 0.0 && q * s == x
    ensures x / s == q
  {
  }

  /** Position sizes differ exactly when anything is risked, and are always of one magnitude. */
  lemma PositionSizeDistractors(equity: real, riskPct: real, stop: real)
    requires stop != 0.0
    ensures AllDifferent(PositionSize(equity, riskPct, stop)) <==> equity * riskPct != 0.0
    ensures SameMagnitude(PositionSize(equity, riskPct, stop))
  {
    var w, risk := PositionSize(equity, riskPct, stop), equity * riskPct;
    ScaledQuotient(2.0, risk, stop);
    ScaledQuotient(0.5, risk, stop);
    assert risk / 2.0 == 0.5 * risk;
    var q := risk / stop;
    assert q * stop == risk;
    assert q == 0.0 <==> risk == 0.0;
    assert w.distractors[0].value == 2.0 * q && w.distractors[1].value == 0.5 * q
        && w.distractors[2].value == q / 10.0;
  }

  lemma QuotientsDiffer(n: real, a: real, b: real)
    requires a != 0.0 && b != 0.0
    ensures n / a == n / b <==> n == 0.0 || a == b
  {
    var x, y := n / a, n / b;
    assert x * a == n && y * b == n;
    SameProductDiffers(n, x, a, y, b);
  }

  lemma SameProductDiffers(n: real, x: real, a: real, y: real, b: real)
    requires a != 0.0 && b != 0.0 && x * a == n && y * b == n
    ensures x == y <==> n == 0.0 || a == b
  {
    if x == y && n != 0.0 { assert x * (a - b) == 0.0; }
    if a == b { assert (x - y) * a == 0.0; }
  }

  lemma LessTimes(x: real, y: real, g: real)
    requires g > 0.0 && x < y
    ensures x * g < y * g
  {
  }

  lemma TimesAtMost(x: real, a: real, b: real)
    requires x >= 0.0 && a <= b
    ensures x * a <= x * b
  {
  }

  /** Margins differ exactly when there is a position and the leverage is none of four values. */
  lemma InitialMarginDistractors(entry: real, quantity: real, leverage: real)
    requires leverage != 0.0 && leverage != -1.0
    ensures AllDifferent(InitialMargin(entry, quantity, leverage))
       <==> entry * quantity != 0.0 && leverage !in [1.0, 0.5, 0.25, -0.5]
  {
    MarginsAreQuotients(entry, quantity, leverage);
    FourQuotients(InitialMargin(entry, quantity, leverage), entry * quantity, leverage, 2.0 * leverage,
                  OtherDivisor(leverage), leverage + 1.0);
  }

  /** Leverage minus one, or a half where that would not be positive. */
  function OtherDivisor(leverage: real): (d: real) {
    if leverage > 1.0 then leverage - 1.0 else 0.5
  }

  lemma MarginsAreQuotients(entry: real, quantity: real, leverage: real)
    requires leverage != 0.0 && leverage != -1.0
    ensures var w, n := InitialMargin(entry, quantity, leverage), entry * quantity;
      && |w.distractors| == 3 && w.result == n / leverage
      && w.distractors[0].value == n / (2.0 * leverage)
      && w.distractors[1].value == n / OtherDivisor(leverage)
      && w.distractors[2].value == n / (leverage + 1.0)
  {
    var n := entry * quantity;
    HalfQuotient(n, leverage);
    QuotientIs(n, 0.5, n * 2.0);
  }

  lemma FourQuotients(w: Worked, n: real, d: real, d0: real, d1: real, d2: real)
    requires d != 0.0 && d0 != 0.0 && d1 != 0.0 && d2 != 0.0
    requires |w.distractors| == 3 && w.result == n / d
    requires w.distractors[0].value == n / d0 && w.distractors[1].value == n / d1 && w.distractors[2].value == n / d2
    ensures AllDifferent(w) <==> n != 0.0 && d != d0 && d != d1 && d != d2 && d0 != d1 && d0 != d2 && d1 != d2
  {
    AllDifferentThree(w);
    QuotientsDiffer(n, d, d0);
    QuotientsDiffer(n, d, d1);
    QuotientsDiffer(n, d, d2);
    QuotientsDiffer(n, d0, d1);
    QuotientsDiffer(n, d0, d2);
    QuotientsDiffer(n, d1, d2);
  }

  /**
   * Margins are said to pass the filter for every draw. They do exactly when leverage minus one does not
   * divide the position into more than the filter allows, which it can from leverage 1 up to 8/7.
   */
  lemma InitialMarginMagnitude(entry: real, quantity: real, leverage: real)
    requires leverage > 0.0
    ensures AllInRange(InitialMargin(entry, quantity, leverage))
       <==> leverage <= 1.0
            || RealAbs(entry * quantity) * (8.0 - 7.0 * leverage) <= 50.0 * (leverage * (leverage - 1.0))
  {
    var w, n := InitialMargin(entry, quantity, leverage), entry * quantity;
    OtherMarginsAlike(entry, quantity, leverage);
    assert InRange(w.distractors[0].value, w.result) && InRange(w.distractors[2].value, w.result);
    if leverage > 1.0 { LessOneInRange(n, leverage); }
    assert AllInRange(w) <==> InRange(w.distractors[1].value, w.result);
  }

  /** How far the margin divided by leverage minus one lies beyond eight times the right one. */
  function MarginExcess(entry: real, quantity: real, leverage: real): (x: real)
    requires leverage > 1.0
  {
    RealAbs(entry * quantity) * (8.0 - 7.0 * leverage) / (leverage * (leverage - 1.0))
  }

  lemma MarginGap(n: real, leverage: real)
    requires leverage > 1.0
    ensures RealAbs(n / (leverage - 1.0)) - 8.0 * RealAbs(n / leverage)
         == RealAbs(n) * (8.0 - 7.0 * leverage) / (leverage * (leverage - 1.0))
  {
    QuotientTimes(n, leverage);
    QuotientTimes(n, leverage - 1.0);
    GapOfQuotients(n, n / leverage, n / (leverage - 1.0), leverage);
  }

  lemma QuotientTimes(n: real, a: real)
    requires a != 0.0
    ensures n / a * a == n
  {
  }

  lemma GapOfQuotients(n: real, x: real, y: real, leverage: real)
    requires leverage > 1.0 && x * leverage == n && y * (leverage - 1.0) == n
    ensures RealAbs(y) - 8.0 * RealAbs(x) == RealAbs(n) * (8.0 - 7.0 * leverage) / (leverage * (leverage - 1.0))
  {
    var less := leverage - 1.0;
    AbsTimes(x, leverage);
    AbsTimes(y, less);
    assert leverage - 8.0 * less == 8.0 - 7.0 * leverage;
    GapQuotient(RealAbs(n), RealAbs(x), leverage, RealAbs(y), less);
  }

  lemma MarginExcessIs(entry: real, quantity: real, leverage: real)
    requires leverage > 1.0
    ensures var w := InitialMargin(entry, quantity, leverage);
      MarginExcess(entry, quantity, leverage) == RealAbs(w.distractors[1].value) - 8.0 * RealAbs(w.result)
  {
    MarginGap(entry * quantity, leverage);
  }

  lemma MarginBounds(entry: real, quantity: real, leverage: real, places: nat)
    requires leverage > 1.0
    ensures var w, far := InitialMargin(entry, quantity, leverage),
      Steps(MarginExcess(entry, quantity, leverage), places);
      && (far <= Steps(50.0, places) - 4.5 ==> Fitting(w, places, 1))
      && (far > Steps(50.0, places) + 4.5 ==> !Fitting(w, places, 1))
  {
    var w := InitialMargin(entry, quantity, leverage);
    MarginExcessIs(entry, quantity, leverage);
    ExcessDecides(w, places, 1, MarginExcess(entry, quantity, leverage));
  }

  lemma ExcessDecides(w: Worked, places: nat, i: nat, excess: real)
    requires i < |w.distractors| && excess == RealAbs(w.distractors[i].value) - 8.0 * RealAbs(w.result)
    ensures Steps(excess, places) <= Steps(50.0, places) - 4.5 ==> Fitting(w, places, i)
    ensures Steps(excess, places) > Steps(50.0, places) + 4.5 ==> !Fitting(w, places, i)
  {
    SizeDecides(w, places, i);
  }

  lemma GapQuotient(n: real, u: real, a: real, v: real, b: real)
    requires a > 0.0 && b > 0.0 && u * a == n && v * b == n
    ensures v - 8.0 * u == n * (a - 8.0 * b) / (a * b)
  {
    var g, gap := a * b, v - 8.0 * u;
    assert v * g == (v * b) * a;
    assert u * g == (u * a) * b;
    assert gap * g == v * g - 8.0 * (u * g);
    assert n * (a - 8.0 * b) == n * a - 8.0 * (n * b);
    QuotientIs(n * (a - 8.0 * b), g, gap);
  }

  /**
   * As rounded: only the margin divided by leverage minus one can be too large, and only below leverage
   * 8/7. There an excess of up to fifty passes, and more does not, but for four and a half display steps to
   * either side, which rounding can tip.
   */
  lemma InitialMarginFilter(entry: real, quantity: real, leverage: real, places: nat)
    requires leverage > 0.0
    ensures var w := InitialMargin(entry, quantity, leverage);
      && (NoneTooLarge(w, places) <==> Fitting(w, places, 1))
      && (leverage <= 1.0 || 7.0 * leverage >= 8.0 ==> NoneTooLarge(w, places))
      && (leverage > 1.0 ==>
            var far := Steps(MarginExcess(entry, quantity, leverage), places);
            && (far <= Steps(50.0, places) - 4.5 ==> NoneTooLarge(w, places))
            && (far > Steps(50.0, places) + 4.5 ==> !NoneTooLarge(w, places)))
  {
    var w := InitialMargin(entry, quantity, leverage);
    OtherMarginsAlike(entry, quantity, leverage);
    AlikeFits(w, places, 0);
    AlikeFits(w, places, 2);
    assert NoneTooLarge(w, places) <==> Fitting(w, places, 1);
    if leverage > 1.0 {
      MarginBounds(entry, quantity, leverage, places);
      if 7.0 * leverage >= 8.0 { QuotientAtMost(entry * quantity, leverage, leverage - 1.0, 8.0); }
    }
    if leverage <= 1.0 || 7.0 * leverage >= 8.0 { AlikeFits(w, places, 1); }
  }

  lemma OtherMarginsAlike(entry: real, quantity: real, leverage: real)
    requires leverage > 0.0
    ensures var w := InitialMargin(entry, quantity, leverage);
      && Alike(w.distractors[0].value, w.result)
      && Alike(w.distractors[2].value, w.result)
      && (leverage <= 1.0 ==> Alike(w.distractors[1].value, w.result))
  {
    var n := entry * quantity;
    QuotientAtMost(n, leverage, leverage + 1.0, 8.0);
    if leverage <= 1.0 {
      QuotientIs(n, 0.5, n * 2.0);
      QuotientAtMost(n, leverage, 0.5, 8.0);
    }
  }

  /** A divisor no `c` times smaller gives a quotient no `c` times larger. */
  lemma QuotientAtMost(n: real, a: real, b: real, c: real)
    requires a > 0.0 && b > 0.0 && c > 0.0 && a <= c * b
    ensures RealAbs(n / b) <= c * RealAbs(n / a)
  {
    var x, y := n / a, n / b;
    assert x * a == n && y * b == n;
    AbsTimes(x, a);
    AbsTimes(y, b);
    ProductAtMost(RealAbs(x), a, RealAbs(y), b, c);
  }

  lemma ProductAtMost(u: real, a: real, v: real, b: real, c: real)
    requires u >= 0.0 && a > 0.0 && b > 0.0 && c > 0.0 && a <= c * b && u * a == v * b
    ensures v <= c * u
  {
    TimesAtMost(u, a, c * b);
    assert u * (c * b) == (c * u) * b;
    if v > c * u { LessTimes(c * u, v, b); }
  }

  lemma LessOneInRange(n: real, leverage: real)
    requires leverage > 1.0
    ensures InRange(n / (leverage - 1.0), n / leverage)
       <==> RealAbs(n) * (8.0 - 7.0 * leverage) <= 50.0 * (leverage * (leverage - 1.0))
  {
    var x, y, less := n / leverage, n / (leverage - 1.0), leverage - 1.0;
    assert x * leverage == n && y * less == n;
    AbsTimes(x, leverage);
    AbsTimes(y, less);
    CrossMultiplied(RealAbs(n), RealAbs(x), leverage, RealAbs(y), less);
    assert RealAbs(n) * (leverage - 8.0 * less) == RealAbs(n) * (8.0 - 7.0 * leverage);
  }

  lemma CrossMultiplied(n: real, u: real, a: real, v: real, b: real)
    requires a > 0.0 && b > 0.0 && u * a == n && v * b == n
    ensures v <= 8.0 * u + 50.0 <==> n * (a - 8.0 * b) <= 50.0 * (a * b)
  {
    var g, bound := a * b, 8.0 * u + 50.0;
    assert g > 0.0;
    assert v * g == (v * b) * a;
    assert u * g == (u * a) * b;
    assert bound * g == 8.0 * (u * g) + 50.0 * g;
    assert n * (a - 8.0 * b) == n * a - 8.0 * (n * b);
    if v <= bound { TimesOrder(v, bound, g); } else { LessTimes(bound, v, g); }
  }

  /** Leverage 1.1 on a position of 110: the margin is 100, and 1100 is more than the filter lets through. */
  lemma InitialMarginLosesOne()
    ensures var w := InitialMargin(110.0, 1.0, 1.1);
      && AllDifferent(w) && w.result == 100.0 && w.distractors[1].value == 1100.0
      && !NoneTooLarge(w, 2)
      && var entries := Entries(Steps(w.result, 2), InSteps(w.distractors, 2), Density(2));
         |entries| == 4 && entries[3].mistake == Some(SLIP)
  {
    var w := InitialMargin(110.0, 1.0, 1.1);
    InitialMarginDistractors(110.0, 1.0, 1.1);
    QuotientIs(110.0, 1.1, 100.0);
    QuotientIs(110.0, 0.1, 1100.0);
    assert 1.1 - 1.0 == 0.1;
    assert Pow10(1) == 10 && Pow10(2) == 100;
    assert !Fitting(w, 2, 1);
    TooLargeIsReplaced(w, 2, 1);
  }

  /** A mistake too large for the filter leaves the last option to an invented slip. */
  lemma TooLargeIsReplaced(w: Worked, places: nat, i: nat)
    requires |w.distractors| == 3 && i < 3 && !Fitting(w, places, i)
    ensures var entries := Entries(Steps(w.result, places), InSteps(w.distractors, places), Density(places));
      |entries| == 4 && entries[3].mistake == Some(SLIP)
  {
    var x, ds, unit := Steps(w.result, places), InSteps(w.distractors, places), Density(places);
    assert !Survives(ds, i, HalfEven(x), unit);
    FewerSurvivors(ds, i, HalfEven(x), unit);
    SlipsOnlyFillGaps(x, ds, unit);
  }

  lemma HalfQuotient(n: real, a: real)
    requires a != 0.0
    ensures n / a / 2.0 == n / (2.0 * a)
  {
    QuotientIs(n, 2.0 * a, n / a / 2.0);
  }

  lemma AllDifferentThree(w: Worked)
    requires |w.distractors| == 3
    ensures var r, a, b, c :=
        w.result, w.distractors[0].value, w.distractors[1].value, w.distractors[2].value;
      AllDifferent(w) <==> r != a && r != b && r != c && a != b && a != c && b != c
  {
    if AllDifferent(w) {
      assert w.distractors[0].value != w.distractors[1].value;
      assert w.distractors[0].value != w.distractors[2].value;
      assert w.distractors[1].value != w.distractors[2].value;
    }
  }

  lemma ProductsDiffer(entry: real, a: real, b: real)
    requires entry != 0.0
    ensures entry * a == entry * b <==> a == b
  {
    if entry * a == entry * b { assert entry * (a - b) == 0.0; }
  }

  /** Liquidation prices differ exactly when mmr is not zero and 1/leverage is neither mmr nor twice mmr. */
  lemma LiquidationDistractorsDiffer(entry: real, leverage: real, mmr: real, long: bool)
    requires entry != 0.0 && leverage != 0.0
    ensures AllDifferent(Liquidation(entry, leverage, mmr, long))
       <==> mmr != 0.0 && 1.0 / leverage != mmr && 1.0 / leverage != 2.0 * mmr
  {
    var imr := 1.0 / leverage;
    QuotientTimes(1.0, leverage);
    assert imr != 0.0;
    LiquidationIsScaled(entry, leverage, mmr, long);
    ScaledDiffer(Liquidation(entry, leverage, mmr, long), entry, imr, mmr, long);
  }

  lemma ScaledDiffer(w: Worked, entry: real, imr: real, mmr: real, long: bool)
    requires entry != 0.0 && imr != 0.0 && |w.distractors| == 3
    requires w.result == entry * (if long then 1.0 - imr + mmr else 1.0 + imr - mmr)
    requires w.distractors[0].value == entry * (if long then 1.0 - imr else 1.0 + imr)
    requires w.distractors[1].value == entry * (if long then 1.0 - imr - mmr else 1.0 + imr + mmr)
    requires w.distractors[2].value == entry * (if long then 1.0 - 2.0 * imr + mmr else 1.0 + 2.0 * imr - mmr)
    ensures AllDifferent(w) <==> mmr != 0.0 && imr != mmr && imr != 2.0 * mmr
  {
    if long {
      FourFactors(w, entry, 1.0 - imr + mmr, 1.0 - imr, 1.0 - imr - mmr, 1.0 - 2.0 * imr + mmr);
    } else {
      FourFactors(w, entry, 1.0 + imr - mmr, 1.0 + imr, 1.0 + imr + mmr, 1.0 + 2.0 * imr - mmr);
    }
  }

  lemma LiquidationIsScaled(entry: real, leverage: real, mmr: real, long: bool)
    requires leverage != 0.0
    ensures var w, imr := Liquidation(entry, leverage, mmr, long), 1.0 / leverage;
      && |w.distractors| == 3
      && w.result == entry * (if long then 1.0 - imr + mmr else 1.0 + imr - mmr)
      && w.distractors[0].value == entry * (if long then 1.0 - imr else 1.0 + imr)
      && w.distractors[1].value == entry * (if long then 1.0 - imr - mmr else 1.0 + imr + mmr)
      && w.distractors[2].value == entry * (if long then 1.0 - 2.0 * imr + mmr else 1.0 + 2.0 * imr - mmr)
  {
  }

  lemma FourFactors(w: Worked, entry: real, f: real, f0: real, f1: real, f2: real)
    requires entry != 0.0 && |w.distractors| == 3 && w.result == entry * f
    requires w.distractors[0].value == entry * f0 && w.distractors[1].value == entry * f1
    requires w.distractors[2].value == entry * f2
    ensures AllDifferent(w) <==> f != f0 && f != f1 && f != f2 && f0 != f1 && f0 != f2 && f1 != f2
  {
    AllDifferentThree(w);
    ProductsDiffer(entry, f, f0);
    ProductsDiffer(entry, f, f1);
    ProductsDiffer(entry, f, f2);
    ProductsDiffer(entry, f0, f1);
    ProductsDiffer(entry, f0, f2);
    ProductsDiffer(entry, f1, f2);
  }

  /** How far the mistake farthest off lies beyond eight times a liquidation price. */
  function Excess(entry: real, leverage: real, mmr: real, long: bool): (x: real)
    requires leverage != 0.0
  {
    if long then entry * (10.0 * (1.0 / leverage) - 9.0 * (1.0 + mmr))
    else entry * (9.0 * mmr - 7.0 * (1.0 + 1.0 / leverage))
  }

  /** The mistake farthest off: the doubled cushion of a long position, the wrong sign of a short one. */
  function Farthest(long: bool): (i: nat) {
    if long then 2 else 1
  }

  lemma Spelled(e: real, i: real, m: real)
    ensures e * (1.0 - i + m) == e - e * i + e * m && e * (1.0 + i - m) == e + e * i - e * m
    ensures e * (1.0 - i) == e - e * i && e * (1.0 + i) == e + e * i
    ensures e * (1.0 - i - m) == e - e * i - e * m && e * (1.0 + i + m) == e + e * i + e * m
    ensures e * (1.0 - 2.0 * i + m) == e - 2.0 * (e * i) + e * m
    ensures e * (1.0 + 2.0 * i - m) == e + 2.0 * (e * i) - e * m
    ensures e * (10.0 * i - 9.0 * (1.0 + m)) == 10.0 * (e * i) - 9.0 * e - 9.0 * (e * m)
    ensures e * (9.0 * m - 7.0 * (1.0 + i)) == 9.0 * (e * m) - 7.0 * e - 7.0 * (e * i)
  {
  }

  /** What an admissible draw asks: a price, leverage from one on, and a rate below one. */
  predicate Admissible(entry: real, leverage: real, mmr: real) {
    entry > 0.0 && leverage >= 1.0 && 0.0 <= mmr < 1.0
  }

  lemma SharesOfEntry(entry: real, leverage: real, mmr: real)
    requires Admissible(entry, leverage, mmr)
    ensures 0.0 < entry * (1.0 / leverage) <= entry && 0.0 <= entry * mmr < entry
  {
    InverseBounds(leverage);
    LessTimes(0.0, 1.0 / leverage, entry);
    TimesAtMost(entry, 1.0 / leverage, 1.0);
    TimesAtMost(entry, 0.0, mmr);
    LessTimes(mmr, 1.0, entry);
  }

  /** Prices in terms of the entry, the initial margin's share of it and the maintenance margin's. */
  lemma LiquidationParts(entry: real, leverage: real, mmr: real, long: bool) returns (p: real, m: real)
    requires Admissible(entry, leverage, mmr)
    ensures 0.0 < p <= entry && 0.0 <= m < entry
    ensures var w := Liquidation(entry, leverage, mmr, long);
      && |w.distractors| == 3
      && w.result == (if long then entry - p + m else entry + p - m)
      && w.distractors[0].value == (if long then entry - p else entry + p)
      && w.distractors[1].value == (if long then entry - p - m else entry + p + m)
      && w.distractors[2].value == (if long then entry - 2.0 * p + m else entry + 2.0 * p - m)
    ensures Excess(entry, leverage, mmr, long)
         == if long then 10.0 * p - 9.0 * entry - 9.0 * m else 9.0 * m - 7.0 * entry - 7.0 * p
  {
    var imr := 1.0 / leverage;
    p, m := entry * imr, entry * mmr;
    SharesOfEntry(entry, leverage, mmr);
    LiquidationIsScaled(entry, leverage, mmr, long);
    Spelled(entry, imr, mmr);
  }

  /** The farthest mistake decides: it is the excess off, unless all three are near anyway. */
  lemma FarthestDecides(entry: real, leverage: real, mmr: real, long: bool)
    requires Admissible(entry, leverage, mmr)
    ensures var w, far := Liquidation(entry, leverage, mmr, long), Excess(entry, leverage, mmr, long);
      var gap := RealAbs(w.distractors[Farthest(long)].value) - 8.0 * RealAbs(w.result);
      && (gap == far || (far <= 0.0 && gap <= 0.0))
      && Alike(w.distractors[if long then 1 else 2].value, w.result)
      && (long ==> Alike(w.distractors[0].value, w.result))
      && (!long ==> 0.0 <= w.distractors[0].value <= w.distractors[1].value)
  {
    var p, m := LiquidationParts(entry, leverage, mmr, long);
    if long { LongGaps(entry, p, m); } else { ShortGaps(entry, p, m); }
  }

  lemma LongGaps(e: real, p: real, m: real)
    requires 0.0 < p <= e && 0.0 <= m < e
    ensures var gap, far := RealAbs(e - 2.0 * p + m) - 8.0 * RealAbs(e - p + m), 10.0 * p - 9.0 * e - 9.0 * m;
      gap == far || (far <= 0.0 && gap <= 0.0)
    ensures Alike(e - p, e - p + m) && Alike(e - p - m, e - p + m)
  {
  }

  lemma ShortGaps(e: real, p: real, m: real)
    requires 0.0 < p <= e && 0.0 <= m < e
    ensures RealAbs(e + p + m) - 8.0 * RealAbs(e + p - m) == 9.0 * m - 7.0 * e - 7.0 * p
    ensures Alike(e + 2.0 * p - m, e + p - m) && 0.0 <= e + p <= e + p + m
  {
  }

  /** Before rounding, liquidation mistakes are all in range exactly while the excess is at most fifty. */
  lemma LiquidationMagnitude(entry: real, leverage: real, mmr: real, long: bool)
    requires Admissible(entry, leverage, mmr)
    ensures AllInRange(Liquidation(entry, leverage, mmr, long)) <==> Excess(entry, leverage, mmr, long) <= 50.0
  {
    FarthestDecides(entry, leverage, mmr, long);
    var w := Liquidation(entry, leverage, mmr, long);
    assert AllInRange(w) <==> InRange(w.distractors[Farthest(long)].value, w.result);
  }

  /**
   * As rounded: the filter keeps all three mistakes exactly when it keeps the farthest one. It does so for
   * an excess of up to fifty, and does not beyond, but for four and a half display steps to either side,
   * which rounding can tip.
   */
  lemma LiquidationFilter(entry: real, leverage: real, mmr: real, long: bool, places: nat)
    requires Admissible(entry, leverage, mmr)
    ensures var w, far := Liquidation(entry, leverage, mmr, long), Steps(Excess(entry, leverage, mmr, long), places);
      && (NoneTooLarge(w, places) <==> Fitting(w, places, Farthest(long)))
      && (far <= Steps(50.0, places) - 4.5 ==> NoneTooLarge(w, places))
      && (far > Steps(50.0, places) + 4.5 ==> !NoneTooLarge(w, places))
  {
    var w, far := Liquidation(entry, leverage, mmr, long), Excess(entry, leverage, mmr, long);
    FarthestDecides(entry, leverage, mmr, long);
    SizeDecides(w, places, Farthest(long));
    AlikeFits(w, places, if long then 1 else 2);
    if long { AlikeFits(w, places, 0); } else { SmallerFits(w, places, 0, 1); }
    assert NoneTooLarge(w, places) <==> Fitting(w, places, Farthest(long));
    if far <= 0.0 {
      NegativeSteps(far, places);
      if Alike(w.distractors[Farthest(long)].value, w.result) { AlikeFits(w, places, Farthest(long)); }
    }
  }

  lemma NegativeSteps(x: real, places: nat)
    requires x <= 0.0
    ensures Steps(x, places) <= 0.0 < Steps(50.0, places)
  {
  }

  lemma SmallerFits(w: Worked, places: nat, i: nat, j: nat)
    requires i < |w.distractors| && j < |w.distractors|
    requires 0.0 <= w.distractors[i].value <= w.distractors[j].value
    ensures Fitting(w, places, j) ==> Fitting(w, places, i)
  {
    var x, y, g := w.distractors[i].value, w.distractors[j].value, Density(places);
    TimesOrder(x, y, g);
    TimesOrder(0.0, x, g);
    RoundingKeepsOrder(Steps(x, places), Steps(y, places));
    RoundingKeepsOrder(0.0, Steps(x, places));
    assert HalfEven(0.0) == 0;
  }

  /** Rounding moves the filter's comparison by four and a half display steps at most. */
  lemma SizeDecides(w: Worked, places: nat, i: nat)
    requires i < |w.distractors|
    ensures var gap := Steps(RealAbs(w.distractors[i].value) - 8.0 * RealAbs(w.result), places);
      && (gap <= Steps(50.0, places) - 4.5 ==> Fitting(w, places, i))
      && (gap > Steps(50.0, places) + 4.5 ==> !Fitting(w, places, i))
  {
    var x, y := w.distractors[i].value, w.result;
    MarginDecides(x, y, Density(places), Steps(x, places), Steps(y, places),
                  Steps(RealAbs(x) - 8.0 * RealAbs(y), places), Steps(50.0, places));
  }

  lemma MarginDecides(x: real, y: real, g: real, xs: real, ys: real, gap: real, fifty: real)
    requires g > 0.0 && xs == x * g && ys == y * g
    requires gap == (RealAbs(x) - 8.0 * RealAbs(y)) * g && fifty == 50.0 * g
    ensures gap <= fifty - 4.5 ==> Fits(HalfEven(xs), HalfEven(ys), g)
    ensures gap > fifty + 4.5 ==> !Fits(HalfEven(xs), HalfEven(ys), g)
  {
    ScaledGap(x, y, g);
    RoundedGap(xs, ys, g);
  }

  lemma ScaledGap(x: real, y: real, g: real)
    requires g > 0.0
    ensures (RealAbs(x) - 8.0 * RealAbs(y)) * g == RealAbs(x * g) - 8.0 * RealAbs(y * g)
  {
    AbsTimes(x, g);
    AbsTimes(y, g);
    Distribute(RealAbs(x), RealAbs(y), g);
  }

  lemma Distribute(u: real, v: real, g: real)
    ensures (u - 8.0 * v) * g == u * g - 8.0 * (v * g)
  {
  }

  lemma RoundedGap(x: real, y: real, unit: real)
    ensures RealAbs(x) - 8.0 * RealAbs(y) <= 50.0 * unit - 4.5 ==> Fits(HalfEven(x), HalfEven(y), unit)
    ensures RealAbs(x) - 8.0 * RealAbs(y) > 50.0 * unit + 4.5 ==> !Fits(HalfEven(x), HalfEven(y), unit)
  {
    HalfEvenNear(x);
    HalfEvenNear(y);
  }

  lemma InverseBounds(x: real)
    requires x >= 1.0
    ensures 0.0 < 1.0 / x <= 1.0
    ensures x >= 2.0 ==> 1.0 / x <= 0.5
  {
    var y := 1.0 / x;
    assert y * x == 1.0;
    if y <= 0.0 { TimesAtMost(x, y, 0.0); }
    if y > 1.0 { LessTimes(1.0, y, x); }
    if x >= 2.0 && y > 0.5 { LessTimes(0.5, y, x); }
  }

  /** Long at leverage one, a price of 10000 loses its third mistake and gets an invented slip instead. */
  lemma LiquidationAtLeverageOne()
    ensures var w := Liquidation(10000.0, 1.0, 0.005, true);
      && AllDifferent(w) && w.result == 50.0 && !NoneTooLarge(w, 2)
      && var entries := Entries(Steps(w.result, 2), InSteps(w.distractors, 2), Density(2));
         |entries| == 4 && entries[3].mistake == Some(SLIP)
  {
    var w := Liquidation(10000.0, 1.0, 0.005, true);
    assert 1.0 / 1.0 == 1.0;
    LiquidationDistractorsDiffer(10000.0, 1.0, 0.005, true);
    assert Pow10(1) == 10 && Pow10(2) == 100;
    assert HalfEven(Steps(w.result, 2)) == 5000;
    assert HalfEven(Steps(w.distractors[2].value, 2)) == -995000;
    assert !Fitting(w, 2, 2);
    TooLargeIsReplaced(w, 2, 2);
  }

  lemma SmallPriceInSteps()
    ensures HalfEven(0.025 * 100.0) == 2 && HalfEven(0.0 * 100.0) == 0
    ensures HalfEven(-0.025 * 100.0) == -2 && HalfEven(-4.975 * 100.0) == -498
  {
  }

  /** The same at a price of 5: fifty are allowed, and all three named mistakes stay. */
  lemma LiquidationOfASmallPrice()
    ensures var w := Liquidation(5.0, 1.0, 0.005, true);
      && !SameMagnitude(w) && NoneTooLarge(w, 2)
      && Entries(Steps(w.result, 2), InSteps(w.distractors, 2), Density(2)) == NamedEntries(w, 2)
  {
    var w := Liquidation(5.0, 1.0, 0.005, true);
    assert 1.0 / 1.0 == 1.0;
    assert Pow10(1) == 10 && Pow10(2) == 100;
    assert !Alike(w.distractors[2].value, w.result);
    assert Density(2) == 100.0;
    assert w.result == 0.025 && w.distractors[0].value == 0.0;
    assert w.distractors[1].value == -0.025 && w.distractors[2].value == -4.975;
    SmallPriceInSteps();
    var named := NamedEntries(w, 2);
    assert Values(named) == [2, 0, -2, -498];
    NamedMistakesExactly(w, 2);
  }
}
