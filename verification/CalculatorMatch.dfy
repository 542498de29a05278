/**
 * Which option the inline calculator lands on for the answer itself, whatever separators the labels were
 * printed with and are read with.
 */
module CalculatorMatch {
  import opened Text
  import opened Numbers
  import opened Rounding
  import opened Sequences
  import opened Shuffle
  import opened Options
  import opened Calculator
  import Formulas

  // ---- what a misread label says ----

  /** The number prints without any separator. */
  predicate Plainly(d: Dec) {
    d.exp >= 0 && Abs(Written(d)) < 1000
  }

  /** A misread number has its point gone or moved, or is no number. */
  lemma MisreadTo(d: Dec, printed: string, read: string)
    requires !Agree(printed, read)
    ensures var n := |WholePart(d)|;
      ParseLocalized(FormatNumber(d, printed), read)
      == if n <= 3 then Some(Units(Written(d), 0)) else if n <= 6 then Some(Units(Written(d), 3 + Places(d))) else None
  {
    if |WholePart(d)| <= 6 {
      MisreadMovesThePoint(d, printed, read);
    } else {
      MisreadIsWhatHappens(d, printed, read);
      MisreadMillions(Sign(d), WholePart(d), FractionPart(d), ServerSeparators(printed).thousands);
    }
  }

  lemma NonZeroUnits(n: int, k: nat)
    requires n != 0
    ensures Units(n, k) != 0.0
  {
    UnitsInjective(n, 0, k);
  }

  lemma TenthsShrink(k: nat)
    ensures Tenth(k + 3) == Tenth(k) / 1000.0
    ensures k > 0 ==> Tenth(k) <= 0.1
  {
    assert Tenth(k + 3) == Tenth(k + 2) / 10.0 && Tenth(k + 2) == Tenth(k + 1) / 10.0;
    if k > 1 { TenthsShrink(k - 1); }
  }

  /** Losing a point moves a number by nine tenths at least. */
  lemma LostPoint(n: int, k: nat)
    requires n != 0 && k > 0
    ensures RealAbs(Units(n, 0) - Units(n, k)) >= 0.9
  {
    TenthsShrink(k);
    Share(n as real, Tenth(k));
  }

  lemma Share(x: real, t: real)
    requires RealAbs(x) >= 1.0 && 0.0 < t <= 0.1
    ensures RealAbs(x * 1.0 - x * t) >= 0.9
  {
    if x > 0.0 { PositiveShare(x, t); } else { PositiveShare(-x, t); }
  }

  lemma PositiveShare(x: real, t: real)
    requires x >= 1.0 && 0.0 < t <= 0.1
    ensures x - x * t >= 0.9 && (-x) * t == -(x * t)
  {
    assert x - x * t == x * (1.0 - t);
    assert (x - 1.0) * (1.0 - t) >= 0.0;
  }

  /** Thousands read as units move a number by almost all of it. */
  lemma MovedPoint(n: int, k: nat)
    requires Abs(n) >= Pow10(k)
    ensures RealAbs(Units(n, 3 + k) - Units(n, k)) >= 0.9
  {
    LargeUnits(n, k);
    ThousandthUnits(n, k);
    Thousandth(Units(n, k), Units(n, 3 + k));
  }

  lemma LargeUnits(n: int, k: nat)
    requires Abs(n) >= Pow10(k)
    ensures RealAbs(Units(n, k)) >= 1.0
  {
    TenthInverse(k);
    AtLeastOne(n, Pow10(k), Tenth(k));
  }

  lemma ThousandthUnits(n: int, k: nat)
    ensures Units(n, 3 + k) == Units(n, k) / 1000.0
  {
    TenthsShrink(k);
    TimesThousandth(n as real, Tenth(k));
  }

  lemma TimesThousandth(x: real, t: real)
    ensures x * (t / 1000.0) == (x * t) / 1000.0
  {
  }

  lemma AtLeastOne(n: int, p: nat, t: real)
    requires Abs(n) >= p && t > 0.0 && p as real * t == 1.0
    ensures RealAbs(n as real * t) >= 1.0
  {
    var a := Abs(n) as real;
    assert (a - p as real) * t >= 0.0;
    if n >= 0 { assert n as real == a; } else { assert n as real == -a; }
  }

  lemma Thousandth(x: real, y: real)
    requires RealAbs(x) >= 1.0 && y == x / 1000.0
    ensures RealAbs(y - x) >= 0.9
  {
  }

  /** Unless it is zero or prints plainly, a misread number is nine tenths off, or no number. */
  lemma MisreadIsFar(d: Dec, printed: string, read: string)
    requires !Agree(printed, read) && d.coeff != 0 && !Plainly(d)
    ensures var r := ParseLocalized(FormatNumber(d, printed), read); r.None? || RealAbs(r.value - Value(d)) >= 0.9
  {
    var n, k := Written(d), Places(d);
    MisreadTo(d, printed, read);
    WrittenSign(d);
    WholeLength(d);
    LongIsNotZero(d);
    if |WholePart(d)| <= 3 {
      LostPoint(n, k);
    } else {
      Pow10Monotone(k, 3 + k);
      MovedPoint(n, k);
    }
  }

  /** A number that is not zero is never misread as zero. */
  lemma MisreadIsNotZero(d: Dec, printed: string, read: string)
    requires !Agree(printed, read) && d.coeff != 0
    ensures ParseLocalized(FormatNumber(d, printed), read) != Some(0.0)
  {
    MisreadTo(d, printed, read);
    WrittenSign(d);
    NonZeroUnits(Written(d), 0);
    NonZeroUnits(Written(d), 3 + Places(d));
  }

  /** A whole number is misread as itself or as a thousandth of itself, or as none. */
  lemma WholeMisread(a: Dec, b: Dec, printed: string, read: string)
    requires !Agree(printed, read) && a.exp == b.exp >= 0 && a.coeff != b.coeff && a.coeff != 1000 * b.coeff
    ensures ParseLocalized(FormatNumber(a, printed), read) != Some(Value(b))
  {
    MisreadTo(a, printed, read);
    WholeWritten(a);
    WholeWritten(b);
    WholesDiffer(a.coeff, b.coeff, Pow10(a.exp));
  }

  lemma WholeWritten(d: Dec)
    requires d.exp >= 0
    ensures Written(d) == d.coeff * Pow10(d.exp) && Places(d) == 0
  {
    assert Pow10(0) == 1;
  }

  lemma WholesDiffer(m: int, n: int, p: int)
    requires p > 0 && m != n && m != 1000 * n
    ensures Units(m * p, 0) != Units(n * p, 0) && Units(m * p, 3) != Units(n * p, 0)
  {
    if m * p == n * p { SameFactor(m, n, p); }
    UnitsInjective(m * p, n * p, 0);
    assert Pow10(3) == 1000;
    UnitsRescaled(n * p, 0, 3);
    UnitsInjective(m * p, n * p * 1000, 3);
    assert n * p * 1000 == (1000 * n) * p;
    if m * p == (1000 * n) * p { SameFactor(m, 1000 * n, p); }
  }

  // ---- which option is found ----

  /** An option read exactly, with no other read as the same number, is the closest. */
  lemma ReadAlone(options: seq<Shown>, home: nat, result: real, read: string -> Option<real>)
    requires home < |options| && read(options[home].text) == Some(result)
    requires forall j :: 0 <= j < |options| && j != home ==> read(options[j].text) != Some(result)
    ensures Closest(options, home, result, read) && Gap(options[home], result, read) == Some(0.0)
  {
    var gaps := Gaps(options, result, read);
    forall j | 0 <= j < |options| && j != home && gaps[j].Some? ensures gaps[j].value > 0.0 {
      assert gaps[j] == Gap(options[j], result, read) && read(options[j].text).Some?;
    }
    assert gaps[home] == Gap(options[home], result, read);
  }

  /** An option that is not read as anything near is not the match. */
  lemma FarIsNoMatch(options: seq<Shown>, home: nat, result: real, read: string -> Option<real>, tolerance: real)
    requires home < |options| && tolerance < 0.9
    requires var r := read(options[home].text); r.None? || RealAbs(r.value - result) >= 0.9
    ensures !Matches(options, home, result, read, tolerance)
  {
    assert Gaps(options, result, read)[home] == Gap(options[home], result, read);
  }

  lemma LabelText(options: seq<Choice>, j: nat, places: nat, printed: string, read: string)
    requires j < |options|
    ensures Reader(read)(Labels(options, places, printed)[j].text)
         == ParseLocalized(FormatNumber(OnGrid(options[j].value, places), printed), read)
  {
  }

  /** Where the answer is zero or prints plainly, its label reads exactly, and no other reads the same. */
  lemma OnlyAnswerReads(b: Built, correct: int, places: nat, printed: string, read: string, home: nat)
    requires WellBuilt(b, correct) && home < 4 && b.options[home].value == correct
    requires !Agree(printed, read) && (correct == 0 || Plainly(OnGrid(correct, places)))
    requires correct != 0 ==> forall j :: 0 <= j < 4 ==> b.options[j].value != 1000 * correct
    ensures var shown, r := Labels(b.options, places, printed), Value(OnGrid(correct, places));
      && Reader(read)(shown[home].text) == Some(r)
      && forall j :: 0 <= j < 4 && j != home ==> Reader(read)(shown[j].text) != Some(r)
  {
    var shown, d := Labels(b.options, places, printed), OnGrid(correct, places);
    LabelText(b.options, home, places, printed, read);
    RoundTripExactly(d, printed, read);
    forall j | 0 <= j < 4 && j != home ensures Reader(read)(shown[j].text) != Some(Value(d)) {
      LabelText(b.options, j, places, printed, read);
      OtherReadsElse(b.options[j].value, correct, places, printed, read);
    }
  }

  lemma OtherReadsElse(v: int, correct: int, places: nat, printed: string, read: string)
    requires !Agree(printed, read) && v != correct
    requires correct == 0 || (v != 1000 * correct && places == 0)
    ensures ParseLocalized(FormatNumber(OnGrid(v, places), printed), read) != Some(Value(OnGrid(correct, places)))
  {
    if correct == 0 {
      MisreadIsNotZero(OnGrid(v, places), printed, read);
      ZeroIsZero(places);
    } else {
      WholeMisread(OnGrid(v, places), OnGrid(correct, places), printed, read);
    }
  }

  lemma ZeroIsZero(places: nat)
    ensures Value(OnGrid(0, places)) == 0.0
  {
  }

  /** The whole of it, for options none of which is a thousand times the answer where that matters. */
  lemma BuiltIsMatched(b: Built, correct: int, places: nat, printed: string, read: string, tolerance: real, home: nat)
    requires WellBuilt(b, correct) && 0.0 <= tolerance < 0.9 && home < 4 && b.options[home].id == b.correctId
    requires correct != 0 && places == 0 ==> forall j :: 0 <= j < 4 ==> b.options[j].value != 1000 * correct
    ensures Matches(Labels(b.options, places, printed), home, Value(OnGrid(correct, places)), Reader(read), tolerance)
       <==> Agree(printed, read) || correct == 0 || Plainly(OnGrid(correct, places))
  {
    var shown, d := Labels(b.options, places, printed), OnGrid(correct, places);
    LabelText(b.options, home, places, printed, read);
    if Agree(printed, read) {
      AgreedIsMatched(b, correct, places, printed, read, home);
    } else if correct == 0 || Plainly(d) {
      OnlyAnswerReads(b, correct, places, printed, read, home);
      ReadAlone(shown, home, Value(d), Reader(read));
    } else {
      MisreadIsFar(d, printed, read);
      FarIsNoMatch(shown, home, Value(d), Reader(read), tolerance);
    }
  }

  lemma AgreedIsMatched(b: Built, correct: int, places: nat, printed: string, read: string, home: nat)
    requires WellBuilt(b, correct) && home < 4 && b.options[home].id == b.correctId && Agree(printed, read)
    ensures var shown, r := Labels(b.options, places, printed), Value(OnGrid(correct, places));
      Closest(shown, home, r, Reader(read)) && Gap(shown[home], r, Reader(read)) == Some(0.0)
  {
    var r := Value(OnGrid(correct, places));
    StepsOfValue(correct, places);
    CalculatorFindsAnswer(b, correct, places, r, printed, read, home);
    LabelReads(b.options, home, places, printed, read);
    GapOfRead(Labels(b.options, places, printed)[home], r, Reader(read), r);
  }

  lemma BuiltHasNoThousandfold(result: real, ds: seq<Candidate>, places: nat, draws: seq<nat>, j: nat)
    requires Draws(draws, 4) && places == 0 && HalfEven(Steps(result, places)) != 0 && j < 4
    ensures BuildOptions(result, ds, places, draws).options[j].value != 1000 * HalfEven(Steps(result, places))
  {
    var order := ShuffleOf(Range(4), draws);
    ShuffleIsOrder(4, draws);
    assert Density(0) == 1.0 by { assert Pow10(0) == 1; }
    EntriesAreFour(Steps(result, places), InSteps(ds, places), Density(places));
    NoneAThousandfold(Steps(result, places), InSteps(ds, places), Density(places), order[j]);
  }

  /**
   * Given the answer, the calculator lands on the answer's option exactly when the labels are read with the
   * separators they were printed with, or the answer prints without any, or it is zero; for whatever result,
   * distractors, round and shuffle, and any tolerance below nine tenths.
   */
  lemma AnswerIsMatched(result: real, ds: seq<Candidate>, round: int, draws: seq<nat>, printed: string, read: string,
                        tolerance: real, i: nat)
    requires Draws(draws, 4) && 0.0 <= tolerance < 0.9
    requires i < 4 && BuildOptions(result, ds, Grid(round), draws).options[i].id
                      == BuildOptions(result, ds, Grid(round), draws).correctId
    ensures
      var places := Grid(round);
      var b, correct := BuildOptions(result, ds, places, draws), HalfEven(Steps(result, places));
      Matches(Labels(b.options, places, printed), i, Value(OnGrid(correct, places)), Reader(read), tolerance)
      <==> Agree(printed, read) || correct == 0 || (round <= 0 && Abs(correct) < 1000)
  {
    var places := Grid(round);
    var b, correct := BuildOptions(result, ds, places, draws), HalfEven(Steps(result, places));
    OptionsAreWellBuilt(result, ds, round, draws);
    if correct != 0 && places == 0 {
      forall j | 0 <= j < 4 ensures b.options[j].value != 1000 * correct {
        BuiltHasNoThousandfold(result, ds, places, draws, j);
      }
    }
    BuiltIsMatched(b, correct, places, printed, read, tolerance, i);
  }

  // ---- an input for which another option is found ----

  /** Equity 100 at 5 % risk with a stop of 1: a position of 5.0, and mistakes of 10.0, 2.5 and 0.5. */
  function Sizing(): (w: Formulas.Worked) {
    Formulas.PositionSize(100.0, 0.05, 1.0)
  }

  lemma SizingEntries()
    ensures Sizing().result == 5.0
    ensures Values(Entries(Steps(5.0, 1), InSteps(Sizing().distractors, 1), Density(1))) == [50, 100, 25, 5]
  {
    var w := Sizing();
    assert w.result == 5.0 && w.distractors[0].value == 10.0 && w.distractors[1].value == 2.5;
    assert w.distractors[2].value == 0.5;
    assert Pow10(1) == 10 && Density(1) == 10.0;
    RoundedSizes();
    Formulas.PositionSizeDistractors(100.0, 0.05, 1.0);
    Formulas.SameMagnitudeIsNeverTooLarge(w, 1);
    assert Values(Formulas.NamedEntries(w, 1)) == [50, 100, 25, 5];
    Formulas.NamedMistakesExactly(w, 1);
  }

  lemma RoundedSizes()
    ensures HalfEven(5.0 * 10.0) == 50 && HalfEven(10.0 * 10.0) == 100
    ensures HalfEven(2.5 * 10.0) == 25 && HalfEven(0.5 * 10.0) == 5
  {
  }

  /** One decimal printed in Spanish and read in English loses its point. */
  lemma TenthsMisread(v: int)
    requires v in [50, 100, 25, 5]
    ensures ParseLocalized(FormatNumber(Dec(v, -1), "es"), "en") == Some(v as real)
  {
    LanguagesDisagree("es", "en");
    TenthsLosePoint(Dec(v, -1), "es", "en");
    WholeUnits(v);
  }

  lemma TenthsLosePoint(d: Dec, printed: string, read: string)
    requires !Agree(printed, read) && d.exp == -1 && 0 < d.coeff < 10000
    ensures ParseLocalized(FormatNumber(d, printed), read) == Some(Units(d.coeff, 0))
  {
    AtMostThree(d);
    MisreadTo(d, printed, read);
  }

  lemma WholeUnits(v: int)
    ensures Units(v, 0) == v as real
  {
  }

  lemma AtMostThree(d: Dec)
    requires d.exp == -1 && 0 < d.coeff < 10000
    ensures |WholePart(d)| <= 3 && Written(d) == d.coeff && Places(d) == 1
  {
    assert Pow10(4) == 10000 && Pow10(3 + Places(d)) == 10000;
    WholeLength(d);
  }

  /**
   * Under an English interface the Spanish labels 5,0 10,0 2,5 and 0,5 lead the answer of 5 to the option
   * 0,5, in whatever order they are shown.
   */
  lemma AnotherOptionMatches(draws: seq<nat>, i: nat)
    requires Draws(draws, 4) && i < 4
    ensures
      var b := BuildOptions(Sizing().result, Sizing().distractors, 1, draws);
      && (Matches(Labels(b.options, 1, "es"), i, Sizing().result, Reader("en"), 0.001) <==> b.options[i].value == 5)
      && (b.options[i].value == 5 ==> b.options[i].id != b.correctId)
      && (exists j :: 0 <= j < 4 && b.options[j].value == 5)
  {
    SizingBuilt(draws);
    FiveIsFound(BuildOptions(Sizing().result, Sizing().distractors, 1, draws), i);
  }

  /** The values shown are those four, 50 tenths being right. */
  ghost predicate ShowsSizes(b: Built) {
    && WellBuilt(b, 50)
    && (forall j :: 0 <= j < 4 ==> b.options[j].value in [50, 100, 25, 5])
    && (exists j :: 0 <= j < 4 && b.options[j].value == 5)
  }

  lemma SizingBuilt(draws: seq<nat>)
    requires Draws(draws, 4)
    ensures ShowsSizes(BuildOptions(Sizing().result, Sizing().distractors, 1, draws))
  {
    SizingEntries();
    RoundedSizes();
    assert Steps(5.0, 1) == 50.0 by { assert Pow10(1) == 10; }
    OptionsAreWellBuilt(Sizing().result, Sizing().distractors, 1, draws);
    EntriesAreShown(Steps(5.0, 1), InSteps(Sizing().distractors, 1), Density(1), draws, 3);
  }

  /** The shown values are the entries' values, every one of them. */
  lemma EntriesAreShown(expected: real, ds: seq<Candidate>, unit: real, draws: seq<nat>, k: nat)
    requires unit > 0.0 && Draws(draws, 4) && k < 4
    ensures var shown, values := BuildFrom(expected, ds, unit, draws).options, Values(Entries(expected, ds, unit));
      && |shown| == |values| == 4
      && (forall j :: 0 <= j < 4 ==> shown[j].value in values)
      && (exists j :: 0 <= j < 4 && shown[j].value == values[k])
  {
    var order := ShuffleOf(Range(4), draws);
    EntriesAreFour(expected, ds, unit);
    ShuffleIsOrder(4, draws);
    OrderIsOnto(order, 4, k);
    var shown, values := BuildFrom(expected, ds, unit, draws).options, Values(Entries(expected, ds, unit));
    forall j | 0 <= j < 4 ensures shown[j].value == values[order[j]] && shown[j].value in values {}
    var j :| 0 <= j < 4 && order[j] == k;
    assert shown[j].value == values[k];
  }

  lemma FiveIsFound(b: Built, i: nat)
    requires ShowsSizes(b) && i < 4
    ensures Matches(Labels(b.options, 1, "es"), i, 5.0, Reader("en"), 0.001) <==> b.options[i].value == 5
    ensures b.options[i].value == 5 ==> b.options[i].id != b.correctId
  {
    var shown := Labels(b.options, 1, "es");
    forall j | 0 <= j < 4 ensures Reader("en")(shown[j].text) == Some(b.options[j].value as real) {
      SizeReads(b.options, j);
    }
    FiveIsAlone(shown, b, Reader("en"), i);
  }

  lemma SizeReads(options: seq<Choice>, j: nat)
    requires j < |options| && options[j].value in [50, 100, 25, 5]
    ensures Reader("en")(Labels(options, 1, "es")[j].text) == Some(options[j].value as real)
  {
    LabelText(options, j, 1, "es", "en");
    TenthsMisread(options[j].value);
  }

  lemma FiveIsAlone(shown: seq<Shown>, b: Built, read: string -> Option<real>, i: nat)
    requires ShowsSizes(b) && |shown| == 4 && i < 4
    requires forall j :: 0 <= j < 4 ==> read(shown[j].text) == Some(b.options[j].value as real)
    ensures Matches(shown, i, 5.0, read, 0.001) <==> b.options[i].value == 5
    ensures b.options[i].value == 5 ==> b.options[i].id != b.correctId
  {
    var five :| 0 <= five < 4 && b.options[five].value == 5;
    forall j | 0 <= j < 4 && j != five ensures read(shown[j].text) != Some(5.0) {
      assert b.options[j].value != 5;
    }
    ReadAlone(shown, five, 5.0, read);
    if Matches(shown, i, 5.0, read, 0.001) { OneNearest(Gaps(shown, 5.0, read), i, five); }
    if b.options[i].value == 5 { assert i == five; }
  }
}
