/**
 * From option values to labels, and back: the labels a reader sees, and the inline calculator that finds
 * the option its result belongs to.
 */
module Calculator {
  import opened Text
  import opened Numbers
  import opened Rounding
  import opened Options

  /** An option as the client holds it. */
  datatype Shown = Shown(id: string, text: string)

  /** An option value as the reader of `locale` sees it, with the decimals of the exercise. */
  function Label(choice: Choice, places: nat, locale: string): (s: Shown) {
    Shown(choice.id, FormatNumber(OnGrid(choice.value, places), locale))
  }

  function Labels(options: seq<Choice>, places: nat, locale: string): (r: seq<Shown>)
    ensures |r| == |options|
  {
    seq(|options|, i requires 0 <= i < |options| => Label(options[i], places, locale))
  }

  /** The four labels are four different texts. */
  lemma LabelsDiffer(b: Built, correct: int, places: nat, locale: string)
    requires WellBuilt(b, correct)
    ensures forall i, j :: 0 <= i < j < 4 ==>
      Labels(b.options, places, locale)[i].text != Labels(b.options, places, locale)[j].text
  {
    forall i, j | 0 <= i < j < 4
      ensures Labels(b.options, places, locale)[i].text != Labels(b.options, places, locale)[j].text
    {
      PrinterInjective(OnGrid(b.options[i].value, places), OnGrid(b.options[j].value, places), locale);
    }
  }

  // ---- finding the option a result belongs to ----

  /** How the client reads a label in `locale`. */
  function Reader(locale: string): (read: string -> Option<real>) {
    text => ParseLocalized(text, locale)
  }

  /** How far an option is from the result; `None` when its text is no number. */
  function Gap(option: Shown, result: real, read: string -> Option<real>): (g: Option<real>) {
    match read(option.text)
    case None => None
    case Some(value) => Some(RealAbs(value - result))
  }

  function Gaps(options: seq<Shown>, result: real, read: string -> Option<real>): (r: seq<Option<real>>)
    ensures |r| == |options|
  {
    seq(|options|, i requires 0 <= i < |options| => Gap(options[i], result, read))
  }

  /** Of the first `n` gaps the `i`-th is known, none known is smaller, and none before it is as small. */
  ghost predicate Nearest(gaps: seq<Option<real>>, n: nat, i: nat) {
    && i < n <= |gaps|
    && gaps[i].Some?
    && (forall j :: 0 <= j < n && gaps[j].Some? ==> gaps[i].value <= gaps[j].value)
    && (forall j :: 0 <= j < i && gaps[j].Some? ==> gaps[i].value < gaps[j].value)
  }

  /** Option `i` is readable, no readable option is closer, and none before it is as close. */
  ghost predicate Closest(options: seq<Shown>, i: nat, result: real, read: string -> Option<real>) {
    Nearest(Gaps(options, result, read), |options|, i)
  }

  /** Option `i` is the closest, and within tolerance. */
  ghost predicate Matches(options: seq<Shown>, i: nat, result: real, read: string -> Option<real>, tolerance: real) {
    Closest(options, i, result, read) && Gap(options[i], result, read).value <= tolerance
  }

  /** The option that matches; none if none does. */
  method MatchOptionValue(options: seq<Shown>, result: real, read: string -> Option<real>, tolerance: real)
    returns (best: Option<Shown>)
    ensures best.Some? ==> exists i: nat :: Matches(options, i, result, read, tolerance) && best == Some(options[i])
    ensures forall i: nat :: Matches(options, i, result, read, tolerance) ==> best == Some(options[i])
    ensures best.None? ==> forall i :: 0 <= i < |options| && Gap(options[i], result, read).Some? ==>
      Gap(options[i], result, read).value > tolerance
  {
    best := None;
    ghost var gaps := Gaps(options, result, read);
    var bestGap: Option<real> := None;
    ghost var at: nat := 0;
    var n := 0;
    while n < |options|
      invariant 0 <= n <= |options|
      invariant best.None? <==> bestGap.None?
      invariant best.None? ==> forall j :: 0 <= j < n ==> gaps[j].None?
      invariant best.Some? ==> Nearest(gaps, n, at) && best == Some(options[at]) && bestGap == gaps[at]
    {
      var option := options[n];
      var gap := Gap(option, result, read);
      assert gaps[n] == gap;
      n := n + 1;
      if gap.None? {
        continue;
      }
      if bestGap.None? || gap.value < bestGap.value {
        best, bestGap, at := Some(option), gap, n - 1;
      }
    }
    if bestGap.None? || bestGap.value > tolerance {
      best := None;
      forall i | 0 <= i < |options| && Gap(options[i], result, read).Some?
        ensures Gap(options[i], result, read).value > tolerance
      {
        assert gaps[i] == Gap(options[i], result, read);
      }
    } else {
      assert Matches(options, at, result, read, tolerance);
      forall i: nat | Matches(options, i, result, read, tolerance) ensures i == at {
        OneNearest(gaps, i, at);
      }
    }
  }

  lemma OneNearest(gaps: seq<Option<real>>, i: nat, j: nat)
    requires Nearest(gaps, |gaps|, i) && Nearest(gaps, |gaps|, j)
    ensures i == j
  {
  }

  lemma StepsOfGap(x: real, y: real, places: nat)
    ensures Steps(x, places) - Steps(y, places) == Steps(x - y, places)
    ensures RealAbs(Steps(x, places) - Steps(y, places)) == Steps(RealAbs(x - y), places)
  {
    ScaledDifference(x, y, Density(places));
  }

  lemma ScaledDifference(x: real, y: real, g: real)
    requires g > 0.0
    ensures x * g - y * g == (x - y) * g
    ensures RealAbs(x * g - y * g) == RealAbs(x - y) * g
  {
    DifferenceTimes(x, y, g);
    if x >= y { NonNegativeTimes(x - y, g); } else { NonNegativeTimes(y - x, g); }
  }

  lemma DifferenceTimes(x: real, y: real, g: real)
    ensures x * g - y * g == (x - y) * g
    ensures y * g - x * g == (y - x) * g
  {
  }

  lemma NonNegativeTimes(d: real, g: real)
    requires d >= 0.0 && g > 0.0
    ensures d * g >= 0.0
  {
  }

  lemma StepsOrder(x: real, y: real, places: nat)
    ensures Steps(x, places) < Steps(y, places) ==> x < y
  {
    if x >= y {
      DifferenceTimes(x, y, Density(places));
      NonNegativeTimes(x - y, Density(places));
    }
  }

  /** What the client reads off a label is the value the label was made from. */
  lemma LabelReads(options: seq<Choice>, j: nat, places: nat, printed: string, read: string)
    requires Agree(printed, read) && j < |options|
    ensures Reader(read)(Labels(options, places, printed)[j].text) == Some(Value(OnGrid(options[j].value, places)))
  {
    RoundTrip(OnGrid(options[j].value, places), printed, read);
  }

  lemma GapOfRead(option: Shown, result: real, read: string -> Option<real>, value: real)
    requires read(option.text) == Some(value)
    ensures Gap(option, result, read) == Some(RealAbs(value - result))
  {
  }

  /** An option's gap, measured in steps, is its distance from the result in steps. */
  lemma GapInSteps(options: seq<Choice>, j: nat, places: nat, result: real, printed: string, read: string)
    requires Agree(printed, read) && j < |options|
    ensures var gap := Gaps(Labels(options, places, printed), result, Reader(read))[j];
      gap.Some? && Steps(gap.value, places) == RealAbs(options[j].value as real - Steps(result, places))
  {
    var value := Value(OnGrid(options[j].value, places));
    LabelReads(options, j, places, printed, read);
    GapOfRead(Labels(options, places, printed)[j], result, Reader(read), value);
    StepsOfValue(options[j].value, places);
    StepsOfGap(value, result, places);
  }

  /** A result less than half a step from the answer has the answer's option closest, and no other. */
  lemma CalculatorFindsAnswer(b: Built, correct: int, places: nat, result: real, printed: string,
                             read: string, i: nat)
    requires WellBuilt(b, correct) && Agree(printed, read)
    requires RealAbs(correct as real - Steps(result, places)) < 0.5
    ensures Closest(Labels(b.options, places, printed), i, result, Reader(read))
       <==> i < 4 && b.options[i].id == b.correctId
  {
    var home := AnswerSlot(b, correct);
    var gaps := Gaps(Labels(b.options, places, printed), result, Reader(read));
    AllGapsInSteps(b.options, places, result, printed, read);
    GapsFavour(b.options, gaps, home, Steps(result, places), places);
    OnlyNearest(gaps, home, i);
  }

  lemma AllGapsInSteps(options: seq<Choice>, places: nat, result: real, printed: string, read: string)
    requires Agree(printed, read)
    ensures forall j :: 0 <= j < |options| ==>
      var gap := Gaps(Labels(options, places, printed), result, Reader(read))[j];
      gap.Some? && Steps(gap.value, places) == RealAbs(options[j].value as real - Steps(result, places))
  {
    forall j | 0 <= j < |options|
      ensures
        var gap := Gaps(Labels(options, places, printed), result, Reader(read))[j];
        gap.Some? && Steps(gap.value, places) == RealAbs(options[j].value as real - Steps(result, places))
    {
      GapInSteps(options, j, places, result, printed, read);
    }
  }

  lemma AnswerSlot(b: Built, correct: int) returns (home: nat)
    requires WellBuilt(b, correct)
    ensures home < 4 && b.options[home].value == correct
    ensures forall i :: 0 <= i < 4 ==> (b.options[i].id == b.correctId <==> i == home)
    ensures forall i :: 0 <= i < 4 && i != home ==> b.options[i].value != correct
  {
    home :| 0 <= home < 4 && b.options[home].id == b.correctId;
  }

  lemma GapsFavour(options: seq<Choice>, gaps: seq<Option<real>>, home: nat, x: real, places: nat)
    requires |gaps| == |options| && home < |options|
    requires RealAbs(options[home].value as real - x) < 0.5
    requires forall j :: 0 <= j < |options| && j != home ==> options[j].value != options[home].value
    requires forall j :: 0 <= j < |gaps| ==>
      gaps[j].Some? && Steps(gaps[j].value, places) == RealAbs(options[j].value as real - x)
    ensures forall j :: 0 <= j < |gaps| && j != home ==> gaps[home].value < gaps[j].value
  {
    forall j | 0 <= j < |gaps| && j != home ensures gaps[home].value < gaps[j].value {
      FartherByAStep(options[home].value, options[j].value, x);
      StepsOrder(gaps[home].value, gaps[j].value, places);
    }
  }

  lemma OnlyNearest(gaps: seq<Option<real>>, home: nat, i: nat)
    requires home < |gaps| && forall j :: 0 <= j < |gaps| ==> gaps[j].Some?
    requires forall j :: 0 <= j < |gaps| && j != home ==> gaps[home].value < gaps[j].value
    ensures Nearest(gaps, |gaps|, i) <==> i == home
  {
  }

  lemma FartherByAStep(near: int, far: int, x: real)
    requires near != far && RealAbs(near as real - x) < 0.5
    ensures RealAbs(near as real - x) < RealAbs(far as real - x)
  {
  }
}
