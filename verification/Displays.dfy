/**
 * What the reader sees of an instance, against what grading says of it: which text stands under which id.
 */
module Displays {
  import opened Text
  import opened Numbers
  import opened Sequences
  import opened Rounding
  import opened Options
  import opened Quiz
  import opened Reveal

  /** The row carries this id, and this text under `key`. */
  predicate Says(row: Json, id: string, key: string, text: string) {
    row.Obj? && Field(row.fields, "id") == Str(id) && Field(row.fields, key) == Str(text)
  }

  /** The rows of a list of the payload. */
  function RowsAt(payload: Fields, key: string): (rows: seq<Json>) {
    var list := Field(payload, key);
    if list.List? then list.items else []
  }

  // ---- calculations ----

  /** Under each option's id stands that option's value, printed for the locale. */
  lemma OptionsAreShown(w: World, c: Config, seed: int, locale: string)
    requires Fair(w) && c.CalcConfig?
    ensures
      var options := BuiltFor(w, c, seed).options;
      var rows := RowsAt(Generate(w, c, seed, locale), "options");
      && |rows| == |options| == 4
      && forall i :: 0 <= i < 4 ==>
           Says(rows[i], options[i].id, "value", FormatNumber(OnGrid(options[i].value, Grid(c.round)), locale))
  {
    BuiltWell(w, c, seed);
    RowsOfCalculation(w, c, seed, locale);
  }

  lemma BuiltWell(w: World, c: Config, seed: int)
    requires Fair(w) && c.CalcConfig?
    ensures WellBuilt(BuiltFor(w, c, seed), HalfEven(Steps(c.problem(seed).0, Grid(c.round))))
  {
    OptionsAreWellBuilt(c.problem(seed).0, c.problem(seed).1, c.round, w.shuffle(seed * 1000 + 7, 4));
  }

  lemma RowsOfCalculation(w: World, c: Config, seed: int, locale: string)
    requires Fair(w) && c.CalcConfig?
    ensures RowsAt(Generate(w, c, seed, locale), "options")
         == CalcRows(BuiltFor(w, c, seed).options, Grid(c.round), locale)
  {
  }

  lemma {:induction false} ValueUnderId(options: seq<Choice>, i: nat)
    requires i < |options| && forall j, k :: 0 <= j < k < |options| ==> options[j].id != options[k].id
    ensures ValueOf(options, options[i].id) == options[i].value
  {
    if i > 0 {
      assert options[0].id != options[i].id;
      assert options[1..][i - 1] == options[i];
      ValueUnderId(options[1..], i - 1);
    }
  }

  /** The print of the rounded result. */
  function AnswerText(c: Config, seed: int, locale: string): (s: string)
    requires c.CalcConfig?
  {
    FormatNumber(OnGrid(HalfEven(Steps(c.problem(seed).0, Grid(c.round))), Grid(c.round)), locale)
  }

  /** Choosing a row is right exactly when the row reads as the rounded result does; exactly one row does. */
  lemma RightRowReadsRight(w: World, c: Config, seed: int, locale: string, i: nat)
    requires Fair(w) && c.CalcConfig? && i < 4
    ensures
      var rows := RowsAt(Generate(w, c, seed, locale), "options");
      && |rows| == 4 && rows[i].Obj?
      && var o := Grade(w, c, seed, map["optionId" := Field(rows[i].fields, "id")], locale);
         o.Graded? && (o.correct <==> Field(rows[i].fields, "value") == Str(AnswerText(c, seed, locale)))
    ensures
      var rows := RowsAt(Generate(w, c, seed, locale), "options");
      exists j :: 0 <= j < |rows| && rows[j].Obj? && Field(rows[j].fields, "value") == Str(AnswerText(c, seed, locale))
  {
    var b := BuiltFor(w, c, seed);
    var rows := RowsAt(Generate(w, c, seed, locale), "options");
    OptionsAreShown(w, c, seed, locale);
    OptionReadsRight(w, c, seed, locale, i);
    CalcGrades(w, c, seed, locale, b.options[i].id);
    var home := AnswerRow(w, c, seed, locale);
    assert Says(rows[home], b.correctId, "value", AnswerText(c, seed, locale));
  }

  lemma AnswerRow(w: World, c: Config, seed: int, locale: string) returns (home: nat)
    requires Fair(w) && c.CalcConfig?
    ensures home < 4 == |BuiltFor(w, c, seed).options|
    ensures BuiltFor(w, c, seed).options[home].id == BuiltFor(w, c, seed).correctId
    ensures FormatNumber(OnGrid(BuiltFor(w, c, seed).options[home].value, Grid(c.round)), locale)
         == AnswerText(c, seed, locale)
  {
    var b := BuiltFor(w, c, seed);
    BuiltWell(w, c, seed);
    home :| 0 <= home < 4 && b.options[home].id == b.correctId;
    OptionReadsRight(w, c, seed, locale, home);
  }

  /** Whatever was answered, grading reveals the answer's id and the print of the rounded result. */
  lemma CalcReveals(w: World, c: Config, seed: int, locale: string, answer: Fields)
    requires Fair(w) && c.CalcConfig? && Grade(w, c, seed, answer, locale).Graded?
    ensures
      var revealed := Grade(w, c, seed, answer, locale).revealed;
      && Field(revealed, "optionId") == Str(BuiltFor(w, c, seed).correctId)
      && Field(revealed, "value") == Str(AnswerText(c, seed, locale))
  {
    var b := BuiltFor(w, c, seed);
    BuiltWell(w, c, seed);
    var home: nat :| home < 4 && b.options[home].id == b.correctId;
    ValueUnderId(b.options, home);
  }

  lemma OptionReadsRight(w: World, c: Config, seed: int, locale: string, i: nat)
    requires Fair(w) && c.CalcConfig? && i < 4
    ensures
      var b := BuiltFor(w, c, seed);
      && |b.options| == 4
      && (FormatNumber(OnGrid(b.options[i].value, Grid(c.round)), locale) == AnswerText(c, seed, locale)
          <==> b.options[i].id == b.correctId)
  {
    var places, b := Grid(c.round), BuiltFor(w, c, seed);
    BuiltWell(w, c, seed);
    PrinterInjective(OnGrid(b.options[i].value, places), OnGrid(HalfEven(Steps(c.problem(seed).0, places)), places),
                     locale);
  }

  /** The key quotes a label the option list shows, under the id it names and under no other. */
  lemma RevealedLabelIsShown(w: World, c: Config, seed: int, locale: string, answer: Fields, i: nat)
    requires Fair(w) && c.CalcConfig? && Grade(w, c, seed, answer, locale).Graded? && i < 4
    ensures
      var rows := RowsAt(Generate(w, c, seed, locale), "options");
      var revealed := Grade(w, c, seed, answer, locale).revealed;
      && |rows| == 4 && rows[i].Obj?
      && (Field(rows[i].fields, "id") == Field(revealed, "optionId")
          <==> Field(rows[i].fields, "value") == Field(revealed, "value"))
  {
    CalcReveals(w, c, seed, locale, answer);
    OptionsAreShown(w, c, seed, locale);
    OptionReadsRight(w, c, seed, locale, i);
  }

  // ---- quizzes ----

  /** Row `s` shows entry `i`. */
  predicate Shows(rows: seq<Json>, ids: seq<string>, texts: seq<string>, s: nat, i: nat) {
    s < |rows| && i < |ids| == |texts| && Says(rows[s], ids[i], "text", texts[i])
  }

  ghost predicate ShowsSome(rows: seq<Json>, ids: seq<string>, texts: seq<string>, s: nat) {
    exists i: nat :: Shows(rows, ids, texts, s, i)
  }

  ghost predicate IsShown(rows: seq<Json>, ids: seq<string>, texts: seq<string>, i: nat) {
    exists s: nat :: Shows(rows, ids, texts, s, i)
  }

  /** Every entry of a list is shown, its own text under its own id, and nothing else is. */
  ghost predicate ShowsAll(rows: seq<Json>, ids: seq<string>, texts: seq<string>) {
    && |rows| == |ids| == |texts|
    && (forall s: nat :: s < |rows| ==> ShowsSome(rows, ids, texts, s))
    && (forall i: nat :: i < |ids| ==> IsShown(rows, ids, texts, i))
  }

  lemma ShuffledShowsAll(rows: seq<Json>, ids: seq<string>, texts: seq<string>, order: seq<nat>)
    requires |ids| == |texts| && IsOrder(order, |ids|) && |rows| == |order|
    requires forall s :: 0 <= s < |rows| ==> Says(rows[s], ids[order[s]], "text", texts[order[s]])
    ensures ShowsAll(rows, ids, texts)
  {
    forall s: nat | s < |rows| ensures ShowsSome(rows, ids, texts, s) {
      assert Shows(rows, ids, texts, s, order[s]);
    }
    forall i: nat | i < |ids| ensures IsShown(rows, ids, texts, i) {
      var s := SlotShows(order, |ids|, i);
      assert Shows(rows, ids, texts, s, i);
    }
  }

  lemma SlotShows(order: seq<nat>, n: nat, i: nat) returns (s: nat)
    requires IsOrder(order, n) && i < n
    ensures s < n == |order| && order[s] == i
  {
    OrderIsOnto(order, n, i);
    s := IndexOf(order, i);
  }

  /** Where ids are unique, as the loader asks, the row with an id reads as the entry with that id. */
  lemma TextUnderId(rows: seq<Json>, ids: seq<string>, texts: seq<string>, s: nat, i: nat)
    requires ShowsAll(rows, ids, texts) && NoDup(ids) && s < |rows| && i < |ids|
    requires rows[s].Obj? && Field(rows[s].fields, "id") == Str(ids[i])
    ensures Field(rows[s].fields, "text") == Str(texts[i])
  {
    assert ShowsSome(rows, ids, texts, s);
    var j: nat :| Shows(rows, ids, texts, s, j);
  }

  lemma QuizOptionsAreShown(w: World, v: Variant, seed: int)
    requires Fair(w) && (v.kind.SingleChoice? || v.kind.MultiSelect?)
    ensures ShowsAll(RowsAt(Payload(w, v, seed), "options"), OptionIds(v),
                     seq(|v.options|, i requires 0 <= i < |v.options| => v.options[i].text))
  {
    var order := Order(w, |v.options|, seed, 0);
    var texts := seq(|v.options|, i requires 0 <= i < |v.options| => v.options[i].text);
    ShuffledShowsAll(OptionRows(v, order), OptionIds(v), texts, order);
  }

  lemma QuizItemsAreShown(w: World, v: Variant, seed: int)
    requires Fair(w) && v.kind.Ordering?
    ensures ShowsAll(RowsAt(Payload(w, v, seed), "items"), ItemIds(v.items),
                     seq(|v.items|, i requires 0 <= i < |v.items| => v.items[i].text))
  {
    var order := Order(w, |v.items|, seed, 0);
    var texts := seq(|v.items|, i requires 0 <= i < |v.items| => v.items[i].text);
    ShuffledShowsAll(ItemRows(v, order), ItemIds(v.items), texts, order);
  }

  /** Each pair's two halves are shown, and the answer grading reveals joins the ids they are shown under. */
  lemma PairsAreShown(w: World, v: Variant, seed: int, i: nat, answer: Fields) returns (s: nat, t: nat)
    requires Fair(w) && v.kind.Matching? && i < |v.pairs| && GradeVariant(w, v, seed, answer).Graded?
    ensures
      var (lefts, rights) := (RowsAt(Payload(w, v, seed), "lefts"), RowsAt(Payload(w, v, seed), "rights"));
      && s < |lefts| == |v.pairs| && t < |rights| == |v.pairs|
      && Says(lefts[s], LeftId(s), "text", v.pairs[i].left)
      && Says(rights[t], RightId(t), "text", v.pairs[i].right)
    ensures
      var pairs := Field(GradeVariant(w, v, seed, answer).revealed, "pairs");
      pairs.Obj? && Field(pairs.fields, LeftId(s)) == Str(RightId(t))
  {
    var n := |v.pairs|;
    var (lorder, rorder) := (Order(w, n, seed, 1), Order(w, n, seed, 2));
    s := SlotShows(lorder, n, i);
    t := SlotShows(rorder, n, i);
    JoinsSlots(w, v, seed, s, t);
    MatchingReveals(w, v, seed, answer, LeftId(s));
  }

  lemma JoinsSlots(w: World, v: Variant, seed: int, s: nat, t: nat)
    requires Fair(w) && s < |v.pairs| && t < |v.pairs|
    requires Order(w, |v.pairs|, seed, 1)[s] == Order(w, |v.pairs|, seed, 2)[t]
    ensures LeftId(s) in CorrectMap(w, v, seed) && CorrectMap(w, v, seed)[LeftId(s)] == RightId(t)
  {
    CorrectMapJoinsPairs(Order(w, |v.pairs|, seed, 1), Order(w, |v.pairs|, seed, 2), |v.pairs|);
  }

  lemma MatchingReveals(w: World, v: Variant, seed: int, answer: Fields, k: string)
    requires Fair(w) && v.kind.Matching? && GradeVariant(w, v, seed, answer).Graded? && k in CorrectMap(w, v, seed)
    ensures var pairs := Field(GradeVariant(w, v, seed, answer).revealed, "pairs");
      pairs.Obj? && Field(pairs.fields, k) == Str(CorrectMap(w, v, seed)[k])
  {
  }

  /** Of a generated quiz: options and items stand under their own ids, each with its own text. */
  lemma QuizIsShown(w: World, c: Config, seed: int, locale: string)
    requires Fair(w) && ValidConfig(c) && c.QuizConfig?
    ensures
      var (v, payload) := (Chosen(w, c.variants, seed), Generate(w, c, seed, locale));
      && (v.kind.SingleChoice? || v.kind.MultiSelect? ==>
            ShowsAll(RowsAt(payload, "options"), OptionIds(v),
                     seq(|v.options|, i requires 0 <= i < |v.options| => v.options[i].text)))
      && (v.kind.Ordering? ==>
            ShowsAll(RowsAt(payload, "items"), ItemIds(v.items),
                     seq(|v.items|, i requires 0 <= i < |v.items| => v.items[i].text)))
  {
    var v := Chosen(w, c.variants, seed);
    if v.kind.SingleChoice? || v.kind.MultiSelect? { QuizOptionsAreShown(w, v, seed); }
    if v.kind.Ordering? { QuizItemsAreShown(w, v, seed); }
  }
}
