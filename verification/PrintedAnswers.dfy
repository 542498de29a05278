/** What the answer sheet of a printed exercise says. */
module PrintedAnswers {
  import opened Text
  import opened Sequences
  import opened Quiz
  import opened Reveal
  import opened Printing
  import opened Displays

  /** A quiz's printed answer, handed in as the reader of that sub-kind would. */
  function HandedIn(k: Kind, sheet: Fields): (answer: Fields) {
    match k
    case SingleChoice =>
      var ids := Field(sheet, "optionIds");
      map["optionId" := if ids.List? && |ids.items| == 1 then ids.items[0] else Null]
    case MultiSelect => map["optionIds" := Field(sheet, "optionIds")]
    case TrueFalse => map["value" := Field(sheet, "value")]
    case Ordering => map["order" := Field(sheet, "order")]
    case Matching => map["pairs" := Field(sheet, "pairs")]
  }

  /** The one key of a revealed answer that is handed in again. */
  function KeyOfKind(k: Kind): (key: string) {
    match k
    case SingleChoice => "optionId"
    case MultiSelect => "optionIds"
    case TrueFalse => "value"
    case Ordering => "order"
    case Matching => "pairs"
  }

  lemma RevealedKey(w: World, v: Variant, seed: int, answer: Fields)
    requires Fair(w) && Accepted(v) && GradeVariant(w, v, seed, answer).Graded?
    ensures
      var revealed := GradeVariant(w, v, seed, answer).revealed;
      Right(w, v, seed, map[KeyOfKind(v.kind) := Field(revealed, KeyOfKind(v.kind))])
  {
    var revealed := GradeVariant(w, v, seed, answer).revealed;
    RevealedIsRight(w, v, seed, answer);
    assert SubmissionFor(revealed) == Some(map[KeyOfKind(v.kind) := Field(revealed, KeyOfKind(v.kind))]);
    GradesExactlyTheRight(w, v, seed, SubmissionFor(revealed).value);
  }

  lemma SheetSays(w: World, v: Variant, seed: int, revealed: Fields)
    requires Fair(w)
    ensures
      var sheet := AnswerSheet(true, Payload(w, v, seed), revealed);
      && Field(sheet, "kind") == Str(KindName(v.kind))
      && HandedIn(v.kind, sheet) == map[KeyOfKind(v.kind) := Field(revealed, KeyOfKind(v.kind))]
  {
    var kind := KindName(v.kind);
    assert Field(Payload(w, v, seed), "kind") == Str(kind);
    assert KindName(SingleChoice)[0] == 's' && KindName(TrueFalse)[0] == 't' && KindName(MultiSelect)[1] == 'u'
        && KindName(Ordering)[0] == 'o' && KindName(Matching)[1] == 'a';
  }

  /** The printed answer of a quiz, handed in, is right for the very instance printed. */
  lemma PrintedQuizAnswer(p: Press, id: string, locale: string)
    requires Ready(p) && id in p.configs && p.configs[id].QuizConfig?
    ensures
      var (c, seed) := (p.configs[id], p.seedOf(p.registry.exerciseKeys[id]));
      var v := Chosen(p.w, c.variants, seed);
      PrintExercise(p, id, locale).Printed?
      && var sheet := PrintExercise(p, id, locale).sheet;
         && sheet.payload == Payload(p.w, v, seed) && sheet.seed == seed && sheet.id == id
         && Field(sheet.answer, "kind") == Str(KindName(v.kind))
         && Right(p.w, v, seed, HandedIn(v.kind, sheet.answer))
  {
    var (c, seed) := (p.configs[id], p.seedOf(p.registry.exerciseKeys[id]));
    var v := Chosen(p.w, c.variants, seed);
    assert Accepted(v);
    var submission := PrintedAnswerIsRight(p, id, locale);
    RevealedKey(p.w, v, seed, submission);
    SheetSays(p.w, v, seed, GradeVariant(p.w, v, seed, submission).revealed);
  }

  /** That of a calculation names the option the page shows the rounded result under, its text and its unit. */
  lemma PrintedCalculationAnswer(p: Press, id: string, locale: string) returns (i: nat)
    requires Ready(p) && id in p.configs && p.configs[id].CalcConfig?
    ensures
      var (c, seed) := (p.configs[id], p.seedOf(p.registry.exerciseKeys[id]));
      PrintExercise(p, id, locale).Printed?
      && var sheet := PrintExercise(p, id, locale).sheet;
         var rows := RowsAt(sheet.payload, "options");
         && sheet.payload == Generate(p.w, c, seed, locale) && i < |rows| && rows[i].Obj?
         && Field(sheet.answer, "kind") == Str("calculation")
         && Field(sheet.answer, "optionIds") == List([Field(rows[i].fields, "id")])
         && Field(rows[i].fields, "value") == Str(AnswerText(c, seed, locale))
         && Field(sheet.answer, "numericValue") == Str(AnswerText(c, seed, locale))
         && Field(sheet.answer, "unit") == c.unit
  {
    var (c, seed) := (p.configs[id], p.seedOf(p.registry.exerciseKeys[id]));
    var submission := PrintedAnswerIsRight(p, id, locale);
    CalcReveals(p.w, c, seed, locale, submission);
    CalcSheetSays(Generate(p.w, c, seed, locale), Grade(p.w, c, seed, submission, locale).revealed);
    i := AnswerIsShown(p.w, c, seed, locale);
  }

  lemma CalcSheetSays(payload: Fields, revealed: Fields)
    ensures
      var sheet := AnswerSheet(false, payload, revealed);
      && Field(sheet, "kind") == Str("calculation") && Field(sheet, "unit") == Field(payload, "unit")
      && Field(sheet, "optionIds") == List([Field(revealed, "optionId")])
      && Field(sheet, "numericValue") == Field(revealed, "value")
  {
  }

  lemma AnswerIsShown(w: World, c: Config, seed: int, locale: string) returns (i: nat)
    requires Fair(w) && c.CalcConfig?
    ensures
      var (payload, rows) := (Generate(w, c, seed, locale), RowsAt(Generate(w, c, seed, locale), "options"));
      && i < |rows| && rows[i].Obj? && Field(payload, "unit") == c.unit
      && Field(rows[i].fields, "id") == Str(BuiltFor(w, c, seed).correctId)
      && Field(rows[i].fields, "value") == Str(AnswerText(c, seed, locale))
  {
    i := AnswerRow(w, c, seed, locale);
    OptionsAreShown(w, c, seed, locale);
  }
}
