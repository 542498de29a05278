/**
 * The course's exercises as print: one frozen instance each with its answer, or a named exclusion.
 * Quizzes and calculations; what a chart prints is not part of this model.
 */
module Printing {
  import opened Text
  import opened Sequences
  import opened Manifest
  import opened Quiz
  import opened Reveal

  // ---- the number an exercise prints as ----

  function LeadingDigits(s: string): (n: nat)
    ensures n <= |s| && AllDigits(s[..n]) && (n < |s| ==> !IsDigit(s[n]))
  {
    if s == "" || !IsDigit(s[0]) then 0
    else
      var n := 1 + LeadingDigits(s[1..]);
      assert forall i :: 0 < i < n ==> s[i] == s[1..][i - 1];
      assert n < |s| ==> s[n] == s[1..][n - 1];
      n
  }

  datatype Numbered = Numbered(major: nat, minor: nat)

  const MIDDLE := "-ex-"

  /** The two numbers of an id of the form `m<digits>-ex-<digits>`. */
  function NumbersIn(id: string): (r: Option<Numbered>) {
    if id == "" || id[0] != 'm' then None
    else
      var n := LeadingDigits(id[1..]);
      var (digits, rest) := (id[1..][..n], id[1..][n..]);
      if n == 0 || |rest| <= |MIDDLE| || rest[..|MIDDLE|] != MIDDLE || !AllDigits(rest[|MIDDLE|..]) then None
      else Some(Numbered(NatOf(digits), NatOf(rest[|MIDDLE|..])))
  }

  /** The reader-facing label: `m11-ex-5` prints as `11.5`; any other id as it is. */
  function PrintNumber(id: string): (s: string) {
    match NumbersIn(id)
    case None => id
    case Some(n) => Digits(n.major) + "." + Digits(n.minor)
  }

  /** Digits up to the point, and digits after it. */
  lemma {:induction false} PointSplits(a: string, b: string, c: string, d: string)
    requires AllDigits(a) && AllDigits(b) && AllDigits(c) && AllDigits(d) && a + "." + b == c + "." + d
    ensures a == c && b == d
  {
    var (s, t) := (a + "." + b, c + "." + d);
    assert s[|a|] == '.' && t[|c|] == '.' && !IsDigit('.');
    assert forall i :: 0 <= i < |a| ==> s[i] == a[i];
    assert forall i :: 0 <= i < |c| ==> t[i] == c[i];
    assert |a| == |c|;
    assert s[..|a|] == a && t[..|c|] == c && s[|a| + 1..] == b && t[|c| + 1..] == d;
  }

  lemma NumberText(a: Numbered, b: Numbered)
    requires Digits(a.major) + "." + Digits(a.minor) == Digits(b.major) + "." + Digits(b.minor)
    ensures a == b
  {
    PointSplits(Digits(a.major), Digits(a.minor), Digits(b.major), Digits(b.minor));
    DigitsInjective(a.major, b.major);
    DigitsInjective(a.minor, b.minor);
  }

  /** Two ids nothing in print tells apart. */
  predicate Confusable(a: string, b: string) {
    match (NumbersIn(a), NumbersIn(b))
    case (Some(m), Some(n)) => m == n
    case (Some(m), None) => b == Digits(m.major) + "." + Digits(m.minor)
    case (None, Some(n)) => a == Digits(n.major) + "." + Digits(n.minor)
    case (None, None) => a == b
  }

  /**
   * Ids print alike exactly when they hold the same two numbers, however padded, or one of them is raw and
   * written like the number the other prints as, or they are the same raw id.
   */
  lemma SameNumberIff(a: string, b: string)
    ensures PrintNumber(a) == PrintNumber(b) <==> Confusable(a, b)
  {
    if NumbersIn(a).Some? && NumbersIn(b).Some? && PrintNumber(a) == PrintNumber(b) {
      NumberText(NumbersIn(a).value, NumbersIn(b).value);
    }
  }

  /** So two different ids can print as one number. */
  lemma PaddedIdsPrintAlike()
    ensures "m1-ex-5" != "m01-ex-5" && PrintNumber("m1-ex-5") == PrintNumber("m01-ex-5")
  {
    var (a, b) := ("m1-ex-5", "m01-ex-5");
    assert a[1..][0] == '1' && a[1..][1] == '-' && b[1..][0] == '0' && b[1..][1] == '1' && b[1..][2] == '-';
    assert LeadingDigits(a[1..][1..]) == 0 && LeadingDigits(a[1..]) == 1;
    assert LeadingDigits(b[1..][1..][1..]) == 0 && LeadingDigits(b[1..][1..]) == 1 && LeadingDigits(b[1..]) == 2;
    assert a[2..][..4] == MIDDLE && b[3..][..4] == MIDDLE && a[2..][4..] == "5" && b[3..][4..] == "5";
    assert a[1..2] == "1" && b[1..3] == "01";
    assert "01"[..1] == "0" && "0"[..0] == "" && "1"[..0] == "";
    assert NatOf("1") == 1 && NatOf("01") == 1;
    assert |a| != |b|;
  }

  /** Nor need both be of the convention: an id may read like a number. */
  lemma RawIdPrintsAlike()
    ensures NumbersIn("1.5").None? && PrintNumber("1.5") == PrintNumber("m1-ex-5")
  {
    var a := "m1-ex-5";
    assert a[1..][0] == '1' && a[1..][1] == '-';
    assert LeadingDigits(a[1..][1..]) == 0 && LeadingDigits(a[1..]) == 1;
    assert a[2..][..4] == MIDDLE && a[2..][4..] == "5" && a[1..2] == "1";
    assert "1"[..0] == "" && "5"[..0] == "";
    assert NatOf("1") == 1 && NatOf("5") == 5;
    assert Digits(1) == "1" && Digits(5) == "5";
    assert "1" + "." + "5" == "1.5";
  }

  // ---- one exercise ----

  /** What is deployed: the authored configurations, the registry, and the seed each key prints at. */
  datatype Press = Press(w: World, configs: map<string, Config>, registry: Registry, seedOf: string -> int)

  ghost predicate Ready(p: Press) {
    Fair(p.w) && forall id :: id in p.configs ==> ValidConfig(p.configs[id]) && id in p.registry.exerciseKeys
  }

  datatype Sheet = Sheet(id: string, number: string, seed: int, payload: Fields, answer: Fields)
  datatype Exclusion = Exclusion(id: string, number: string, lessonId: string, kind: string, reason: string)
  datatype Outcome = Printed(sheet: Sheet) | Refused(reason: string)

  /** The answer in print: ids of the printed payload, and a calculation's value and unit as printed. */
  function AnswerSheet(quiz: bool, payload: Fields, revealed: Fields): (a: Fields) {
    if !quiz then
      map["kind" := Str("calculation"), "optionIds" := List([Field(revealed, "optionId")]),
          "numericValue" := Field(revealed, "value"), "unit" := Field(payload, "unit")]
    else
      var kind := Field(payload, "kind");
      map["kind" := kind] +
      if kind == Str("true_false") then map["value" := Field(revealed, "value")]
      else if kind == Str("multi_select") then map["optionIds" := Field(revealed, "optionIds")]
      else if kind == Str("ordering") then map["order" := Field(revealed, "order")]
      else if kind == Str("matching") then map["pairs" := Field(revealed, "pairs")]
      else map["optionIds" := List([Field(revealed, "optionId")])]
  }

  function PrintExercise(p: Press, id: string, locale: string): (o: Outcome)
    requires Ready(p)
  {
    if id !in p.configs then Refused("declared in the manifest but not authored yet")
    else
      var config := p.configs[id];
      var seed := p.seedOf(p.registry.exerciseKeys[id]);
      var payload := Generate(p.w, config, seed, locale);
      var revelation := RevealAnswer(p.w, config, seed, locale, payload);
      if revelation.Revealed? && revelation.result.Graded? then
        Printed(Sheet(id, PrintNumber(id), seed, payload,
                      AnswerSheet(config.QuizConfig?, payload, revelation.result.revealed)))
      else Refused("no revealed answer")
  }

  /** An exercise is excluded exactly when it is not authored: revealing never refuses one that is. */
  lemma OnlyUnauthoredExcluded(p: Press, id: string, locale: string)
    requires Ready(p)
    ensures PrintExercise(p, id, locale).Refused? <==> id !in p.configs
  {
    if id in p.configs {
      RevealNeverFails(p.w, p.configs[id], p.seedOf(p.registry.exerciseKeys[id]), locale);
    }
  }

  /** The answer printed is read off a submission that the very instance printed grades correct. */
  lemma PrintedAnswerIsRight(p: Press, id: string, locale: string) returns (submission: Fields)
    requires Ready(p) && id in p.configs
    ensures
      var (config, seed) := (p.configs[id], p.seedOf(p.registry.exerciseKeys[id]));
      var (o, payload) := (Grade(p.w, config, seed, submission, locale), Generate(p.w, config, seed, locale));
      && o.Graded? && o.correct
      && PrintExercise(p, id, locale)
         == Printed(Sheet(id, PrintNumber(id), seed, payload, AnswerSheet(config.QuizConfig?, payload, o.revealed)))
  {
    var (config, seed) := (p.configs[id], p.seedOf(p.registry.exerciseKeys[id]));
    RevealNeverFails(p.w, config, seed, locale);
    submission := RevealAnswer(p.w, config, seed, locale, Generate(p.w, config, seed, locale)).submission;
  }

  // ---- the whole course ----

  datatype LessonSheets = LessonSheets(lessonId: string, moduleId: string, exercises: seq<Sheet>)
  datatype Book = Book(lessons: seq<LessonSheets>, excluded: seq<Exclusion>)

  /** How each exercise comes out, as a lookup by display id. */
  type Outcomes = string -> Outcome

  function Printer(p: Press, locale: string): (f: Outcomes)
    requires Ready(p)
  {
    id => PrintExercise(p, id, locale)
  }

  function SheetsOf(f: Outcomes, exs: seq<Exercise>): (r: seq<Sheet>) {
    if exs == [] then []
    else
      var o := f(exs[|exs| - 1].id);
      SheetsOf(f, exs[..|exs| - 1]) + (if o.Printed? then [o.sheet] else [])
  }

  function ExcludedFrom(f: Outcomes, exs: seq<Exercise>, lessonId: string): (r: seq<Exclusion>) {
    if exs == [] then []
    else
      var (e, o) := (exs[|exs| - 1], f(exs[|exs| - 1].id));
      ExcludedFrom(f, exs[..|exs| - 1], lessonId)
        + (if o.Refused? then [Exclusion(e.id, PrintNumber(e.id), lessonId, e.kind, o.reason)] else [])
  }

  /** The book of a run of lessons, in manifest order; a lesson with nothing printed still appears. */
  function BookOf(f: Outcomes, lessons: seq<LessonAt>): (b: Book) {
    if lessons == [] then Book([], [])
    else
      var (before, l) := (BookOf(f, lessons[..|lessons| - 1]), lessons[|lessons| - 1]);
      Book(before.lessons + [LessonSheets(l.lesson.id, l.mod.id, SheetsOf(f, l.lesson.exercises))],
           before.excluded + ExcludedFrom(f, l.lesson.exercises, l.lesson.id))
  }

  lemma NextExercise(f: Outcomes, exs: seq<Exercise>, i: nat, lessonId: string, o: Outcome)
    requires i < |exs| && f(exs[i].id) == o
    ensures SheetsOf(f, exs[..i + 1]) == SheetsOf(f, exs[..i]) + (if o.Printed? then [o.sheet] else [])
    ensures ExcludedFrom(f, exs[..i + 1], lessonId)
         == ExcludedFrom(f, exs[..i], lessonId)
            + (if o.Refused? then [Exclusion(exs[i].id, PrintNumber(exs[i].id), lessonId, exs[i].kind, o.reason)]
               else [])
  {
    assert exs[..i + 1][..i] == exs[..i];
  }

  method PrintLesson(f: Outcomes, l: Lesson, before: seq<Exclusion>)
    returns (printed: seq<Sheet>, excluded: seq<Exclusion>)
    ensures printed == SheetsOf(f, l.exercises)
    ensures excluded == before + ExcludedFrom(f, l.exercises, l.id)
  {
    printed, excluded := [], before;
    var i := 0;
    while i < |l.exercises|
      invariant 0 <= i <= |l.exercises|
      invariant printed == SheetsOf(f, l.exercises[..i])
      invariant excluded == before + ExcludedFrom(f, l.exercises[..i], l.id)
    {
      var e := l.exercises[i];
      var o := f(e.id);
      NextExercise(f, l.exercises, i, l.id, o);
      match o {
        case Printed(sheet) => printed := printed + [sheet];
        case Refused(reason) => excluded := excluded + [Exclusion(e.id, PrintNumber(e.id), l.id, e.kind, reason)];
      }
      i := i + 1;
    }
    assert l.exercises[..i] == l.exercises;
  }

  method BuildPrintExercises(p: Press, c: Course, locale: string) returns (book: Book)
    requires Ready(p)
    ensures book == BookOf(Printer(p, locale), Lessons(c))
  {
    var f := Printer(p, locale);
    var lessons := Lessons(c);
    var sheets: seq<LessonSheets>, excluded: seq<Exclusion> := [], [];
    var i := 0;
    while i < |lessons|
      invariant 0 <= i <= |lessons| && Book(sheets, excluded) == BookOf(f, lessons[..i])
    {
      assert lessons[..i + 1][..i] == lessons[..i];
      var printed;
      printed, excluded := PrintLesson(f, lessons[i].lesson, excluded);
      sheets := sheets + [LessonSheets(lessons[i].lesson.id, lessons[i].mod.id, printed)];
      i := i + 1;
    }
    assert lessons[..i] == lessons;
    book := Book(sheets, excluded);
  }

  // ---- nothing is dropped quietly ----

  function SheetIds(sheets: seq<Sheet>): (r: multiset<string>) {
    if sheets == [] then multiset{} else SheetIds(sheets[..|sheets| - 1]) + multiset{sheets[|sheets| - 1].id}
  }

  function ExcludedIds(xs: seq<Exclusion>): (r: multiset<string>) {
    if xs == [] then multiset{} else ExcludedIds(xs[..|xs| - 1]) + multiset{xs[|xs| - 1].id}
  }

  function BookIds(lessons: seq<LessonSheets>): (r: multiset<string>) {
    if lessons == [] then multiset{} else BookIds(lessons[..|lessons| - 1]) + SheetIds(lessons[|lessons| - 1].exercises)
  }

  function IdsIn(exs: seq<Exercise>): (r: multiset<string>) {
    if exs == [] then multiset{} else IdsIn(exs[..|exs| - 1]) + multiset{exs[|exs| - 1].id}
  }

  function CourseIds(lessons: seq<LessonAt>): (r: multiset<string>) {
    if lessons == [] then multiset{}
    else CourseIds(lessons[..|lessons| - 1]) + IdsIn(lessons[|lessons| - 1].lesson.exercises)
  }

  lemma SheetMore(sheets: seq<Sheet>, x: Sheet)
    ensures SheetIds(sheets + [x]) == SheetIds(sheets) + multiset{x.id}
  {
    assert (sheets + [x])[..|sheets|] == sheets;
  }

  lemma ExcludedMore(xs: seq<Exclusion>, x: Exclusion)
    ensures ExcludedIds(xs + [x]) == ExcludedIds(xs) + multiset{x.id}
  {
    assert (xs + [x])[..|xs|] == xs;
  }

  lemma {:induction false} ExcludedJoin(a: seq<Exclusion>, b: seq<Exclusion>)
    ensures ExcludedIds(a + b) == ExcludedIds(a) + ExcludedIds(b)
  {
    if b == [] {
      assert a + b == a;
    } else {
      var (c, x) := (b[..|b| - 1], b[|b| - 1]);
      ExcludedJoin(a, c);
      ExcludedMore(a + c, x);
      LastOff(a, b);
      Regroup(ExcludedIds(a), ExcludedIds(c), multiset{}, multiset{x.id});
    }
  }

  /** A sheet carries the id it was printed for. */
  ghost predicate OwnSheets(f: Outcomes) {
    forall id :: f(id).Printed? ==> f(id).sheet.id == id
  }

  lemma OneMoreExercise(f: Outcomes, before: seq<Exercise>, e: Exercise, lessonId: string)
    requires OwnSheets(f)
    ensures
      var (sheets, excluded) := (SheetIds(SheetsOf(f, before + [e])),
                                 ExcludedIds(ExcludedFrom(f, before + [e], lessonId)));
      if f(e.id).Printed? then
        sheets == SheetIds(SheetsOf(f, before)) + multiset{e.id}
          && excluded == ExcludedIds(ExcludedFrom(f, before, lessonId))
      else
        sheets == SheetIds(SheetsOf(f, before))
          && excluded == ExcludedIds(ExcludedFrom(f, before, lessonId)) + multiset{e.id}
  {
    assert (before + [e])[..|before|] == before;
    var (s, x) := (SheetsOf(f, before), ExcludedFrom(f, before, lessonId));
    match f(e.id) {
      case Printed(sheet) =>
        SheetMore(s, sheet);
        assert x + [] == x;
      case Refused(reason) =>
        ExcludedMore(x, Exclusion(e.id, PrintNumber(e.id), lessonId, e.kind, reason));
        assert s + [] == s;
    }
  }

  lemma {:induction false} LessonConserves(f: Outcomes, exs: seq<Exercise>, lessonId: string)
    requires OwnSheets(f)
    ensures SheetIds(SheetsOf(f, exs)) + ExcludedIds(ExcludedFrom(f, exs, lessonId)) == IdsIn(exs)
  {
    if exs != [] {
      var (before, e) := (exs[..|exs| - 1], exs[|exs| - 1]);
      LessonConserves(f, before, lessonId);
      LastOff([], exs);
      OneMoreExercise(f, before, e, lessonId);
      var (s, x) := (SheetIds(SheetsOf(f, before)), ExcludedIds(ExcludedFrom(f, before, lessonId)));
      Regroup(s, x, multiset{e.id}, multiset{});
      Regroup(s, x, multiset{}, multiset{e.id});
    }
  }

  lemma BookMore(sheets: seq<LessonSheets>, x: LessonSheets)
    ensures BookIds(sheets + [x]) == BookIds(sheets) + SheetIds(x.exercises)
  {
    assert (sheets + [x])[..|sheets|] == sheets;
  }

  lemma Regroup(a: multiset<string>, b: multiset<string>, c: multiset<string>, d: multiset<string>)
    ensures (a + c) + (b + d) == (a + b) + (c + d)
  {
  }

  /** Every exercise of the lessons is printed or excluded by name, each as often as it is listed. */
  lemma {:induction false} BookConserves(f: Outcomes, lessons: seq<LessonAt>)
    requires OwnSheets(f)
    ensures BookIds(BookOf(f, lessons).lessons) + ExcludedIds(BookOf(f, lessons).excluded) == CourseIds(lessons)
  {
    if lessons != [] {
      var (before, l) := (BookOf(f, lessons[..|lessons| - 1]), lessons[|lessons| - 1]);
      var (sheets, excluded) := (SheetsOf(f, l.lesson.exercises), ExcludedFrom(f, l.lesson.exercises, l.lesson.id));
      BookConserves(f, lessons[..|lessons| - 1]);
      LessonConserves(f, l.lesson.exercises, l.lesson.id);
      ExcludedJoin(before.excluded, excluded);
      BookMore(before.lessons, LessonSheets(l.lesson.id, l.mod.id, sheets));
      Regroup(BookIds(before.lessons), ExcludedIds(before.excluded), SheetIds(sheets), ExcludedIds(excluded));
    }
  }

  /** Every lesson appears, in manifest order, with or without exercises. */
  lemma {:induction false} EveryLessonAppears(f: Outcomes, lessons: seq<LessonAt>, i: nat)
    requires i < |lessons|
    ensures |BookOf(f, lessons).lessons| == |lessons|
    ensures
      var l := lessons[i];
      BookOf(f, lessons).lessons[i] == LessonSheets(l.lesson.id, l.mod.id, SheetsOf(f, l.lesson.exercises))
  {
    var n := |lessons| - 1;
    BookLength(f, lessons[..n]);
    if i < n { EveryLessonAppears(f, lessons[..n], i); }
  }

  lemma {:induction false} BookLength(f: Outcomes, lessons: seq<LessonAt>)
    ensures |BookOf(f, lessons).lessons| == |lessons|
  {
    if lessons != [] { BookLength(f, lessons[..|lessons| - 1]); }
  }

  lemma PressOwnsSheets(p: Press, locale: string)
    requires Ready(p)
    ensures OwnSheets(Printer(p, locale))
    ensures forall id :: Printer(p, locale)(id).Refused? <==> id !in p.configs
  {
    var f := Printer(p, locale);
    forall id
      ensures f(id).Printed? ==> f(id).sheet.id == id
      ensures f(id).Refused? <==> id !in p.configs
    {
      assert f(id) == PrintExercise(p, id, locale);
      OnlyUnauthoredExcluded(p, id, locale);
    }
  }

  /**
   * Printing a course: every exercise is in its lesson with an answer, or excluded by name, once for each
   * time the manifest lists it; and what is excluded is exactly what is not authored.
   */
  lemma NothingIsDropped(p: Press, c: Course, locale: string)
    requires Ready(p)
    ensures var book := BookOf(Printer(p, locale), Lessons(c));
      BookIds(book.lessons) + ExcludedIds(book.excluded) == CourseIds(Lessons(c))
    ensures forall id :: Printer(p, locale)(id).Refused? <==> id !in p.configs
  {
    PressOwnsSheets(p, locale);
    BookConserves(Printer(p, locale), Lessons(c));
  }
}
