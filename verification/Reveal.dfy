/**
 * Reading an instance's ground truth by grading a throwaway answer, and publishing it only after it has
 * graded as correct itself. Quizzes and calculations; charts are not part of this model.
 */
module Reveal {
  import opened Text
  import opened Numbers
  import opened Sequences
  import opened Rounding
  import opened Options
  import opened Quiz

  /** A calculation: the worked problem a seed samples, its decimals, and what is printed around it. */
  datatype Config =
    | QuizConfig(variants: seq<Variant>)
    | CalcConfig(problem: int -> (real, seq<Candidate>), round: int, unit: Json, formula: string)

  ghost predicate ValidConfig(c: Config) {
    c.QuizConfig? ==> AcceptedBank(c.variants)
  }

  // ---- calculations ----

  function BuiltFor(w: World, c: Config, seed: int): (b: Built)
    requires Fair(w) && c.CalcConfig?
  {
    BuildOptions(c.problem(seed).0, c.problem(seed).1, Grid(c.round), w.shuffle(seed * 1000 + 7, 4))
  }

  function ValueText(value: int, places: nat, locale: string): (s: string) {
    FormatNumber(OnGrid(value, places), locale)
  }

  function CalcRows(options: seq<Choice>, places: nat, locale: string): (r: seq<Json>)
    ensures |r| == |options|
  {
    seq(|options|, i requires 0 <= i < |options| =>
      Obj(map["id" := Str(options[i].id), "value" := Str(ValueText(options[i].value, places, locale))]))
  }

  /** The value shown under an id; the id is always one of the shown ones. */
  function ValueOf(options: seq<Choice>, id: string): (v: int) {
    if options == [] then 0
    else if options[0].id == id then options[0].value
    else ValueOf(options[1..], id)
  }

  // ---- the generator contract ----

  function Generate(w: World, c: Config, seed: int, locale: string): (payload: Fields)
    requires Fair(w) && ValidConfig(c)
  {
    match c
    case QuizConfig(variants) => Payload(w, Chosen(w, variants, seed), seed)
    case CalcConfig(_, round, unit, formula) =>
      map["kind" := Str("multiple_choice"),
          "options" := List(CalcRows(BuiltFor(w, c, seed).options, Grid(round), locale)),
          "unit" := unit,
          "formula" := Str(formula)]
  }

  function Grade(w: World, c: Config, seed: int, answer: Fields, locale: string): (o: Outcome)
    requires Fair(w) && ValidConfig(c)
  {
    match c
    case QuizConfig(variants) =>
      assert Accepted(Chosen(w, variants, seed));
      GradeVariant(w, Chosen(w, variants, seed), seed, answer)
    case CalcConfig(_, round, _, _) =>
      var chosen := Field(answer, "optionId");
      if !chosen.Str? then Invalid
      else
        var b := BuiltFor(w, c, seed);
        Graded(chosen.s == b.correctId,
               map["optionId" := Str(b.correctId),
                   "value" := Str(ValueText(ValueOf(b.options, b.correctId), Grid(round), locale))])
  }

  // ---- throwaway answers ----

  function IdOf(row: Json): (id: string)
    requires row.Obj?
  {
    if "id" in row.fields && row.fields["id"].Str? then row.fields["id"].s else ""
  }

  function FirstOptionId(payload: Fields, key: string): (id: string) {
    var options := Field(payload, key);
    if options.List? && options.items != [] && options.items[0].Obj? then IdOf(options.items[0]) else ""
  }

  function Ids(rows: seq<Json>): (r: seq<string>) {
    if rows == [] then []
    else (if rows[0].Obj? then [IdOf(rows[0])] else []) + Ids(rows[1..])
  }

  function IdsAt(payload: Fields, key: string): (r: seq<string>) {
    var options := Field(payload, key);
    if options.List? then Ids(options.items) else []
  }

  /** `dict(zip(lefts, rights))`, later entries winning. */
  function Zip(lefts: seq<string>, rights: seq<string>): (m: Fields) {
    if lefts == [] || rights == [] then map[]
    else map[lefts[0] := Str(rights[0])] + Zip(lefts[1..], rights[1..])
  }

  /** An answer of the right shape for this payload. */
  function DummyAnswer(w: World, payload: Fields): (a: Fields) {
    if "choices" in payload then
      var choices := payload["choices"];
      var first := if choices.List? && choices.items != [] then w.show(choices.items[0]) else "none";
      map["divergence" := Str(first), "label" := Str(first)]
    else
      var kind := Field(payload, "kind");
      if kind == Str("true_false") then map["value" := Bool(false)]
      else if kind == Str("multi_select") then
        map["optionIds" := List([Str(FirstOptionId(payload, "options"))])]
      else if kind == Str("ordering") then map["order" := List(Quoted(IdsAt(payload, "items")))]
      else if kind == Str("matching") then
        map["pairs" := Obj(Zip(IdsAt(payload, "lefts"), IdsAt(payload, "rights")))]
      else if "options" in payload then map["optionId" := Str(FirstOptionId(payload, "options"))]
      else map["value" := Bool(false)]
  }

  /** The stand-in for an unanswered exam question. */
  function SentinelAnswer(quiz: bool, payload: Fields): (a: Fields) {
    if !quiz then map["optionId" := Str("")]
    else
      var kind := Field(payload, "kind");
      if kind == Str("multi_select") then map["optionIds" := List([])]
      else if kind == Str("true_false") then map["value" := Bool(false)]
      else if kind == Str("ordering") then map["order" := List([])]
      else if kind == Str("matching") then map["pairs" := Obj(map[])]
      else map["optionId" := Str("")]
  }

  /** The first answerable key of a revealed answer, turned back into an answer. */
  function SubmissionFor(revealed: Fields): (a: Option<Fields>) {
    if "optionId" in revealed then Some(map["optionId" := revealed["optionId"]])
    else if "optionIds" in revealed then Some(map["optionIds" := revealed["optionIds"]])
    else if "order" in revealed then Some(map["order" := revealed["order"]])
    else if "pairs" in revealed then Some(map["pairs" := revealed["pairs"]])
    else if "divergence" in revealed then Some(map["divergence" := revealed["divergence"]])
    else if "label" in revealed then Some(map["label" := revealed["label"]])
    else if "value" in revealed then Some(map["value" := revealed["value"]])
    else None
  }

  datatype Revelation =
    | Revealed(submission: Fields, result: Outcome)
    | InvalidAnswer
    | NoAnswerableKey
    | NotAccepted(submission: Fields)

  /** Grade a throwaway answer, turn the revealed answer around, and grade that too. */
  function RevealAnswer(w: World, c: Config, seed: int, locale: string, payload: Fields): (r: Revelation)
    requires Fair(w) && ValidConfig(c)
  {
    match Grade(w, c, seed, DummyAnswer(w, payload), locale)
    case Invalid => InvalidAnswer
    case Graded(_, revealed) =>
      match SubmissionFor(revealed)
      case None => NoAnswerableKey
      case Some(submission) =>
        match Grade(w, c, seed, submission, locale)
        case Invalid => InvalidAnswer
        case Graded(correct, again) =>
          if correct then Revealed(submission, Graded(correct, again)) else NotAccepted(submission)
  }

  // ---- which answers are right ----

  /** The answers a variant accepts, said without grading. */
  ghost predicate Right(w: World, v: Variant, seed: int, answer: Fields)
    requires Fair(w)
  {
    match v.kind
    case SingleChoice =>
      exists i :: 0 <= i < |v.options| && v.options[i].correct && Field(answer, "optionId") == Str(v.options[i].id)
    case MultiSelect =>
      var ids := Field(answer, "optionIds");
      && ids.List?
      && (forall x :: x in ids.items ==>
           exists i :: 0 <= i < |v.options| && v.options[i].correct && x == Str(v.options[i].id))
      && (forall i :: 0 <= i < |v.options| && v.options[i].correct ==> Str(v.options[i].id) in ids.items)
    case TrueFalse => v.answer.Some? && Field(answer, "value") == Bool(v.answer.value)
    case Ordering =>
      var ids := Field(answer, "order");
      && ids.List? && |ids.items| == |v.items|
      && (forall i :: 0 <= i < |v.items| ==>
           1 <= v.items[i].position <= |v.items| && ids.items[v.items[i].position - 1] == Str(v.items[i].id))
    case Matching =>
      var pairs := Field(answer, "pairs");
      && pairs.Obj?
      && JoinsPairs(Quiz.Shown(w, pairs.fields), Order(w, |v.pairs|, seed, 1), Order(w, |v.pairs|, seed, 2))
  }

  lemma SingleIsRight(v: Variant, id: string)
    requires v.kind.SingleChoice? && Accepted(v)
    ensures id == CorrectIds(v.options)[0]
       <==> exists i :: 0 <= i < |v.options| && v.options[i].correct && v.options[i].id == id
  {
    CorrectIdsAreMarked(v.options, id);
    assert id in CorrectIds(v.options) <==> id == CorrectIds(v.options)[0];
  }

  lemma MultiIsRight(v: Variant, items: seq<Json>)
    requires AllStrings(items)
    ensures Elements(Strings(items)) == Elements(CorrectIds(v.options)) <==>
      (forall x :: x in items ==>
         exists i :: 0 <= i < |v.options| && v.options[i].correct && x == Str(v.options[i].id))
      && (forall i :: 0 <= i < |v.options| && v.options[i].correct ==> Str(v.options[i].id) in items)
  {
    var given, right := Strings(items), CorrectIds(v.options);
    forall x ensures x in given <==> Str(x) in items {
      if x in given { var k :| 0 <= k < |given| && given[k] == x; assert items[k] == Str(x); }
      if Str(x) in items { var k :| 0 <= k < |items| && items[k] == Str(x); assert given[k] == x; }
    }
    forall x ensures x in right <==> exists i :: 0 <= i < |v.options| && v.options[i].correct && v.options[i].id == x {
      CorrectIdsAreMarked(v.options, x);
    }
    if Elements(given) == Elements(right) {
      forall x | x in items
        ensures exists i :: 0 <= i < |v.options| && v.options[i].correct && x == Str(v.options[i].id)
      {
        assert x.s in Elements(given);
        assert x.s in right;
      }
      forall i | 0 <= i < |v.options| && v.options[i].correct ensures Str(v.options[i].id) in items {
        assert v.options[i].id in right;
        assert v.options[i].id in Elements(right);
      }
    }
    if (forall x :: x in items ==>
         exists i :: 0 <= i < |v.options| && v.options[i].correct && x == Str(v.options[i].id))
       && (forall i :: 0 <= i < |v.options| && v.options[i].correct ==> Str(v.options[i].id) in items)
    {
      forall x ensures x in Elements(given) <==> x in Elements(right) {
        if x in given { assert Str(x) in items; }
      }
    }
  }

  /** Each item sits where its position says. */
  lemma ItemInPlace(v: Variant, i: nat)
    requires v.kind.Ordering? && Accepted(v) && i < |v.items|
    ensures |CorrectOrder(v.items)| == |v.items|
    ensures 1 <= v.items[i].position <= |v.items|
    ensures CorrectOrder(v.items)[v.items[i].position - 1] == v.items[i].id
  {
    var s := Sort(v.items, ByPosition());
    SortPermutes(v.items, ByPosition());
    assert v.items[i] in s;
    var k: nat :| k < |s| && s[k] == v.items[i];
    OrderingIsByPosition(v, k);
  }

  ghost predicate InPlace(v: Variant, ids: seq<string>) {
    |ids| == |v.items| && forall i :: 0 <= i < |v.items| ==>
      1 <= v.items[i].position <= |v.items| && ids[v.items[i].position - 1] == v.items[i].id
  }

  lemma OrderingIsRight(v: Variant, ids: seq<string>)
    requires v.kind.Ordering? && Accepted(v)
    ensures ids == CorrectOrder(v.items) <==> InPlace(v, ids)
  {
    ItemInPlace(v, 0);
    forall i: nat | i < |v.items|
      ensures 1 <= v.items[i].position <= |v.items|
      ensures CorrectOrder(v.items)[v.items[i].position - 1] == v.items[i].id
    {
      ItemInPlace(v, i);
    }
    if InPlace(v, ids) {
      forall k: nat | k < |ids| ensures ids[k] == CorrectOrder(v.items)[k] {
        OrderingIsByPosition(v, k);
        var i :| 0 <= i < |v.items| && v.items[i] == Sort(v.items, ByPosition())[k];
      }
    }
  }

  /** Grading accepts exactly the right answers, whatever else the answer carries. */
  lemma GradesExactlyTheRight(w: World, v: Variant, seed: int, answer: Fields)
    requires Fair(w) && Accepted(v)
    ensures GradeVariant(w, v, seed, answer).Graded? && GradeVariant(w, v, seed, answer).correct
       <==> Right(w, v, seed, answer)
  {
    match v.kind
    case SingleChoice =>
      var selected := Field(answer, "optionId");
      if selected.Str? { SingleIsRight(v, selected.s); }
    case MultiSelect =>
      var selected := Field(answer, "optionIds");
      if selected.List? {
        if AllStrings(selected.items) { MultiIsRight(v, selected.items); }
        else {
          var k :| 0 <= k < |selected.items| && !selected.items[k].Str?;
          assert selected.items[k] in selected.items;
        }
      }
    case TrueFalse =>
    case Ordering =>
      var order := Field(answer, "order");
      if order.List? {
        if AllStrings(order.items) {
          OrderingIsRight(v, Strings(order.items));
          StringsInPlace(v, order.items);
        } else if |order.items| == |v.items| {
          OrderingNeedsStrings(v, order.items);
        }
      }
    case Matching =>
      var pairs := Field(answer, "pairs");
      var n := |v.pairs|;
      var lorder, rorder := Order(w, n, seed, 1), Order(w, n, seed, 2);
      CorrectMapJoinsPairs(lorder, rorder, n);
      if pairs.Obj? && JoinsPairs(Quiz.Shown(w, pairs.fields), lorder, rorder) {
        JoinIsUniqueBijection(Quiz.Shown(w, pairs.fields), CorrectMap(w, v, seed), lorder, rorder);
      }
  }

  lemma StringsInPlace(v: Variant, items: seq<Json>)
    requires AllStrings(items)
    ensures InPlace(v, Strings(items)) <==>
      (|items| == |v.items| && forall i :: 0 <= i < |v.items| ==>
         1 <= v.items[i].position <= |v.items| && items[v.items[i].position - 1] == Str(v.items[i].id))
  {
  }

  lemma OrderingNeedsStrings(v: Variant, items: seq<Json>)
    requires v.kind.Ordering? && Accepted(v) && |items| == |v.items| && !AllStrings(items)
    ensures exists i ::
      (0 <= i < |v.items|
       && !(1 <= v.items[i].position <= |v.items| && items[v.items[i].position - 1] == Str(v.items[i].id)))
  {
    var k: nat :| k < |items| && !items[k].Str?;
    OrderingIsByPosition(v, k);
    var s := Sort(v.items, ByPosition());
    var i :| 0 <= i < |v.items| && v.items[i] == s[k];
  }

  // ---- revealing ----

  /** The throwaway answer always has a shape grading accepts. */
  lemma DummyIsGradable(w: World, v: Variant, seed: int)
    requires Fair(w) && Accepted(v)
    ensures GradeVariant(w, v, seed, DummyAnswer(w, Payload(w, v, seed))).Graded?
  {
  }

  /** What grading reveals, turned around, grades as correct. */
  lemma RevealedIsRight(w: World, v: Variant, seed: int, answer: Fields)
    requires Fair(w) && Accepted(v) && GradeVariant(w, v, seed, answer).Graded?
    ensures var submission := SubmissionFor(GradeVariant(w, v, seed, answer).revealed);
      && submission.Some?
      && GradeVariant(w, v, seed, submission.value).Graded?
      && GradeVariant(w, v, seed, submission.value).correct
  {
    match v.kind
    case SingleChoice =>
    case MultiSelect =>
      var right := CorrectIds(v.options);
      SortPermutes(right, LexOrder());
      assert Elements(Sort(right, LexOrder())) == Elements(right);
    case TrueFalse =>
    case Ordering =>
    case Matching =>
      var m := CorrectMap(w, v, seed);
      assert Quiz.Shown(w, QuotedMap(m)) == m;
  }

  /** For every accepted configuration and every draw, `reveal` publishes an answer that grades correct. */
  lemma RevealNeverFails(w: World, c: Config, seed: int, locale: string)
    requires Fair(w) && ValidConfig(c)
    ensures var r := RevealAnswer(w, c, seed, locale, Generate(w, c, seed, locale));
      && r.Revealed? && r.result.Graded? && r.result.correct
      && Grade(w, c, seed, r.submission, locale) == r.result
  {
    match c
    case QuizConfig(variants) =>
      var v := Chosen(w, variants, seed);
      assert Accepted(v);
      var dummy := DummyAnswer(w, Payload(w, v, seed));
      DummyIsGradable(w, v, seed);
      RevealedIsRight(w, v, seed, dummy);
    case CalcConfig(_, _, _, _) => CalcRevealNeverFails(w, c, seed, locale);
  }

  lemma CalcRevealNeverFails(w: World, c: Config, seed: int, locale: string)
    requires Fair(w) && c.CalcConfig?
    ensures var r := RevealAnswer(w, c, seed, locale, Generate(w, c, seed, locale));
      && r.Revealed? && r.result.Graded? && r.result.correct
      && Grade(w, c, seed, r.submission, locale) == r.result
  {
    var payload := Generate(w, c, seed, locale);
    CalcDummy(w, payload);
    CalcGrades(w, c, seed, locale, FirstOptionId(payload, "options"));
    CalcGrades(w, c, seed, locale, BuiltFor(w, c, seed).correctId);
  }

  lemma CalcDummy(w: World, payload: Fields)
    requires "choices" !in payload && "options" in payload && Field(payload, "kind") == Str("multiple_choice")
    ensures DummyAnswer(w, payload) == map["optionId" := Str(FirstOptionId(payload, "options"))]
  {
  }

  /** Choosing an option of a calculation is right exactly when it is the answer's. */
  lemma CalcGrades(w: World, c: Config, seed: int, locale: string, id: string)
    requires Fair(w) && c.CalcConfig?
    ensures var o := Grade(w, c, seed, map["optionId" := Str(id)], locale);
      && o.Graded? && (o.correct <==> id == BuiltFor(w, c, seed).correctId)
      && SubmissionFor(o.revealed) == Some(map["optionId" := Str(BuiltFor(w, c, seed).correctId)])
  {
    assert Field(map["optionId" := Str(id)], "optionId") == Str(id);
  }

  /** Where a blank stand-in happens to be the right answer. */
  ghost predicate BlankIsRight(v: Variant) {
    || (v.kind.TrueFalse? && v.answer == Some(false))
    || (v.kind.SingleChoice? && "" in CorrectIds(v.options))
  }

  /** The stand-in for each sub-kind. */
  function Blank(k: Kind): (a: Fields) {
    match k
    case SingleChoice => map["optionId" := Str("")]
    case MultiSelect => map["optionIds" := List([])]
    case TrueFalse => map["value" := Bool(false)]
    case Ordering => map["order" := List([])]
    case Matching => map["pairs" := Obj(map[])]
  }

  lemma SentinelIsBlank(w: World, v: Variant, seed: int)
    requires Fair(w)
    ensures SentinelAnswer(true, Payload(w, v, seed)) == Blank(v.kind)
  {
    assert Field(Payload(w, v, seed), "kind") == Str(KindName(v.kind));
    KindNamesDiffer();
  }

  lemma KindNamesDiffer()
    ensures forall j: Kind, k: Kind :: KindName(j) == KindName(k) ==> j == k
  {
    assert KindName(SingleChoice)[0] == 's' && KindName(MultiSelect)[0] == 'm' && KindName(TrueFalse)[0] == 't';
    assert KindName(Ordering)[0] == 'o' && KindName(Matching)[0] == 'm' && KindName(Matching)[1] == 'a'
      && KindName(MultiSelect)[1] == 'u';
  }

  lemma BlankChoiceGrade(w: World, v: Variant, seed: int)
    requires Fair(w) && Accepted(v) && (v.kind.SingleChoice? || v.kind.TrueFalse?)
    ensures GradeVariant(w, v, seed, Blank(v.kind)).Graded?
    ensures GradeVariant(w, v, seed, Blank(v.kind)).correct <==> BlankIsRight(v)
  {
    if v.kind.SingleChoice? {
      assert "" in CorrectIds(v.options) <==> CorrectIds(v.options)[0] == "";
      assert Field(Blank(v.kind), "optionId") == Str("");
    } else {
      assert Field(Blank(v.kind), "value") == Bool(false);
    }
  }

  lemma BlankListGrade(w: World, v: Variant, seed: int)
    requires Fair(w) && Accepted(v) && (v.kind.MultiSelect? || v.kind.Ordering?)
    ensures GradeVariant(w, v, seed, Blank(v.kind)).Graded? && !GradeVariant(w, v, seed, Blank(v.kind)).correct
  {
    if v.kind.MultiSelect? {
      BlankSelectionIsWrong(v);
      assert Field(Blank(v.kind), "optionIds") == List([]);
    } else {
      BlankOrderingIsWrong(v);
      assert Field(Blank(v.kind), "order") == List([]);
    }
  }

  lemma BlankMatchingGrade(w: World, v: Variant, seed: int)
    requires Fair(w) && Accepted(v) && v.kind.Matching?
    ensures GradeVariant(w, v, seed, Blank(v.kind)).Graded? && !GradeVariant(w, v, seed, Blank(v.kind)).correct
  {
    BlankMatchingIsWrong(w, v, seed);
    assert Field(Blank(v.kind), "pairs") == Obj(map[]);
  }

  /** A quiz sentinel is gradable, and grades correct exactly where blank is right. */
  lemma QuizSentinel(w: World, v: Variant, seed: int)
    requires Fair(w) && Accepted(v)
    ensures var o := GradeVariant(w, v, seed, SentinelAnswer(true, Payload(w, v, seed)));
      o.Graded? && (o.correct <==> BlankIsRight(v))
  {
    SentinelIsBlank(w, v, seed);
    match v.kind {
      case SingleChoice => BlankChoiceGrade(w, v, seed);
      case TrueFalse => BlankChoiceGrade(w, v, seed);
      case MultiSelect => BlankListGrade(w, v, seed);
      case Ordering => BlankListGrade(w, v, seed);
      case Matching => BlankMatchingGrade(w, v, seed);
    }
  }

  lemma BlankSelectionIsWrong(v: Variant)
    requires CorrectIds(v.options) != []
    ensures Elements(Strings([])) != Elements(CorrectIds(v.options))
  {
    assert CorrectIds(v.options)[0] in Elements(CorrectIds(v.options));
    assert Strings([]) == [];
  }

  lemma BlankOrderingIsWrong(v: Variant)
    requires v.items != []
    ensures Strings([]) != CorrectOrder(v.items)
  {
    SortPermutes(v.items, ByPosition());
    assert |Strings([])| == 0;
  }

  lemma BlankMatchingIsWrong(w: World, v: Variant, seed: int)
    requires Fair(w) && v.kind.Matching? && v.pairs != []
    ensures Quiz.Shown(w, map[]) != CorrectMap(w, v, seed)
  {
    var n := |v.pairs|;
    CorrectMapJoinsPairs(Order(w, n, seed, 1), Order(w, n, seed, 2), n);
    assert LeftId(0) in CorrectMap(w, v, seed);
    assert LeftId(0) !in Quiz.Shown(w, map[]);
  }

  /** A sentinel is gradable for every exercise, and grades correct exactly where blank is right. */
  lemma SentinelMayGradeCorrect(w: World, c: Config, seed: int, locale: string)
    requires Fair(w) && ValidConfig(c)
    ensures var o := Grade(w, c, seed, SentinelAnswer(c.QuizConfig?, Generate(w, c, seed, locale)), locale);
      o.Graded? && (o.correct <==> c.QuizConfig? && BlankIsRight(Chosen(w, c.variants, seed)))
  {
    match c
    case QuizConfig(variants) =>
      assert Accepted(Chosen(w, variants, seed));
      QuizSentinel(w, Chosen(w, variants, seed), seed);
    case CalcConfig(_, _, _, _) =>
      assert BuiltFor(w, c, seed).correctId[0] == 'o';
      assert Field(map["optionId" := Str("")], "optionId") == Str("");
  }

  /** A revealed quiz answer only names ids the page shows. */
  lemma RevealedIdsAreShown(w: World, v: Variant, seed: int)
    requires Fair(w) && Accepted(v)
    ensures var payload := Payload(w, v, seed);
      match v.kind
      case SingleChoice => forall id :: id in CorrectIds(v.options) ==> id in IdsAt(payload, "options")
      case MultiSelect => forall id :: id in CorrectIds(v.options) ==> id in IdsAt(payload, "options")
      case TrueFalse => true
      case Ordering => forall id :: id in CorrectOrder(v.items) ==> id in IdsAt(payload, "items")
      case Matching => forall k :: k in CorrectMap(w, v, seed) ==>
        k in IdsAt(payload, "lefts") && CorrectMap(w, v, seed)[k] in IdsAt(payload, "rights")
  {
    match v.kind
    case SingleChoice =>
      forall id | id in CorrectIds(v.options) ensures id in IdsAt(Payload(w, v, seed), "options") {
        ShownOptions(w, v, seed, id);
      }
    case MultiSelect =>
      forall id | id in CorrectIds(v.options) ensures id in IdsAt(Payload(w, v, seed), "options") {
        ShownOptions(w, v, seed, id);
      }
    case TrueFalse =>
    case Ordering =>
      forall id | id in CorrectOrder(v.items) ensures id in IdsAt(Payload(w, v, seed), "items") {
        ShownItems(w, v, seed, id);
      }
    case Matching =>
      forall k | k in CorrectMap(w, v, seed)
        ensures k in IdsAt(Payload(w, v, seed), "lefts")
        ensures CorrectMap(w, v, seed)[k] in IdsAt(Payload(w, v, seed), "rights")
      {
        ShownPairs(w, v, seed, k);
      }
  }

  lemma ShownItems(w: World, v: Variant, seed: int, id: string)
    requires Fair(w) && v.kind.Ordering? && id in CorrectOrder(v.items)
    ensures id in IdsAt(Payload(w, v, seed), "items")
  {
    var order := Order(w, |v.items|, seed, 0);
    var i := OrderedItem(v.items, id);
    OrderIsOnto(order, |v.items|, i);
    IdsAreThere(ItemRows(v, order), IndexOf(order, i));
  }

  lemma OrderedItem(items: seq<OrderItem>, id: string) returns (i: nat)
    requires id in CorrectOrder(items)
    ensures i < |items| && items[i].id == id
  {
    var s := Sort(items, ByPosition());
    SortPermutes(items, ByPosition());
    var k :| 0 <= k < |s| && s[k].id == id;
    assert s[k] in items;
    i :| 0 <= i < |items| && items[i] == s[k];
  }

  lemma SlotsShown(w: World, v: Variant, seed: int, s: nat)
    requires Fair(w) && v.kind.Matching? && s < |v.pairs|
    ensures LeftId(s) in IdsAt(Payload(w, v, seed), "lefts")
    ensures RightId(s) in IdsAt(Payload(w, v, seed), "rights")
  {
    var n := |v.pairs|;
    IdsAreThere(LeftRows(v, Order(w, n, seed, 1)), s);
    IdsAreThere(RightRows(v, Order(w, n, seed, 2)), s);
  }

  lemma ShownPairs(w: World, v: Variant, seed: int, k: string)
    requires Fair(w) && v.kind.Matching? && k in CorrectMap(w, v, seed)
    ensures k in IdsAt(Payload(w, v, seed), "lefts")
    ensures CorrectMap(w, v, seed)[k] in IdsAt(Payload(w, v, seed), "rights")
  {
    var n := |v.pairs|;
    var (lorder, rorder) := (Order(w, n, seed, 1), Order(w, n, seed, 2));
    OrdersAreOnto(lorder, rorder, n);
    assert CorrectMap(w, v, seed) == PairMap(lorder, rorder, n);
    var s, t := JoinedSlots(lorder, rorder, n, k);
    SlotsShown(w, v, seed, s);
    SlotsShown(w, v, seed, t);
  }

  lemma JoinedSlots(lorder: seq<nat>, rorder: seq<nat>, n: nat, k: string) returns (s: nat, t: nat)
    requires IsOrder(lorder, n) && IsOrder(rorder, n)
    requires forall i: nat :: i < n ==> i in lorder && i in rorder
    requires k in PairMap(lorder, rorder, n)
    ensures s < n && t < n && k == LeftId(s) && PairMap(lorder, rorder, n)[k] == RightId(t)
  {
    CorrectMapJoinsPairs(lorder, rorder, n);
    s :| s < n && k == LeftId(s);
    OrderIsOnto(rorder, n, lorder[s]);
    t := IndexOf(rorder, lorder[s]);
  }

  lemma ShownOptions(w: World, v: Variant, seed: int, id: string)
    requires Fair(w) && (v.kind.SingleChoice? || v.kind.MultiSelect?) && id in CorrectIds(v.options)
    ensures id in IdsAt(Payload(w, v, seed), "options")
  {
    CorrectIdsAreMarked(v.options, id);
    var i :| 0 <= i < |v.options| && v.options[i].correct && v.options[i].id == id;
    var order := Order(w, |v.options|, seed, 0);
    OrderIsOnto(order, |v.options|, i);
    IdsAreThere(OptionRows(v, order), IndexOf(order, i));
  }

  lemma {:induction false} IdsAreThere(rows: seq<Json>, i: nat)
    requires i < |rows| && rows[i].Obj?
    ensures IdOf(rows[i]) in Ids(rows)
  {
    if i > 0 { IdsAreThere(rows[1..], i - 1); }
  }
}
