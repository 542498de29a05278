/**
 * Which rows of an exam in progress are already marked as answered.
 *
 * An exam's rows are meant to become answered when the exam is submitted, and answering a question only
 * stores the answer. Resolving a practice attempt does not check the lane, though, and that is the one way
 * a row can be marked before its exam is.
 */
module LaneMarks {
  import opened Text
  import opened Sequences
  import opened Manifest
  import opened Lanes
  import opened LaneRuns

  /** This step resolves row `i` through the practice lane. */
  ghost predicate Resolves(s: State, step: Step, i: nat)
    requires Enabled(s, step)
  {
    step.request.Answer? && step.request.attempt == i && Respond(step, s).error.None?
  }

  ghost predicate ResolvedIn(s: State, steps: seq<Step>, i: nat)
    requires Legal(s, steps)
    decreases |steps|
  {
    steps != [] && (Resolves(s, steps[0], i) || ResolvedIn(Next(s, steps[0]), steps[1..], i))
  }

  /** The questions of a new sitting are open. */
  lemma QuestionsStartOpen(s: State, step: Step, i: nat)
    requires Enabled(s, step) && step.request.Start? && Respond(step, s).error.None?
    requires i in IdsOf(Next(s, step).attempts, step.request.draw.exam)
    ensures Next(s, step).attempts[i].state == Open
  {
    var (v, q) := (step.v, step.request);
    var block := BlockOf(q.scope, q.blockId);
    var keys := QuestionKeys(v, ScopeModules(v, q.scope, block), q.draw);
    var closed := Abandon(s, Closing(s, q.user, v.course.id, q.scope, block), step.now);
    var x := NewExam(q.user, v.course.id, q.scope, block, step.now, keys);
    var k := NewRow(closed, q.draw, x, step.now, i);
    QuestionsAdded(closed.attempts, x.user, x.course, keys, q.draw, step.now);
  }

  /**
   * While an exam is in progress, a row of it is answered exactly when some step since resolved it through
   * the practice lane, or it was answered to begin with.
   */
  lemma {:induction false} AnsweredEarly(s: State, steps: seq<Step>, e: nat, i: nat)
    requires Inv(s) && Legal(s, steps) && e in s.exams && i in IdsOf(s.attempts, e)
    requires e in Run(s, steps).exams && Run(s, steps).exams[e].status == InProgress
    ensures i in IdsOf(Run(s, steps).attempts, e)
    ensures Run(s, steps).attempts[i].state == Answered <==> s.attempts[i].state == Answered || ResolvedIn(s, steps, i)
    decreases |steps|
  {
    if steps != [] {
      var t := Next(s, steps[0]);
      StepKeepsInv(s, steps[0]);
      StepKeepsQuestions(s, steps[0]);
      assert ExamFine(t.exams[e]);
      if t.exams[e].status != InProgress { ClosedForGood(t, steps[1..], e); }
      StepResolves(s, steps[0], e, i);
      AnsweredEarly(t, steps[1..], e, i);
    }
  }

  lemma StepResolves(s: State, step: Step, e: nat, i: nat)
    requires Inv(s) && Enabled(s, step) && e in s.exams && i in IdsOf(s.attempts, e)
    requires e in Next(s, step).exams && Next(s, step).exams[e].status == InProgress
    requires i in Next(s, step).attempts
    ensures Next(s, step).attempts[i].state == Answered <==> s.attempts[i].state == Answered || Resolves(s, step, i)
  {
    if step.request.Answer? {
      AnswerResolves(s, step.v, step.now, step.request.user, step.request.attempt, step.request.answer, i);
    } else if step.request.Practise? {
      PractiseLeavesExams(s, step, e);
    } else {
      ExamStepKeepsState(s, step, e, i);
    }
  }

  lemma AnswerResolves(s: State, v: Served, now: int, user: nat, attempt: nat, answer: Fields, i: nat)
    requires i in s.attempts
    ensures var r := AnsweredAttempt(s, v, now, user, attempt, answer);
      i in r.state.attempts
      && (r.state.attempts[i].state == Answered <==> s.attempts[i].state == Answered || (attempt == i && r.error.None?))
  {
  }

  lemma ExamStepKeepsState(s: State, step: Step, e: nat, i: nat)
    requires Inv(s) && Enabled(s, step) && IsExamStep(step) && e in s.exams && i in IdsOf(s.attempts, e)
    requires e in Next(s, step).exams && Next(s, step).exams[e].status == InProgress
    ensures i in Next(s, step).attempts && Next(s, step).attempts[i].state == s.attempts[i].state
  {
    var (v, now) := (step.v, step.now);
    match step.request {
      case Start(user, scope, blockId, d) => StartMarksNone(s, v, now, user, scope, blockId, d, e);
      case AnswerExam(user, exam, attempt, answer) => StoringKeepsState(s, v.course.id, user, exam, attempt, answer, i);
      case Submit(user, exam) => SubmitMarksItsOwn(s, v, now, user, exam, e);
      case GiveUp(user, exam) => GiveUpMarksItsOwn(s, now, v.course.id, user, exam, e);
    }
  }

  lemma StoringKeepsState(s: State, course: string, user: nat, exam: nat, attempt: nat, answer: Fields, i: nat)
    requires i in s.attempts
    ensures var t := AnsweredQuestion(s, course, user, exam, attempt, answer).state;
      i in t.attempts && t.attempts[i].state == s.attempts[i].state
  {
  }

  lemma SubmitMarksItsOwn(s: State, v: Served, now: int, user: nat, exam: nat, e: nat)
    requires e in s.exams
    requires var t := SubmittedExam(s, v, now, user, exam).state;
      e in t.exams && t.exams[e].status == InProgress
    ensures SameRows(s.attempts, SubmittedExam(s, v, now, user, exam).state.attempts, e)
  {
    MarkTouches(s.attempts, v, exam, now, e);
  }

  lemma GiveUpMarksItsOwn(s: State, now: int, course: string, user: nat, exam: nat, e: nat)
    requires e in s.exams
    requires var t := AbandonedExam(s, now, course, user, exam).state;
      e in t.exams && t.exams[e].status == InProgress
    ensures SameRows(s.attempts, AbandonedExam(s, now, course, user, exam).state.attempts, e)
  {
    AbandonTouches(s, {exam}, now, e);
  }

  lemma StartMarksNone(s: State, v: Served, now: int, user: nat, scope: string, blockId: Option<string>, d: Draw,
                       e: nat)
    requires Deployed(v) && FreshDraw(s, d) && Enough(d, |Modules(v.course)|) && e in s.exams
    requires var t := StartedExam(s, v, now, user, scope, blockId, d).state;
      e in t.exams && t.exams[e].status == InProgress
    ensures SameRows(s.attempts, StartedExam(s, v, now, user, scope, blockId, d).state.attempts, e)
  {
    var block := BlockOf(scope, blockId);
    var mods := ScopeModules(v, scope, block);
    if KnownScope(v, scope, blockId) && mods != [] {
      var x := NewExam(user, v.course.id, scope, block, now, QuestionKeys(v, mods, d));
      AddingMarksNone(s, Closing(s, user, v.course.id, scope, block), d, x, now, e);
    }
  }

  lemma AddingMarksNone(s: State, gone: set<nat>, d: Draw, x: Exam, now: int, e: nat)
    requires x.order.Some? && Enough(d, |x.order.value|) && FreshDraw(s, d) && e in s.exams
    requires AddExam(Abandon(s, gone, now), d, x, now).exams[e].status == InProgress
    ensures SameRows(s.attempts, AddExam(Abandon(s, gone, now), d, x, now).attempts, e)
  {
    var closed := Abandon(s, gone, now);
    AbandonTouches(s, gone, now, e);
    NewRows(closed, d, x, now);
    assert SameRows(closed.attempts, AddExam(closed, d, x, now).attempts, e);
  }

  // ---- it does happen ----

  /** A deployment of a one-exercise course that grades every answer right. */
  function OneExercise(): (v: Served) {
    Served(Renumbered(), RegistryOf(Renumbered()), {"e"}, (id, seed, answer) => Some(true))
  }

  function OneDraw(): (d: Draw) {
    Draw(2, [1], [0], [7])
  }

  lemma OneExerciseIsDeployed()
    ensures Deployed(OneExercise()) && DisplayId(OneExercise().registry, "f") == "e"
    ensures |Modules(Renumbered())| == 1
    ensures |ModuleExercises(Modules(Renumbered())[0])| == 1
    ensures ModuleExercises(Modules(Renumbered())[0])[0].exercise == Exercise("e", "f", "quiz")
  {
    var c := Renumbered();
    RenumberedIsValid();
    RenumberedParts();
    RegistryIndexes(c);
    assert Knows(RegistryOf(c), Exercises(c)[0]);
    assert ExerciseIds(Exercises(c))[0] == "e";
    assert Modules(c) == [Modules(c)[0]];
  }

  lemma OneModuleInScope(v: Served)
    requires v == OneExercise()
    ensures |ScopeModules(v, "global", None)| == 1
    ensures QuestionKeys(v, ScopeModules(v, "global", None), OneDraw()) == ["f"]
  {
    OneExerciseIsDeployed();
    var mods := Modules(v.course);
    var exs := ModuleExercises(mods[0]);
    var inPool := (e: ExerciseAt) => e.exercise.id in v.playable;
    assert exs[1..] == [] && inPool(exs[0]);
    assert exs[0] in Pool(v, mods[0]) by { FilterOne(exs, inPool); }
    assert mods[1..] == [];
    var e := QuestionsFollowModules(v, "global", None, OneDraw(), 0);
    assert e == exs[0];
  }

  lemma FilterOne<T>(s: seq<T>, keep: T -> bool)
    requires |s| == 1 && keep(s[0])
    ensures Filter(s, keep) == s
  {
    assert s[1..] == [];
  }

  /** The exam right after its start: one open question, number 1. */
  lemma OneStart(v: Served)
    requires Deployed(v) && Enough(OneDraw(), |Modules(v.course)|)
    requires |ScopeModules(v, "global", None)| == 1
    requires QuestionKeys(v, ScopeModules(v, "global", None), OneDraw()) == ["f"]
    ensures var r := StartedExam(State(map[], map[]), v, 0, 5, "global", None, OneDraw());
      && r.error.None?
      && r.state.attempts == map[1 := Question(5, v.course.id, "f", 2, 7, 0)]
      && 2 in r.state.exams && r.state.exams[2].status == InProgress
  {
    var s := State(map[], map[]);
    var gone := Closing(s, 5, v.course.id, "global", None);
    assert Abandon(s, gone, 0) == s;
    AddOne(NewExam(5, v.course.id, "global", None, 0, ["f"]), 0);
  }

  lemma AddOne(x: Exam, now: int)
    requires x.order == Some(["f"])
    ensures AddExam(State(map[], map[]), OneDraw(), x, now)
         == State(map[1 := Question(x.user, x.course, "f", 2, 7, now)], map[2 := x])
  {
    var (keys, d) := (["f"], OneDraw());
    assert keys[..0] == [];
    assert WithQuestions(map[], x.user, x.course, keys[..0], d, now) == map[];
    assert WithQuestions(map[], x.user, x.course, keys, d, now)
        == map[1 := Question(x.user, x.course, "f", 2, 7, now)];
  }

  /** The question can be played, and its answer graded. */
  predicate GradesOne(v: Served) {
    && DisplayId(v.registry, "f") in v.playable
    && v.grade(DisplayId(v.registry, "f"), 7, map[]) == Some(true)
  }

  /** Answered as if it were practice, that row is marked, and its exam goes on. */
  lemma OneAnswer(v: Served, t: State)
    requires Deployed(v) && GradesOne(v)
    requires t.attempts == map[1 := Question(5, v.course.id, "f", 2, 7, 0)]
    ensures var r := AnsweredAttempt(t, v, 1, 5, 1, map[]);
      r.state.exams == t.exams && 1 in IdsOf(r.state.attempts, 2) && r.state.attempts[1].state == Answered
  {
  }

  /** From the empty tables: an exam is started, its question answered as practice, and the row is marked. */
  lemma AnsweredBeforeSubmission() returns (steps: seq<Step>)
    ensures |steps| == 2 && steps[0].request.Start? && steps[1].request.Answer?
    ensures Legal(State(map[], map[]), steps)
    ensures var t := Run(State(map[], map[]), steps);
      2 in t.exams && t.exams[2].status == InProgress && 1 in IdsOf(t.attempts, 2) && t.attempts[1].state == Answered
  {
    var v := OneExercise();
    OneExerciseIsDeployed();
    OneModuleInScope(v);
    var start, answer := Step(v, 0, Start(5, "global", None, OneDraw())), Step(v, 1, Answer(5, 1, map[]));
    StartThenAnswer(v, start, answer);
    TwoSteps(State(map[], map[]), start, answer);
    steps := [start, answer];
  }

  lemma StartThenAnswer(v: Served, start: Step, answer: Step)
    requires Deployed(v) && GradesOne(v) && Enough(OneDraw(), |Modules(v.course)|)
    requires |ScopeModules(v, "global", None)| == 1
    requires QuestionKeys(v, ScopeModules(v, "global", None), OneDraw()) == ["f"]
    requires start == Step(v, 0, Start(5, "global", None, OneDraw())) && answer == Step(v, 1, Answer(5, 1, map[]))
    ensures Enabled(State(map[], map[]), start) && Enabled(Next(State(map[], map[]), start), answer)
    ensures var t := Next(Next(State(map[], map[]), start), answer);
      2 in t.exams && t.exams[2].status == InProgress && 1 in IdsOf(t.attempts, 2) && t.attempts[1].state == Answered
  {
    var s := State(map[], map[]);
    OneStart(v);
    StartIs(s, v, 0, 5, "global", None, OneDraw());
    var t := StartedExam(s, v, 0, 5, "global", None, OneDraw()).state;
    OneAnswer(v, t);
    AnswerIs(t, v, 1, 5, 1, map[]);
  }

  lemma StartIs(s: State, v: Served, now: int, user: nat, scope: string, blockId: Option<string>, d: Draw)
    requires Deployed(v) && FreshDraw(s, d) && Enough(d, |Modules(v.course)|)
    ensures var step := Step(v, now, Start(user, scope, blockId, d));
      Enabled(s, step) && Next(s, step) == StartedExam(s, v, now, user, scope, blockId, d).state
  {
  }

  lemma AnswerIs(s: State, v: Served, now: int, user: nat, attempt: nat, answer: Fields)
    requires Deployed(v)
    ensures var step := Step(v, now, Answer(user, attempt, answer));
      Enabled(s, step) && Next(s, step) == AnsweredAttempt(s, v, now, user, attempt, answer).state
  {
  }

  lemma TwoSteps(s: State, a: Step, b: Step)
    requires Enabled(s, a) && Enabled(Next(s, a), b)
    ensures Legal(s, [a, b]) && Run(s, [a, b]) == Next(Next(s, a), b)
  {
    assert [a, b][1..] == [b];
    OneStep(Next(s, a), b);
  }

  lemma OneStep(s: State, a: Step)
    requires Enabled(s, a)
    ensures Legal(s, [a]) && Run(s, [a]) == Next(s, a)
  {
    assert [a][1..] == [];
    assert Run(Next(s, a), []) == Next(s, a);
  }
}
