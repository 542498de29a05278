/**
 * What one answer does: when a practice answer is accepted and what it leaves, what storing, opening and
 * giving up do to a row, and that a practice mark is for good what grading said when it was made.
 */
module LaneAnswers {
  import opened Text
  import opened Sequences
  import opened Manifest
  import opened Lanes
  import opened LaneRuns

  /** The row is this learner's, in this course. */
  predicate Owns(s: State, v: Served, user: nat, attempt: nat) {
    attempt in s.attempts && s.attempts[attempt].user == user && s.attempts[attempt].course == v.course.id
  }

  /** The course lists the exercise and cannot play it, or does not know it at all. */
  ghost predicate Unplayed(v: Served, id: string) {
    id !in v.playable && exists k :: 0 <= k < |Exercises(v.course)| && Exercises(v.course)[k].exercise.id == id
  }

  ghost predicate Unknown(v: Served, id: string) {
    id !in v.playable && forall k :: 0 <= k < |Exercises(v.course)| ==> Exercises(v.course)[k].exercise.id != id
  }

  lemma UnresolvedIs(v: Served, id: string)
    requires id !in v.playable
    ensures Unresolved(v, id) == ExerciseNotAvailable <==> Unplayed(v, id)
    ensures Unresolved(v, id) == ExerciseNotFound <==> Unknown(v, id)
  {
    var ids := ExerciseIds(Exercises(v.course));
    if id in ids { var k :| 0 <= k < |ids| && ids[k] == id; }
    if Unplayed(v, id) {
      var k :| 0 <= k < |ids| && Exercises(v.course)[k].exercise.id == id;
      assert ids[k] == id;
    }
  }

  /** What grading says today of an answer to a row's question. */
  function GradedAs(v: Served, a: Attempt, answer: Fields): (g: Option<bool>) {
    v.grade(DisplayId(v.registry, a.key), a.seed, answer)
  }

  /** The other rows and every exam stay as they were. */
  ghost predicate OnlyRow(s: State, t: State, i: nat) {
    && t.exams == s.exams && t.attempts.Keys == s.attempts.Keys
    && forall j :: j in s.attempts && j != i ==> t.attempts[j] == s.attempts[j]
  }

  /** When an answer is turned away, and with which error; nothing changes then. */
  lemma AnswerRefused(s: State, step: Step)
    requires Enabled(s, step) && step.request.Answer?
    ensures
      var (q, v, r) := (step.request, step.v, Respond(step, s));
      && (r.error == Some(AttemptNotFound) <==> !Owns(s, v, q.user, q.attempt))
      && (r.error == Some(AttemptAlreadyResolved) <==>
            Owns(s, v, q.user, q.attempt) && s.attempts[q.attempt].state != Open)
      && (r.error == Some(ExerciseNotAvailable) <==>
            Owns(s, v, q.user, q.attempt) && s.attempts[q.attempt].state == Open
            && Unplayed(v, DisplayId(v.registry, s.attempts[q.attempt].key)))
      && (r.error == Some(ExerciseNotFound) <==>
            Owns(s, v, q.user, q.attempt) && s.attempts[q.attempt].state == Open
            && Unknown(v, DisplayId(v.registry, s.attempts[q.attempt].key)))
      && (r.error == Some(InvalidAnswer) <==>
            Owns(s, v, q.user, q.attempt) && s.attempts[q.attempt].state == Open
            && DisplayId(v.registry, s.attempts[q.attempt].key) in v.playable
            && GradedAs(v, s.attempts[q.attempt], q.answer).None?)
      && (r.error.None? <==>
            Owns(s, v, q.user, q.attempt) && s.attempts[q.attempt].state == Open
            && DisplayId(v.registry, s.attempts[q.attempt].key) in v.playable
            && GradedAs(v, s.attempts[q.attempt], q.answer).Some?)
      && (r.error.Some? ==> r.state == s)
  {
    var (q, v) := (step.request, step.v);
    if Owns(s, v, q.user, q.attempt) && DisplayId(v.registry, s.attempts[q.attempt].key) !in v.playable {
      UnresolvedIs(v, DisplayId(v.registry, s.attempts[q.attempt].key));
    }
  }

  /** An accepted answer is stored with the mark grading gives it, at that time, and nothing else changes. */
  lemma AnswerMarks(s: State, step: Step)
    requires Enabled(s, step) && step.request.Answer? && Respond(step, s).error.None?
    ensures
      var (q, t) := (step.request, Next(s, step));
      && q.attempt in s.attempts && q.attempt in t.attempts && OnlyRow(s, t, q.attempt)
      && var (a, b) := (s.attempts[q.attempt], t.attempts[q.attempt]);
         && b.given == Some(q.answer) && b.isCorrect == GradedAs(step.v, a, q.answer) && b.isCorrect.Some?
         && b.state == Answered && b.answeredAt == Some(step.now)
         && b.user == a.user && b.course == a.course && b.key == a.key && b.exam == a.exam && b.seed == a.seed
         && b.createdAt == a.createdAt
  {
  }

  // ---- a practice mark over whole runs ----

  predicate Practised(attempts: map<nat, Attempt>, i: nat) {
    i in attempts && attempts[i].exam.None? && attempts[i].state == Answered
  }

  /** This step is where row `i` became what it is. */
  ghost predicate MadeBy(s: State, step: Step, i: nat, row: Attempt)
    requires Enabled(s, step)
  {
    && step.request.Answer? && step.request.attempt == i && Respond(step, s).error.None?
    && i in s.attempts && row.key == s.attempts[i].key && row.seed == s.attempts[i].seed
    && row.given == Some(step.request.answer) && row.answeredAt == Some(step.now)
    && row.isCorrect == GradedAs(step.v, row, step.request.answer)
  }

  ghost predicate MadeIn(s: State, steps: seq<Step>, i: nat, row: Attempt)
    requires Legal(s, steps)
    decreases |steps|
  {
    steps != [] && (MadeBy(s, steps[0], i, row) || MadeIn(Next(s, steps[0]), steps[1..], i, row))
  }

  /** Opening practice gives up on open rows only. */
  lemma PractiseKeepsAnswered(s: State, step: Step, i: nat)
    requires Enabled(s, step) && step.request.Practise? && Practised(s.attempts, i)
    ensures i in Next(s, step).attempts && Next(s, step).attempts[i] == s.attempts[i]
  {
  }

  lemma PracticeRowKept(s: State, step: Step, i: nat)
    requires Enabled(s, step) && IsExamStep(step)
    ensures (i in s.attempts && s.attempts[i].exam.None?)
       <==> (i in Next(s, step).attempts && Next(s, step).attempts[i].exam.None?)
    ensures i in s.attempts && s.attempts[i].exam.None? ==> Next(s, step).attempts[i] == s.attempts[i]
  {
    ExamStepsLeavePractice(s, step);
    assert i in PracticeRows(s.attempts) <==> i in PracticeRows(Next(s, step).attempts);
    if i in PracticeRows(s.attempts) {
      assert PracticeRows(s.attempts)[i] == PracticeRows(Next(s, step).attempts)[i];
    }
  }

  /** Once answered, a practice row stays as it is through every request. */
  lemma AnsweredStays(s: State, step: Step, i: nat)
    requires Enabled(s, step) && Practised(s.attempts, i)
    ensures i in Next(s, step).attempts && Next(s, step).attempts[i] == s.attempts[i]
  {
    if IsExamStep(step) {
      PracticeRowKept(s, step, i);
    } else if step.request.Practise? {
      PractiseKeepsAnswered(s, step, i);
    } else {
      AnswerRefused(s, step);
      if Respond(step, s).error.None? { AnswerMarks(s, step); }
    }
  }

  /** A practice row answered after a step was answered before it, or by it. */
  lemma AnsweredNow(s: State, step: Step, i: nat)
    requires Enabled(s, step) && Practised(Next(s, step).attempts, i)
    ensures Practised(s.attempts, i) || MadeBy(s, step, i, Next(s, step).attempts[i])
  {
    if IsExamStep(step) {
      PracticeRowKept(s, step, i);
    } else if step.request.Answer? {
      AnswerRefused(s, step);
      if Respond(step, s).error.None? { AnswerMarks(s, step); }
    }
  }

  lemma {:induction false} AnsweredForGood(s: State, steps: seq<Step>, i: nat)
    requires Legal(s, steps) && Practised(s.attempts, i)
    ensures i in Run(s, steps).attempts && Run(s, steps).attempts[i] == s.attempts[i]
    decreases |steps|
  {
    if steps != [] {
      AnsweredStays(s, steps[0], i);
      AnsweredForGood(Next(s, steps[0]), steps[1..], i);
    }
  }

  /**
   * Over every run: a practice row that ends up answered was answered to begin with and is as it was, or
   * some step answered it, and its mark is what grading said of that answer under the course of that step.
   */
  lemma {:induction false} MarkIsGradeThen(s: State, steps: seq<Step>, i: nat)
    requires Legal(s, steps) && Practised(Run(s, steps).attempts, i)
    ensures
      || (Practised(s.attempts, i) && Run(s, steps).attempts[i] == s.attempts[i])
      || MadeIn(s, steps, i, Run(s, steps).attempts[i])
    decreases |steps|
  {
    if steps != [] {
      var t := Next(s, steps[0]);
      MarkIsGradeThen(t, steps[1..], i);
      if Practised(t.attempts, i) {
        AnsweredForGood(t, steps[1..], i);
        AnsweredNow(s, steps[0], i);
        if Practised(s.attempts, i) { AnsweredStays(s, steps[0], i); }
      }
    }
  }

  // ---- storing, opening and giving up ----

  /** While an exam is in progress its owner's latest answer to a question replaces the stored one, unmarked. */
  lemma LatestAnswerIsStored(s: State, step: Step)
    requires Enabled(s, step) && step.request.AnswerExam?
    ensures
      var (q, r) := (step.request, Respond(step, s));
      && (r.error.None? <==>
            && q.exam in s.exams && s.exams[q.exam].user == q.user && s.exams[q.exam].course == step.v.course.id
            && s.exams[q.exam].status == InProgress && q.attempt in IdsOf(s.attempts, q.exam))
      && (r.error == Some(ExamNotFound) <==>
            !(q.exam in s.exams && s.exams[q.exam].user == q.user && s.exams[q.exam].course == step.v.course.id))
      && (r.error == Some(ExamNotOpen) <==>
            q.exam in s.exams && s.exams[q.exam].user == q.user && s.exams[q.exam].course == step.v.course.id
            && s.exams[q.exam].status != InProgress)
      && (r.error.Some? ==> r.state == s)
      && (r.error.None? ==>
            && q.attempt in r.state.attempts && OnlyRow(s, r.state, q.attempt)
            && r.state.attempts[q.attempt].given == Some(q.answer)
            && r.state.attempts[q.attempt] == s.attempts[q.attempt].(given := Some(q.answer)))
  {
  }

  /** Giving up closes an exam in progress and abandons every row of it; any other exam is left alone. */
  lemma GivingUpCloses(s: State, step: Step)
    requires Inv(s) && Enabled(s, step) && step.request.GiveUp?
    ensures
      var (q, r) := (step.request, Respond(step, s));
      var mine := q.exam in s.exams && s.exams[q.exam].user == q.user && s.exams[q.exam].course == step.v.course.id;
      && (r.error.None? <==> mine) && (r.error == Some(ExamNotFound) <==> !mine)
      && (!(mine && s.exams[q.exam].status == InProgress) ==> r.state == s)
      && (mine && s.exams[q.exam].status == InProgress ==>
            && q.exam in r.state.exams && r.state.exams[q.exam].status == GivenUp
            && r.state.exams[q.exam].finishedAt == Some(step.now)
            && (forall e :: e in s.exams && e != q.exam ==> e in r.state.exams && r.state.exams[e] == s.exams[e])
            && (forall i :: i in IdsOf(s.attempts, q.exam) ==>
                  i in r.state.attempts && r.state.attempts[i] == s.attempts[i].(state := Abandoned))
            && (forall i :: i in s.attempts && i !in IdsOf(s.attempts, q.exam) ==>
                  i in r.state.attempts && r.state.attempts[i] == s.attempts[i]))
  {
    AbandonTouches(s, {step.request.exam}, step.now, step.request.exam);
  }

  /** Opening practice adds one open row for the exercise, and gives up on the learner's open one, if any. */
  lemma PractisingOpens(s: State, step: Step)
    requires Enabled(s, step) && step.request.Practise?
    ensures
      var (q, v, r) := (step.request, step.v, Respond(step, s));
      && (r.error.None? <==> q.exerciseId in v.playable)
      && (r.error == Some(ExerciseNotAvailable) <==> Unplayed(v, q.exerciseId))
      && (r.error == Some(ExerciseNotFound) <==> Unknown(v, q.exerciseId))
      && (r.error.Some? ==> r.state == s)
      && (r.error.None? ==>
            && q.exerciseId in v.registry.exerciseKeys && r.state.exams == s.exams
            && r.state.attempts.Keys == s.attempts.Keys + {q.id}
            && var (key, a) := (v.registry.exerciseKeys[q.exerciseId], r.state.attempts[q.id]);
               && a.user == q.user && a.course == v.course.id && a.key == key && a.exam.None? && a.seed == q.seed
               && a.state == Open && a.given.None? && a.isCorrect.None? && a.createdAt == step.now && a.answeredAt.None?
               && forall i :: i in s.attempts ==>
                    var mine := s.attempts[i].user == q.user && s.attempts[i].course == v.course.id
                                && s.attempts[i].key == key && s.attempts[i].exam.None? && s.attempts[i].state == Open;
                    r.state.attempts[i] == if mine then s.attempts[i].(state := Abandoned) else s.attempts[i])
  {
    if step.request.exerciseId in step.v.playable {
      PlayableHasKey(step.v, step.request.exerciseId);
    } else {
      UnresolvedIs(step.v, step.request.exerciseId);
    }
  }
}
