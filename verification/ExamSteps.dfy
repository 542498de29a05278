/** What starting and submitting an exam do, said of the tables and the manifest. */
module ExamSteps {
  import opened Text
  import opened Sequences
  import opened Manifest
  import opened Lanes
  import opened LaneRuns

  // ---- what a new exam examines ----

  predicate Wanted(m: ModuleAt, scope: string, blockId: Option<string>) {
    scope == "global" || blockId == Some(m.blockId)
  }

  /** The module is asked for and has an exercise that can be played. */
  ghost predicate Examinable(v: Served, m: ModuleAt, scope: string, blockId: Option<string>) {
    Wanted(m, scope, blockId) && exists x :: x in ModuleExercises(m) && x.exercise.id in v.playable
  }

  /** A global exam, or one of a block the manifest has. */
  ghost predicate GoodScope(v: Served, scope: string, blockId: Option<string>) {
    || scope == "global"
    || (scope == "block" && exists b :: 0 <= b < |v.course.blocks| && blockId == Some(v.course.blocks[b].id))
  }

  lemma ScopeIsGood(v: Served, scope: string, blockId: Option<string>)
    ensures KnownScope(v, scope, blockId) <==> GoodScope(v, scope, blockId)
  {
    var ids := BlockIds(v.course);
    if scope == "block" && blockId.Some? {
      if blockId.value in ids { var b :| 0 <= b < |ids| && ids[b] == blockId.value; }
      if b :| 0 <= b < |v.course.blocks| && blockId == Some(v.course.blocks[b].id) { assert ids[b] == blockId.value; }
    }
  }

  lemma PoolIsPlayable(v: Served, m: ModuleAt)
    ensures Pool(v, m) != [] <==> exists x :: x in ModuleExercises(m) && x.exercise.id in v.playable
  {
    var keep := (e: ExerciseAt) => e.exercise.id in v.playable;
    FilterKeeps(ModuleExercises(m), keep, (a: ExerciseAt, b: ExerciseAt) => true);
    if Pool(v, m) != [] { assert Pool(v, m)[0] in Pool(v, m); }
  }

  /** The modules in scope are the examinable ones. */
  lemma ScopeIsExaminable(v: Served, scope: string, blockId: Option<string>, m: ModuleAt)
    requires KnownScope(v, scope, blockId)
    ensures m in ScopeModules(v, scope, BlockOf(scope, blockId))
       <==> m in Modules(v.course) && Examinable(v, m, scope, blockId)
  {
    var keep := Examined(v, scope, BlockOf(scope, blockId));
    FilterKeeps(Modules(v.course), keep, (a: ModuleAt, b: ModuleAt) => true);
    PoolIsPlayable(v, m);
    assert "global"[0] != "block"[0];
  }

  /** A start is refused exactly for a scope the manifest does not know, or one with nothing to examine. */
  lemma StartRefused(s: State, step: Step)
    requires Enabled(s, step) && step.request.Start?
    ensures
      var (q, v, r) := (step.request, step.v, Respond(step, s));
      && (r.error == Some(ExamBadScope) <==> !GoodScope(v, q.scope, q.blockId))
      && (r.error == Some(ExamEmpty) <==>
            GoodScope(v, q.scope, q.blockId)
            && forall m :: m in Modules(v.course) ==> !Examinable(v, m, q.scope, q.blockId))
      && (r.error.Some? ==> r.state == s && (r.error == Some(ExamBadScope) || r.error == Some(ExamEmpty)))
  {
    var (q, v) := (step.request, step.v);
    ScopeIsGood(v, q.scope, q.blockId);
    var mods := ScopeModules(v, q.scope, BlockOf(q.scope, q.blockId));
    if KnownScope(v, q.scope, q.blockId) {
      forall m ensures m in mods <==> m in Modules(v.course) && Examinable(v, m, q.scope, q.blockId) {
        ScopeIsExaminable(v, q.scope, q.blockId, m);
      }
      if mods != [] { assert mods[0] in mods; }
    }
  }

  /** Question `i` of the exam asks an exercise of this module. */
  ghost predicate AsksOf(t: State, e: nat, m: ModuleAt, i: nat) {
    i in IdsOf(t.attempts, e) && exists x :: x in ModuleExercises(m) && x.exercise.key == t.attempts[i].key
  }

  /** The new exam as stored, the tables before its sittings were closed set aside. */
  lemma StartedAs(s: State, step: Step) returns (closed: State, x: Exam, mods: seq<ModuleAt>)
    requires Enabled(s, step) && step.request.Start? && Respond(step, s).error.None?
    ensures
      var (q, v) := (step.request, step.v);
      && KnownScope(v, q.scope, q.blockId) && mods == ScopeModules(v, q.scope, BlockOf(q.scope, q.blockId))
      && closed == Abandon(s, Closing(s, q.user, v.course.id, q.scope, BlockOf(q.scope, q.blockId)), step.now)
      && x == Exam(q.user, v.course.id, q.scope, if q.scope == "block" then q.blockId else None, InProgress, step.now,
                   None, Some(QuestionKeys(v, mods, q.draw)), None)
      && FreshDraw(closed, q.draw) && Enough(q.draw, |x.order.value|)
      && Next(s, step) == AddExam(closed, q.draw, x, step.now)
  {
    var (q, v) := (step.request, step.v);
    var block := BlockOf(q.scope, q.blockId);
    mods := ScopeModules(v, q.scope, block);
    closed := Abandon(s, Closing(s, q.user, v.course.id, q.scope, block), step.now);
    x := NewExam(q.user, v.course.id, q.scope, block, step.now, QuestionKeys(v, mods, q.draw));
  }

  /** The new exam is the learner's, in progress, and its rows are open, unanswered questions of theirs. */
  lemma NewSitting(s: State, step: Step)
    requires Enabled(s, step) && step.request.Start? && Respond(step, s).error.None?
    ensures
      var (q, v, t) := (step.request, step.v, Next(s, step));
      && q.draw.exam in t.exams && t.exams[q.draw.exam].order.Some?
      && t.exams[q.draw.exam]
         == Exam(q.user, v.course.id, q.scope, if q.scope == "block" then q.blockId
           else None, InProgress, step.now, None,
                 t.exams[q.draw.exam].order, None)
      && forall i :: i in IdsOf(t.attempts, q.draw.exam) ==>
           var a := t.attempts[i];
           && i !in s.attempts && a.user == q.user && a.course == v.course.id && a.state == Open
           && a.given.None? && a.isCorrect.None? && a.createdAt == step.now && a.answeredAt.None?
  {
    var closed, x, mods := StartedAs(s, step);
    var d := step.request.draw;
    QuestionsAdded(closed.attempts, x.user, x.course, x.order.value, d, step.now);
    forall i | i in IdsOf(Next(s, step).attempts, d.exam)
      ensures exists k :: 0 <= k < |x.order.value| && d.ids[k] == i
    {
      var k := NewRow(closed, d, x, step.now, i);
    }
  }

  /** A module is asked about exactly if it is wanted and has something to play. */
  lemma StartExamines(s: State, step: Step, p: nat)
    requires Enabled(s, step) && step.request.Start? && Respond(step, s).error.None?
    requires p < |Modules(step.v.course)|
    ensures
      var (q, v, t) := (step.request, step.v, Next(s, step));
      Examinable(v, Modules(v.course)[p], q.scope, q.blockId)
      <==> exists i :: AsksOf(t, q.draw.exam, Modules(v.course)[p], i)
  {
    var closed, x, mods := StartedAs(s, step);
    var (q, v, t) := (step.request, step.v, Next(s, step));
    var m := Modules(v.course)[p];
    ScopeIsExaminable(v, q.scope, q.blockId, m);
    if Examinable(v, m, q.scope, q.blockId) {
      var j :| 0 <= j < |mods| && mods[j] == m;
      var i := QuestionOfModule(v, q.scope, BlockOf(q.scope, q.blockId), closed, q.draw, x, step.now, j);
    }
    if i :| AsksOf(t, q.draw.exam, m, i) {
      ModuleOfQuestion(v, q.scope, BlockOf(q.scope, q.blockId), closed, q.draw, x, step.now, i, p);
    }
  }

  lemma QuestionOfModule(v: Served, scope: string, block: Option<string>, closed: State, d: Draw, x: Exam, now: int,
                         j: nat) returns (i: nat)
    requires Deployed(v) && Enough(d, |Modules(v.course)|) && FreshDraw(closed, d)
    requires x.order == Some(QuestionKeys(v, ScopeModules(v, scope, block), d)) && j < |x.order.value|
    ensures AsksOf(AddExam(closed, d, x, now), d.exam, ScopeModules(v, scope, block)[j], i)
  {
    var e := QuestionsFollowModules(v, scope, block, d, j);
    QuestionsAdded(closed.attempts, x.user, x.course, x.order.value, d, now);
    NewRows(closed, d, x, now);
    i := d.ids[j];
    assert d.ids[..|x.order.value|][j] == i;
  }

  lemma ModuleOfQuestion(v: Served, scope: string, block: Option<string>, closed: State, d: Draw, x: Exam, now: int,
                         i: nat, p: nat)
    requires Deployed(v) && Enough(d, |Modules(v.course)|) && FreshDraw(closed, d) && p < |Modules(v.course)|
    requires x.order == Some(QuestionKeys(v, ScopeModules(v, scope, block), d))
    requires AsksOf(AddExam(closed, d, x, now), d.exam, Modules(v.course)[p], i)
    ensures Modules(v.course)[p] in ScopeModules(v, scope, block)
  {
    var all := Modules(v.course);
    var j := NewRow(closed, d, x, now, i);
    var e := QuestionsFollowModules(v, scope, block, d, j);
    FilterAt(all, Examined(v, scope, block), j);
    var q := PlacesOf(all, Examined(v, scope, block))[j];
    SameKeySamePlace(v.course, p, q, e.exercise.key, e);
  }

  /** Modules that share an exercise key are one module. */
  lemma SameKeySamePlace(c: Course, p: nat, q: nat, key: string, e: ExerciseAt)
    requires Valid(c) && p < |Modules(c)| && q < |Modules(c)|
    requires exists x :: x in ModuleExercises(Modules(c)[p]) && x.exercise.key == key
    requires e in ModuleExercises(Modules(c)[q]) && e.exercise.key == key
    ensures p == q
  {
    var (a, b) := (ModuleExercises(Modules(c)[p]), ModuleExercises(Modules(c)[q]));
    var x :| x in a && x.exercise.key == key;
    var k :| 0 <= k < |a| && a[k] == x;
    var l :| 0 <= l < |b| && b[l] == e;
    if p != q { PlacesDiffer(c, p, k, q, l); }
  }

  // ---- what becomes of other sittings ----

  /** The sitting is the learner's unfinished one of the very scope that is started. */
  predicate Replaced(s: State, step: Step, e: nat) {
    && step.request.Start? && e in s.exams && s.exams[e].status == InProgress
    && s.exams[e].user == step.request.user && s.exams[e].course == step.v.course.id
    && s.exams[e].scope == step.request.scope
    && s.exams[e].blockId == (if step.request.scope == "block" then step.request.blockId else None)
  }

  /** A start gives up exactly the sittings it replaces, with every row of theirs; all others stay open. */
  lemma StartReplaces(s: State, step: Step, e: nat)
    requires Inv(s) && Enabled(s, step) && step.request.Start? && Respond(step, s).error.None? && e in s.exams
    ensures
      var t := Next(s, step);
      && e in t.exams && SameQuestions(s.attempts, t.attempts, e)
      && (Replaced(s, step, e) ==>
            && t.exams[e] == s.exams[e].(status := GivenUp, finishedAt := Some(step.now))
            && forall i :: i in IdsOf(s.attempts, e) ==> t.attempts[i] == s.attempts[i].(state := Abandoned))
      && (!Replaced(s, step, e) ==> t.exams[e] == s.exams[e] && SameRows(s.attempts, t.attempts, e))
  {
    var closed, x, mods := StartedAs(s, step);
    var q := step.request;
    assert ExamFine(s.exams[e]);
    AbandonTouches(s, Closing(s, q.user, step.v.course.id, q.scope, BlockOf(q.scope, q.blockId)), step.now, e);
    NewRows(closed, q.draw, x, step.now);
    assert SameRows(closed.attempts, Next(s, step).attempts, e);
  }

  // ---- submitting ----

  /** A submission closes an exam in progress, once, marks every row of it, and touches nothing else. */
  lemma SubmitCloses(s: State, step: Step)
    requires Enabled(s, step) && step.request.Submit?
    ensures
      var (q, r) := (step.request, Respond(step, s));
      var mine := q.exam in s.exams && s.exams[q.exam].user == q.user && s.exams[q.exam].course == step.v.course.id;
      && (r.error == Some(ExamNotFound) <==> !mine)
      && (r.error == Some(ExamNotOpen) <==> mine && s.exams[q.exam].status != InProgress)
      && (r.error.None? <==> mine && s.exams[q.exam].status == InProgress)
      && (r.error.Some? ==> r.state == s)
  {
  }

  lemma SubmitChanges(s: State, step: Step)
    requires Enabled(s, step) && step.request.Submit? && Respond(step, s).error.None?
    ensures
      var (q, t) := (step.request, Next(s, step));
      && q.exam in s.exams && t.exams.Keys == s.exams.Keys && t.attempts.Keys == s.attempts.Keys
      && t.exams[q.exam].result.Some?
      && t.exams[q.exam]
         == s.exams[q.exam].(status := Submitted, finishedAt := Some(step.now), result := t.exams[q.exam].result)
      && (forall e :: e in s.exams && e != q.exam ==> t.exams[e] == s.exams[e])
      && (forall i :: i in s.attempts && i !in IdsOf(s.attempts, q.exam) ==> t.attempts[i] == s.attempts[i])
      && (forall i :: i in IdsOf(s.attempts, q.exam) ==>
            MarkedFrom(s.attempts[i], t.attempts[i]) && t.attempts[i].answeredAt == Some(step.now))
  {
    SubmitCloses(s, step);
  }
}
