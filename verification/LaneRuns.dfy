/**
 * What every reachable state of the two lanes keeps.
 *
 * A step is one service call against the course as deployed at that moment, so the course may be
 * renumbered, extended or cut between any two steps.
 */
module LaneRuns {
  import opened Text
  import opened Sequences
  import opened Manifest
  import opened ExamResults
  import opened Lanes

  datatype Request =
    | Practise(user: nat, exerciseId: string, id: nat, seed: int)
    | Answer(user: nat, attempt: nat, answer: Fields)
    | Start(user: nat, scope: string, blockId: Option<string>, draw: Draw)
    | AnswerExam(user: nat, exam: nat, attempt: nat, answer: Fields)
    | Submit(user: nat, exam: nat)
    | GiveUp(user: nat, exam: nat)

  datatype Step = Step(v: Served, now: int, request: Request)

  predicate IsExamStep(step: Step) {
    step.request.Start? || step.request.AnswerExam? || step.request.Submit? || step.request.GiveUp?
  }

  /** New rows get new ids. */
  ghost predicate Enabled(s: State, step: Step) {
    && Deployed(step.v)
    && match step.request
       case Practise(_, _, id, _) => id !in s.attempts
       case Start(_, _, _, d) => FreshDraw(s, d) && Enough(d, |Modules(step.v.course)|)
       case _ => true
  }

  ghost predicate FreshDraw(s: State, d: Draw) {
    && d.exam !in s.exams
    && NoDup(d.ids)
    && (forall i :: i in d.ids ==> i !in s.attempts)
    && (forall i :: i in s.attempts ==> s.attempts[i].exam != Some(d.exam))
  }

  function Respond(step: Step, s: State): (r: Reply)
    requires Enabled(s, step)
  {
    var (v, now) := (step.v, step.now);
    match step.request
    case Practise(user, exerciseId, id, seed) => OpenedAttempt(s, v, now, user, exerciseId, id, seed)
    case Answer(user, attempt, answer) => AnsweredAttempt(s, v, now, user, attempt, answer)
    case Start(user, scope, blockId, d) => StartedExam(s, v, now, user, scope, blockId, d)
    case AnswerExam(user, exam, attempt, answer) => AnsweredQuestion(s, v.course.id, user, exam, attempt, answer)
    case Submit(user, exam) => SubmittedExam(s, v, now, user, exam)
    case GiveUp(user, exam) => AbandonedExam(s, now, v.course.id, user, exam)
  }

  function Next(s: State, step: Step): (t: State)
    requires Enabled(s, step)
  {
    Respond(step, s).state
  }

  ghost predicate Legal(s: State, steps: seq<Step>)
    decreases |steps|
  {
    steps == [] || (Enabled(s, steps[0]) && Legal(Next(s, steps[0]), steps[1..]))
  }

  ghost function Run(s: State, steps: seq<Step>): (t: State)
    requires Legal(s, steps)
    decreases |steps|
  {
    if steps == [] then s else Run(Next(s, steps[0]), steps[1..])
  }

  // ---- the invariant ----

  predicate SameSitting(a: Exam, b: Exam) {
    a.user == b.user && a.course == b.course && a.scope == b.scope && a.blockId == b.blockId
  }

  /** At most one sitting in progress per learner, course, scope and block. */
  ghost predicate OneSitting(exams: map<nat, Exam>) {
    forall e, f ::
      (e in exams && f in exams && exams[e].status == InProgress && exams[f].status == InProgress
       && SameSitting(exams[e], exams[f])) ==> e == f
  }

  predicate OpenPractice(a: Attempt) {
    a.exam.None? && a.state == Open
  }

  predicate SameExercise(a: Attempt, b: Attempt) {
    a.user == b.user && a.course == b.course && a.key == b.key
  }

  /** At most one unanswered practice attempt per learner, course and exercise. */
  ghost predicate OnePractice(attempts: map<nat, Attempt>) {
    forall i, j ::
      (i in attempts && j in attempts && OpenPractice(attempts[i]) && OpenPractice(attempts[j])
       && SameExercise(attempts[i], attempts[j])) ==> i == j
  }

  predicate ExamFine(x: Exam) {
    && (x.status == InProgress <==> x.finishedAt.None?)
    && (x.status == Submitted <==> x.result.Some?)
  }

  predicate AttemptFine(exams: map<nat, Exam>, a: Attempt) {
    && (a.state == Open ==> a.isCorrect.None? && a.answeredAt.None?)
    && (a.state == Answered ==> a.isCorrect.Some? && a.answeredAt.Some?)
    && (a.exam.None? && a.state == Answered ==> a.given.Some?)
    && (a.isCorrect == Some(true) ==> a.given.Some?)
    && (a.exam.Some? ==> a.exam.value in exams && BelongsTo(a, exams[a.exam.value]))
  }

  /** An exam's attempts share its learner, its course and its fate. */
  predicate BelongsTo(a: Attempt, x: Exam) {
    && a.user == x.user && a.course == x.course
    && (x.status == Submitted ==> a.state == Answered)
    && (x.status == GivenUp ==> a.state == Abandoned)
    && (x.status == InProgress ==> a.state != Abandoned)
  }

  /** A frozen order lists the questions' keys, each once, and every question's key is its own. */
  ghost predicate Frozen(attempts: map<nat, Attempt>, e: nat, order: seq<string>) {
    && NoDup(order)
    && (forall i :: i in IdsOf(attempts, e) ==> attempts[i].key in order)
    && (forall i, j :: i in IdsOf(attempts, e) && j in IdsOf(attempts, e) && attempts[i].key == attempts[j].key ==>
      i == j)
    && |IdsOf(attempts, e)| == |order|
  }

  function RightOnes(attempts: map<nat, Attempt>, e: nat): (r: set<nat>) {
    set i | i in IdsOf(attempts, e) && attempts[i].isCorrect == Some(true)
  }

  /** A stored result adds up, and counts the sitting's attempts as they are marked. */
  ghost predicate Booked(attempts: map<nat, Attempt>, e: nat, r: Result) {
    Balances(r) && r.total == |IdsOf(attempts, e)| && r.correct == |RightOnes(attempts, e)|
  }

  ghost predicate ExamsKept(s: State) {
    forall e :: e in s.exams ==>
      && ExamFine(s.exams[e])
      && (s.exams[e].order.Some? ==> Frozen(s.attempts, e, s.exams[e].order.value))
      && (s.exams[e].result.Some? ==> Booked(s.attempts, e, s.exams[e].result.value))
  }

  ghost predicate AttemptsFine(s: State) {
    forall i :: i in s.attempts ==> AttemptFine(s.exams, s.attempts[i])
  }

  ghost predicate Inv(s: State) {
    OneSitting(s.exams) && OnePractice(s.attempts) && AttemptsFine(s) && ExamsKept(s)
  }

  // ---- what a change of rows leaves alone ----

  /** The exam rows are the same ones, for the same questions. */
  ghost predicate SameQuestions(a: map<nat, Attempt>, b: map<nat, Attempt>, e: nat) {
    IdsOf(a, e) == IdsOf(b, e) && forall i :: i in IdsOf(a, e) ==> a[i].key == b[i].key
  }

  /** The rows of a sitting are the same rows. */
  ghost predicate SameRows(a: map<nat, Attempt>, b: map<nat, Attempt>, e: nat) {
    IdsOf(a, e) == IdsOf(b, e) && forall i :: i in IdsOf(a, e) ==> a[i] == b[i]
  }

  lemma SameRowsKeep(a: map<nat, Attempt>, b: map<nat, Attempt>, e: nat)
    requires SameRows(a, b, e)
    ensures RightOnes(a, e) == RightOnes(b, e)
  {
    assert forall i :: i in RightOnes(a, e) <==> i in RightOnes(b, e);
  }

  /** An exam left as it was keeps its books when its rows do, and its order when its questions do. */
  lemma ExamKept(s: State, t: State, e: nat)
    requires ExamsKept(s) && e in s.exams && e in t.exams && t.exams[e].order == s.exams[e].order
    requires SameQuestions(s.attempts, t.attempts, e)
    requires t.exams[e].result.Some? ==> t.exams[e].result == s.exams[e].result && SameRows(s.attempts, t.attempts, e)
    ensures t.exams[e].order.Some? ==> Frozen(t.attempts, e, t.exams[e].order.value)
    ensures t.exams[e].result.Some? ==> Booked(t.attempts, e, t.exams[e].result.value)
  {
    if t.exams[e].result.Some? { SameRowsKeep(s.attempts, t.attempts, e); }
  }

  // ---- opening a practice attempt ----

  lemma PractiseTouchesPracticeOnly(attempts: map<nat, Attempt>, user: nat, course: string, key: string, id: nat,
                                    seed: int, now: int)
    requires id !in attempts
    ensures
      var after := GivenUpOn(attempts, user, course, key)[id := Practice(user, course, key, seed, now)];
      forall e :: SameRows(attempts, after, e)
  {
    var after := GivenUpOn(attempts, user, course, key)[id := Practice(user, course, key, seed, now)];
    forall e ensures SameRows(attempts, after, e) {
      assert forall i :: i in IdsOf(attempts, e) <==> i in IdsOf(after, e);
    }
  }

  lemma PractiseRowsFine(s: State, t: State, user: nat, course: string, key: string, id: nat, seed: int, now: int)
    requires Inv(s) && id !in s.attempts
    requires t == s.(attempts := GivenUpOn(s.attempts, user, course, key)[id := Practice(user, course, key, seed, now)])
    ensures OnePractice(t.attempts) && AttemptsFine(t)
  {
  }

  lemma PractiseKeepsInv(s: State, user: nat, course: string, key: string, id: nat, seed: int, now: int)
    requires Inv(s) && id !in s.attempts
    ensures Inv(s.(attempts := GivenUpOn(s.attempts, user, course, key)[id := Practice(user, course, key, seed, now)]))
  {
    var t := s.(attempts := GivenUpOn(s.attempts, user, course, key)[id := Practice(user, course, key, seed, now)]);
    PractiseRowsFine(s, t, user, course, key, id, seed, now);
    PractiseTouchesPracticeOnly(s.attempts, user, course, key, id, seed, now);
    forall e | e in s.exams
      ensures t.exams[e].order.Some? ==> Frozen(t.attempts, e, t.exams[e].order.value)
      ensures t.exams[e].result.Some? ==> Booked(t.attempts, e, t.exams[e].result.value)
    {
      assert SameRows(s.attempts, t.attempts, e);
      ExamKept(s, t, e);
    }
  }

  // ---- changing one row ----

  lemma OneRowTouched(attempts: map<nat, Attempt>, id: nat, a: Attempt, e: nat)
    requires id in attempts && a.exam == attempts[id].exam && a.key == attempts[id].key
    ensures SameQuestions(attempts, attempts[id := a], e)
    ensures a.exam != Some(e) ==> SameRows(attempts, attempts[id := a], e)
  {
    assert forall i :: i in IdsOf(attempts, e) <==> i in IdsOf(attempts[id := a], e);
  }

  /** A row that may still change, changed in ways that keep its lane, its question and its owner. */
  lemma RowChangeKeepsInv(s: State, id: nat, a: Attempt)
    requires Inv(s) && id in s.attempts && AttemptFine(s.exams, a)
    requires a.exam == s.attempts[id].exam && a.key == s.attempts[id].key
    requires a.user == s.attempts[id].user && a.course == s.attempts[id].course
    requires OpenPractice(a) ==> OpenPractice(s.attempts[id])
    requires a.exam.Some? ==> a.exam.value in s.exams && s.exams[a.exam.value].status == InProgress
    ensures Inv(s.(attempts := s.attempts[id := a]))
  {
    var t := s.(attempts := s.attempts[id := a]);
    forall e | e in s.exams
      ensures t.exams[e].order.Some? ==> Frozen(t.attempts, e, t.exams[e].order.value)
      ensures t.exams[e].result.Some? ==> Booked(t.attempts, e, t.exams[e].result.value)
    {
      OneRowTouched(s.attempts, id, a, e);
      ExamKept(s, t, e);
    }
  }

  // ---- giving up sittings ----

  lemma AbandonTouches(s: State, gone: set<nat>, now: int, e: nat)
    ensures SameQuestions(s.attempts, Abandon(s, gone, now).attempts, e)
    ensures e !in gone ==> SameRows(s.attempts, Abandon(s, gone, now).attempts, e)
  {
    var t := Abandon(s, gone, now);
    assert forall i :: i in IdsOf(s.attempts, e) <==> i in IdsOf(t.attempts, e);
  }

  lemma AbandonKeepsInv(s: State, gone: set<nat>, now: int)
    requires Inv(s) && gone <= s.exams.Keys && forall e :: e in gone ==> s.exams[e].status == InProgress
    ensures Inv(Abandon(s, gone, now))
  {
    var t := Abandon(s, gone, now);
    forall i | i in t.attempts ensures AttemptFine(t.exams, t.attempts[i]) {
      assert AttemptFine(s.exams, s.attempts[i]);
    }
    forall e | e in t.exams
      ensures ExamFine(t.exams[e])
      ensures t.exams[e].order.Some? ==> Frozen(t.attempts, e, t.exams[e].order.value)
      ensures t.exams[e].result.Some? ==> Booked(t.attempts, e, t.exams[e].result.value)
    {
      assert ExamFine(s.exams[e]);
      AbandonTouches(s, gone, now, e);
      ExamKept(s, t, e);
    }
  }

  // ---- starting a sitting ----

  /** The key stored for an exercise of the course is that exercise's own. */
  lemma KeyIsOwn(v: Served, p: nat, e: ExerciseAt)
    requires Deployed(v) && p < |Modules(v.course)| && e in ModuleExercises(Modules(v.course)[p])
    ensures KeyOf(v.registry, e) == e.exercise.key
  {
    var mods := Modules(v.course);
    var k :| 0 <= k < |ModuleExercises(mods[p])| && ModuleExercises(mods[p])[k] == e;
    WalkAt(mods, p, k);
    RegistryIndexes(v.course);
    assert Knows(v.registry, Exercises(v.course)[|Walk(mods[..p])| + k]);
  }

  /** Questions drawn from different modules are different exercises. */
  lemma QuestionsDiffer(v: Served, p: nat, q: nat, a: ExerciseAt, b: ExerciseAt)
    requires Deployed(v) && p < |Modules(v.course)| && q < |Modules(v.course)| && p != q
    requires a in ModuleExercises(Modules(v.course)[p]) && b in ModuleExercises(Modules(v.course)[q])
    ensures KeyOf(v.registry, a) != KeyOf(v.registry, b)
  {
    var mods := Modules(v.course);
    var k :| 0 <= k < |ModuleExercises(mods[p])| && ModuleExercises(mods[p])[k] == a;
    var l :| 0 <= l < |ModuleExercises(mods[q])| && ModuleExercises(mods[q])[l] == b;
    PlacesDiffer(v.course, p, k, q, l);
    KeyIsOwn(v, p, a);
    KeyIsOwn(v, q, b);
  }

  lemma QuestionKeysDistinct(v: Served, scope: string, blockId: Option<string>, d: Draw)
    requires Deployed(v) && Enough(d, |Modules(v.course)|)
    ensures NoDup(QuestionKeys(v, ScopeModules(v, scope, blockId), d))
  {
    var (all, keep, mods) := (Modules(v.course), Examined(v, scope, blockId), ScopeModules(v, scope, blockId));
    var (places, keys) := (PlacesOf(all, keep), QuestionKeys(v, mods, d));
    forall i, j | 0 <= i < j < |keys| ensures keys[i] != keys[j] {
      FilterAt(all, keep, i);
      FilterAt(all, keep, j);
      PlacesIncrease(all, keep, i, j);
      QuestionsDiffer(v, places[i], places[j], Picked(v, mods[i], d.picks[i]), Picked(v, mods[j], d.picks[j]));
    }
  }

  /** The rows added are exactly the questions, one id each. */
  lemma {:induction false} QuestionsAdded(attempts: map<nat, Attempt>, user: nat, course: string, keys: seq<string>,
      d: Draw, now: int)
    requires Enough(d, |keys|) && NoDup(d.ids) && forall i :: i in d.ids ==> i !in attempts
    ensures
      var t := WithQuestions(attempts, user, course, keys, d, now);
      && (forall i :: i in attempts ==> i in t && t[i] == attempts[i])
      && (forall k :: 0 <= k < |keys| ==>
        d.ids[k] in t && t[d.ids[k]] == Question(user, course, keys[k], d.exam, d.seeds[k], now))
      && (forall i :: i in t ==> i in attempts || i in d.ids[..|keys|])
  {
    if keys != [] {
      var n := |keys| - 1;
      QuestionsAdded(attempts, user, course, keys[..n], d, now);
      assert d.ids[..n + 1] == d.ids[..n] + [d.ids[n]];
    }
  }

  lemma NewRows(s: State, d: Draw, x: Exam, now: int)
    requires x.order.Some? && Enough(d, |x.order.value|) && FreshDraw(s, d)
    ensures IdsOf(AddExam(s, d, x, now).attempts, d.exam) == Elements(d.ids[..|x.order.value|])
    ensures |IdsOf(AddExam(s, d, x, now).attempts, d.exam)| == |x.order.value|
    ensures forall e :: e != d.exam ==> SameRows(s.attempts, AddExam(s, d, x, now).attempts, e)
  {
    var (keys, t) := (x.order.value, AddExam(s, d, x, now));
    QuestionsAdded(s.attempts, x.user, x.course, keys, d, now);
    forall i ensures i in IdsOf(t.attempts, d.exam) <==> i in Elements(d.ids[..|keys|]) {
      if i in d.ids[..|keys|] {
        var k :| 0 <= k < |keys| && d.ids[k] == i;
      }
    }
    NoDupCount(d.ids[..|keys|]);
    forall i | i in t.attempts ensures i in s.attempts || t.attempts[i].exam == Some(d.exam) {
      if i !in s.attempts {
        var k :| 0 <= k < |keys| && d.ids[k] == i;
      }
    }
    forall e | e != d.exam ensures SameRows(s.attempts, t.attempts, e) {
      assert forall i :: i in IdsOf(s.attempts, e) <==> i in IdsOf(t.attempts, e);
    }
  }

  /** The order frozen at the start is the order the questions were drawn in. */
  lemma NewOrderFrozen(s: State, d: Draw, x: Exam, now: int)
    requires x.order.Some? && Enough(d, |x.order.value|) && FreshDraw(s, d) && NoDup(x.order.value)
    ensures Frozen(AddExam(s, d, x, now).attempts, d.exam, x.order.value)
  {
    var (keys, t) := (x.order.value, AddExam(s, d, x, now));
    NewRows(s, d, x, now);
    forall i | i in IdsOf(t.attempts, d.exam) ensures t.attempts[i].key in keys {
      var k := NewRow(s, d, x, now, i);
    }
    forall i, j | i in IdsOf(t.attempts, d.exam) && j in IdsOf(t.attempts, d.exam)
      && t.attempts[i].key == t.attempts[j].key
      ensures i == j
    {
      var k := NewRow(s, d, x, now, i);
      var l := NewRow(s, d, x, now, j);
    }
  }

  lemma NewRow(s: State, d: Draw, x: Exam, now: int, i: nat) returns (k: nat)
    requires x.order.Some? && Enough(d, |x.order.value|) && FreshDraw(s, d)
    requires i in IdsOf(AddExam(s, d, x, now).attempts, d.exam)
    ensures k < |x.order.value| && d.ids[k] == i && AddExam(s, d, x, now).attempts[i].key == x.order.value[k]
  {
    var keys := x.order.value;
    NewRows(s, d, x, now);
    QuestionsAdded(s.attempts, x.user, x.course, keys, d, now);
    k :| 0 <= k < |keys| && d.ids[..|keys|][k] == i;
  }

  lemma NewAttemptsFine(s: State, d: Draw, x: Exam, now: int)
    requires Inv(s) && FreshDraw(s, d)
    requires x.order.Some? && Enough(d, |x.order.value|) && x.status == InProgress
    ensures AttemptsFine(AddExam(s, d, x, now)) && OnePractice(AddExam(s, d, x, now).attempts)
  {
    var (keys, t) := (x.order.value, AddExam(s, d, x, now));
    QuestionsAdded(s.attempts, x.user, x.course, keys, d, now);
    forall i | i in t.attempts
      ensures AttemptFine(t.exams, t.attempts[i])
      ensures OpenPractice(t.attempts[i]) ==> i in s.attempts && t.attempts[i] == s.attempts[i]
    {
      if i in s.attempts {
        assert AttemptFine(s.exams, s.attempts[i]);
      } else {
        var k :| 0 <= k < |keys| && d.ids[k] == i;
      }
    }
  }

  lemma AddExamKeepsInv(s: State, d: Draw, x: Exam, now: int)
    requires Inv(s) && FreshDraw(s, d)
    requires x.order.Some? && Enough(d, |x.order.value|) && NoDup(x.order.value)
    requires x.status == InProgress && x.finishedAt.None? && x.result.None?
    requires forall e :: e in s.exams && SameSitting(s.exams[e], x) ==> s.exams[e].status != InProgress
    ensures Inv(AddExam(s, d, x, now))
  {
    var t := AddExam(s, d, x, now);
    NewAttemptsFine(s, d, x, now);
    NewOrderFrozen(s, d, x, now);
    NewRows(s, d, x, now);
    forall e | e in s.exams && e != d.exam
      ensures t.exams[e].order.Some? ==> Frozen(t.attempts, e, t.exams[e].order.value)
      ensures t.exams[e].result.Some? ==> Booked(t.attempts, e, t.exams[e].result.value)
    {
      assert SameRows(s.attempts, t.attempts, e);
      ExamKept(s, t, e);
    }
  }

  lemma StartKeepsInv(s: State, v: Served, now: int, user: nat, scope: string, blockId: Option<string>, d: Draw)
    requires Inv(s) && Deployed(v) && FreshDraw(s, d) && Enough(d, |Modules(v.course)|)
    ensures Inv(StartedExam(s, v, now, user, scope, blockId, d).state)
  {
    var block := BlockOf(scope, blockId);
    var mods := ScopeModules(v, scope, block);
    if KnownScope(v, scope, blockId) && mods != [] {
      var gone := Closing(s, user, v.course.id, scope, block);
      var closed := Abandon(s, gone, now);
      AbandonKeepsInv(s, gone, now);
      QuestionKeysDistinct(v, scope, block, d);
      var x := NewExam(user, v.course.id, scope, block, now, QuestionKeys(v, mods, d));
      forall e | e in closed.exams && SameSitting(closed.exams[e], x) ensures closed.exams[e].status != InProgress {
        assert ExamFine(s.exams[e]);
      }
      AddExamKeepsInv(closed, d, x, now);
    }
  }

  // ---- submitting a sitting ----

  function RightAmong(ids: seq<nat>, right: nat -> bool): (r: set<nat>) {
    set i | i in ids && right(i)
  }

  lemma OneMoreRight(ids: seq<nat>, x: nat, right: nat -> bool)
    requires x !in ids
    ensures |RightAmong(ids + [x], right)| == |RightAmong(ids, right)| + (if right(x) then 1 else 0)
  {
    assert RightAmong(ids + [x], right) == RightAmong(ids, right) + (if right(x) then {x} else {});
  }

  lemma {:induction false} RightRowsCounted(rows: seq<Row>, ids: seq<nat>, right: nat -> bool)
    requires NoDup(ids) && |rows| == |ids| && forall k :: 0 <= k < |ids| ==> rows[k].correct == right(ids[k])
    ensures Correct(rows) == |RightAmong(ids, right)|
  {
    if ids == [] {
      assert RightAmong(ids, right) == {};
    } else {
      var n := |ids| - 1;
      RightRowsCounted(rows[..n], ids[..n], right);
      assert ids == ids[..n] + [ids[n]] && ids[n] !in ids[..n];
      OneMoreRight(ids[..n], ids[n], right);
    }
  }

  lemma BookedFrom(marked: map<nat, Attempt>, exam: nat, rows: seq<Row>)
    requires |rows| == |IdsOf(marked, exam)| && Correct(rows) == |RightOnes(marked, exam)|
    ensures Booked(marked, exam, ResultOf(rows))
  {
    ResultBalances(rows);
  }

  lemma RightOnesMarked(attempts: map<nat, Attempt>, v: Served, now: int, exam: nat, right: nat -> bool)
    requires forall i :: i in attempts ==> right(i) == Verdict(v, attempts[i])
    ensures RightOnes(MarkAll(attempts, v, IdsOf(attempts, exam), now), exam) == set i | i in IdsOf(attempts, exam)
         && right(i)
  {
    var marked := MarkAll(attempts, v, IdsOf(attempts, exam), now);
    MarkTouches(attempts, v, exam, now, exam);
    forall i | i in IdsOf(attempts, exam) ensures (marked[i].isCorrect == Some(true)) == right(i) {
    }
  }

  lemma SubmissionBooked(attempts: map<nat, Attempt>, v: Served, now: int, exam: nat)
    ensures
      var ids := Walked(attempts, v, exam);
      && (forall i :: 0 <= i < |ids| ==> ids[i] in attempts)
      && Booked(MarkAll(attempts, v, IdsOf(attempts, exam), now), exam, ResultOf(RowsOf(v, attempts, ids)))
  {
    WalkedIsAll(attempts, v, exam);
    var (ids, marked) := (Walked(attempts, v, exam), MarkAll(attempts, v, IdsOf(attempts, exam), now));
    MarkTouches(attempts, v, exam, now, exam);
    var right := (i: nat) => i in attempts && Verdict(v, attempts[i]);
    RightRowsCounted(RowsOf(v, attempts, ids), ids, right);
    RightOnesMarked(attempts, v, now, exam, right);
    assert RightOnes(marked, exam) == RightAmong(ids, right);
    BookedFrom(marked, exam, RowsOf(v, attempts, ids));
  }

  lemma MarkTouches(attempts: map<nat, Attempt>, v: Served, exam: nat, now: int, e: nat)
    ensures SameQuestions(attempts, MarkAll(attempts, v, IdsOf(attempts, exam), now), e)
    ensures e != exam ==> SameRows(attempts, MarkAll(attempts, v, IdsOf(attempts, exam), now), e)
  {
    var t := MarkAll(attempts, v, IdsOf(attempts, exam), now);
    assert forall i :: i in IdsOf(attempts, e) <==> i in IdsOf(t, e);
  }

  /** A row marked at submission: everything but the marking stays. */
  predicate MarkedFrom(a: Attempt, b: Attempt) {
    && b.user == a.user && b.course == a.course && b.key == a.key && b.exam == a.exam && b.seed == a.seed
    && b.given == a.given && b.createdAt == a.createdAt
    && b.state == Answered && b.isCorrect.Some? && b.answeredAt.Some?
    && (b.isCorrect == Some(true) ==> b.given.Some?)
  }

  lemma ClosingRowsFine(s: State, marked: map<nat, Attempt>, exam: nat, x: Exam)
    requires Inv(s) && exam in s.exams && marked.Keys == s.attempts.Keys
    requires forall i :: i in s.attempts ==>
      if s.attempts[i].exam == Some(exam) then MarkedFrom(s.attempts[i], marked[i]) else marked[i] == s.attempts[i]
    requires x.status == Submitted && x.user == s.exams[exam].user && x.course == s.exams[exam].course
    ensures AttemptsFine(State(marked, s.exams[exam := x])) && OnePractice(marked)
  {
    forall i | i in marked ensures AttemptFine(s.exams[exam := x], marked[i]) {
      assert AttemptFine(s.exams, s.attempts[i]);
    }
  }

  lemma ClosingExamKept(s: State, marked: map<nat, Attempt>, exam: nat, x: Exam, e: nat)
    requires Inv(s) && exam in s.exams && e in s.exams && marked.Keys == s.attempts.Keys
    requires forall i :: i in s.attempts ==>
      if s.attempts[i].exam == Some(exam) then MarkedFrom(s.attempts[i], marked[i]) else marked[i] == s.attempts[i]
    requires x.order == s.exams[exam].order && x.result.Some? && Booked(marked, exam, x.result.value)
    ensures
      var t := s.exams[exam := x];
      (t[e].order.Some? ==> Frozen(marked, e, t[e].order.value))
        && (t[e].result.Some? ==> Booked(marked, e, t[e].result.value))
  {
    assert forall i :: i in IdsOf(s.attempts, e) <==> i in IdsOf(marked, e);
    if e != exam {
      ExamKept(s, State(marked, s.exams[exam := x]), e);
    } else {
      ExamKept(s, State(marked, s.exams[exam := x.(result := None)]), e);
    }
  }

  lemma ClosingKeepsInv(s: State, marked: map<nat, Attempt>, exam: nat, x: Exam)
    requires Inv(s) && exam in s.exams && marked.Keys == s.attempts.Keys
    requires forall i :: i in s.attempts ==>
      if s.attempts[i].exam == Some(exam) then MarkedFrom(s.attempts[i], marked[i]) else marked[i] == s.attempts[i]
    requires x.status == Submitted && x.user == s.exams[exam].user && x.course == s.exams[exam].course
    requires x.finishedAt.Some? && x.order == s.exams[exam].order
    requires x.result.Some? && Booked(marked, exam, x.result.value)
    ensures Inv(State(marked, s.exams[exam := x]))
  {
    ClosingRowsFine(s, marked, exam, x);
    var t := State(marked, s.exams[exam := x]);
    assert ExamsKept(t) by {
      forall e | e in t.exams
        ensures t.exams[e].order.Some? ==> Frozen(marked, e, t.exams[e].order.value)
        ensures t.exams[e].result.Some? ==> Booked(marked, e, t.exams[e].result.value)
      {
        ClosingExamKept(s, marked, exam, x, e);
      }
    }
  }

  lemma MarkAllMarks(attempts: map<nat, Attempt>, v: Served, now: int, exam: nat, i: nat)
    requires i in attempts
    ensures
      var marked := MarkAll(attempts, v, IdsOf(attempts, exam), now);
      if attempts[i].exam == Some(exam) then MarkedFrom(attempts[i], marked[i]) else marked[i] == attempts[i]
  {
  }

  lemma SubmitKeepsInv(s: State, v: Served, now: int, user: nat, exam: nat)
    requires Inv(s)
    ensures Inv(SubmittedExam(s, v, now, user, exam).state)
  {
    if Owned(s, v.course.id, user, exam) && s.exams[exam].status == InProgress {
      SubmissionBooked(s.attempts, v, now, exam);
      var marked := MarkAll(s.attempts, v, IdsOf(s.attempts, exam), now);
      var result := ResultOf(RowsOf(v, s.attempts, Walked(s.attempts, v, exam)));
      var x := s.exams[exam].(finishedAt := Some(now), status := Submitted, result := Some(result));
      forall i | i in s.attempts
        ensures if s.attempts[i].exam == Some(exam) then MarkedFrom(s.attempts[i], marked[i])
             else marked[i] == s.attempts[i]
      {
        MarkAllMarks(s.attempts, v, now, exam, i);
      }
      ClosingKeepsInv(s, marked, exam, x);
    }
  }

  // ---- every step, every run ----

  lemma AnswerKeepsInv(s: State, v: Served, now: int, user: nat, attempt: nat, answer: Fields)
    requires Inv(s)
    ensures Inv(AnsweredAttempt(s, v, now, user, attempt, answer).state)
  {
    var r := AnsweredAttempt(s, v, now, user, attempt, answer);
    if r.error.None? {
      assert AttemptFine(s.exams, s.attempts[attempt]);
      RowChangeKeepsInv(s, attempt, r.state.attempts[attempt]);
    }
  }

  lemma AnswerExamKeepsInv(s: State, course: string, user: nat, exam: nat, attempt: nat, answer: Fields)
    requires Inv(s)
    ensures Inv(AnsweredQuestion(s, course, user, exam, attempt, answer).state)
  {
    var r := AnsweredQuestion(s, course, user, exam, attempt, answer);
    if r.error.None? {
      assert AttemptFine(s.exams, s.attempts[attempt]);
      RowChangeKeepsInv(s, attempt, s.attempts[attempt].(given := Some(answer)));
    }
  }

  lemma PractiseStepKeepsInv(s: State, v: Served, now: int, user: nat, exerciseId: string, id: nat, seed: int)
    requires Inv(s) && Deployed(v) && id !in s.attempts
    ensures Inv(OpenedAttempt(s, v, now, user, exerciseId, id, seed).state)
  {
    if exerciseId in v.playable {
      PlayableHasKey(v, exerciseId);
      PractiseKeepsInv(s, user, v.course.id, v.registry.exerciseKeys[exerciseId], id, seed, now);
    }
  }

  lemma GiveUpKeepsInv(s: State, now: int, course: string, user: nat, exam: nat)
    requires Inv(s)
    ensures Inv(AbandonedExam(s, now, course, user, exam).state)
  {
    if Owned(s, course, user, exam) && s.exams[exam].status == InProgress { AbandonKeepsInv(s, {exam}, now); }
  }

  /** Whatever the request and whatever course is deployed, the tables stay consistent. */
  lemma StepKeepsInv(s: State, step: Step)
    requires Inv(s) && Enabled(s, step)
    ensures Inv(Next(s, step))
  {
    var (v, now) := (step.v, step.now);
    match step.request {
      case Practise(user, exerciseId, id, seed) => PractiseStepKeepsInv(s, v, now, user, exerciseId, id, seed);
      case Answer(user, attempt, answer) => AnswerKeepsInv(s, v, now, user, attempt, answer);
      case Start(user, scope, blockId, d) => StartKeepsInv(s, v, now, user, scope, blockId, d);
      case AnswerExam(user, exam, attempt, answer) => AnswerExamKeepsInv(s, v.course.id, user, exam, attempt, answer);
      case Submit(user, exam) => SubmitKeepsInv(s, v, now, user, exam);
      case GiveUp(user, exam) => GiveUpKeepsInv(s, now, v.course.id, user, exam);
    }
  }

  /** Safety over whole runs, from the empty database or any consistent one. */
  lemma {:induction false} RunKeepsInv(s: State, steps: seq<Step>)
    requires Inv(s) && Legal(s, steps)
    ensures Inv(Run(s, steps))
    decreases |steps|
  {
    if steps != [] {
      StepKeepsInv(s, steps[0]);
      RunKeepsInv(Next(s, steps[0]), steps[1..]);
    }
  }

  lemma EmptyIsConsistent()
    ensures Inv(State(map[], map[]))
  {
  }

  // ---- a closed exam is final ----

  ghost predicate ClosedKept(s: State, t: State) {
    forall e :: e in s.exams && s.exams[e].finishedAt.Some? ==>
      e in t.exams && t.exams[e] == s.exams[e] && SameRows(s.attempts, t.attempts, e)
  }

  lemma NewExamKeepsClosed(s: State, d: Draw, x: Exam, gone: set<nat>, now: int)
    requires x.order.Some? && Enough(d, |x.order.value|) && FreshDraw(s, d)
    requires forall e :: e in gone && e in s.exams ==> s.exams[e].finishedAt.None?
    ensures ClosedKept(s, AddExam(Abandon(s, gone, now), d, x, now))
  {
    var closed := Abandon(s, gone, now);
    NewRows(closed, d, x, now);
    forall e | e in s.exams && s.exams[e].finishedAt.Some?
      ensures SameRows(s.attempts, AddExam(closed, d, x, now).attempts, e)
    {
      AbandonTouches(s, gone, now, e);
      assert SameRows(closed.attempts, AddExam(closed, d, x, now).attempts, e);
    }
  }

  lemma StartKeepsClosed(s: State, v: Served, now: int, user: nat, scope: string, blockId: Option<string>, d: Draw)
    requires Deployed(v) && FreshDraw(s, d) && Enough(d, |Modules(v.course)|)
    ensures ClosedKept(s, StartedExam(s, v, now, user, scope, blockId, d).state)
  {
    var block := BlockOf(scope, blockId);
    var mods := ScopeModules(v, scope, block);
    if KnownScope(v, scope, blockId) && mods != [] {
      var x := NewExam(user, v.course.id, scope, block, now, QuestionKeys(v, mods, d));
      NewExamKeepsClosed(s, d, x, Closing(s, user, v.course.id, scope, block), now);
    }
  }

  lemma RowChangeKeepsClosed(s: State, id: nat, a: Attempt)
    requires id in s.attempts && a.exam == s.attempts[id].exam && a.key == s.attempts[id].key
    requires a.exam.Some? ==> a.exam.value in s.exams && s.exams[a.exam.value].finishedAt.None?
    ensures ClosedKept(s, s.(attempts := s.attempts[id := a]))
  {
    forall e | e in s.exams && s.exams[e].finishedAt.Some? ensures SameRows(s.attempts, s.attempts[id := a], e) {
      OneRowTouched(s.attempts, id, a, e);
    }
  }

  lemma SubmitKeepsClosed(s: State, v: Served, now: int, user: nat, exam: nat)
    requires Inv(s)
    ensures ClosedKept(s, SubmittedExam(s, v, now, user, exam).state)
  {
    if Owned(s, v.course.id, user, exam) && s.exams[exam].status == InProgress {
      assert ExamFine(s.exams[exam]);
      forall e | e in s.exams && s.exams[e].finishedAt.Some?
        ensures SameRows(s.attempts, MarkAll(s.attempts, v, IdsOf(s.attempts, exam), now), e)
      {
        MarkTouches(s.attempts, v, exam, now, e);
      }
    }
  }

  lemma GiveUpKeepsClosed(s: State, now: int, course: string, user: nat, exam: nat)
    requires Inv(s)
    ensures ClosedKept(s, AbandonedExam(s, now, course, user, exam).state)
  {
    if Owned(s, course, user, exam) && s.exams[exam].status == InProgress {
      assert ExamFine(s.exams[exam]);
      forall e | e in s.exams && s.exams[e].finishedAt.Some?
        ensures SameRows(s.attempts, Abandon(s, {exam}, now).attempts, e)
      {
        AbandonTouches(s, {exam}, now, e);
      }
    }
  }

  lemma AnswerKeepsClosed(s: State, v: Served, now: int, user: nat, attempt: nat, answer: Fields)
    requires Inv(s)
    ensures ClosedKept(s, AnsweredAttempt(s, v, now, user, attempt, answer).state)
  {
    var r := AnsweredAttempt(s, v, now, user, attempt, answer);
    if r.error.None? {
      assert AttemptFine(s.exams, s.attempts[attempt]);
      assert s.attempts[attempt].exam.Some? ==> ExamFine(s.exams[s.attempts[attempt].exam.value]);
      RowChangeKeepsClosed(s, attempt, r.state.attempts[attempt]);
    }
  }

  lemma AnswerExamKeepsClosed(s: State, course: string, user: nat, exam: nat, attempt: nat, answer: Fields)
    requires Inv(s)
    ensures ClosedKept(s, AnsweredQuestion(s, course, user, exam, attempt, answer).state)
  {
    var r := AnsweredQuestion(s, course, user, exam, attempt, answer);
    if r.error.None? {
      assert ExamFine(s.exams[exam]);
      RowChangeKeepsClosed(s, attempt, s.attempts[attempt].(given := Some(answer)));
    }
  }

  lemma PractiseStepLeavesExams(s: State, v: Served, now: int, user: nat, exerciseId: string, id: nat, seed: int)
    requires Deployed(v) && id !in s.attempts
    ensures
      var t := OpenedAttempt(s, v, now, user, exerciseId, id, seed).state;
      t.exams == s.exams && forall e :: SameRows(s.attempts, t.attempts, e)
  {
    if exerciseId in v.playable {
      PlayableHasKey(v, exerciseId);
      PractiseTouchesPracticeOnly(s.attempts, user, v.course.id, v.registry.exerciseKeys[exerciseId], id, seed, now);
    }
  }

  /** Tables that agree on every exam and its rows keep what is closed, and all questions. */
  lemma SameExamsKept(s: State, t: State)
    requires t.exams == s.exams && forall e :: SameRows(s.attempts, t.attempts, e)
    ensures ClosedKept(s, t) && QuestionsKept(s, t)
  {
    forall e | e in s.exams ensures SameRows(s.attempts, t.attempts, e) && SameQuestions(s.attempts, t.attempts, e) {}
  }

  lemma PractiseKeepsExams(s: State, v: Served, now: int, user: nat, exerciseId: string, id: nat, seed: int)
    requires Deployed(v) && id !in s.attempts
    ensures
      var t := OpenedAttempt(s, v, now, user, exerciseId, id, seed).state;
      ClosedKept(s, t) && QuestionsKept(s, t)
  {
    PractiseStepLeavesExams(s, v, now, user, exerciseId, id, seed);
    SameExamsKept(s, OpenedAttempt(s, v, now, user, exerciseId, id, seed).state);
  }

  lemma PracticeStepKeepsClosed(s: State, step: Step)
    requires Inv(s) && Enabled(s, step) && !IsExamStep(step)
    ensures ClosedKept(s, Next(s, step))
  {
    var (v, now) := (step.v, step.now);
    match step.request {
      case Practise(user, exerciseId, id, seed) => PractiseKeepsExams(s, v, now, user, exerciseId, id, seed);
      case Answer(user, attempt, answer) => AnswerKeepsClosed(s, v, now, user, attempt, answer);
    }
  }

  lemma ExamStepKeepsClosed(s: State, step: Step)
    requires Inv(s) && Enabled(s, step) && IsExamStep(step)
    ensures ClosedKept(s, Next(s, step))
  {
    var (v, now) := (step.v, step.now);
    match step.request {
      case Start(user, scope, blockId, d) => StartKeepsClosed(s, v, now, user, scope, blockId, d);
      case AnswerExam(user, exam, attempt, answer) =>
        AnswerExamKeepsClosed(s, v.course.id, user, exam, attempt, answer);
      case Submit(user, exam) => SubmitKeepsClosed(s, v, now, user, exam);
      case GiveUp(user, exam) => GiveUpKeepsClosed(s, now, v.course.id, user, exam);
    }
  }

  lemma StepKeepsClosed(s: State, step: Step)
    requires Inv(s) && Enabled(s, step)
    ensures ClosedKept(s, Next(s, step))
  {
    if IsExamStep(step) { ExamStepKeepsClosed(s, step); } else { PracticeStepKeepsClosed(s, step); }
  }

  /** Once submitted or given up, an exam keeps its result and every one of its attempts, for good. */
  lemma {:induction false} ClosedForGood(s: State, steps: seq<Step>, e: nat)
    requires Inv(s) && Legal(s, steps)
    requires e in s.exams && s.exams[e].finishedAt.Some?
    ensures e in Run(s, steps).exams && Run(s, steps).exams[e] == s.exams[e]
    ensures SameRows(s.attempts, Run(s, steps).attempts, e)
    decreases |steps|
  {
    if steps != [] {
      StepKeepsInv(s, steps[0]);
      StepKeepsClosed(s, steps[0]);
      ClosedForGood(Next(s, steps[0]), steps[1..], e);
    }
  }

  // ---- an exam's questions are fixed at the start ----

  /** Every exam is still there, with the order it was given and the questions it was given. */
  ghost predicate QuestionsKept(s: State, t: State) {
    forall e :: e in s.exams ==>
      e in t.exams && t.exams[e].order == s.exams[e].order && SameQuestions(s.attempts, t.attempts, e)
  }

  lemma StartKeepsQuestions(s: State, d: Draw, x: Exam, gone: set<nat>, now: int)
    requires x.order.Some? && Enough(d, |x.order.value|) && FreshDraw(s, d)
    ensures QuestionsKept(s, AddExam(Abandon(s, gone, now), d, x, now))
  {
    var closed := Abandon(s, gone, now);
    NewRows(closed, d, x, now);
    forall e | e in s.exams ensures SameQuestions(s.attempts, AddExam(closed, d, x, now).attempts, e) {
      AbandonTouches(s, gone, now, e);
      assert SameRows(closed.attempts, AddExam(closed, d, x, now).attempts, e);
    }
  }

  lemma RowChangeKeepsQuestions(s: State, id: nat, a: Attempt)
    requires id in s.attempts && a.exam == s.attempts[id].exam && a.key == s.attempts[id].key
    ensures QuestionsKept(s, s.(attempts := s.attempts[id := a]))
  {
    forall e | e in s.exams ensures SameQuestions(s.attempts, s.attempts[id := a], e) {
      OneRowTouched(s.attempts, id, a, e);
    }
  }

  lemma StartStepKeepsQuestions(s: State, v: Served, now: int, user: nat, scope: string, blockId: Option<string>,
                                d: Draw)
    requires Deployed(v) && FreshDraw(s, d) && Enough(d, |Modules(v.course)|)
    ensures QuestionsKept(s, StartedExam(s, v, now, user, scope, blockId, d).state)
  {
    var block := BlockOf(scope, blockId);
    var mods := ScopeModules(v, scope, block);
    if KnownScope(v, scope, blockId) && mods != [] {
      var x := NewExam(user, v.course.id, scope, block, now, QuestionKeys(v, mods, d));
      StartKeepsQuestions(s, d, x, Closing(s, user, v.course.id, scope, block), now);
    }
  }

  lemma SubmitKeepsQuestions(s: State, v: Served, now: int, user: nat, exam: nat)
    ensures QuestionsKept(s, SubmittedExam(s, v, now, user, exam).state)
  {
    forall e | e in s.exams
      ensures SameQuestions(s.attempts, MarkAll(s.attempts, v, IdsOf(s.attempts, exam), now), e)
    {
      MarkTouches(s.attempts, v, exam, now, e);
    }
  }

  lemma GiveUpKeepsQuestions(s: State, now: int, course: string, user: nat, exam: nat)
    ensures QuestionsKept(s, AbandonedExam(s, now, course, user, exam).state)
  {
    forall e | e in s.exams ensures SameQuestions(s.attempts, Abandon(s, {exam}, now).attempts, e) {
      AbandonTouches(s, {exam}, now, e);
    }
  }

  lemma AnswerKeepsQuestions(s: State, v: Served, now: int, user: nat, attempt: nat, answer: Fields)
    ensures QuestionsKept(s, AnsweredAttempt(s, v, now, user, attempt, answer).state)
  {
    var r := AnsweredAttempt(s, v, now, user, attempt, answer);
    if r.error.None? { RowChangeKeepsQuestions(s, attempt, r.state.attempts[attempt]); }
  }

  lemma AnswerExamKeepsQuestions(s: State, course: string, user: nat, exam: nat, attempt: nat, answer: Fields)
    ensures QuestionsKept(s, AnsweredQuestion(s, course, user, exam, attempt, answer).state)
  {
    var r := AnsweredQuestion(s, course, user, exam, attempt, answer);
    if r.error.None? { RowChangeKeepsQuestions(s, attempt, s.attempts[attempt].(given := Some(answer))); }
  }

  lemma PracticeStepKeepsQuestions(s: State, step: Step)
    requires Enabled(s, step) && !IsExamStep(step)
    ensures QuestionsKept(s, Next(s, step))
  {
    var (v, now) := (step.v, step.now);
    match step.request {
      case Practise(user, exerciseId, id, seed) => PractiseKeepsExams(s, v, now, user, exerciseId, id, seed);
      case Answer(user, attempt, answer) => AnswerKeepsQuestions(s, v, now, user, attempt, answer);
    }
  }

  lemma ExamStepKeepsQuestions(s: State, step: Step)
    requires Enabled(s, step) && IsExamStep(step)
    ensures QuestionsKept(s, Next(s, step))
  {
    var (v, now) := (step.v, step.now);
    match step.request {
      case Start(user, scope, blockId, d) => StartStepKeepsQuestions(s, v, now, user, scope, blockId, d);
      case AnswerExam(user, exam, attempt, answer) =>
        AnswerExamKeepsQuestions(s, v.course.id, user, exam, attempt, answer);
      case Submit(user, exam) => SubmitKeepsQuestions(s, v, now, user, exam);
      case GiveUp(user, exam) => GiveUpKeepsQuestions(s, now, v.course.id, user, exam);
    }
  }

  lemma StepKeepsQuestions(s: State, step: Step)
    requires Enabled(s, step)
    ensures QuestionsKept(s, Next(s, step))
  {
    if IsExamStep(step) { ExamStepKeepsQuestions(s, step); } else { PracticeStepKeepsQuestions(s, step); }
  }

  lemma {:induction false} QuestionsForGood(s: State, steps: seq<Step>, e: nat)
    requires Legal(s, steps) && e in s.exams
    ensures e in Run(s, steps).exams && Run(s, steps).exams[e].order == s.exams[e].order
    ensures SameQuestions(s.attempts, Run(s, steps).attempts, e)
    decreases |steps|
  {
    if steps != [] {
      StepKeepsQuestions(s, steps[0]);
      QuestionsForGood(Next(s, steps[0]), steps[1..], e);
    }
  }

  // ---- the lanes do not mix ----

  function PracticeRows(attempts: map<nat, Attempt>): (r: map<nat, Attempt>) {
    map i | i in attempts && attempts[i].exam.None? :: attempts[i]
  }

  lemma StartLeavesPractice(s: State, d: Draw, x: Exam, gone: set<nat>, now: int)
    requires x.order.Some? && Enough(d, |x.order.value|) && FreshDraw(s, d)
    ensures PracticeRows(AddExam(Abandon(s, gone, now), d, x, now).attempts) == PracticeRows(s.attempts)
  {
    AbandonLeavesPractice(s, gone, now);
    NewRowsLeavePractice(Abandon(s, gone, now), d, x, now);
  }

  lemma AbandonLeavesPractice(s: State, gone: set<nat>, now: int)
    ensures PracticeRows(Abandon(s, gone, now).attempts) == PracticeRows(s.attempts)
  {
    var t := Abandon(s, gone, now);
    assert PracticeRows(t.attempts).Keys == PracticeRows(s.attempts).Keys;
  }

  lemma NewRowsLeavePractice(s: State, d: Draw, x: Exam, now: int)
    requires x.order.Some? && Enough(d, |x.order.value|) && FreshDraw(s, d)
    ensures PracticeRows(AddExam(s, d, x, now).attempts) == PracticeRows(s.attempts)
  {
    var (keys, t) := (x.order.value, AddExam(s, d, x, now));
    QuestionsAdded(s.attempts, x.user, x.course, keys, d, now);
    forall i | i in t.attempts && i !in s.attempts ensures t.attempts[i].exam.Some? {
      var k :| 0 <= k < |keys| && d.ids[k] == i;
    }
    assert PracticeRows(t.attempts).Keys == PracticeRows(s.attempts).Keys;
  }

  /** Starting, answering, submitting and abandoning exams never touch a practice row. */
  lemma ExamStepsLeavePractice(s: State, step: Step)
    requires Enabled(s, step) && IsExamStep(step)
    ensures PracticeRows(Next(s, step).attempts) == PracticeRows(s.attempts)
  {
    var (v, now) := (step.v, step.now);
    match step.request {
      case Start(user, scope, blockId, d) => StartStepLeavesPractice(s, v, now, user, scope, blockId, d);
      case AnswerExam(user, exam, attempt, answer) =>
        AnswerExamLeavesPractice(s, v.course.id, user, exam, attempt, answer);
      case Submit(user, exam) => SubmitLeavesPractice(s, v, now, user, exam);
      case GiveUp(user, exam) => GiveUpLeavesPractice(s, now, v.course.id, user, exam);
    }
  }

  lemma StartStepLeavesPractice(s: State, v: Served, now: int, user: nat, scope: string, blockId: Option<string>,
                                d: Draw)
    requires Deployed(v) && FreshDraw(s, d) && Enough(d, |Modules(v.course)|)
    ensures PracticeRows(StartedExam(s, v, now, user, scope, blockId, d).state.attempts) == PracticeRows(s.attempts)
  {
    var block := BlockOf(scope, blockId);
    var mods := ScopeModules(v, scope, block);
    if KnownScope(v, scope, blockId) && mods != [] {
      var x := NewExam(user, v.course.id, scope, block, now, QuestionKeys(v, mods, d));
      StartLeavesPractice(s, d, x, Closing(s, user, v.course.id, scope, block), now);
    }
  }

  lemma AnswerExamLeavesPractice(s: State, course: string, user: nat, exam: nat, attempt: nat, answer: Fields)
    ensures PracticeRows(AnsweredQuestion(s, course, user, exam, attempt, answer).state.attempts)
         == PracticeRows(s.attempts)
  {
    var t := AnsweredQuestion(s, course, user, exam, attempt, answer).state;
    assert PracticeRows(t.attempts).Keys == PracticeRows(s.attempts).Keys;
  }

  lemma GiveUpLeavesPractice(s: State, now: int, course: string, user: nat, exam: nat)
    ensures PracticeRows(AbandonedExam(s, now, course, user, exam).state.attempts) == PracticeRows(s.attempts)
  {
    AbandonLeavesPractice(s, {exam}, now);
  }

  lemma SubmitLeavesPractice(s: State, v: Served, now: int, user: nat, exam: nat)
    ensures PracticeRows(SubmittedExam(s, v, now, user, exam).state.attempts) == PracticeRows(s.attempts)
  {
    var marked := MarkAll(s.attempts, v, IdsOf(s.attempts, exam), now);
    assert PracticeRows(marked).Keys == PracticeRows(s.attempts).Keys;
    assert PracticeRows(marked) == PracticeRows(s.attempts);
  }

  /** Opening practice attempts never touches an exam or any of its rows. */
  lemma PractiseLeavesExams(s: State, step: Step, e: nat)
    requires Enabled(s, step) && step.request.Practise?
    ensures Next(s, step).exams == s.exams && SameRows(s.attempts, Next(s, step).attempts, e)
  {
    var q := step.request;
    PractiseStepLeavesExams(s, step.v, step.now, q.user, q.exerciseId, q.id, q.seed);
  }

  // ---- what submission marks ----

  /** The same row, up to how it was marked before. */
  predicate SameButMarks(a: Attempt, b: Attempt) {
    b == a.(state := b.state, isCorrect := b.isCorrect, answeredAt := b.answeredAt)
  }

  /**
   * Submission grades the stored answers afresh: nothing an earlier step marked on the exam's rows shows
   * in the result or in what the rows are marked now.
   */
  lemma SubmissionRegrades(s: State, t: State, v: Served, now: int, user: nat, exam: nat)
    requires t.exams == s.exams && t.attempts.Keys == s.attempts.Keys
    requires forall i :: i in s.attempts ==>
      if s.attempts[i].exam == Some(exam) then SameButMarks(s.attempts[i], t.attempts[i])
      else t.attempts[i] == s.attempts[i]
    requires Owned(s, v.course.id, user, exam) && s.exams[exam].status == InProgress
    ensures SubmittedExam(s, v, now, user, exam) == SubmittedExam(t, v, now, user, exam)
  {
    SameWalk(s.attempts, t.attempts, v, exam);
    SameMarks(s.attempts, t.attempts, v, now, exam);
    SameRowsWalked(s.attempts, t.attempts, v, exam);
  }

  lemma SameRowsWalked(a: map<nat, Attempt>, b: map<nat, Attempt>, v: Served, exam: nat)
    requires b.Keys == a.Keys
    requires forall i :: i in a ==> if a[i].exam == Some(exam) then SameButMarks(a[i], b[i]) else b[i] == a[i]
    ensures forall i :: 0 <= i < |Walked(a, v, exam)| ==> Walked(a, v, exam)[i] in a
    ensures RowsOf(v, a, Walked(a, v, exam)) == RowsOf(v, b, Walked(a, v, exam))
  {
    var ids := Walked(a, v, exam);
    WalkedIsAll(a, v, exam);
    forall i | 0 <= i < |ids| ensures ids[i] in a && SameButMarks(a[ids[i]], b[ids[i]]) {
      assert ids[i] in ids && ids[i] in IdsOf(a, exam);
    }
    SameRowsOf(a, b, v, ids);
  }

  lemma SameWalk(a: map<nat, Attempt>, b: map<nat, Attempt>, v: Served, exam: nat)
    requires b.Keys == a.Keys
    requires forall i :: i in a ==> if a[i].exam == Some(exam) then SameButMarks(a[i], b[i]) else b[i] == a[i]
    ensures Walked(a, v, exam) == Walked(b, v, exam)
  {
    assert IdsOf(a, exam) == IdsOf(b, exam);
    var ids := InOrder(IdsOf(a, exam));
    InOrderMembers(IdsOf(a, exam));
    forall i, j | i in ids && j in ids ensures ByRank(v, a)(i, j) == ByRank(v, b)(i, j) {
      assert a[i].key == b[i].key && a[j].key == b[j].key;
    }
    SortAgrees(ids, ByRank(v, a), ByRank(v, b));
  }

  lemma SameMarks(a: map<nat, Attempt>, b: map<nat, Attempt>, v: Served, now: int, exam: nat)
    requires b.Keys == a.Keys
    requires forall i :: i in a ==> if a[i].exam == Some(exam) then SameButMarks(a[i], b[i]) else b[i] == a[i]
    ensures MarkAll(a, v, IdsOf(a, exam), now) == MarkAll(b, v, IdsOf(b, exam), now)
  {
  }

  lemma SameRowsOf(a: map<nat, Attempt>, b: map<nat, Attempt>, v: Served, ids: seq<nat>)
    requires forall i :: 0 <= i < |ids| ==> ids[i] in a && ids[i] in b && SameButMarks(a[ids[i]], b[ids[i]])
    ensures RowsOf(v, a, ids) == RowsOf(v, b, ids)
  {
  }

  /** After submission each row is right exactly when its stored answer grades right today. */
  lemma SubmissionMarks(s: State, v: Served, now: int, user: nat, exam: nat, i: nat)
    requires Inv(s) && SubmittedExam(s, v, now, user, exam).error.None? && i in IdsOf(s.attempts, exam)
    ensures
      var (a, b) := (s.attempts[i], SubmittedExam(s, v, now, user, exam).state.attempts[i]);
      var id := DisplayId(v.registry, a.key);
      && b.given == a.given
      && (b.isCorrect == Some(true)
        <==> a.given.Some? && id in v.playable && v.grade(id, a.seed, a.given.value) == Some(true))
      && (b.isCorrect == Some(true) || b.isCorrect == Some(false))
  {
  }

  /** The i-th question of a new sitting is a playable exercise of the i-th module in scope. */
  lemma QuestionsFollowModules(v: Served, scope: string, blockId: Option<string>, d: Draw, i: nat)
    returns (e: ExerciseAt)
    requires Deployed(v) && Enough(d, |Modules(v.course)|) && i < |ScopeModules(v, scope, blockId)|
    ensures e in ModuleExercises(ScopeModules(v, scope, blockId)[i]) && e.exercise.id in v.playable
    ensures QuestionKeys(v, ScopeModules(v, scope, blockId), d)[i] == e.exercise.key
  {
    var mods := ScopeModules(v, scope, blockId);
    e := Picked(v, mods[i], d.picks[i]);
    FilterAt(Modules(v.course), Examined(v, scope, blockId), i);
    KeyIsOwn(v, PlacesOf(Modules(v.course), Examined(v, scope, blockId))[i], e);
  }
}
