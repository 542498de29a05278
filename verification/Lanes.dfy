/**
 * Practice attempts and exam sittings: two lanes over one table, changed by six kinds of request.
 *
 * Each request is specified by a function from the tables before it to the tables after it, with the
 * error it answers, and carried out by a method of `Database` that updates the tables in place. Fresh
 * ids, seeds and the clock are arguments; grading is an arbitrary partial function.
 */
module Lanes {
  import opened Text
  import opened Sequences
  import opened Manifest
  import opened ExamResults
  import Quiz

  type Fields = Quiz.Fields

  // ---- the tables ----

  datatype AttemptState = Open | Answered | Abandoned
  datatype Attempt = Attempt(
    user: nat, course: string, key: string, exam: Option<nat>, seed: int, state: AttemptState,
    given: Option<Fields>, isCorrect: Option<bool>, createdAt: int, answeredAt: Option<int>)

  datatype ExamStatus = InProgress | Submitted | GivenUp
  datatype Exam = Exam(
    user: nat, course: string, scope: string, blockId: Option<string>, status: ExamStatus, createdAt: int,
    finishedAt: Option<int>, order: Option<seq<string>>, result: Option<Result>)

  datatype State = State(attempts: map<nat, Attempt>, exams: map<nat, Exam>)

  /** The course as deployed at the time of a request: `grade` is None where grading raises. */
  datatype Served = Served(course: Course, registry: Registry, playable: set<string>,
                           grade: (string, int, Fields) -> Option<bool>)

  ghost predicate Deployed(v: Served) {
    Valid(v.course) && v.registry == RegistryOf(v.course) && v.playable <= Elements(ExerciseIds(Exercises(v.course)))
  }

  datatype Error =
    | ExerciseNotAvailable | ExerciseNotFound | AttemptNotFound | AttemptAlreadyResolved | InvalidAnswer
    | ExamBadScope | ExamEmpty | ExamNotFound | ExamNotOpen | QuestionNotFound

  datatype Reply = Reply(state: State, error: Option<Error>)

  // ---- practice ----

  /** An exercise the course lists but cannot play answers differently from one it does not know. */
  function Unresolved(v: Served, id: string): (e: Error) {
    if id in ExerciseIds(Exercises(v.course)) then ExerciseNotAvailable else ExerciseNotFound
  }

  /** The unanswered practice attempts a new one for the same exercise gives up on. */
  function GivenUpOn(attempts: map<nat, Attempt>, user: nat, course: string, key: string): (m: map<nat, Attempt>) {
    map i | i in attempts ::
      var a := attempts[i];
      if a.user == user && a.course == course && a.key == key && a.state == Open && a.exam.None?
      then a.(state := Abandoned) else a
  }

  function Practice(user: nat, course: string, key: string, seed: int, now: int): (a: Attempt) {
    Attempt(user, course, key, None, seed, Open, None, None, now, None)
  }

  function OpenedAttempt(s: State, v: Served, now: int, user: nat, exerciseId: string, id: nat, seed: int): (r: Reply)
    requires Deployed(v)
  {
    if exerciseId !in v.playable then Reply(s, Some(Unresolved(v, exerciseId)))
    else
      PlayableHasKey(v, exerciseId);
      var key := v.registry.exerciseKeys[exerciseId];
      var course := v.course.id;
      Reply(s.(attempts := GivenUpOn(s.attempts, user, course, key)[id := Practice(user, course, key, seed, now)]),
            None)
  }

  lemma PlayableHasKey(v: Served, id: string)
    requires Deployed(v) && id in v.playable
    ensures id in v.registry.exerciseKeys
  {
  }

  function Resolved(a: Attempt, answer: Fields, correct: bool, now: int): (b: Attempt) {
    a.(given := Some(answer), isCorrect := Some(correct), state := Answered, answeredAt := Some(now))
  }

  /** Checks owner, course and state, and nothing about the lane: an exam's row passes too. */
  function AnsweredAttempt(s: State, v: Served, now: int, user: nat, attempt: nat, answer: Fields): (r: Reply) {
    if attempt !in s.attempts || s.attempts[attempt].user != user || s.attempts[attempt].course != v.course.id then
      Reply(s, Some(AttemptNotFound))
    else
      var a := s.attempts[attempt];
      var id := DisplayId(v.registry, a.key);
      if a.state != Open then Reply(s, Some(AttemptAlreadyResolved))
      else if id !in v.playable then Reply(s, Some(Unresolved(v, id)))
      else match v.grade(id, a.seed, answer)
        case None => Reply(s, Some(InvalidAnswer))
        case Some(correct) => Reply(s.(attempts := s.attempts[attempt := Resolved(a, answer, correct, now)]), None)
  }

  // ---- starting an exam ----

  /** The exercises of a module an exam can draw from. */
  function Pool(v: Served, m: ModuleAt): (r: seq<ExerciseAt>) {
    Filter(ModuleExercises(m), (e: ExerciseAt) => e.exercise.id in v.playable)
  }

  predicate InScope(v: Served, m: ModuleAt, scope: string, blockId: Option<string>) {
    (scope == "block" ==> blockId == Some(m.blockId)) && Pool(v, m) != []
  }

  function Examined(v: Served, scope: string, blockId: Option<string>): (keep: ModuleAt -> bool) {
    m => InScope(v, m, scope, blockId)
  }

  /** The modules a sitting examines, in canonical order. */
  function ScopeModules(v: Served, scope: string, blockId: Option<string>): (r: seq<ModuleAt>)
    ensures |r| <= |Modules(v.course)|
    ensures Drawable(v, r)
  {
    Filter(Modules(v.course), Examined(v, scope, blockId))
  }

  /** What one start draws: row ids, one raw pick and one seed per question. */
  datatype Draw = Draw(exam: nat, ids: seq<nat>, picks: seq<nat>, seeds: seq<int>)

  predicate Enough(d: Draw, n: nat) {
    |d.ids| >= n && |d.picks| >= n && |d.seeds| >= n
  }

  function Picked(v: Served, m: ModuleAt, pick: nat): (e: ExerciseAt)
    requires Pool(v, m) != []
    ensures e in Pool(v, m)
  {
    Pool(v, m)[pick % |Pool(v, m)|]
  }

  function Question(user: nat, course: string, key: string, exam: nat, seed: int, now: int): (a: Attempt) {
    Attempt(user, course, key, Some(exam), seed, Open, None, None, now, None)
  }

  ghost predicate Drawable(v: Served, mods: seq<ModuleAt>) {
    forall i :: 0 <= i < |mods| ==> Pool(v, mods[i]) != []
  }

  /** An exercise's permanent key, looked up by its display id. */
  function KeyOf(r: Registry, e: ExerciseAt): (key: string) {
    if e.exercise.id in r.exerciseKeys then r.exerciseKeys[e.exercise.id] else e.exercise.key
  }

  /** The permanent key of the i-th question drawn. */
  function QuestionKey(v: Served, mods: seq<ModuleAt>, d: Draw, i: nat): (key: string)
    requires Drawable(v, mods) && Enough(d, |mods|) && i < |mods|
  {
    KeyOf(v.registry, Picked(v, mods[i], d.picks[i]))
  }

  /** The first `n` of the keys a draw yields. */
  function Listed(keyAt: int -> string, n: nat): (r: seq<string>)
    ensures |r| == n
    ensures forall i :: 0 <= i < n ==> r[i] == keyAt(i)
  {
    if n == 0 then [] else Listed(keyAt, n - 1) + [keyAt(n - 1)]
  }

  function Drawing(v: Served, mods: seq<ModuleAt>, d: Draw): (keyAt: int -> string)
    requires Drawable(v, mods) && Enough(d, |mods|)
  {
    i => if 0 <= i < |mods| then QuestionKey(v, mods, d, i) else ""
  }

  function QuestionKeys(v: Served, mods: seq<ModuleAt>, d: Draw): (r: seq<string>)
    requires Drawable(v, mods) && Enough(d, |mods|)
    ensures |r| == |mods|
    ensures forall i :: 0 <= i < |r| ==> r[i] == QuestionKey(v, mods, d, i)
  {
    Listed(Drawing(v, mods, d), |mods|)
  }

  /** The attempts table with one open attempt added per question. */
  function WithQuestions(attempts: map<nat, Attempt>, user: nat, course: string, keys: seq<string>, d: Draw, now: int)
    : (m: map<nat, Attempt>)
    requires Enough(d, |keys|)
  {
    if keys == [] then attempts
    else
      var n := |keys| - 1;
      WithQuestions(attempts, user, course, keys[..n], d, now)
        [d.ids[n] := Question(user, course, keys[n], d.exam, d.seeds[n], now)]
  }

  /** The sittings a new one of the same scope closes. */
  function Closing(s: State, user: nat, course: string, scope: string, blockId: Option<string>): (r: set<nat>)
    ensures r <= s.exams.Keys
  {
    set e | e in s.exams && s.exams[e].user == user && s.exams[e].course == course && s.exams[e].finishedAt.None?
            && s.exams[e].status == InProgress && s.exams[e].scope == scope && s.exams[e].blockId == blockId
  }

  /** Some sittings given up: closed, and all their attempts abandoned, answered or not. */
  function Abandon(s: State, gone: set<nat>, now: int): (t: State) {
    State(
      map i | i in s.attempts ::
        var a := s.attempts[i];
        if a.exam.Some? && a.exam.value in gone then a.(state := Abandoned) else a,
      map e | e in s.exams ::
        if e in gone then s.exams[e].(finishedAt := Some(now), status := GivenUp) else s.exams[e])
  }

  function NewExam(user: nat, course: string, scope: string, blockId: Option<string>, now: int, keys: seq<string>)
    : (e: Exam)
  {
    Exam(user, course, scope, blockId, InProgress, now, None, Some(keys), None)
  }

  /** A new sitting, with one open attempt per question. */
  function AddExam(s: State, d: Draw, exam: Exam, now: int): (t: State)
    requires exam.order.Some? && Enough(d, |exam.order.value|)
  {
    State(WithQuestions(s.attempts, exam.user, exam.course, exam.order.value, d, now),
          s.exams[d.exam := exam])
  }

  /** Which block a request names: none at all for a global exam. */
  function BlockOf(scope: string, blockId: Option<string>): (b: Option<string>) {
    if scope == "block" then blockId else None
  }

  predicate KnownScope(v: Served, scope: string, blockId: Option<string>) {
    scope == "global" || (scope == "block" && blockId.Some? && blockId.value in BlockIds(v.course))
  }

  function StartedExam(s: State, v: Served, now: int, user: nat, scope: string, blockId: Option<string>, d: Draw)
    : (r: Reply)
    requires Enough(d, |Modules(v.course)|)
  {
    var block := BlockOf(scope, blockId);
    var mods := ScopeModules(v, scope, block);
    if !KnownScope(v, scope, blockId) then Reply(s, Some(ExamBadScope))
    else if mods == [] then Reply(s, Some(ExamEmpty))
    else
      var closed := Abandon(s, Closing(s, user, v.course.id, scope, block), now);
      var exam := NewExam(user, v.course.id, scope, block, now, QuestionKeys(v, mods, d));
      Reply(AddExam(closed, d, exam, now), None)
  }

  // ---- taking an exam ----

  predicate Owned(s: State, course: string, user: nat, exam: nat) {
    exam in s.exams && s.exams[exam].user == user && s.exams[exam].course == course
  }

  /** Stores or replaces an answer, without grading it. */
  function AnsweredQuestion(s: State, course: string, user: nat, exam: nat, attempt: nat, answer: Fields): (r: Reply) {
    if !Owned(s, course, user, exam) then Reply(s, Some(ExamNotFound))
    else if s.exams[exam].status != InProgress then Reply(s, Some(ExamNotOpen))
    else if attempt !in s.attempts || s.attempts[attempt].exam != Some(exam) then Reply(s, Some(QuestionNotFound))
    else Reply(s.(attempts := s.attempts[attempt := s.attempts[attempt].(given := Some(answer))]), None)
  }

  function AbandonedExam(s: State, now: int, course: string, user: nat, exam: nat): (r: Reply) {
    if !Owned(s, course, user, exam) then Reply(s, Some(ExamNotFound))
    else if s.exams[exam].status != InProgress then Reply(s, None)
    else Reply(Abandon(s, {exam}, now), None)
  }

  // ---- submitting an exam ----

  function ModuleIdOf(r: Registry, id: string): (m: string) {
    if id in r.locations then r.locations[id].moduleId else ""
  }

  function BlockIdOf(r: Registry, id: string): (b: string) {
    if id in r.locations then r.locations[id].blockId else ""
  }

  /** A stored key's place in today's module order; what the course no longer carries goes last. */
  function Rank(v: Served, key: string): (k: int) {
    var r := v.registry;
    var mods := Modules(v.course);
    var canonical := Dict(ModuleIds(mods), Range(|mods|));
    var m := ModuleIdOf(r, DisplayId(r, key));
    if m in canonical then canonical[m] else 10000
  }

  function IdsOf(attempts: map<nat, Attempt>, exam: nat): (r: set<nat>)
    ensures r <= attempts.Keys
  {
    set i | i in attempts && attempts[i].exam == Some(exam)
  }

  function ByRank(v: Served, attempts: map<nat, Attempt>): (leq: (nat, nat) -> bool) {
    (i: nat, j: nat) => i in attempts && j in attempts ==> Rank(v, attempts[i].key) <= Rank(v, attempts[j].key)
  }

  /** A sitting's attempts as grading walks them: by id, then by today's module order. */
  function Walked(attempts: map<nat, Attempt>, v: Served, exam: nat): (r: seq<nat>) {
    Sort(InOrder(IdsOf(attempts, exam)), ByRank(v, attempts))
  }

  /** Unanswered, undeployed or ungradeable is wrong; anything else is what grading the stored answer says. */
  function Verdict(v: Served, a: Attempt): (b: bool) {
    var id := DisplayId(v.registry, a.key);
    a.given.Some? && id in v.playable && v.grade(id, a.seed, a.given.value) == Some(true)
  }

  function Marked(v: Served, a: Attempt, now: int): (b: Attempt) {
    a.(isCorrect := Some(Verdict(v, a)), state := Answered, answeredAt := Some(now))
  }

  function RowOf(v: Served, a: Attempt): (row: Row) {
    var r := v.registry;
    var id := DisplayId(r, a.key);
    var m := ModuleIdOf(r, id);
    Row(if m != "" && m in r.moduleKeys then r.moduleKeys[m] else m, BlockIdOf(r, id), Verdict(v, a), a.given.None?)
  }

  function RowsOf(v: Served, attempts: map<nat, Attempt>, ids: seq<nat>): (rows: seq<Row>)
    requires forall i :: 0 <= i < |ids| ==> ids[i] in attempts
    ensures |rows| == |ids|
    ensures forall i :: 0 <= i < |ids| ==> rows[i] == RowOf(v, attempts[ids[i]])
  {
    seq(|ids|, i requires 0 <= i < |ids| => RowOf(v, attempts[ids[i]]))
  }

  /** The attempts with those in `done` marked. */
  function MarkAll(attempts: map<nat, Attempt>, v: Served, done: set<nat>, now: int): (m: map<nat, Attempt>) {
    map i | i in attempts :: if i in done then Marked(v, attempts[i], now) else attempts[i]
  }

  lemma WalkedIsAll(attempts: map<nat, Attempt>, v: Served, exam: nat)
    ensures |Walked(attempts, v, exam)| == |IdsOf(attempts, exam)|
    ensures forall i :: i in Walked(attempts, v, exam) <==> i in IdsOf(attempts, exam)
    ensures NoDup(Walked(attempts, v, exam))
  {
    var ids := InOrder(IdsOf(attempts, exam));
    InOrderMembers(IdsOf(attempts, exam));
    forall i, j | 0 <= i < j < |ids| ensures ids[i] != ids[j] {
      InOrderSorted(IdsOf(attempts, exam), i, j);
    }
    SortPermutes(ids, ByRank(v, attempts));
    PermutationKeepsNoDup(ids, Walked(attempts, v, exam));
  }

  function SubmittedExam(s: State, v: Served, now: int, user: nat, exam: nat): (r: Reply) {
    if !Owned(s, v.course.id, user, exam) then Reply(s, Some(ExamNotFound))
    else if s.exams[exam].status != InProgress then Reply(s, Some(ExamNotOpen))
    else
      WalkedIsAll(s.attempts, v, exam);
      var result := ResultOf(RowsOf(v, s.attempts, Walked(s.attempts, v, exam)));
      var closed := s.exams[exam].(finishedAt := Some(now), status := Submitted, result := Some(result));
      Reply(State(MarkAll(s.attempts, v, IdsOf(s.attempts, exam), now), s.exams[exam := closed]), None)
  }

  // ---- the service over its database ----

  class Database {
    var attempts: map<nat, Attempt>
    var exams: map<nat, Exam>

    function View(): (s: State)
      reads this
    {
      State(attempts, exams)
    }

    constructor ()
      ensures View() == State(map[], map[])
    {
      attempts := map[];
      exams := map[];
    }

    method OpenAttempt(v: Served, now: int, user: nat, exerciseId: string, id: nat, seed: int)
      returns (error: Option<Error>)
      requires Deployed(v)
      modifies this
      ensures Reply(View(), error) == OpenedAttempt(old(View()), v, now, user, exerciseId, id, seed)
    {
      if exerciseId !in v.playable { return Some(Unresolved(v, exerciseId)); }
      PlayableHasKey(v, exerciseId);
      var key := v.registry.exerciseKeys[exerciseId];
      attempts := GivenUpOn(attempts, user, v.course.id, key);
      attempts := attempts[id := Practice(user, v.course.id, key, seed, now)];
      return None;
    }

    method SubmitAnswer(v: Served, now: int, user: nat, attempt: nat, answer: Fields) returns (error: Option<Error>)
      modifies this
      ensures Reply(View(), error) == AnsweredAttempt(old(View()), v, now, user, attempt, answer)
    {
      if attempt !in attempts || attempts[attempt].user != user || attempts[attempt].course != v.course.id {
        return Some(AttemptNotFound);
      }
      var a := attempts[attempt];
      if a.state != Open { return Some(AttemptAlreadyResolved); }
      var id := DisplayId(v.registry, a.key);
      if id !in v.playable { return Some(Unresolved(v, id)); }
      var graded := v.grade(id, a.seed, answer);
      if graded.None? { return Some(InvalidAnswer); }
      a := a.(given := Some(answer));
      a := a.(isCorrect := Some(graded.value));
      a := a.(state := Answered);
      a := a.(answeredAt := Some(now));
      attempts := attempts[attempt := a];
      return None;
    }

    method CloseSitting(exam: nat, now: int)
      requires exam in exams
      modifies this
      ensures View() == Abandon(old(View()), {exam}, now)
    {
      exams := exams[exam := exams[exam].(finishedAt := Some(now))];
      exams := exams[exam := exams[exam].(status := GivenUp)];
      attempts := map i | i in attempts ::
        if attempts[i].exam == Some(exam) then attempts[i].(state := Abandoned) else attempts[i];
    }

    /** Closes the sittings in whatever order the database lists them. */
    method CloseSittings(closing: set<nat>, now: int)
      requires closing <= exams.Keys
      modifies this
      ensures View() == Abandon(old(View()), closing, now)
    {
      var rest := closing;
      AbandonNone(View(), now);
      while rest != {}
        invariant rest <= closing <= exams.Keys
        invariant View() == Abandon(old(View()), closing - rest, now)
        decreases |rest|
      {
        var exam :| exam in rest;
        CloseSitting(exam, now);
        AbandonMore(old(View()), closing - rest, exam, now);
        assert closing - rest + {exam} == closing - (rest - {exam});
        rest := rest - {exam};
      }
      assert closing - rest == closing;
    }

    method StartExam(v: Served, now: int, user: nat, scope: string, blockId: Option<string>, d: Draw)
      returns (error: Option<Error>)
      requires Enough(d, |Modules(v.course)|)
      modifies this
      ensures Reply(View(), error) == StartedExam(old(View()), v, now, user, scope, blockId, d)
    {
      if !KnownScope(v, scope, blockId) { return Some(ExamBadScope); }
      var block := BlockOf(scope, blockId);
      var mods := ScopeModules(v, scope, block);
      if mods == [] { return Some(ExamEmpty); }
      CloseSittings(Closing(View(), user, v.course.id, scope, block), now);
      ghost var closed := View();
      var exam := Exam(user, v.course.id, scope, block, InProgress, now, None, None, None);
      exams := exams[d.exam := exam];
      var keys := AddQuestions(v.course.id, now, user, Drawing(v, mods, d), |mods|, d);
      exams := exams[d.exam := exams[d.exam].(order := Some(keys))];
      Overwrite(closed.exams, d.exam, exam, exam.(order := Some(keys)));
      assert View() == AddExam(closed, d, NewExam(user, v.course.id, scope, block, now, keys), now);
      return None;
    }

    /** Draws one exercise after another, and opens an attempt at each. */
    method AddQuestions(course: string, now: int, user: nat, keyAt: int -> string, n: nat, d: Draw)
      returns (keys: seq<string>)
      requires Enough(d, n)
      modifies this`attempts
      ensures keys == Listed(keyAt, n)
      ensures attempts == WithQuestions(old(attempts), user, course, keys, d, now)
    {
      keys := [];
      var i := 0;
      while i < n
        invariant 0 <= i <= n
        invariant keys == Listed(keyAt, i)
        invariant attempts == WithQuestions(old(attempts), user, course, keys, d, now)
      {
        var key := keyAt(i);
        assert (keys + [key])[..i] == keys;
        keys := keys + [key];
        attempts := attempts[d.ids[i] := Question(user, course, key, d.exam, d.seeds[i], now)];
        i := i + 1;
      }
    }

    method AnswerQuestion(course: string, user: nat, exam: nat, attempt: nat, answer: Fields)
      returns (error: Option<Error>)
      modifies this
      ensures Reply(View(), error) == AnsweredQuestion(old(View()), course, user, exam, attempt, answer)
    {
      if !Owned(View(), course, user, exam) { return Some(ExamNotFound); }
      if exams[exam].status != InProgress { return Some(ExamNotOpen); }
      if attempt !in attempts || attempts[attempt].exam != Some(exam) { return Some(QuestionNotFound); }
      attempts := attempts[attempt := attempts[attempt].(given := Some(answer))];
      return None;
    }

    method AbandonExam(now: int, course: string, user: nat, exam: nat) returns (error: Option<Error>)
      modifies this
      ensures Reply(View(), error) == AbandonedExam(old(View()), now, course, user, exam)
    {
      if !Owned(View(), course, user, exam) { return Some(ExamNotFound); }
      if exams[exam].status == InProgress { CloseSitting(exam, now); }
      return None;
    }

    method GradeOne(v: Served, now: int, id: nat) returns (row: Row)
      requires id in attempts
      modifies this`attempts
      ensures attempts == old(attempts)[id := Marked(v, old(attempts)[id], now)]
      ensures row == RowOf(v, old(attempts)[id])
    {
      var a := attempts[id];
      row := RowOf(v, a);
      a := a.(isCorrect := Some(row.correct));
      a := a.(state := Answered);
      a := a.(answeredAt := Some(now));
      attempts := attempts[id := a];
    }

    method GradeStep(v: Served, now: int, ids: seq<nat>, i: nat, perModule: seq<Row>, totals: Totals,
                     ghost was: map<nat, Attempt>)
      returns (rows: seq<Row>, more: Totals)
      requires NoDup(ids) && i < |ids| && ids[i] in attempts
      requires GradedUpTo(v, now, was, ids, i, attempts, perModule, totals)
      modifies this`attempts
      ensures GradedUpTo(v, now, was, ids, i + 1, attempts, rows, more)
    {
      assert ids[i] !in ids[..i];
      MarkMore(was, v, ids, i, now);
      var row := GradeOne(v, now, ids[i]);
      more := CountRow(perModule, totals, row);
      rows := perModule + [row];
    }

    /** Grades attempt after attempt, keeping the running totals per block. */
    method GradeAll(v: Served, now: int, ids: seq<nat>) returns (result: Result)
      requires NoDup(ids) && forall i :: 0 <= i < |ids| ==> ids[i] in attempts
      modifies this`attempts
      ensures attempts == MarkAll(old(attempts), v, Elements(ids), now)
      ensures result == ResultOf(RowsOf(v, old(attempts), ids))
    {
      var totals, perModule := Totals([], map[], map[], 0), [];
      var i := 0;
      MarkNone(attempts, v, now);
      while i < |ids|
        invariant 0 <= i <= |ids| && attempts.Keys == old(attempts).Keys
        invariant GradedUpTo(v, now, old(attempts), ids, i, attempts, perModule, totals)
      {
        perModule, totals := GradeStep(v, now, ids, i, perModule, totals, old(attempts));
        i := i + 1;
      }
      TakeAll(ids);
      result := Published(perModule, totals);
      assert perModule == RowsOf(v, old(attempts), ids);
    }

    method SubmitExam(v: Served, now: int, user: nat, exam: nat) returns (error: Option<Error>)
      modifies this
      ensures Reply(View(), error) == SubmittedExam(old(View()), v, now, user, exam)
    {
      if !Owned(View(), v.course.id, user, exam) { return Some(ExamNotFound); }
      if exams[exam].status != InProgress { return Some(ExamNotOpen); }
      WalkedIsAll(attempts, v, exam);
      var ids := Walked(attempts, v, exam);
      assert Elements(ids) == IdsOf(attempts, exam);
      var result := GradeAll(v, now, ids);
      RecordResult(now, exam, result);
      return None;
    }

    method RecordResult(now: int, exam: nat, result: Result)
      requires exam in exams
      modifies this`exams
      ensures exams
           == old(exams)[exam := old(exams)[exam].(finishedAt := Some(now), status := Submitted,
                                                   result := Some(result))]
    {
      exams := exams[exam := exams[exam].(finishedAt := Some(now))];
      exams := exams[exam := exams[exam].(status := Submitted)];
      exams := exams[exam := exams[exam].(result := Some(result))];
    }
  }

  /** The first `i` listed attempts are marked, a row written for each, and the rows counted. */
  ghost predicate GradedUpTo(v: Served, now: int, was: map<nat, Attempt>, ids: seq<nat>, i: nat,
                             attempts: map<nat, Attempt>,
                             perModule: seq<Row>, totals: Totals)
    requires i <= |ids|
  {
    && attempts == MarkAll(was, v, Elements(ids[..i]), now)
    && |perModule| == i && (forall j :: 0 <= j < i ==> ids[j] in was && perModule[j] == RowOf(v, was[ids[j]]))
    && Tallies(perModule, totals)
  }

  lemma AbandonNone(s: State, now: int)
    ensures Abandon(s, {}, now) == s
  {
  }

  lemma AbandonMore(s: State, gone: set<nat>, exam: nat, now: int)
    ensures Abandon(Abandon(s, gone, now), {exam}, now) == Abandon(s, gone + {exam}, now)
  {
    var (once, both) := (Abandon(Abandon(s, gone, now), {exam}, now), Abandon(s, gone + {exam}, now));
    assert once.attempts == both.attempts by {
      forall i | i in s.attempts ensures once.attempts[i] == both.attempts[i] {}
    }
    assert once.exams == both.exams by {
      forall e | e in s.exams ensures once.exams[e] == both.exams[e] {}
    }
  }

  lemma MarkNone(attempts: map<nat, Attempt>, v: Served, now: int)
    ensures MarkAll(attempts, v, Elements([]), now) == attempts
  {
  }

  lemma MarkMore(attempts: map<nat, Attempt>, v: Served, ids: seq<nat>, i: nat, now: int)
    requires i < |ids| && ids[i] in attempts && ids[i] !in ids[..i]
    ensures MarkAll(attempts, v, Elements(ids[..i + 1]), now)
         == MarkAll(attempts, v, Elements(ids[..i]), now)[ids[i] := Marked(v, attempts[ids[i]], now)]
  {
    assert ids[..i + 1] == ids[..i] + [ids[i]];
    assert forall j :: j in Elements(ids[..i + 1]) <==> j in Elements(ids[..i]) || j == ids[i];
  }
}
