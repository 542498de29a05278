/**
 * The two statistics documents: a learner's own, and the cohort's. Both are derived from the answered
 * practice attempts of one course, oldest first.
 *
 * Ratios, titles and the order of the printed rows are not modelled: only the counts they come from.
 */
module Stats {
  import opened Text
  import opened Sequences
  import opened Manifest
  import opened Lanes

  const MIN_LEARNERS_FOR_GLOBAL := 3

  // ---- the population ----

  /** Answered practice attempts of one course, of one learner or of all. */
  predicate Counted(a: Attempt, course: string, user: Option<nat>) {
    a.course == course && a.state == Lanes.Answered && a.exam.None? && (user.Some? ==> a.user == user.value)
  }

  function CountedIds(attempts: map<nat, Attempt>, course: string, user: Option<nat>): (r: set<nat>)
    ensures r <= attempts.Keys
  {
    set i | i in attempts && Counted(attempts[i], course, user)
  }

  function CreatedAt(attempts: map<nat, Attempt>, i: nat): (t: int) {
    if i in attempts then attempts[i].createdAt else 0
  }

  /** Oldest first, ties by id. */
  function Older(attempts: map<nat, Attempt>): (leq: (nat, nat) -> bool) {
    (i: nat, j: nat) =>
      CreatedAt(attempts, i) < CreatedAt(attempts, j) || (CreatedAt(attempts, i) == CreatedAt(attempts, j) && i <= j)
  }

  function Rows(attempts: map<nat, Attempt>, ids: seq<nat>): (r: seq<Attempt>) {
    if ids == [] then []
    else (if ids[0] in attempts then [attempts[ids[0]]] else []) + Rows(attempts, ids[1..])
  }

  function AnsweredIds(attempts: map<nat, Attempt>, course: string, user: Option<nat>): (r: seq<nat>) {
    Sort(InOrder(CountedIds(attempts, course, user)), Older(attempts))
  }

  function AnsweredRows(attempts: map<nat, Attempt>, course: string, user: Option<nat>): (r: seq<Attempt>) {
    Rows(attempts, AnsweredIds(attempts, course, user))
  }

  // ---- one exercise's roll ----

  predicate Mark(a: Attempt) {
    a.isCorrect == Some(true)
  }

  /** The marks of the attempts singled out, oldest first. */
  function Marks(rows: seq<Attempt>, p: Attempt -> bool): (r: seq<bool>) {
    if rows == [] then []
    else (if p(rows[0]) then [Mark(rows[0])] else []) + Marks(rows[1..], p)
  }

  function Wins(marks: seq<bool>): (n: nat)
    ensures n <= |marks|
  {
    if marks == [] then 0 else Wins(marks[..|marks| - 1]) + (if marks[|marks| - 1] then 1 else 0)
  }

  /** How many attempts it took to get one right, counting that one. */
  function FirstWin(marks: seq<bool>): (n: Option<nat>) {
    if marks == [] then None
    else
      var before := FirstWin(marks[..|marks| - 1]);
      if before.Some? then before else if marks[|marks| - 1] then Some(|marks|) else None
  }

  datatype Roll = Roll(answered: nat, correct: nat, firstCorrect: Option<bool>, attemptsToSuccess: Option<nat>)

  function RollOf(marks: seq<bool>): (r: Roll) {
    Roll(|marks|, Wins(marks), if marks == [] then None else Some(marks[0]), FirstWin(marks))
  }

  lemma OneMoreTry(marks: seq<bool>, mark: bool)
    ensures
      var (was, now) := (RollOf(marks), RollOf(marks + [mark]));
      && now.answered == was.answered + 1
      && now.correct == was.correct + (if mark then 1 else 0)
      && now.firstCorrect == (if was.firstCorrect == None then Some(mark) else was.firstCorrect)
      && now.attemptsToSuccess
        == (if was.attemptsToSuccess == None && mark then Some(now.answered) else was.attemptsToSuccess)
  {
    assert (marks + [mark])[..|marks|] == marks;
  }

  /** The counters of one exercise, and the marks they were built from. */
  class ExerciseRoll {
    var answered: nat
    var correct: nat
    var firstCorrect: Option<bool>
    var attemptsToSuccess: Option<nat>
    ghost var history: seq<bool>

    function Value(): (r: Roll)
      reads this
    {
      Roll(answered, correct, firstCorrect, attemptsToSuccess)
    }

    ghost predicate Valid()
      reads this
    {
      Value() == RollOf(history)
    }

    constructor ()
      ensures Valid() && history == []
    {
      answered, correct, firstCorrect, attemptsToSuccess := 0, 0, None, None;
      history := [];
    }

    method Add(isCorrect: bool)
      requires Valid()
      modifies this
      ensures Valid() && history == old(history) + [isCorrect]
    {
      OneMoreTry(history, isCorrect);
      answered := answered + 1;
      if isCorrect { correct := correct + 1; }
      if firstCorrect == None { firstCorrect := Some(isCorrect); }
      if attemptsToSuccess == None && isCorrect { attemptsToSuccess := Some(answered); }
      history := history + [isCorrect];
    }
  }

  /** The first success is the earliest right mark. */
  lemma {:induction false} FirstWinIsEarliest(marks: seq<bool>)
    ensures FirstWin(marks).None? <==> forall i :: 0 <= i < |marks| ==> !marks[i]
    ensures FirstWin(marks).Some? ==>
      1 <= FirstWin(marks).value <= |marks| && marks[FirstWin(marks).value - 1]
      && forall i :: 0 <= i < FirstWin(marks).value - 1 ==> !marks[i]
    ensures Wins(marks) == 0 <==> FirstWin(marks).None?
  {
    if marks != [] {
      FirstWinIsEarliest(marks[..|marks| - 1]);
    }
  }

  function OnKey(key: string): (p: Attempt -> bool) {
    (a: Attempt) => a.key == key
  }

  lemma {:induction false} MarksMore(rows: seq<Attempt>, a: Attempt, p: Attempt -> bool)
    ensures Marks(rows + [a], p) == Marks(rows, p) + (if p(a) then [Mark(a)] else [])
  {
    if rows == [] {
      assert rows + [a] == [a];
    } else {
      MarksMore(rows[1..], a, p);
      assert (rows + [a])[1..] == rows[1..] + [a];
    }
  }

  /** The marks of every key at once. */
  ghost function History(rows: seq<Attempt>): (hist: string -> seq<bool>) {
    k => Marks(rows, OnKey(k))
  }

  /** There is one roll per key attempted, each its own object, each with that key's marks. */
  ghost predicate Tracks(objects: map<string, ExerciseRoll>, hist: string -> seq<bool>)
    reads objects.Values
  {
    && (forall k :: k in objects <==> hist(k) != [])
    && (forall k :: k in objects ==>
      objects[k] in objects.Values && objects[k].Valid() && objects[k].history == hist(k))
    && (forall j, k :: j in objects && k in objects && j != k ==> objects[j] != objects[k])
  }

  method CountMark(objects: map<string, ExerciseRoll>, ghost hist: string -> seq<bool>, a: Attempt,
                   ghost next: string -> seq<bool>)
    returns (more: map<string, ExerciseRoll>)
    requires Tracks(objects, hist)
    requires forall k :: next(k) == hist(k) + (if a.key == k then [Mark(a)] else [])
    modifies objects.Values
    ensures Tracks(more, next) && fresh(more.Values - objects.Values)
  {
    more := objects;
    if a.key !in objects {
      var roll := new ExerciseRoll();
      more := objects[a.key := roll];
    }
    more[a.key].Add(Mark(a));
  }

  /** The rolls of a list of attempts, by stored key. */
  method RollByExercise(rows: seq<Attempt>) returns (rolls: map<string, Roll>)
    ensures forall k :: k in rolls <==> Marks(rows, OnKey(k)) != []
    ensures forall k :: k in rolls ==> rolls[k] == RollOf(Marks(rows, OnKey(k)))
  {
    var objects: map<string, ExerciseRoll> := map[];
    var i := 0;
    while i < |rows|
      invariant 0 <= i <= |rows|
      invariant Tracks(objects, History(rows[..i])) && fresh(objects.Values)
    {
      assert rows[..i + 1] == rows[..i] + [rows[i]];
      forall k
        ensures Marks(rows[..i + 1], OnKey(k))
             == Marks(rows[..i], OnKey(k)) + (if rows[i].key == k then [Mark(rows[i])] else [])
      {
        MarksMore(rows[..i], rows[i], OnKey(k));
      }
      objects := CountMark(objects, History(rows[..i]), rows[i], History(rows[..i + 1]));
      i := i + 1;
    }
    assert rows[..i] == rows;
    rolls := map k | k in objects :: objects[k].Value();
    forall k
      ensures k in rolls <==> Marks(rows, OnKey(k)) != []
      ensures k in rolls ==> rolls[k] == RollOf(Marks(rows, OnKey(k)))
    {
      assert History(rows)(k) == Marks(rows, OnKey(k));
    }
  }

  // ---- a learner's own document ----

  datatype Agg = Agg(answered: nat, correct: nat, firstSeen: nat, firstCorrect: nat, success: seq<nat>)
  datatype Review = Review(exerciseId: string, lessonId: Option<string>, incorrect: int, passed: bool)
  datatype MeRow = MeRow(
    moduleId: string, blockId: string, lessonsTotal: nat, lessonsCompleted: nat, exercisesTotal: nat,
      exercisesPassed: nat,
    counts: Agg, toReview: seq<Review>)
  datatype MeStats = MeStats(
    publishedModules: nat, totalModules: nat, publishedLessons: nat, lessonsCompleted: nat, overall: Agg,
      modules: seq<MeRow>)

  function EmptyAgg(): (a: Agg) { Agg(0, 0, 0, 0, []) }

  function Plus(a: Agg, r: Roll): (b: Agg) {
    Agg(a.answered + r.answered, a.correct + r.correct, a.firstSeen + 1,
        a.firstCorrect + (if r.firstCorrect == Some(true) then 1 else 0),
        a.success + (if r.attemptsToSuccess.Some? then [r.attemptsToSuccess.value] else []))
  }

  /** The aggregate over some exercises' keys of the rolls there are. */
  function Over(start: Agg, keys: seq<string>, rolls: map<string, Roll>): (a: Agg) {
    if keys == [] then start
    else
      var before := Over(start, keys[..|keys| - 1], rolls);
      var key := keys[|keys| - 1];
      if key in rolls then Plus(before, rolls[key]) else before
  }

  function KeysOf(v: Served, exs: seq<ExerciseAt>): (r: seq<string>)
    ensures |r| == |exs|
    ensures forall i :: 0 <= i < |r| ==> r[i] == KeyOf(v.registry, exs[i])
  {
    seq(|exs|, i requires 0 <= i < |exs| => KeyOf(v.registry, exs[i]))
  }

  function ReviewOf(v: Served, e: ExerciseAt, r: Roll): (x: Review) {
    var id := e.exercise.id;
    var home := if id in v.registry.homes then Some(v.registry.homes[id]) else None;
    Review(id, home, r.answered - r.correct, r.correct > 0)
  }

  /** The exercises with at least one wrong answer, with how many. */
  function ToReview(v: Served, exs: seq<ExerciseAt>, rolls: map<string, Roll>): (r: seq<Review>)
    decreases |exs|
  {
    if exs == [] then []
    else
      var (before, e) := (ToReview(v, exs[..|exs| - 1], rolls), exs[|exs| - 1]);
      var key := KeyOf(v.registry, e);
      if key in rolls && rolls[key].answered - rolls[key].correct > 0 then before + [ReviewOf(v, e, rolls[key])]
      else before
  }

  function Passed(keys: seq<string>, rolls: map<string, Roll>): (n: nat)
    ensures n <= |keys|
  {
    if keys == [] then 0
    else
      var key := keys[|keys| - 1];
      Passed(keys[..|keys| - 1], rolls) + (if key in rolls && rolls[key].correct > 0 then 1 else 0)
  }

  function Done(v: Served, lessons: seq<Lesson>, completed: set<string>): (n: nat)
    ensures n <= |lessons|
  {
    if lessons == [] then 0
    else
      var id := lessons[|lessons| - 1].id;
      Done(v, lessons[..|lessons| - 1], completed)
        + (if id in v.registry.lessonKeys && v.registry.lessonKeys[id] in completed then 1 else 0)
  }

  function RowFor(v: Served, m: ModuleAt, rolls: map<string, Roll>, completed: set<string>): (row: MeRow) {
    var exs := ModuleExercises(m);
    MeRow(m.mod.id, m.blockId, |m.mod.lessons|, Done(v, m.mod.lessons, completed), |exs|, Passed(KeysOf(v, exs), rolls),
          Over(EmptyAgg(), KeysOf(v, exs), rolls), ToReview(v, exs, rolls))
  }

  /** The document with one more module; a module without lessons is counted as a module and nothing more. */
  function Extended(v: Served, m: ModuleAt, rolls: map<string, Roll>, completed: set<string>, d: MeStats)
    : (t: MeStats)
  {
    if m.mod.lessons == [] then d.(totalModules := d.totalModules + 1)
    else
      var row := RowFor(v, m, rolls, completed);
      MeStats(d.publishedModules + 1, d.totalModules + 1, d.publishedLessons + row.lessonsTotal,
              d.lessonsCompleted + row.lessonsCompleted,
              Over(d.overall, KeysOf(v, ModuleExercises(m)), rolls), d.modules + [row])
  }

  function NoStats(): (d: MeStats) { MeStats(0, 0, 0, 0, EmptyAgg(), []) }

  function Document(v: Served, mods: seq<ModuleAt>, rolls: map<string, Roll>, completed: set<string>): (d: MeStats) {
    if mods == [] then NoStats()
    else Extended(v, mods[|mods| - 1], rolls, completed, Document(v, mods[..|mods| - 1], rolls, completed))
  }

  /** One module's exercises: its own aggregate and the overall one grow together. */
  method WalkModule(v: Served, exs: seq<ExerciseAt>, rolls: map<string, Roll>, start: Agg)
    returns (mod: Agg, overall: Agg, toReview: seq<Review>, passed: nat)
    ensures mod == Over(EmptyAgg(), KeysOf(v, exs), rolls)
    ensures overall == Over(start, KeysOf(v, exs), rolls)
    ensures toReview == ToReview(v, exs, rolls)
    ensures passed == Passed(KeysOf(v, exs), rolls)
  {
    mod, overall, toReview, passed := EmptyAgg(), start, [], 0;
    var j := 0;
    ghost var keys := KeysOf(v, exs);
    while j < |exs|
      invariant 0 <= j <= |exs|
      invariant mod == Over(EmptyAgg(), keys[..j], rolls) && overall == Over(start, keys[..j], rolls)
      invariant toReview == ToReview(v, exs[..j], rolls) && passed == Passed(keys[..j], rolls)
    {
      assert keys[..j + 1][..j] == keys[..j] && exs[..j + 1][..j] == exs[..j];
      var key := KeyOf(v.registry, exs[j]);
      if key in rolls {
        var roll := rolls[key];
        mod := Plus(mod, roll);
        overall := Plus(overall, roll);
        if roll.answered - roll.correct > 0 { toReview := toReview + [ReviewOf(v, exs[j], roll)]; }
        if roll.correct > 0 { passed := passed + 1; }
      }
      j := j + 1;
    }
    assert keys[..j] == keys && exs[..j] == exs;
  }

  method CountDone(v: Served, lessons: seq<Lesson>, completed: set<string>) returns (n: nat)
    ensures n == Done(v, lessons, completed)
  {
    n := 0;
    var i := 0;
    while i < |lessons|
      invariant 0 <= i <= |lessons| && n == Done(v, lessons[..i], completed)
    {
      assert lessons[..i + 1][..i] == lessons[..i];
      var id := lessons[i].id;
      if id in v.registry.lessonKeys && v.registry.lessonKeys[id] in completed { n := n + 1; }
      i := i + 1;
    }
    assert lessons[..i] == lessons;
  }

  /** The rolls of one learner's answered attempts, as the document is built from. */
  ghost predicate RollsFor(attempts: map<nat, Attempt>, course: string, user: nat, rolls: map<string, Roll>) {
    forall k ::
      var marks := Marks(AnsweredRows(attempts, course, Some(user)), OnKey(k));
      (k in rolls <==> marks != []) && (k in rolls ==> rolls[k] == RollOf(marks))
  }

  /** The learner document, with the rolls by exercise key it was computed from. */
  method StatsOf(v: Served, attempts: map<nat, Attempt>, completed: set<string>, user: nat)
    returns (d: MeStats, rolls: map<string, Roll>)
    ensures RollsFor(attempts, v.course.id, user, rolls)
    ensures d == Document(v, Modules(v.course), rolls, completed)
  {
    var rows := AnsweredRows(attempts, v.course.id, Some(user));
    rolls := RollByExercise(rows);
    d := WalkCourse(v, Modules(v.course), rolls, completed);
  }

  method WalkCourse(v: Served, mods: seq<ModuleAt>, rolls: map<string, Roll>, completed: set<string>)
    returns (d: MeStats)
    ensures d == Document(v, mods, rolls, completed)
  {
    d := NoStats();
    var i := 0;
    while i < |mods|
      invariant 0 <= i <= |mods| && d == Document(v, mods[..i], rolls, completed)
    {
      assert mods[..i + 1][..i] == mods[..i];
      d := WalkOne(v, mods[i], rolls, completed, d);
      i := i + 1;
    }
    assert mods[..i] == mods;
  }

  method WalkOne(v: Served, m: ModuleAt, rolls: map<string, Roll>, completed: set<string>, d: MeStats)
    returns (t: MeStats)
    ensures t == Extended(v, m, rolls, completed, d)
  {
    t := d.(totalModules := d.totalModules + 1);
    if m.mod.lessons == [] { return; }
    var done := CountDone(v, m.mod.lessons, completed);
    var exs := ModuleExercises(m);
    var mod, overall, toReview, passed := WalkModule(v, exs, rolls, d.overall);
    t := MeStats(d.publishedModules + 1, t.totalModules, d.publishedLessons + |m.mod.lessons|,
                 d.lessonsCompleted + done,
                 overall,
                 d.modules + [MeRow(m.mod.id, m.blockId, |m.mod.lessons|, done, |exs|, passed, mod, toReview)]);
  }
}
