/** A learner's document, said of their attempts and the manifest. */
module Learner {
  import opened Text
  import opened Sequences
  import opened Manifest
  import opened Lanes
  import opened LaneRuns
  import opened Stats
  import opened Cohort
  import opened CohortSums
  import opened Firsts
  import opened Places

  /** A learner's tries at an exercise of the course deployed. */
  function TriesAt(v: Served, attempts: map<nat, Attempt>, user: nat, e: ExerciseAt): (r: set<nat>) {
    Tries(attempts, v.course.id, user, KeyOf(v.registry, e))
  }

  /** The places of a module's exercises of which something holds. */
  ghost function Where(n: nat, holds: nat -> bool): (r: set<nat>) {
    set k: nat | k < n && holds(k)
  }

  lemma OneMoreWhere(n: nat, holds: nat -> bool)
    ensures |Where(n + 1, holds)| == |Where(n, holds)| + (if holds(n) then 1 else 0)
  {
    assert Where(n + 1, holds) == Where(n, holds) + (if holds(n) then {n} else {});
  }

  lemma {:induction false} PassedWhere(keys: seq<string>, rolls: map<string, Roll>, holds: nat -> bool)
    requires forall k: nat :: k < |keys| ==> (holds(k) <==> keys[k] in rolls && rolls[keys[k]].correct > 0)
    ensures Passed(keys, rolls) == |Where(|keys|, holds)|
  {
    if keys == [] {
      assert Where(0, holds) == {};
    } else {
      var n := |keys| - 1;
      PassedWhere(keys[..n], rolls, holds);
      OneMoreWhere(n, holds);
    }
  }

  lemma {:induction false} DoneWhere(v: Served, lessons: seq<Lesson>, completed: set<string>, holds: nat -> bool)
    requires forall k: nat :: k < |lessons| ==> lessons[k].id in v.registry.lessonKeys
    requires forall k: nat :: k < |lessons| ==> (holds(k) <==> v.registry.lessonKeys[lessons[k].id] in completed)
    ensures Done(v, lessons, completed) == |Where(|lessons|, holds)|
  {
    if lessons == [] {
      assert Where(0, holds) == {};
    } else {
      var n := |lessons| - 1;
      DoneWhere(v, lessons[..n], completed, holds);
      OneMoreWhere(n, holds);
    }
  }

  /** An exercise passed is one with a right try. */
  lemma PassedIsRightTry(v: Served, attempts: map<nat, Attempt>, user: nat, rolls: map<string, Roll>, m: ModuleAt)
    requires RollsFor(attempts, v.course.id, user, rolls)
    ensures
      var exs := ModuleExercises(m);
      Passed(KeysOf(v, exs), rolls)
      == |Where(|exs|, (k: nat) => k < |exs| && RightIn(attempts, TriesAt(v, attempts, user, exs[k])) != {})|
  {
    var exs := ModuleExercises(m);
    var keys := KeysOf(v, exs);
    var holds := (k: nat) => k < |exs| && RightIn(attempts, TriesAt(v, attempts, user, exs[k])) != {};
    forall k: nat | k < |keys| ensures holds(k) <==> keys[k] in rolls && rolls[keys[k]].correct > 0 {
      RollsAreTries(attempts, v.course.id, user, rolls, keys[k]);
    }
    PassedWhere(keys, rolls, holds);
  }

  /** A lesson completed is one whose permanent key the learner has completed. */
  lemma DoneIsCompleted(v: Served, p: nat, completed: set<string>)
    requires Deployed(v) && p < |Modules(v.course)|
    ensures
      var lessons := Modules(v.course)[p].mod.lessons;
      Done(v, lessons, completed) == |Where(|lessons|, (k: nat) => k < |lessons| && lessons[k].key in completed)|
  {
    var lessons := Modules(v.course)[p].mod.lessons;
    var holds := (k: nat) => k < |lessons| && lessons[k].key in completed;
    forall k: nat | k < |lessons|
      ensures lessons[k].id in v.registry.lessonKeys && v.registry.lessonKeys[lessons[k].id] == lessons[k].key
    {
      LessonKnown(v, p, k);
    }
    DoneWhere(v, lessons, completed, holds);
  }

  lemma {:induction false} LessonListed(mods: seq<ModuleAt>, p: nat, k: nat) returns (j: nat)
    requires p < |mods| && k < |mods[p].mod.lessons|
    ensures j < |LessonsOf(mods)| && LessonsOf(mods)[j].lesson == mods[p].mod.lessons[k]
    decreases p
  {
    if p == 0 {
      j := k;
    } else {
      j := LessonListed(mods[1..], p - 1, k);
      j := j + |mods[0].mod.lessons|;
    }
  }

  lemma LessonKnown(v: Served, p: nat, k: nat)
    requires Deployed(v) && p < |Modules(v.course)| && k < |Modules(v.course)[p].mod.lessons|
    ensures
      var l := Modules(v.course)[p].mod.lessons[k];
      l.id in v.registry.lessonKeys && v.registry.lessonKeys[l.id] == l.key
  {
    var j := LessonListed(Modules(v.course), p, k);
    RegistryIndexes(v.course);
    assert Paired(v.registry.lessonIds, v.registry.lessonKeys, Lessons(v.course)[j].lesson.key,
                  Lessons(v.course)[j].lesson.id);
  }

  // ---- what is listed to review ----

  /** Exercises with a wrong answer. */
  function HasWrong(v: Served, rolls: map<string, Roll>): (keep: ExerciseAt -> bool) {
    (e: ExerciseAt) =>
      KeyOf(v.registry, e) in rolls && rolls[KeyOf(v.registry, e)].answered - rolls[KeyOf(v.registry, e)].correct > 0
  }

  /** They are listed in the module's order, one entry each, with how many were wrong and whether any was right. */
  lemma {:induction false} ReviewsAreWrongOnes(v: Served, exs: seq<ExerciseAt>, rolls: map<string, Roll>)
    ensures
      var (r, listed) := (ToReview(v, exs, rolls), Filter(exs, HasWrong(v, rolls)));
      && |r| == |listed|
      && forall j :: 0 <= j < |r| ==>
           && KeyOf(v.registry, listed[j]) in rolls && r[j].exerciseId == listed[j].exercise.id
           && r[j].incorrect
              == rolls[KeyOf(v.registry, listed[j])].answered - rolls[KeyOf(v.registry, listed[j])].correct
           && (r[j].passed <==> rolls[KeyOf(v.registry, listed[j])].correct > 0)
    decreases |exs|
  {
    if exs != [] {
      var n := |exs| - 1;
      ReviewsAreWrongOnes(v, exs[..n], rolls);
      assert exs == exs[..n] + [exs[n]];
      FilterSnoc(exs[..n], exs[n], HasWrong(v, rolls));
    }
  }

  /** Each entry names the lesson its exercise is in. */
  lemma ReviewNamesLesson(v: Served, p: nat, k: nat, r: Roll)
    requires Deployed(v) && p < |Modules(v.course)| && k < |ModuleExercises(Modules(v.course)[p])|
    ensures
      var e := ModuleExercises(Modules(v.course)[p])[k];
      ReviewOf(v, e, r).lessonId == Some(e.lesson.id)
  {
    WalkAt(Modules(v.course), p, k);
    RegistryIndexes(v.course);
    assert Knows(v.registry, Exercises(v.course)[|Walk(Modules(v.course)[..p])| + k]);
  }

  // ---- the document ----

  function HasLessons(): (keep: ModuleAt -> bool) {
    (m: ModuleAt) => m.mod.lessons != []
  }

  lemma ExtendedBy(v: Served, m: ModuleAt, rolls: map<string, Roll>, completed: set<string>, d: MeStats)
    ensures
      var t := Extended(v, m, rolls, completed, d);
      && t.totalModules == d.totalModules + 1
      && t.publishedModules == d.publishedModules + (if HasLessons()(m) then 1 else 0)
      && t.modules == d.modules + (if HasLessons()(m) then [RowFor(v, m, rolls, completed)] else [])
  {
  }

  /** The document has a row for every module with lessons, in manifest order, and counts every module. */
  lemma {:induction false} DocumentRows(v: Served, mods: seq<ModuleAt>, rolls: map<string, Roll>,
                                        completed: set<string>)
    ensures
      var (d, listed) := (Document(v, mods, rolls, completed), Filter(mods, HasLessons()));
      && d.totalModules == |mods| && d.publishedModules == |d.modules| == |listed|
      && forall k :: 0 <= k < |listed| ==> d.modules[k] == RowFor(v, listed[k], rolls, completed)
  {
    if mods != [] {
      var n := |mods| - 1;
      DocumentRows(v, mods[..n], rolls, completed);
      assert mods == mods[..n] + [mods[n]];
      FilterSnoc(mods[..n], mods[n], HasLessons());
      ExtendedBy(v, mods[n], rolls, completed, Document(v, mods[..n], rolls, completed));
    }
  }

  lemma {:induction false} FilterSnoc<T>(s: seq<T>, x: T, keep: T -> bool)
    ensures Filter(s + [x], keep) == Filter(s, keep) + (if keep(x) then [x] else [])
  {
    if s == [] {
      assert s + [x] == [x] && [x][1..] == [] && Filter([x][1..], keep) == [];
    } else {
      var (t, rest) := (s + [x], s[1..]);
      assert t[0] == s[0] && t[1..] == rest + [x];
      FilterSnoc(rest, x, keep);
      FilterHead(t, keep);
      FilterHead(s, keep);
    }
  }

  lemma FilterHead<T>(s: seq<T>, keep: T -> bool)
    requires s != []
    ensures Filter(s, keep) == (if keep(s[0]) then [s[0]] else []) + Filter(s[1..], keep)
  {
  }

  /** One row: the module's own names and sizes, and its exercises as the learner's tries leave them. */
  lemma RowIsOfModule(v: Served, attempts: map<nat, Attempt>, completed: set<string>, user: nat,
                      rolls: map<string, Roll>, p: nat)
    requires Deployed(v) && RollsFor(attempts, v.course.id, user, rolls) && p < |Modules(v.course)|
    ensures
      var (m, row) := (Modules(v.course)[p], RowFor(v, Modules(v.course)[p], rolls, completed));
      var exs := ModuleExercises(m);
      && row.moduleId == m.mod.id && row.blockId == m.blockId
      && row.lessonsTotal == |m.mod.lessons| && row.exercisesTotal == |exs|
      && row.lessonsCompleted
         == |Where(|m.mod.lessons|, (k: nat) => k < |m.mod.lessons| && m.mod.lessons[k].key in completed)|
      && row.exercisesPassed
         == |Where(|exs|, (k: nat) => k < |exs| && RightIn(attempts, TriesAt(v, attempts, user, exs[k])) != {})|
      && row.counts == Over(EmptyAgg(), KeysOf(v, exs), rolls) && row.toReview == ToReview(v, exs, rolls)
  {
    PassedIsRightTry(v, attempts, user, rolls, Modules(v.course)[p]);
    DoneIsCompleted(v, p, completed);
  }

  /** What a module's exercises add up to: seen, right at the first try, right answers, and tries to success. */
  lemma {:induction false} CountsAdd(keys: seq<string>, rolls: map<string, Roll>)
    ensures
      var a := Over(EmptyAgg(), keys, rolls);
      && a.answered == Sum(keys, k => if k in rolls then rolls[k].answered else 0)
      && a.correct == Sum(keys, k => if k in rolls then rolls[k].correct else 0)
      && a.firstSeen == Sum(keys, k => if k in rolls then 1 else 0)
      && a.firstCorrect == Sum(keys, k => if k in rolls && rolls[k].firstCorrect == Some(true) then 1 else 0)
  {
    if keys != [] { CountsAdd(keys[..|keys| - 1], rolls); }
  }

  /** The tries to success are those of the exercises solved, in the module's order. */
  lemma {:induction false} SuccessesListed(keys: seq<string>, rolls: map<string, Roll>, k: nat)
    requires k < |keys| && keys[k] in rolls && rolls[keys[k]].attemptsToSuccess.Some?
    ensures |Over(EmptyAgg(), keys[..k], rolls).success| < |Over(EmptyAgg(), keys, rolls).success|
    ensures Over(EmptyAgg(), keys, rolls).success[|Over(EmptyAgg(), keys[..k], rolls).success|]
         == rolls[keys[k]].attemptsToSuccess.value
    decreases |keys|
  {
    var n := |keys| - 1;
    if k < n {
      assert keys[..n][..k] == keys[..k];
      SuccessesListed(keys[..n], rolls, k);
    }
  }

  // ---- what the cohort counts an answer under ----

  /** An answer counts under the exercise and the module its key stands at in today's manifest. */
  lemma CountedAtItsPlace(v: Served, p: Place)
    requires Deployed(v) && Holds(v.course, p)
    ensures
      var (x, mod) := (ExerciseHere(v.course, p), ModuleHere(v.course, p));
      && ExerciseLabel(v.registry)(x.key) == (if x.id != "" then Some(x.id) else None)
      && ModuleLabel(v.registry)(x.key) == (if x.id != "" then Some(mod.id) else None)
  {
    RegistryLocates(v.course, p);
  }

  /** Under neither where the manifest no longer has the key. */
  lemma DroppedIsNotCounted(v: Served, key: string)
    requires Deployed(v) && forall p :: Holds(v.course, p) ==> ExerciseHere(v.course, p).key != key
    ensures ExerciseLabel(v.registry)(key).None? && ModuleLabel(v.registry)(key).None?
  {
    var exs := Exercises(v.course);
    if key in v.registry.exerciseIds {
      RegistryIndexes(v.course);
      assert key in Elements(ExerciseKeys(exs));
      var k :| 0 <= k < |exs| && ExerciseKeys(exs)[k] == key;
      var p := NestedExercise(v.course, k);
    }
  }
}
