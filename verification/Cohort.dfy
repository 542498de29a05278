/**
 * The cohort's statistics, and why they are the sum of the learners' own.
 */
module Cohort {
  import opened Text
  import opened Sequences
  import opened Manifest
  import opened Lanes
  import opened LaneRuns
  import opened Stats

  /** A learner and the stored key of an exercise they have answered. */
  type Sighting = (nat, string)

  function At(p: Sighting): (at: Attempt -> bool) {
    (a: Attempt) => a.user == p.0 && a.key == p.1
  }

  /** The mark of each learner's first answered attempt at each exercise. */
  ghost predicate FirstMarked(rows: seq<Attempt>, seen: map<Sighting, bool>) {
    forall p :: (p in seen <==> Marks(rows, At(p)) != []) && (p in seen ==> seen[p] == Marks(rows, At(p))[0])
  }

  method FirstMarks(rows: seq<Attempt>) returns (seen: map<Sighting, bool>)
    ensures FirstMarked(rows, seen)
  {
    seen := map[];
    var i := 0;
    while i < |rows|
      invariant 0 <= i <= |rows| && FirstMarked(rows[..i], seen)
    {
      var a := rows[i];
      ghost var before := seen;
      if (a.user, a.key) !in seen { seen := seen[(a.user, a.key) := Mark(a)]; }
      assert rows[..i + 1] == rows[..i] + [a];
      forall p
        ensures p in seen <==> Marks(rows[..i + 1], At(p)) != []
        ensures p in seen ==> seen[p] == Marks(rows[..i + 1], At(p))[0]
      {
        MarksMore(rows[..i], a, At(p));
        assert p in before <==> Marks(rows[..i], At(p)) != [];
      }
      i := i + 1;
    }
    assert rows[..i] == rows;
  }

  // ---- counting sightings ----

  /** The exercise and the module a stored key is counted under today; None for a key the course dropped. */
  function ExerciseLabel(r: Registry): (tag: string -> Option<string>) {
    (key: string) =>
      if key in r.exerciseIds && r.exerciseIds[key] != "" && r.exerciseIds[key] in r.locations
      then Some(r.exerciseIds[key]) else None
  }

  function ModuleLabel(r: Registry): (tag: string -> Option<string>) {
    (key: string) =>
      var id := ExerciseLabel(r)(key);
      if id.Some? && id.value in r.locations then Some(r.locations[id.value].moduleId) else None
  }

  datatype Count = Count(firstSeen: nat, firstCorrect: nat, learners: set<nat>)

  function Under(pairs: set<Sighting>, tag: string -> Option<string>, x: string): (r: set<Sighting>)
    ensures r <= pairs
  {
    set p | p in pairs && tag(p.1) == Some(x)
  }

  function Right(pairs: set<Sighting>, seen: map<Sighting, bool>): (r: set<Sighting>) {
    set p | p in pairs && p in seen && seen[p]
  }

  function People(pairs: set<Sighting>): (r: set<nat>) {
    set p | p in pairs :: p.0
  }

  function CountOf(pairs: set<Sighting>, seen: map<Sighting, bool>): (c: Count) {
    Count(|pairs|, |Right(pairs, seen)|, People(pairs))
  }

  /** What each label's counter should say. */
  ghost function Tally(pairs: set<Sighting>, seen: map<Sighting, bool>, tag: string -> Option<string>)
    : (at: string -> Count)
  {
    x => CountOf(Under(pairs, tag, x), seen)
  }

  /** There is a counter per label met, and it says what it should. */
  ghost predicate Tallied(counts: map<string, Count>, at: string -> Count) {
    forall x :: (x in counts <==> at(x).firstSeen > 0) && (x in counts ==> counts[x] == at(x))
  }

  function Bumped(c: Count, user: nat, right: bool): (d: Count) {
    Count(c.firstSeen + 1, c.firstCorrect + (if right then 1 else 0), c.learners + {user})
  }

  lemma OneMoreSighting(pairs: set<Sighting>, seen: map<Sighting, bool>, p: Sighting)
    requires p !in pairs && p in seen
    ensures CountOf(pairs + {p}, seen)
      == Count(|pairs| + 1, |Right(pairs, seen)| + (if seen[p] then 1 else 0), People(pairs) + {p.0})
  {
    assert Right(pairs + {p}, seen) == Right(pairs, seen) + (if seen[p] then {p} else {});
    var (more, fewer) := (People(pairs + {p}), People(pairs));
    forall u ensures u in more <==> u in fewer + {p.0} {
      if u in fewer {
        var q :| q in pairs && q.0 == u;
        assert q in pairs + {p};
      }
    }
  }

  lemma UnderMore(pairs: set<Sighting>, tag: string -> Option<string>, p: Sighting, y: string)
    ensures Under(pairs + {p}, tag, y) == Under(pairs, tag, y) + (if tag(p.1) == Some(y) then {p} else {})
  {
  }

  /** Every label's count with one more sighting. */
  lemma TallyMore(pairs: set<Sighting>, seen: map<Sighting, bool>, tag: string -> Option<string>, p: Sighting,
                  y: string)
    requires p !in pairs && p in seen
    ensures
      var (at, next) := (Tally(pairs, seen, tag), Tally(pairs + {p}, seen, tag));
      next(y) == if tag(p.1) == Some(y) then Bumped(at(y), p.0, seen[p]) else at(y)
  {
    UnderMore(pairs, tag, p, y);
    if tag(p.1) == Some(y) { OneMoreSighting(Under(pairs, tag, y), seen, p); }
  }

  method CountSighting(counts: map<string, Count>, ghost at: string -> Count, ghost next: string -> Count,
                       x: Option<string>, user: nat, right: bool) returns (more: map<string, Count>)
    requires Tallied(counts, at)
    requires forall y :: next(y) == if x == Some(y) then Bumped(at(y), user, right) else at(y)
    requires forall y :: at(y).firstSeen == 0 ==> at(y) == Count(0, 0, {})
    ensures Tallied(more, next)
  {
    if x.None? { return counts; }
    var c := if x.value in counts then counts[x.value] else Count(0, 0, {});
    assert c == at(x.value);
    more := counts[x.value := Bumped(c, user, right)];
  }

  /** One step of the walk over the sightings. */
  method CountOne(counts: map<string, Count>, ghost pairs: set<Sighting>, seen: map<Sighting, bool>,
                  tag: string -> Option<string>, p: Sighting) returns (more: map<string, Count>)
    requires Tallied(counts, Tally(pairs, seen, tag)) && p !in pairs && p in seen
    ensures Tallied(more, Tally(pairs + {p}, seen, tag))
  {
    ghost var (at, next) := (Tally(pairs, seen, tag), Tally(pairs + {p}, seen, tag));
    forall y ensures next(y) == if tag(p.1) == Some(y) then Bumped(at(y), p.0, seen[p]) else at(y) {
      TallyMore(pairs, seen, tag, p, y);
    }
    forall y | at(y).firstSeen == 0 ensures at(y) == Count(0, 0, {}) {
      NoneYet(Under(pairs, tag, y), seen);
    }
    more := CountSighting(counts, at, next, tag(p.1), p.0, seen[p]);
  }

  lemma NoneYet(pairs: set<Sighting>, seen: map<Sighting, bool>)
    requires |pairs| == 0
    ensures CountOf(pairs, seen) == Count(0, 0, {})
  {
    assert pairs == {};
    assert Right({}, seen) == {} && People({}) == {};
  }

  datatype CohortStats = CohortStats(exercises: map<string, Count>, modules: map<string, Count>)

  /** Only rows enough learners stand behind are published. */
  ghost predicate Publishes(rows: map<string, Count>, seen: map<Sighting, bool>, tag: string -> Option<string>) {
    forall x ::
      var pairs := Under(seen.Keys, tag, x);
      && (x in rows <==> |People(pairs)| >= MIN_LEARNERS_FOR_GLOBAL)
      && (x in rows ==> rows[x] == CountOf(pairs, seen))
  }

  function Published(counts: map<string, Count>): (rows: map<string, Count>) {
    map x | x in counts && |counts[x].learners| >= MIN_LEARNERS_FOR_GLOBAL :: counts[x]
  }

  lemma TalliedPublishes(counts: map<string, Count>, seen: map<Sighting, bool>, tag: string -> Option<string>)
    requires Tallied(counts, Tally(seen.Keys, seen, tag))
    ensures Publishes(Published(counts), seen, tag)
  {
    forall x ensures
      var pairs := Under(seen.Keys, tag, x);
      && (x in Published(counts) <==> |People(pairs)| >= MIN_LEARNERS_FOR_GLOBAL)
      && (x in Published(counts) ==> Published(counts)[x] == CountOf(pairs, seen))
    {
      assert Tally(seen.Keys, seen, tag)(x) == CountOf(Under(seen.Keys, tag, x), seen);
      if x !in counts { NoneYet(Under(seen.Keys, tag, x), seen); }
    }
  }

  /** The sightings in whatever order the dictionary lists them, each counted under both its labels. */
  method CountAll(seen: map<Sighting, bool>, exercise: string -> Option<string>, mod: string -> Option<string>)
    returns (byExercise: map<string, Count>, byModule: map<string, Count>)
    ensures Tallied(byExercise, Tally(seen.Keys, seen, exercise))
    ensures Tallied(byModule, Tally(seen.Keys, seen, mod))
  {
    byExercise, byModule := map[], map[];
    var rest := seen.Keys;
    ghost var done: set<Sighting> := {};
    while rest != {}
      invariant done + rest == seen.Keys && done !! rest
      invariant Tallied(byExercise, Tally(done, seen, exercise))
      invariant Tallied(byModule, Tally(done, seen, mod))
      decreases |rest|
    {
      var p :| p in rest;
      byExercise := CountOne(byExercise, done, seen, exercise, p);
      byModule := CountOne(byModule, done, seen, mod, p);
      rest, done := rest - {p}, done + {p};
    }
    assert done == seen.Keys;
  }

  /** The cohort document, with the first marks it was computed from. */
  method CohortOf(v: Served, attempts: map<nat, Attempt>) returns (d: CohortStats, seen: map<Sighting, bool>)
    ensures FirstMarked(AnsweredRows(attempts, v.course.id, None), seen)
    ensures Publishes(d.exercises, seen, ExerciseLabel(v.registry))
    ensures Publishes(d.modules, seen, ModuleLabel(v.registry))
  {
    seen := FirstMarks(AnsweredRows(attempts, v.course.id, None));
    var byExercise, byModule := CountAll(seen, ExerciseLabel(v.registry), ModuleLabel(v.registry));
    TalliedPublishes(byExercise, seen, ExerciseLabel(v.registry));
    TalliedPublishes(byModule, seen, ModuleLabel(v.registry));
    d := CohortStats(Published(byExercise), Published(byModule));
  }

  // ---- a learner's rows are the cohort's rows of that learner ----

  lemma OlderIsOrder(attempts: map<nat, Attempt>)
    ensures TotalPreorder(Older(attempts))
    ensures forall i, j :: Older(attempts)(i, j) && Older(attempts)(j, i) ==> i == j
  {
  }

  lemma AnsweredIdsListed(attempts: map<nat, Attempt>, course: string, user: Option<nat>)
    ensures NoDup(AnsweredIds(attempts, course, user))
    ensures Elements(AnsweredIds(attempts, course, user)) == CountedIds(attempts, course, user)
    ensures SortedBy(AnsweredIds(attempts, course, user), Older(attempts))
  {
    var ids := InOrder(CountedIds(attempts, course, user));
    InOrderMembers(CountedIds(attempts, course, user));
    forall i, j | 0 <= i < j < |ids| ensures ids[i] != ids[j] {
      InOrderSorted(CountedIds(attempts, course, user), i, j);
    }
    SortPermutes(ids, Older(attempts));
    PermutationKeepsNoDup(ids, AnsweredIds(attempts, course, user));
    OlderIsOrder(attempts);
    SortSorts(ids, Older(attempts));
  }

  function ByUser(attempts: map<nat, Attempt>, user: nat): (keep: nat -> bool) {
    (i: nat) => i in attempts && attempts[i].user == user
  }

  lemma LearnersIds(attempts: map<nat, Attempt>, course: string, user: nat)
    ensures AnsweredIds(attempts, course, Some(user))
         == Filter(AnsweredIds(attempts, course, None), ByUser(attempts, user))
  {
    var (own, all, leq) := (AnsweredIds(attempts, course, Some(user)), AnsweredIds(attempts, course, None),
                            Older(attempts));
    var kept := Filter(all, ByUser(attempts, user));
    AnsweredIdsListed(attempts, course, Some(user));
    AnsweredIdsListed(attempts, course, None);
    FilterKeeps(all, ByUser(attempts, user), leq);
    OlderIsOrder(attempts);
    forall i ensures i in own <==> i in kept {
      assert i in own <==> i in CountedIds(attempts, course, Some(user));
      assert i in all <==> i in CountedIds(attempts, course, None);
    }
    assert Elements(own) == Elements(kept);
    SortedListUnique(own, kept, leq);
  }

  lemma {:induction false} MarksOfLearner(attempts: map<nat, Attempt>, ids: seq<nat>, p: Sighting)
    ensures Marks(Rows(attempts, Filter(ids, ByUser(attempts, p.0))), OnKey(p.1)) == Marks(Rows(attempts, ids), At(p))
  {
    if ids != [] {
      MarksOfLearner(attempts, ids[1..], p);
      var (rest, kept) := (Rows(attempts, ids[1..]), Filter(ids[1..], ByUser(attempts, p.0)));
      if !ByUser(attempts, p.0)(ids[0]) { assert Filter(ids, ByUser(attempts, p.0)) == kept; }
      if ids[0] !in attempts {
        assert Rows(attempts, ids) == rest;
      } else {
        assert ([attempts[ids[0]]] + rest)[1..] == rest;
        assert Marks(Rows(attempts, ids), At(p))
          == (if At(p)(attempts[ids[0]]) then [Mark(attempts[ids[0]])] else []) + Marks(rest, At(p));
        if ByUser(attempts, p.0)(ids[0]) {
          assert ([ids[0]] + kept)[1..] == kept;
          assert ([attempts[ids[0]]] + Rows(attempts, kept))[1..] == Rows(attempts, kept);
        }
      }
    }
  }

  /** A learner's marks at an exercise, from their own document's rows or from the cohort's. */
  lemma LearnersMarks(attempts: map<nat, Attempt>, course: string, p: Sighting)
    ensures Marks(AnsweredRows(attempts, course, Some(p.0)), OnKey(p.1))
         == Marks(AnsweredRows(attempts, course, None), At(p))
  {
    LearnersIds(attempts, course, p.0);
    MarksOfLearner(attempts, AnsweredIds(attempts, course, None), p);
  }

  // ---- exam rows count for nothing ----

  lemma {:induction false} SameRowsListed(a: map<nat, Attempt>, b: map<nat, Attempt>, ids: seq<nat>)
    requires forall i :: i in ids ==> i in a && i in b && a[i] == b[i]
    ensures Rows(a, ids) == Rows(b, ids)
  {
    if ids != [] { SameRowsListed(a, b, ids[1..]); }
  }

  lemma SameCounted(a: map<nat, Attempt>, b: map<nat, Attempt>, course: string, user: Option<nat>)
    requires PracticeRows(a) == PracticeRows(b)
    ensures CountedIds(a, course, user) == CountedIds(b, course, user)
    ensures forall i :: i in CountedIds(a, course, user) ==> i in b && a[i] == b[i]
  {
    forall i | i in CountedIds(a, course, user) ensures i in CountedIds(b, course, user) && a[i] == b[i] {
      assert i in PracticeRows(a) && PracticeRows(a)[i] == PracticeRows(b)[i];
    }
    forall i | i in CountedIds(b, course, user) ensures i in CountedIds(a, course, user) {
      assert i in PracticeRows(b) && PracticeRows(a)[i] == PracticeRows(b)[i];
    }
  }

  /**
   * The rows statistics are made of are decided by the practice rows alone: two tables that agree on those
   * have the same rows, whatever exams they hold.
   */
  lemma ExamsDoNotCount(a: map<nat, Attempt>, b: map<nat, Attempt>, course: string, user: Option<nat>)
    requires PracticeRows(a) == PracticeRows(b)
    ensures AnsweredRows(a, course, user) == AnsweredRows(b, course, user)
  {
    SameCounted(a, b, course, user);
    var (counted, p, q) := (CountedIds(a, course, user), Older(a), Older(b));
    var ids := InOrder(counted);
    InOrderMembers(counted);
    forall i, j | i in ids && j in ids ensures p(i, j) == q(i, j) {
      assert i in counted && j in counted;
    }
    SortAgrees(ids, p, q);
    SortPermutes(ids, p);
    forall i | i in Sort(ids, p) ensures i in a && i in b && a[i] == b[i] {
      assert i in ids && i in counted;
    }
    SameRowsListed(a, b, Sort(ids, p));
  }

  /** No exam request changes what anyone's statistics are made of. */
  lemma ExamStepsDoNotCount(s: State, step: Step, course: string, user: Option<nat>)
    requires Enabled(s, step) && IsExamStep(step)
    ensures AnsweredRows(Next(s, step).attempts, course, user) == AnsweredRows(s.attempts, course, user)
  {
    ExamStepsLeavePractice(s, step);
    ExamsDoNotCount(Next(s, step).attempts, s.attempts, course, user);
  }

  /** Nor does erasing every exam row. */
  lemma ErasingExams(attempts: map<nat, Attempt>, course: string, user: Option<nat>)
    ensures AnsweredRows(PracticeRows(attempts), course, user) == AnsweredRows(attempts, course, user)
  {
    assert PracticeRows(PracticeRows(attempts)) == PracticeRows(attempts);
    ExamsDoNotCount(PracticeRows(attempts), attempts, course, user);
  }
}
