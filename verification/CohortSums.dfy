/** Conservation: a learner's document balances, and the cohort's counts are the learners' counts added up. */
module CohortSums {
  import opened Text
  import opened Sequences
  import opened Manifest
  import opened Lanes
  import opened LaneRuns
  import opened Stats
  import opened Cohort

  // ---- sums ----

  function Sum<T>(items: seq<T>, f: T -> int): (n: int) {
    if items == [] then 0 else Sum(items[..|items| - 1], f) + f(items[|items| - 1])
  }

  lemma {:induction false} SumSame<T>(items: seq<T>, f: T -> int, g: T -> int)
    requires forall x :: x in items ==> f(x) == g(x)
    ensures Sum(items, f) == Sum(items, g)
  {
    if items != [] { SumSame(items[..|items| - 1], f, g); }
  }

  // ---- a learner's document ----

  predicate Plausible(rolls: map<string, Roll>) {
    forall k :: k in rolls ==> rolls[k].correct <= rolls[k].answered
  }

  function Incorrect(reviews: seq<Review>): (n: int) {
    if reviews == [] then 0 else Incorrect(reviews[..|reviews| - 1]) + reviews[|reviews| - 1].incorrect
  }

  /** A module's wrong answers are all accounted for by the exercises it lists to review. */
  lemma {:induction false} ReviewBalances(v: Served, exs: seq<ExerciseAt>, rolls: map<string, Roll>)
    requires Plausible(rolls)
    ensures
      var counts := Over(EmptyAgg(), KeysOf(v, exs), rolls);
      Incorrect(ToReview(v, exs, rolls)) == counts.answered - counts.correct && counts.correct <= counts.answered
    ensures forall r :: r in ToReview(v, exs, rolls) ==> r.incorrect > 0
    decreases |exs|
  {
    if exs != [] {
      var n := |exs| - 1;
      ReviewBalances(v, exs[..n], rolls);
      assert KeysOf(v, exs)[..n] == KeysOf(v, exs[..n]);
      var (before, key) := (ToReview(v, exs[..n], rolls), KeyOf(v.registry, exs[n]));
      if key in rolls && rolls[key].answered - rolls[key].correct > 0 {
        assert (before + [ReviewOf(v, exs[n], rolls[key])])[..|before|] == before;
      }
    }
  }

  /** The overall counts are the published modules' counts added up. */
  ghost predicate Adds(d: MeStats) {
    && d.overall.answered == Sum(d.modules, (r: MeRow) => r.counts.answered)
    && d.overall.correct == Sum(d.modules, (r: MeRow) => r.counts.correct)
    && d.overall.firstSeen == Sum(d.modules, (r: MeRow) => r.counts.firstSeen)
    && d.overall.firstCorrect == Sum(d.modules, (r: MeRow) => r.counts.firstCorrect)
    && d.publishedLessons == Sum(d.modules, (r: MeRow) => r.lessonsTotal)
    && d.lessonsCompleted == Sum(d.modules, (r: MeRow) => r.lessonsCompleted)
    && d.publishedModules == |d.modules| <= d.totalModules
  }

  lemma {:induction false} OverStartsAnywhere(start: Agg, keys: seq<string>, rolls: map<string, Roll>)
    ensures
      var (from, own) := (Over(start, keys, rolls), Over(EmptyAgg(), keys, rolls));
      && from.answered == start.answered + own.answered && from.correct == start.correct + own.correct
      && from.firstSeen == start.firstSeen + own.firstSeen && from.firstCorrect == start.firstCorrect + own.firstCorrect
      && from.success == start.success + own.success
  {
    if keys != [] { OverStartsAnywhere(start, keys[..|keys| - 1], rolls); }
  }

  lemma {:induction false} DocumentAdds(v: Served, mods: seq<ModuleAt>, rolls: map<string, Roll>,
                                        completed: set<string>)
    ensures Adds(Document(v, mods, rolls, completed))
  {
    if mods != [] {
      var (n, m) := (|mods| - 1, mods[|mods| - 1]);
      DocumentAdds(v, mods[..n], rolls, completed);
      var d := Document(v, mods[..n], rolls, completed);
      if m.mod.lessons != [] {
        OverStartsAnywhere(d.overall, KeysOf(v, ModuleExercises(m)), rolls);
        AddsRow(d, Extended(v, m, rolls, completed, d), RowFor(v, m, rolls, completed));
      }
    }
  }

  lemma AddsRow(d: MeStats, t: MeStats, row: MeRow)
    requires Adds(d) && t.modules == d.modules + [row]
    requires t.publishedModules == d.publishedModules + 1 && t.totalModules == d.totalModules + 1
    requires t.publishedLessons == d.publishedLessons + row.lessonsTotal
    requires t.lessonsCompleted == d.lessonsCompleted + row.lessonsCompleted
    requires t.overall.answered == d.overall.answered + row.counts.answered
    requires t.overall.correct == d.overall.correct + row.counts.correct
    requires t.overall.firstSeen == d.overall.firstSeen + row.counts.firstSeen
    requires t.overall.firstCorrect == d.overall.firstCorrect + row.counts.firstCorrect
    ensures Adds(t)
  {
    assert t.modules[..|d.modules|] == d.modules;
  }

  /** A row of the document is balanced: corrections fit, and what is wrong is listed to review. */
  ghost predicate RowBalances(r: MeRow) {
    && Incorrect(r.toReview) == r.counts.answered - r.counts.correct
    && r.counts.correct <= r.counts.answered
    && (forall x :: x in r.toReview ==> x.incorrect > 0)
    && r.exercisesPassed <= r.exercisesTotal && r.lessonsCompleted <= r.lessonsTotal
  }

  lemma RowForBalances(v: Served, m: ModuleAt, rolls: map<string, Roll>, completed: set<string>)
    requires Plausible(rolls)
    ensures RowBalances(RowFor(v, m, rolls, completed))
  {
    ReviewBalances(v, ModuleExercises(m), rolls);
  }

  lemma {:induction false} DocumentRowsBalance(v: Served, mods: seq<ModuleAt>, rolls: map<string, Roll>,
      completed: set<string>)
    requires Plausible(rolls)
    ensures forall r :: r in Document(v, mods, rolls, completed).modules ==> RowBalances(r)
  {
    if mods != [] {
      var (n, m) := (|mods| - 1, mods[|mods| - 1]);
      DocumentRowsBalance(v, mods[..n], rolls, completed);
      var d := Document(v, mods[..n], rolls, completed);
      var row := RowFor(v, m, rolls, completed);
      RowForBalances(v, m, rolls, completed);
      assert Document(v, mods, rolls, completed).modules == if m.mod.lessons == [] then d.modules
        else d.modules + [row];
    }
  }

  /** The document of a learner, from their own rolls: its rows balance, and its overall counts are theirs. */
  lemma LearnersDocument(v: Served, attempts: map<nat, Attempt>, completed: set<string>, user: nat,
                         rolls: map<string, Roll>)
    requires RollsFor(attempts, v.course.id, user, rolls)
    ensures var d := Document(v, Modules(v.course), rolls, completed);
      Adds(d) && forall r :: r in d.modules ==> RowBalances(r)
  {
    forall k | k in rolls ensures rolls[k].correct <= rolls[k].answered {
      assert rolls[k] == RollOf(Marks(AnsweredRows(attempts, v.course.id, Some(user)), OnKey(k)));
    }
    DocumentRowsBalance(v, Modules(v.course), rolls, completed);
    DocumentAdds(v, Modules(v.course), rolls, completed);
  }

  /** Attempts at any of these keys. */
  function AmongKeys(keys: seq<string>): (p: Attempt -> bool) {
    (a: Attempt) => a.key in keys
  }

  lemma {:induction false} MarksSplit(rows: seq<Attempt>, keys: seq<string>, k: string)
    requires k !in keys
    ensures |Marks(rows, AmongKeys(keys + [k]))| == |Marks(rows, AmongKeys(keys))| + |Marks(rows, OnKey(k))|
  {
    if rows != [] { MarksSplit(rows[1..], keys, k); }
  }

  lemma {:induction false} NoKeysNoMarks(rows: seq<Attempt>)
    ensures Marks(rows, AmongKeys([])) == []
  {
    if rows != [] { NoKeysNoMarks(rows[1..]); }
  }

  function MarkCount(rows: seq<Attempt>): (f: string -> int) {
    k => |Marks(rows, OnKey(k))|
  }

  lemma {:induction false} OverAnswered(keys: seq<string>, rolls: map<string, Roll>, count: string -> int)
    requires forall k :: if k in rolls then rolls[k].answered == count(k) else count(k) == 0
    ensures Over(EmptyAgg(), keys, rolls).answered == Sum(keys, count)
  {
    if keys != [] { OverAnswered(keys[..|keys| - 1], rolls, count); }
  }

  lemma {:induction false} CountsAreRows(rows: seq<Attempt>, keys: seq<string>)
    requires NoDup(keys)
    ensures Sum(keys, MarkCount(rows)) == |Marks(rows, AmongKeys(keys))|
  {
    if keys == [] {
      NoKeysNoMarks(rows);
    } else {
      var n := |keys| - 1;
      CountsAreRows(rows, keys[..n]);
      assert keys == keys[..n] + [keys[n]] && keys[n] !in keys[..n];
      MarksSplit(rows, keys[..n], keys[n]);
    }
  }

  /**
   * A module's `answered` is the number of answered practice attempts at its exercises, none missed or counted
   * twice.
   */
  lemma AnsweredAreRows(attempts: map<nat, Attempt>, course: string, user: nat, keys: seq<string>,
                        rolls: map<string, Roll>)
    requires NoDup(keys) && RollsFor(attempts, course, user, rolls)
    ensures Over(EmptyAgg(), keys, rolls).answered
         == |Marks(AnsweredRows(attempts, course, Some(user)), AmongKeys(keys))|
  {
    var rows := AnsweredRows(attempts, course, Some(user));
    forall k ensures if k in rolls then rolls[k].answered == MarkCount(rows)(k) else MarkCount(rows)(k) == 0 {
      assert k in rolls <==> Marks(rows, OnKey(k)) != [];
    }
    OverAnswered(keys, rolls, MarkCount(rows));
    CountsAreRows(rows, keys);
  }

  // ---- first sightings, counted by key and by learner ----

  /** The keys of a list that have a roll, and those whose first mark is right. */
  function Rolled(keys: seq<string>, rolls: map<string, Roll>): (r: set<string>) {
    set k | k in keys && k in rolls
  }

  function FirstRight(keys: seq<string>, rolls: map<string, Roll>): (r: set<string>) {
    set k | k in keys && k in rolls && rolls[k].firstCorrect == Some(true)
  }

  lemma {:induction false} OverCountsKeys(keys: seq<string>, rolls: map<string, Roll>)
    requires NoDup(keys)
    ensures Over(EmptyAgg(), keys, rolls).firstSeen == |Rolled(keys, rolls)|
    ensures Over(EmptyAgg(), keys, rolls).firstCorrect == |FirstRight(keys, rolls)|
  {
    if keys != [] {
      var (n, k) := (|keys| - 1, keys[|keys| - 1]);
      OverCountsKeys(keys[..n], rolls);
      OneMoreKey(keys[..n], k, rolls);
      assert keys == keys[..n] + [k] && k !in keys[..n];
    }
  }

  lemma OneMoreKey(keys: seq<string>, k: string, rolls: map<string, Roll>)
    requires k !in keys
    ensures |Rolled(keys + [k], rolls)| == |Rolled(keys, rolls)| + (if k in rolls then 1 else 0)
    ensures |FirstRight(keys + [k], rolls)|
      == |FirstRight(keys, rolls)| + (if k in rolls && rolls[k].firstCorrect == Some(true) then 1 else 0)
  {
    assert Rolled(keys + [k], rolls) == Rolled(keys, rolls) + (if k in rolls then {k} else {});
    OneMoreRight(keys, k, rolls);
  }

  lemma OneMoreRight(keys: seq<string>, k: string, rolls: map<string, Roll>)
    requires k !in keys
    ensures |FirstRight(keys + [k], rolls)|
      == |FirstRight(keys, rolls)| + (if k in rolls && rolls[k].firstCorrect == Some(true) then 1 else 0)
  {
    assert FirstRight(keys + [k], rolls)
      == FirstRight(keys, rolls) + (if k in rolls && rolls[k].firstCorrect == Some(true) then {k} else {});
  }

  function OfLearner(pairs: set<Sighting>, user: nat): (r: set<Sighting>) {
    set p | p in pairs && p.0 == user
  }

  function KeysIn(pairs: set<Sighting>): (r: set<string>) {
    set p | p in pairs :: p.1
  }

  /** One learner's sightings are as many as their keys. */
  lemma {:induction false} LearnersKeys(pairs: set<Sighting>, user: nat)
    requires forall p :: p in pairs ==> p.0 == user
    ensures |KeysIn(pairs)| == |pairs|
    decreases |pairs|
  {
    if pairs == {} {
      assert KeysIn(pairs) == {};
    } else {
      var p :| p in pairs;
      LearnersKeys(pairs - {p}, user);
      var (all, rest) := (KeysIn(pairs), KeysIn(pairs - {p}));
      forall k ensures k in all <==> k in rest + {p.1} {
        if k in all && k != p.1 {
          var q :| q in pairs && q.1 == k;
          assert q in pairs - {p};
        }
      }
      assert p.1 !in rest;
      assert all == rest + {p.1};
    }
  }

  /** Sightings all at one key are as many as their learners. */
  lemma {:induction false} KeysLearners(pairs: set<Sighting>, key: string)
    requires forall p :: p in pairs ==> p.1 == key
    ensures |People(pairs)| == |pairs|
    decreases |pairs|
  {
    if pairs == {} {
      assert People(pairs) == {};
    } else {
      var p :| p in pairs;
      KeysLearners(pairs - {p}, key);
      var (all, rest) := (People(pairs), People(pairs - {p}));
      forall u ensures u in all <==> u in rest + {p.0} {
        if u in all && u != p.0 {
          var q :| q in pairs && q.0 == u;
          assert q in pairs - {p};
        }
      }
      assert p.0 !in rest;
      assert all == rest + {p.0};
    }
  }

  /** Sightings, counted learner by learner. */
  lemma {:induction false} CountByLearner(pairs: set<Sighting>, users: seq<nat>)
    requires NoDup(users) && forall p :: p in pairs ==> p.0 in users
    ensures |pairs| == Sum(users, (u: nat) => |OfLearner(pairs, u)|)
  {
    if users != [] {
      var (n, u) := (|users| - 1, users[|users| - 1]);
      var (own, rest) := (OfLearner(pairs, u), pairs - OfLearner(pairs, u));
      assert users == users[..n] + [u] && u !in users[..n];
      CountByLearner(rest, users[..n]);
      assert |pairs| == |rest| + |own| by { assert pairs == rest + own; }
      forall w | w in users[..n] ensures OfLearner(rest, w) == OfLearner(pairs, w) {}
      SumSame(users[..n], (w: nat) => |OfLearner(rest, w)|, (w: nat) => |OfLearner(pairs, w)|);
    } else {
      assert pairs == {};
    }
  }

  // ---- the cohort is the sum of its learners ----

  /** All first sightings of a module's exercises, by their stored keys. */
  function Sightings(seen: map<Sighting, bool>, keys: seq<string>): (r: set<Sighting>) {
    set p | p in seen.Keys && p.1 in keys
  }

  lemma LearnersSightings(attempts: map<nat, Attempt>, course: string, seen: map<Sighting, bool>, keys: seq<string>,
                          user: nat, rolls: map<string, Roll>)
    requires FirstMarked(AnsweredRows(attempts, course, None), seen) && RollsFor(attempts, course, user, rolls)
    ensures KeysIn(OfLearner(Sightings(seen, keys), user)) == Rolled(keys, rolls)
    ensures KeysIn(OfLearner(Right(Sightings(seen, keys), seen), user)) == FirstRight(keys, rolls)
  {
    forall k ensures ((user, k) in seen <==> k in rolls)
                  && (k in rolls ==> rolls[k].firstCorrect == Some(seen[(user, k)]))
    {
      LearnersMarks(attempts, course, (user, k));
    }
    var (own, right) := (OfLearner(Sightings(seen, keys), user), OfLearner(Right(Sightings(seen, keys), seen), user));
    forall k ensures k in KeysIn(own) <==> k in Rolled(keys, rolls) {
      if k in Rolled(keys, rolls) { assert (user, k) in own; }
    }
    forall k ensures k in KeysIn(right) <==> k in FirstRight(keys, rolls) {
      if k in FirstRight(keys, rolls) { assert (user, k) in right; }
      if k in KeysIn(right) { assert (user, k) in right; }
    }
  }

  /** What one learner's document counts is their share of the sightings. */
  lemma LearnersShare(attempts: map<nat, Attempt>, course: string, seen: map<Sighting, bool>, keys: seq<string>,
                      user: nat, rolls: map<string, Roll>)
    requires FirstMarked(AnsweredRows(attempts, course, None), seen) && RollsFor(attempts, course, user, rolls)
    requires NoDup(keys)
    ensures Over(EmptyAgg(), keys, rolls).firstSeen == |OfLearner(Sightings(seen, keys), user)|
    ensures Over(EmptyAgg(), keys, rolls).firstCorrect == |OfLearner(Right(Sightings(seen, keys), seen), user)|
  {
    OverCountsKeys(keys, rolls);
    LearnersSightings(attempts, course, seen, keys, user, rolls);
    LearnersKeys(OfLearner(Sightings(seen, keys), user), user);
    LearnersKeys(OfLearner(Right(Sightings(seen, keys), seen), user), user);
  }

  /** Every learner seen is among `users`, each once. */
  ghost predicate Enrolled(users: seq<nat>, seen: map<Sighting, bool>) {
    NoDup(users) && forall p :: p in seen ==> p.0 in users
  }

  lemma LearnersAddUp(attempts: map<nat, Attempt>, course: string, seen: map<Sighting, bool>, keys: seq<string>,
                      users: seq<nat>, rollsOf: nat -> map<string, Roll>)
    requires FirstMarked(AnsweredRows(attempts, course, None), seen) && Enrolled(users, seen) && NoDup(keys)
    requires forall u :: u in users ==> RollsFor(attempts, course, u, rollsOf(u))
    ensures Sum(users, (u: nat) => Over(EmptyAgg(), keys, rollsOf(u)).firstSeen) == |Sightings(seen, keys)|
    ensures Sum(users, (u: nat) => Over(EmptyAgg(), keys, rollsOf(u)).firstCorrect)
         == |Right(Sightings(seen, keys), seen)|
  {
    var (all, right) := (Sightings(seen, keys), Right(Sightings(seen, keys), seen));
    forall u | u in users
      ensures Over(EmptyAgg(), keys, rollsOf(u)).firstSeen == |OfLearner(all, u)|
      ensures Over(EmptyAgg(), keys, rollsOf(u)).firstCorrect == |OfLearner(right, u)|
    {
      LearnersShare(attempts, course, seen, keys, u, rollsOf(u));
    }
    SumSame(users, (u: nat) => Over(EmptyAgg(), keys, rollsOf(u)).firstSeen, (u: nat) => |OfLearner(all, u)|);
    SumSame(users, (u: nat) => Over(EmptyAgg(), keys, rollsOf(u)).firstCorrect, (u: nat) => |OfLearner(right, u)|);
    CountByLearner(all, users);
    CountByLearner(right, users);
  }

  // ---- which sightings a module is counted under ----

  lemma ModuleKeysUnique(v: Served, i: nat)
    requires Deployed(v) && i < |Modules(v.course)|
    ensures NoDup(KeysOf(v, ModuleExercises(Modules(v.course)[i])))
  {
    var exs := ModuleExercises(Modules(v.course)[i]);
    forall k, l | 0 <= k < l < |exs| ensures KeyOf(v.registry, exs[k]) != KeyOf(v.registry, exs[l]) {
      KeyIsOwn(v, i, exs[k]);
      KeyIsOwn(v, i, exs[l]);
      PlacesDiffer(v.course, i, k, i, l);
    }
  }

  /** Where the labels put an exercise the registry knows. */
  lemma LabelsOfKnown(r: Registry, e: ExerciseAt)
    requires Knows(r, e)
    ensures r.exerciseIds[e.exercise.key] == e.exercise.id
    ensures ModuleLabel(r)(e.exercise.key) == if e.exercise.id == "" then None else Some(e.mod.id)
    ensures ExerciseLabel(r)(e.exercise.key) == if e.exercise.id == "" then None else Some(e.exercise.id)
  {
    assert ExerciseLabel(r)(e.exercise.key) == if e.exercise.id == "" then None else Some(e.exercise.id);
  }

  lemma KnownPlace(v: Served, i: nat, k: nat)
    requires Deployed(v) && i < |Modules(v.course)| && k < |ModuleExercises(Modules(v.course)[i])|
    ensures Knows(v.registry, ModuleExercises(Modules(v.course)[i])[k])
    ensures KeyOf(v.registry, ModuleExercises(Modules(v.course)[i])[k])
         == ModuleExercises(Modules(v.course)[i])[k].exercise.key
    ensures ModuleExercises(Modules(v.course)[i])[k].mod == Modules(v.course)[i].mod
  {
    var mods := Modules(v.course);
    KeyIsOwn(v, i, ModuleExercises(mods[i])[k]);
    WalkAt(mods, i, k);
    ModuleExercisesKnowModule(mods[i], k);
    RegistryIndexes(v.course);
    assert Knows(v.registry, Exercises(v.course)[|Walk(mods[..i])| + k]);
  }

  lemma ListedKey(v: Served, key: string) returns (p: nat)
    requires Deployed(v) && key in v.registry.exerciseIds
    ensures p < |Exercises(v.course)| && Exercises(v.course)[p].exercise.key == key
    ensures Knows(v.registry, Exercises(v.course)[p])
  {
    var exs := Exercises(v.course);
    assert key in Elements(ExerciseKeys(exs));
    p :| 0 <= p < |exs| && ExerciseKeys(exs)[p] == key;
    RegistryIndexes(v.course);
  }

  lemma SameModule(c: Course, i: nat, j: nat)
    requires Valid(c) && i < |Modules(c)| && j < |Modules(c)| && Modules(c)[i].mod.id == Modules(c)[j].mod.id
    ensures i == j
  {
    NamesUnique(c);
    assert ModuleIds(Modules(c))[i] == ModuleIds(Modules(c))[j];
  }

  /** A key counted under a module is the key of one of its exercises. */
  lemma LabelledKey(v: Served, i: nat, key: string) returns (k: nat)
    requires Deployed(v) && i < |Modules(v.course)| && ModuleLabel(v.registry)(key) == Some(Modules(v.course)[i].mod.id)
    ensures k < |ModuleExercises(Modules(v.course)[i])|
    ensures KeyOf(v.registry, ModuleExercises(Modules(v.course)[i])[k]) == key
  {
    assert ExerciseLabel(v.registry)(key).Some?;
    var p := ListedKey(v, key);
    var e := Exercises(v.course)[p];
    LabelsOfKnown(v.registry, e);
    var j, l := WalkFrom(Modules(v.course), p);
    KnownPlace(v, j, l);
    SameModule(v.course, i, j);
    k := l;
  }

  /** The sightings a module's learners have of exercises whose display id is blank. */
  function Nameless(v: Served, seen: map<Sighting, bool>, keys: seq<string>): (r: set<Sighting>) {
    set p | p in Sightings(seen, keys) && ModuleLabel(v.registry)(p.1) == None
  }

  lemma ModuleSightings(v: Served, seen: map<Sighting, bool>, i: nat)
    requires Deployed(v) && i < |Modules(v.course)|
    ensures
      var (m, keys) := (Modules(v.course)[i], KeysOf(v, ModuleExercises(Modules(v.course)[i])));
      var (counted, nameless) := (Under(seen.Keys, ModuleLabel(v.registry), m.mod.id), Nameless(v, seen, keys));
      Sightings(seen, keys) == counted + nameless && counted !! nameless
  {
    var (m, exs) := (Modules(v.course)[i], ModuleExercises(Modules(v.course)[i]));
    var keys := KeysOf(v, exs);
    forall p | p in seen.Keys
      ensures p in Sightings(seen, keys)
           <==> p in Under(seen.Keys, ModuleLabel(v.registry), m.mod.id) || p in Nameless(v, seen, keys)
    {
      if p.1 in keys {
        var k :| 0 <= k < |keys| && keys[k] == p.1;
        KnownPlace(v, i, k);
        LabelsOfKnown(v.registry, exs[k]);
      }
      if ModuleLabel(v.registry)(p.1) == Some(m.mod.id) {
        var k := LabelledKey(v, i, p.1);
        assert keys[k] == p.1;
      }
    }
  }

  /**
   * Conservation: for every module, what the learners' own documents count as first seen and first correct
   * adds up to what the cohort counts, plus the sightings of exercises with a blank display id, which the
   * cohort skips.
   */
  lemma CohortIsSumOfLearners(v: Served, attempts: map<nat, Attempt>, seen: map<Sighting, bool>, users: seq<nat>,
                              rollsOf: nat -> map<string, Roll>, i: nat)
    requires Deployed(v) && i < |Modules(v.course)|
    requires FirstMarked(AnsweredRows(attempts, v.course.id, None), seen) && Enrolled(users, seen)
    requires forall u :: u in users ==> RollsFor(attempts, v.course.id, u, rollsOf(u))
    ensures
      var m := Modules(v.course)[i];
      var keys := KeysOf(v, ModuleExercises(m));
      var cohort := CountOf(Under(seen.Keys, ModuleLabel(v.registry), m.mod.id), seen);
      var nameless := Nameless(v, seen, keys);
      && Sum(users, (u: nat) => Over(EmptyAgg(), keys, rollsOf(u)).firstSeen) == cohort.firstSeen + |nameless|
      && Sum(users, (u: nat) => Over(EmptyAgg(), keys, rollsOf(u)).firstCorrect)
        == cohort.firstCorrect + |Right(nameless, seen)|
  {
    var m := Modules(v.course)[i];
    var keys := KeysOf(v, ModuleExercises(m));
    ModuleKeysUnique(v, i);
    LearnersAddUp(attempts, v.course.id, seen, keys, users, rollsOf);
    ModuleSightings(v, seen, i);
    var (counted, nameless) := (Under(seen.Keys, ModuleLabel(v.registry), m.mod.id), Nameless(v, seen, keys));
    SplitRight(counted, nameless, seen);
  }

  lemma SplitRight(a: set<Sighting>, b: set<Sighting>, seen: map<Sighting, bool>)
    requires a !! b
    ensures |a + b| == |a| + |b| && |Right(a + b, seen)| == |Right(a, seen)| + |Right(b, seen)|
  {
    assert Right(a + b, seen) == Right(a, seen) + Right(b, seen);
  }

  /** The key of an exercise of this module that has a blank display id. */
  ghost predicate BlankAt(m: ModuleAt, key: string) {
    exists k :: 0 <= k < |ModuleExercises(m)| && ModuleExercises(m)[k].exercise.id == ""
                && ModuleExercises(m)[k].exercise.key == key
  }

  /** Somebody answered one. */
  ghost predicate BlankIsSeen(m: ModuleAt, seen: map<Sighting, bool>) {
    exists p :: p in seen && BlankAt(m, p.1)
  }

  /** Somebody's first answer at one was right. */
  ghost predicate BlankIsRight(m: ModuleAt, seen: map<Sighting, bool>) {
    exists p :: p in seen && BlankAt(m, p.1) && seen[p]
  }

  /**
   * The learners' counts add up to exactly the cohort's: of exercises seen unless somebody answered a blank
   * exercise, and of first answers right unless somebody's first answer at one was right.
   */
  lemma CohortExactly(v: Served, attempts: map<nat, Attempt>, seen: map<Sighting, bool>, users: seq<nat>,
                      rollsOf: nat -> map<string, Roll>, i: nat)
    requires Deployed(v) && i < |Modules(v.course)|
    requires FirstMarked(AnsweredRows(attempts, v.course.id, None), seen) && Enrolled(users, seen)
    requires forall u :: u in users ==> RollsFor(attempts, v.course.id, u, rollsOf(u))
    ensures
      var m := Modules(v.course)[i];
      var keys := KeysOf(v, ModuleExercises(m));
      var cohort := CountOf(Under(seen.Keys, ModuleLabel(v.registry), m.mod.id), seen);
      && (Sum(users, (u: nat) => Over(EmptyAgg(), keys, rollsOf(u)).firstSeen) == cohort.firstSeen
          <==> !BlankIsSeen(m, seen))
      && (Sum(users, (u: nat) => Over(EmptyAgg(), keys, rollsOf(u)).firstCorrect) == cohort.firstCorrect
          <==> !BlankIsRight(m, seen))
  {
    CohortIsSumOfLearners(v, attempts, seen, users, rollsOf, i);
    var m := Modules(v.course)[i];
    var nameless := Nameless(v, seen, KeysOf(v, ModuleExercises(m)));
    forall p ensures p in nameless <==> p in seen && BlankAt(m, p.1) {
      if p in seen { NamelessIsBlank(v, seen, i, p); }
    }
    NoneLeft(m, nameless, seen);
  }

  lemma NoneLeft(m: ModuleAt, nameless: set<Sighting>, seen: map<Sighting, bool>)
    requires forall p :: p in nameless <==> p in seen && BlankAt(m, p.1)
    ensures |nameless| == 0 <==> !BlankIsSeen(m, seen)
    ensures |Right(nameless, seen)| == 0 <==> !BlankIsRight(m, seen)
  {
    if BlankIsSeen(m, seen) {
      var p :| p in seen && BlankAt(m, p.1);
      assert p in nameless;
    }
    if BlankIsRight(m, seen) {
      var p :| p in seen && BlankAt(m, p.1) && seen[p];
      assert p in Right(nameless, seen);
    }
    if nameless != {} { var p :| p in nameless; }
    if Right(nameless, seen) != {} { var p :| p in Right(nameless, seen); }
  }

  lemma NamelessIsBlank(v: Served, seen: map<Sighting, bool>, i: nat, p: Sighting)
    requires Deployed(v) && i < |Modules(v.course)| && p in seen
    ensures p in Nameless(v, seen, KeysOf(v, ModuleExercises(Modules(v.course)[i])))
         <==> BlankAt(Modules(v.course)[i], p.1)
  {
    var exs := ModuleExercises(Modules(v.course)[i]);
    var keys := KeysOf(v, exs);
    forall k | 0 <= k < |exs|
      ensures keys[k] == exs[k].exercise.key && (ModuleLabel(v.registry)(keys[k]) == None <==> exs[k].exercise.id == "")
    {
      KnownPlace(v, i, k);
      LabelsOfKnown(v.registry, exs[k]);
    }
    if p in Nameless(v, seen, keys) {
      var k :| 0 <= k < |keys| && keys[k] == p.1;
      assert exs[k].exercise.id == "" && exs[k].exercise.key == p.1;
    }
    if BlankAt(Modules(v.course)[i], p.1) {
      var k :| 0 <= k < |exs| && exs[k].exercise.id == "" && exs[k].exercise.key == p.1;
      assert keys[k] == p.1;
    }
  }

  // ---- a blank display id: a case where the sums differ ----

  /** A valid course whose only exercise has a blank display id. */
  function Blank(): (c: Course) {
    Course("c", [Block("b", [Module("m", "m", [], [Lesson("l", "l", [Exercise("", "f", "quiz")])])])], ["quiz"])
  }

  lemma BlankParts()
    ensures |Modules(Blank())| == |Lessons(Blank())| == |Exercises(Blank())| == 1
    ensures Modules(Blank())[0].mod == Blank().blocks[0].modules[0]
    ensures Lessons(Blank())[0].lesson == Modules(Blank())[0].mod.lessons[0]
    ensures Exercises(Blank())[0].exercise == Exercise("", "f", "quiz")
  {
    var c := Blank();
    assert c.blocks[1..] == [] && ModulesOf(c.blocks[1..]) == [];
    assert Modules(c) == InBlock(c.blocks[0]);
    assert Modules(c)[1..] == [] && LessonsOf(Modules(c)[1..]) == [];
    assert Lessons(c) == InModule(Modules(c)[0]);
    assert Lessons(c)[1..] == [] && ExercisesOf(Lessons(c)[1..]) == [];
    assert Exercises(c) == InLesson(Lessons(c)[0]);
  }

  lemma BlankIsValid()
    ensures Valid(Blank())
    ensures ModuleExercises(Modules(Blank())[0]) == Exercises(Blank())
  {
    var c := Blank();
    BlankParts();
    var (i, k) := (AllIds(c), AllKeys(c));
    assert |i| == |k| == 5;
    assert i[0] == "c" && i[1] == "b" && i[2] == "m" && i[3] == "l" && i[4] == "";
    assert k[0] == "c" && k[1] == "b" && k[2] == "m" && k[3] == "l" && k[4] == "f";
    assert i[0][0] == 'c' && i[1][0] == 'b' && i[2][0] == 'm' && i[3][0] == 'l' && k[4][0] == 'f';
    assert Modules(c) == [Modules(c)[0]];
  }

  /** The one answered attempt at it, right at the first try. */
  function OneAnswer(): (attempts: map<nat, Attempt>) {
    map[1 := Attempt(0, "c", "f", None, 7, Answered, Some(map[]), Some(true), 0, Some(1))]
  }

  lemma OneRow(attempts: map<nat, Attempt>, course: string, user: Option<nat>)
    requires attempts.Keys == {1} && Counted(attempts[1], course, user)
    ensures AnsweredRows(attempts, course, user) == [attempts[1]]
  {
    AnsweredIdsListed(attempts, course, user);
    var ids := AnsweredIds(attempts, course, user);
    assert CountedIds(attempts, course, user) == {1};
    NoDupCount(ids);
    assert ids[0] in Elements(ids);
    assert ids == [1];
    assert Rows(attempts, ids[1..]) == [];
  }

  lemma OneMark(a: Attempt, p: Attempt -> bool)
    ensures Marks([a], p) == if p(a) then [Mark(a)] else []
  {
    assert [a][1..] == [];
  }

  /** The learner's document counts one exercise seen and one first right; the cohort counts none. */
  lemma BlankIsSkipped(grade: (string, int, Fields) -> Option<bool>)
    ensures
      var v := Served(Blank(), RegistryOf(Blank()), {""}, grade);
      var (seen, rolls) := (map[(0, "f") := true], map["f" := Roll(1, 1, Some(true), Some(1))]);
      var m := Modules(Blank())[0];
      && Deployed(v)
      && FirstMarked(AnsweredRows(OneAnswer(), "c", None), seen) && Enrolled([0], seen)
      && RollsFor(OneAnswer(), "c", 0, rolls)
      && Over(EmptyAgg(), KeysOf(v, ModuleExercises(m)), rolls).firstSeen == 1
      && CountOf(Under(seen.Keys, ModuleLabel(v.registry), m.mod.id), seen).firstSeen == 0
  {
    BlankParts();
    BlankIsValid();
    var v := Served(Blank(), RegistryOf(Blank()), {""}, grade);
    var seen: map<Sighting, bool> := map[(0, "f") := true];
    var rolls := map["f" := Roll(1, 1, Some(true), Some(1))];
    assert ExerciseIds(Exercises(Blank()))[0] == "";
    OneAnswerCounted(seen, rolls);
    var exs := ModuleExercises(Modules(Blank())[0]);
    KnownPlace(v, 0, 0);
    LabelsOfKnown(v.registry, exs[0]);
    assert KeysOf(v, exs) == ["f"];
    assert ["f"][..0] == [];
    assert Under(seen.Keys, ModuleLabel(v.registry), Modules(Blank())[0].mod.id) == {};
  }

  lemma OneAnswerCounted(seen: map<Sighting, bool>, rolls: map<string, Roll>)
    requires seen == map[(0, "f") := true] && rolls == map["f" := Roll(1, 1, Some(true), Some(1))]
    ensures FirstMarked(AnsweredRows(OneAnswer(), "c", None), seen) && RollsFor(OneAnswer(), "c", 0, rolls)
  {
    OneRow(OneAnswer(), "c", None);
    OneRow(OneAnswer(), "c", Some(0));
    var a := OneAnswer()[1];
    forall p: Sighting ensures Marks([a], At(p)) == if p == (0, "f") then [true] else [] {
      OneMark(a, At(p));
    }
    forall k ensures Marks([a], OnKey(k)) == if k == "f" then [true] else [] {
      OneMark(a, OnKey(k));
    }
    assert [true][..0] == [];
    assert RollOf([true]) == Roll(1, 1, Some(true), Some(1));
  }

  /** In an exercise's row, the learners are as many as the first sightings: each learner is seen once. */
  lemma ExerciseLearnersAreSightings(v: Served, seen: map<Sighting, bool>, x: string)
    requires Deployed(v)
    ensures |People(Under(seen.Keys, ExerciseLabel(v.registry), x))| == |Under(seen.Keys, ExerciseLabel(v.registry), x)|
  {
    RegistryIndexes(v.course);
    var pairs := Under(seen.Keys, ExerciseLabel(v.registry), x);
    if pairs == {} {
      assert People(pairs) == {};
    } else {
      var key := v.registry.exerciseKeys[x];
      KeysLearners(pairs, key);
    }
  }

  /**
   * Every published exercise row is headed by as many learners as it has first sightings, and never by fewer than
   * three.
   */
  lemma PublishedRows(v: Served, seen: map<Sighting, bool>, rows: map<string, Count>, x: string)
    requires Deployed(v) && Publishes(rows, seen, ExerciseLabel(v.registry)) && x in rows
    ensures |rows[x].learners| == rows[x].firstSeen >= 3
    ensures rows[x].firstCorrect <= rows[x].firstSeen
  {
    ExerciseLearnersAreSightings(v, seen, x);
    var pairs := Under(seen.Keys, ExerciseLabel(v.registry), x);
    SubsetSize(Right(pairs, seen), pairs);
  }
}
