/**
 * Where a submitted exam books its questions: counted over the sitting's attempts and the manifest's own
 * nesting, for each block of the stored result.
 */
module ExamBlocks {
  import opened Text
  import opened Sequences
  import opened Manifest
  import opened Places
  import opened ExamResults
  import opened Lanes
  import opened LaneRuns

  /** The exercise shown as `id` stands at this place of the manifest. */
  predicate StandsAt(c: Course, id: string, p: Place) {
    Holds(c, p) && ExerciseHere(c, p).id == id
  }

  ghost predicate Stands(c: Course, id: string) {
    exists p :: StandsAt(c, id, p)
  }

  ghost predicate StandsIn(c: Course, id: string, block: string) {
    exists p :: StandsAt(c, id, p) && BlockHere(c, p).id == block
  }

  /** The block an id belongs in: that of its exercise, or the empty one for an id the manifest lacks. */
  ghost predicate BelongsIn(c: Course, id: string, block: string) {
    if Stands(c, id) then StandsIn(c, id, block) else block == ""
  }

  lemma LocatedAt(v: Served, id: string, p: Place)
    requires Deployed(v) && StandsAt(v.course, id, p)
    ensures BlockIdOf(v.registry, id) == BlockHere(v.course, p).id
    ensures ModuleIdOf(v.registry, id) == ModuleHere(v.course, p).id
    ensures ModuleHere(v.course, p).id in v.registry.moduleKeys
    ensures v.registry.moduleKeys[ModuleHere(v.course, p).id] == ModuleHere(v.course, p).key
  {
    RegistryLocates(v.course, p);
  }

  lemma NowhereLocated(v: Served, id: string)
    requires Deployed(v) && !Stands(v.course, id)
    ensures BlockIdOf(v.registry, id) == "" && ModuleIdOf(v.registry, id) == ""
  {
    var exs := Exercises(v.course);
    if id in v.registry.locations {
      RegistryIndexes(v.course);
      assert id in Elements(ExerciseIds(exs));
      var k :| 0 <= k < |exs| && ExerciseIds(exs)[k] == id;
      var p := NestedExercise(v.course, k);
      assert StandsAt(v.course, id, p);
    }
  }

  // ---- one row of the result ----

  /** A row says whether its question was left unanswered, and whether its stored answer grades right. */
  lemma RowOfAnswer(v: Served, a: Attempt)
    ensures RowOf(v, a).unanswered <==> a.given.None?
    ensures
      var id := DisplayId(v.registry, a.key);
      RowOf(v, a).correct
      <==> a.given.Some? && id in v.playable && v.grade(id, a.seed, a.given.value) == Some(true)
  {
  }

  /** It names the block its exercise stands in, and the permanent key of its module. */
  lemma RowOfQuestion(v: Served, a: Attempt, p: Place)
    requires Deployed(v) && StandsAt(v.course, DisplayId(v.registry, a.key), p)
    ensures RowOf(v, a).blockId == BlockHere(v.course, p).id
    ensures RowOf(v, a).moduleKey == if ModuleHere(v.course, p).id == "" then "" else ModuleHere(v.course, p).key
  {
    LocatedAt(v, DisplayId(v.registry, a.key), p);
  }

  /** Neither is named for a question the course no longer has. */
  lemma RowOfDropped(v: Served, a: Attempt)
    requires Deployed(v) && !Stands(v.course, DisplayId(v.registry, a.key))
    ensures RowOf(v, a).blockId == "" && RowOf(v, a).moduleKey == ""
  {
    NowhereLocated(v, DisplayId(v.registry, a.key));
  }

  /** A block holds a question exactly when its row says so. */
  lemma BlockOfRow(v: Served, a: Attempt, block: string)
    requires Deployed(v)
    ensures BelongsIn(v.course, DisplayId(v.registry, a.key), block) <==> RowOf(v, a).blockId == block
  {
    var id := DisplayId(v.registry, a.key);
    if Stands(v.course, id) {
      var p :| StandsAt(v.course, id, p);
      RowOfQuestion(v, a, p);
      if StandsIn(v.course, id, block) {
        var q :| StandsAt(v.course, id, q) && BlockHere(v.course, q).id == block;
        RowOfQuestion(v, a, q);
      }
    } else {
      RowOfDropped(v, a);
    }
  }

  // ---- counting ----

  /** Rows of a block, and right rows of it, are as many as the ids they come from. */
  lemma {:induction false} CountsAreSets(rows: seq<Row>, ids: seq<nat>, here: nat -> bool, right: nat -> bool,
                                         block: string)
    requires NoDup(ids) && |rows| == |ids|
    requires forall k :: 0 <= k < |ids| ==> (rows[k].blockId == block <==> here(ids[k]))
    requires forall k :: 0 <= k < |ids| ==> (rows[k].blockId == block && rows[k].correct <==> right(ids[k]))
    ensures CountIn(rows, block) == |RightAmong(ids, here)|
    ensures CorrectIn(rows, block) == |RightAmong(ids, right)|
  {
    if ids == [] {
      assert RightAmong(ids, here) == {} && RightAmong(ids, right) == {};
    } else {
      var n := |ids| - 1;
      CountsAreSets(rows[..n], ids[..n], here, right, block);
      assert ids == ids[..n] + [ids[n]] && rows == rows[..n] + [rows[n]];
      OneMoreRight(ids[..n], ids[n], here);
      OneMoreRight(ids[..n], ids[n], right);
    }
  }

  /** The sitting's questions that belong in a block. */
  ghost function InBlockOf(v: Served, attempts: map<nat, Attempt>, exam: nat, block: string): (r: set<nat>) {
    set i | i in IdsOf(attempts, exam) && BelongsIn(v.course, DisplayId(v.registry, attempts[i].key), block)
  }

  /** And those of them that end up marked right. */
  ghost function RightInBlock(v: Served, attempts: map<nat, Attempt>, marked: map<nat, Attempt>, exam: nat,
                              block: string)
    : (r: set<nat>)
  {
    set i | i in InBlockOf(v, attempts, exam, block) && i in marked && marked[i].isCorrect == Some(true)
  }

  lemma SetsOfBlock(v: Served, attempts: map<nat, Attempt>, now: int, exam: nat, ids: seq<nat>, here: nat -> bool,
                    right: nat -> bool, block: string)
    requires Deployed(v) && Elements(ids) == IdsOf(attempts, exam)
    requires forall i :: i in attempts ==> here(i) == (RowOf(v, attempts[i]).blockId == block)
    requires forall i :: i in attempts ==> right(i) == (here(i) && Verdict(v, attempts[i]))
    ensures RightAmong(ids, here) == InBlockOf(v, attempts, exam, block)
    ensures RightAmong(ids, right)
         == RightInBlock(v, attempts, MarkAll(attempts, v, IdsOf(attempts, exam), now), exam, block)
  {
    forall i ensures i in ids <==> i in IdsOf(attempts, exam) { assert i in ids <==> i in Elements(ids); }
    forall i | i in IdsOf(attempts, exam)
      ensures here(i) <==> BelongsIn(v.course, DisplayId(v.registry, attempts[i].key), block)
    {
      BlockOfRow(v, attempts[i], block);
    }
  }

  // ---- the stored result ----

  /** A submission the service accepts. */
  ghost predicate Submits(s: State, v: Served, now: int, user: nat, exam: nat) {
    Deployed(v) && SubmittedExam(s, v, now, user, exam).error.None?
  }

  /** The sitting's rows, in the order they are walked. */
  lemma WalkedRows(s: State, v: Served, now: int, user: nat, exam: nat)
    requires Submits(s, v, now, user, exam)
    ensures
      var (t, walked) := (SubmittedExam(s, v, now, user, exam).state, Walked(s.attempts, v, exam));
      && NoDup(walked) && Elements(walked) == IdsOf(s.attempts, exam)
      && (forall k :: 0 <= k < |walked| ==> walked[k] in s.attempts)
      && t.attempts == MarkAll(s.attempts, v, IdsOf(s.attempts, exam), now)
      && exam in t.exams && t.exams[exam].result == Some(ResultOf(RowsOf(v, s.attempts, walked)))
  {
    WalkedIsAll(s.attempts, v, exam);
    assert Elements(Walked(s.attempts, v, exam)) == IdsOf(s.attempts, exam);
  }

  lemma ScoreOfBlock(rows: seq<Row>, x: BlockScore)
    requires x in ResultOf(rows).blocks
    ensures x.total == CountIn(rows, x.blockId) > 0 && x.correct == CorrectIn(rows, x.blockId)
  {
    ResultBalances(rows);
  }

  /**
   * Each block of the stored result is credited with exactly the sitting's questions that stand in that block
   * of the manifest, and with those of them marked right.
   */
  lemma BlocksAreTheManifests(s: State, v: Served, now: int, user: nat, exam: nat, x: BlockScore)
    requires Submits(s, v, now, user, exam)
    requires
      var t := SubmittedExam(s, v, now, user, exam).state;
      exam in t.exams && t.exams[exam].result.Some? && x in t.exams[exam].result.value.blocks
    ensures x.total == |InBlockOf(v, s.attempts, exam, x.blockId)| > 0
    ensures x.correct
         == |RightInBlock(v, s.attempts, SubmittedExam(s, v, now, user, exam).state.attempts, exam, x.blockId)|
  {
    WalkedRows(s, v, now, user, exam);
    ScoreOfSets(v, s.attempts, now, exam, Walked(s.attempts, v, exam), x);
  }

  lemma ScoreOfSets(v: Served, attempts: map<nat, Attempt>, now: int, exam: nat, walked: seq<nat>, x: BlockScore)
    requires Deployed(v) && NoDup(walked) && Elements(walked) == IdsOf(attempts, exam)
    requires forall k :: 0 <= k < |walked| ==> walked[k] in attempts
    requires x in ResultOf(RowsOf(v, attempts, walked)).blocks
    ensures x.total == |InBlockOf(v, attempts, exam, x.blockId)| > 0
    ensures x.correct
         == |RightInBlock(v, attempts, MarkAll(attempts, v, IdsOf(attempts, exam), now), exam, x.blockId)|
  {
    var rows := RowsOf(v, attempts, walked);
    var here := (i: nat) => i in attempts && RowOf(v, attempts[i]).blockId == x.blockId;
    var right := (i: nat) => i in attempts && here(i) && Verdict(v, attempts[i]);
    ScoreOfBlock(rows, x);
    CountsAreSets(rows, walked, here, right, x.blockId);
    SetsOfBlock(v, attempts, now, exam, walked, here, right, x.blockId);
  }

  /** Every question of the sitting is credited to some block listed. */
  lemma EveryBlockIsListed(s: State, v: Served, now: int, user: nat, exam: nat, i: nat, block: string)
    returns (x: BlockScore)
    requires Submits(s, v, now, user, exam) && i in InBlockOf(v, s.attempts, exam, block)
    ensures
      var t := SubmittedExam(s, v, now, user, exam).state;
      exam in t.exams && t.exams[exam].result.Some? && x in t.exams[exam].result.value.blocks && x.blockId == block
  {
    WalkedRows(s, v, now, user, exam);
    var walked := Walked(s.attempts, v, exam);
    var rows := RowsOf(v, s.attempts, walked);
    assert i in Elements(walked);
    var k :| 0 <= k < |walked| && walked[k] == i;
    BlockOfRow(v, s.attempts[i], block);
    ResultBalances(rows);
    assert ResultOf(rows).modules[k].blockId == block;
    var j :| 0 <= j < |ResultOf(rows).blocks| && ResultOf(rows).blocks[j].blockId == block;
    x := ResultOf(rows).blocks[j];
  }

  // ---- the order of the rows ----

  /** The exercise shown as `id` is one of the module listed `p`-th. */
  ghost predicate OfModule(c: Course, id: string, p: nat) {
    p < |Modules(c)| && exists k :: 0 <= k < |ModuleExercises(Modules(c)[p])|
                                    && ModuleExercises(Modules(c)[p])[k].exercise.id == id
  }

  lemma IdOfModule(v: Served, id: string, p: nat)
    requires Deployed(v) && OfModule(v.course, id, p)
    ensures ModuleIdOf(v.registry, id) == Modules(v.course)[p].mod.id
  {
    var c := v.course;
    var k :| 0 <= k < |ModuleExercises(Modules(c)[p])| && ModuleExercises(Modules(c)[p])[k].exercise.id == id;
    WalkAt(Modules(c), p, k);
    RegistryIndexes(c);
    assert Knows(v.registry, Exercises(c)[|Walk(Modules(c)[..p])| + k]);
    ModuleExercisesKnowModule(Modules(c)[p], k);
  }

  lemma RankOfModule(v: Served, key: string, p: nat)
    requires Deployed(v) && OfModule(v.course, DisplayId(v.registry, key), p)
    ensures Rank(v, key) == p
  {
    IdOfModule(v, DisplayId(v.registry, key), p);
    NamesUnique(v.course);
    DictAt(ModuleIds(Modules(v.course)), Range(|Modules(v.course)|), p);
  }

  /** The rows are the sitting's questions, one row each, and questions of earlier modules come first. */
  lemma RowsFollowModules(s: State, v: Served, now: int, user: nat, exam: nat) returns (walked: seq<nat>)
    requires Submits(s, v, now, user, exam)
    ensures NoDup(walked) && Elements(walked) == IdsOf(s.attempts, exam)
    ensures forall k :: 0 <= k < |walked| ==> walked[k] in s.attempts
    ensures
      var t := SubmittedExam(s, v, now, user, exam).state;
      exam in t.exams && t.exams[exam].result.Some?
      && t.exams[exam].result.value.modules == RowsOf(v, s.attempts, walked)
    ensures forall j: nat, k: nat, p: nat, q: nat ::
      (j < k < |walked| && OfModule(v.course, DisplayId(v.registry, s.attempts[walked[j]].key), p)
       && OfModule(v.course, DisplayId(v.registry, s.attempts[walked[k]].key), q)) ==> p <= q
  {
    walked := Walked(s.attempts, v, exam);
    WalkedRows(s, v, now, user, exam);
    forall j: nat, k: nat, p: nat, q: nat |
      j < k < |walked| && OfModule(v.course, DisplayId(v.registry, s.attempts[walked[j]].key), p)
      && OfModule(v.course, DisplayId(v.registry, s.attempts[walked[k]].key), q)
      ensures p <= q
    {
      RankOfModule(v, s.attempts[walked[j]].key, p);
      RankOfModule(v, s.attempts[walked[k]].key, q);
      WalkedByRank(s.attempts, v, exam, j, k);
    }
  }

  /**
   * Questions the course no longer has come after those of any module, in a course of at most ten thousand
   * modules, none of them without an id.
   */
  lemma DroppedGoLast(s: State, v: Served, now: int, user: nat, exam: nat, walked: seq<nat>, j: nat, k: nat, p: nat)
    requires Submits(s, v, now, user, exam) && walked == Walked(s.attempts, v, exam)
    requires "" !in ModuleIds(Modules(v.course)) && j < |walked| && k < |walked|
    requires walked[j] in s.attempts && !Stands(v.course, DisplayId(v.registry, s.attempts[walked[j]].key))
    requires walked[k] in s.attempts && OfModule(v.course, DisplayId(v.registry, s.attempts[walked[k]].key), p)
    requires |Modules(v.course)| <= 10000
    ensures k < j
  {
    NowhereLocated(v, DisplayId(v.registry, s.attempts[walked[j]].key));
    assert Rank(v, s.attempts[walked[j]].key) == 10000;
    RankOfModule(v, s.attempts[walked[k]].key, p);
    if j < k { WalkedByRank(s.attempts, v, exam, j, k); }
  }

  lemma WalkedByRank(attempts: map<nat, Attempt>, v: Served, exam: nat, j: nat, k: nat)
    requires j < k < |Walked(attempts, v, exam)|
    ensures
      var (x, y) := (Walked(attempts, v, exam)[j], Walked(attempts, v, exam)[k]);
      x in attempts && y in attempts && Rank(v, attempts[x].key) <= Rank(v, attempts[y].key)
  {
    var ids := InOrder(IdsOf(attempts, exam));
    var rank := (i: nat) => if i in attempts then Rank(v, attempts[i].key) else 0;
    InOrderMembers(IdsOf(attempts, exam));
    SortedByRank(ids, ByRank(v, attempts), rank, j, k);
  }
}
