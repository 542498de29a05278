/** Rendering an exam, in progress or under review, from its rows and the order frozen at its start. */
module ExamView {
  import opened Text
  import opened Sequences
  import opened Manifest
  import opened Lanes
  import opened LaneRuns
  import ExamBlocks

  /** One question as shown. The last three fields are filled in for a review only. */
  datatype QuestionView = QuestionView(
    index: nat, attempt: nat, exerciseId: string, given: Option<Fields>, answered: bool,
    isCorrect: Option<bool>, unanswered: bool, result: Option<bool>)

  /** The placeholder answer that reveals an unanswered question's solution. */
  type Sentinel = (string, int) -> Fields

  /** A question's place: in the frozen order if there is one, else in today's module order. */
  function PlaceOf(v: Served, exam: Exam, key: string): (k: int) {
    if exam.order.None? || exam.order.value == [] then Rank(v, key)
    else
      var frozen := Dict(exam.order.value, Range(|exam.order.value|));
      if key in frozen then frozen[key] else |frozen|
  }

  function ByPlace(v: Served, exam: Exam, attempts: map<nat, Attempt>): (leq: (nat, nat) -> bool) {
    (i: nat, j: nat) => i in attempts && j in attempts ==>
      PlaceOf(v, exam, attempts[i].key) <= PlaceOf(v, exam, attempts[j].key)
  }

  /** What grading says on review: of the stored answer, or of the placeholder if there is none to grade. */
  function Regraded(v: Served, sentinel: Sentinel, id: string, a: Attempt): (r: Option<bool>) {
    var blank := v.grade(id, a.seed, sentinel(id, a.seed));
    if a.given.None? then blank
    else
      var graded := v.grade(id, a.seed, a.given.value);
      if graded.Some? then graded else blank
  }

  function Shown(v: Served, sentinel: Sentinel, index: nat, attempt: nat, a: Attempt, review: bool): (q: QuestionView) {
    var id := DisplayId(v.registry, a.key);
    var answered := a.given.Some?;
    if review then
      QuestionView(index, attempt, id, a.given, answered, Some(a.isCorrect == Some(true) && answered), !answered,
                   Regraded(v, sentinel, id, a))
    else QuestionView(index, attempt, id, a.given, answered, None, false, None)
  }

  predicate Playable(v: Served, a: Attempt) {
    DisplayId(v.registry, a.key) in v.playable
  }

  /** How a row is shown at an index; a question whose exercise is not deployed keeps its index but is not shown. */
  type Showing = (int, nat) -> Option<QuestionView>

  function ShowingOf(v: Served, sentinel: Sentinel, attempts: map<nat, Attempt>, review: bool): (show: Showing) {
    (index: int, i: nat) =>
      if index >= 0 && i in attempts && Playable(v, attempts[i])
      then Some(Shown(v, sentinel, index, i, attempts[i], review))
      else None
  }

  /** The questions shown for the first `n` rows of a sorted list. */
  function ShownUpTo(show: Showing, sorted: seq<nat>, n: nat): (r: seq<QuestionView>)
    requires n <= |sorted|
  {
    if n == 0 then []
    else
      var q := show(n - 1, sorted[n - 1]);
      ShownUpTo(show, sorted, n - 1) + (if q.Some? then [q.value] else [])
  }

  method Enumerate(show: Showing, sorted: seq<nat>) returns (questions: seq<QuestionView>)
    ensures questions == ShownUpTo(show, sorted, |sorted|)
  {
    questions := [];
    var index := 0;
    while index < |sorted|
      invariant 0 <= index <= |sorted|
      invariant questions == ShownUpTo(show, sorted, index)
    {
      var q := show(index, sorted[index]);
      if q.Some? { questions := questions + [q.value]; }
      index := index + 1;
    }
  }

  /** The view of an exam, from any listing of its rows. */
  function ViewOf(v: Served, sentinel: Sentinel, exam: Exam, attempts: map<nat, Attempt>, rows: seq<nat>, review: bool)
    : (r: seq<QuestionView>)
  {
    var sorted := Sort(rows, ByPlace(v, exam, attempts));
    ShownUpTo(ShowingOf(v, sentinel, attempts, review), sorted, |sorted|)
  }

  method BuildView(v: Served, sentinel: Sentinel, exam: Exam, attempts: map<nat, Attempt>, rows: seq<nat>, review: bool)
    returns (questions: seq<QuestionView>)
    ensures questions == ViewOf(v, sentinel, exam, attempts, rows, review)
  {
    var sorted := Sort(rows, ByPlace(v, exam, attempts));
    questions := Enumerate(ShowingOf(v, sentinel, attempts, review), sorted);
  }

  // ---- a question's index never moves ----

  /** A sitting's rows in whatever order the database returns them. */
  ghost predicate Lists(rows: seq<nat>, attempts: map<nat, Attempt>, e: nat) {
    NoDup(rows) && Elements(rows) == IdsOf(attempts, e)
  }

  lemma PlaceInOrder(v: Served, exam: Exam, k: nat)
    requires exam.order.Some? && NoDup(exam.order.value) && k < |exam.order.value|
    ensures PlaceOf(v, exam, exam.order.value[k]) == k
  {
    DictAt(exam.order.value, Range(|exam.order.value|), k);
  }

  lemma {:induction false} SortedByPlace(v: Served, exam: Exam, attempts: map<nat, Attempt>, rows: seq<nat>)
    requires forall i :: 0 <= i < |rows| ==> rows[i] in attempts
    ensures forall i, j :: 0 <= i < j < |Sort(rows, ByPlace(v, exam, attempts))| ==>
      ByPlace(v, exam, attempts)(Sort(rows, ByPlace(v, exam, attempts))[i], Sort(rows, ByPlace(v, exam, attempts))[j])
  {
    var place := (i: nat) => if i in attempts then PlaceOf(v, exam, attempts[i].key) else 0;
    var (leq, total) := (ByPlace(v, exam, attempts), (i: nat, j: nat) => place(i) <= place(j));
    forall i, j | i in rows && j in rows ensures leq(i, j) == total(i, j) {}
    SortAgrees(rows, leq, total);
    SortSorts(rows, total);
    SortPermutes(rows, total);
    var sorted := Sort(rows, total);
    forall i, j | 0 <= i < j < |sorted| ensures leq(sorted[i], sorted[j]) {
      assert sorted[i] in rows && sorted[j] in rows && total(sorted[i], sorted[j]);
    }
  }

  /** The frozen places of a list of rows. */
  function Places(order: seq<string>, attempts: map<nat, Attempt>, ids: seq<nat>): (r: seq<int>)
    requires forall k :: 0 <= k < |ids| ==> ids[k] in attempts && attempts[ids[k]].key in order
    ensures |r| == |ids| && forall k :: 0 <= k < |ids| ==> r[k] == IndexOf(order, attempts[ids[k]].key)
  {
    seq(|ids|, k requires 0 <= k < |ids| => IndexOf(order, attempts[ids[k]].key))
  }

  lemma PlacesOfSorted(v: Served, exam: Exam, attempts: map<nat, Attempt>, x: nat, y: nat)
    requires exam.order.Some? && NoDup(exam.order.value) && x in attempts && y in attempts
    requires attempts[x].key in exam.order.value && attempts[y].key in exam.order.value
    requires attempts[x].key != attempts[y].key
    requires ByPlace(v, exam, attempts)(x, y)
    ensures IndexOf(exam.order.value, attempts[x].key) < IndexOf(exam.order.value, attempts[y].key)
  {
    PlaceInOrder(v, exam, IndexOf(exam.order.value, attempts[x].key));
    PlaceInOrder(v, exam, IndexOf(exam.order.value, attempts[y].key));
  }

  lemma SortedRows(v: Served, exam: Exam, attempts: map<nat, Attempt>, e: nat, rows: seq<nat>)
    requires Lists(rows, attempts, e)
    ensures
      var sorted := Sort(rows, ByPlace(v, exam, attempts));
      NoDup(sorted) && |sorted| == |rows| == |IdsOf(attempts, e)| && forall k :: 0 <= k < |sorted| ==>
        sorted[k] in IdsOf(attempts, e)
  {
    var leq := ByPlace(v, exam, attempts);
    var sorted := Sort(rows, leq);
    NoDupCount(rows);
    SortPermutes(rows, leq);
    PermutationKeepsNoDup(rows, sorted);
    forall k | 0 <= k < |sorted| ensures sorted[k] in IdsOf(attempts, e) {
      assert sorted[k] in rows && sorted[k] in Elements(rows);
    }
  }

  /** Sorting a sitting's rows puts the question with the k-th frozen key at k, whatever the rows' order was. */
  lemma SortedIsFrozenOrder(v: Served, exam: Exam, attempts: map<nat, Attempt>, e: nat, rows: seq<nat>, i: nat)
    requires exam.order.Some? && Frozen(attempts, e, exam.order.value) && Lists(rows, attempts, e)
    requires i < |rows|
    ensures
      var sorted := Sort(rows, ByPlace(v, exam, attempts));
      |sorted| == |rows| == |exam.order.value| && sorted[i] in IdsOf(attempts, e)
        && attempts[sorted[i]].key == exam.order.value[i]
  {
    var order := exam.order.value;
    var sorted := Sort(rows, ByPlace(v, exam, attempts));
    SortedRows(v, exam, attempts, e, rows);
    assert forall k :: k in rows ==> k in Elements(rows);
    SortedByPlace(v, exam, attempts, rows);
    var places := Places(order, attempts, sorted);
    forall a, b | 0 <= a < b < |sorted| ensures places[a] < places[b] {
      PlacesOfSorted(v, exam, attempts, sorted[a], sorted[b]);
    }
    StrictlyIncreasingIsRange(places, i);
  }

  lemma {:induction false} ShownFrom(show: Showing, sorted: seq<nat>, n: nat, q: QuestionView) returns (k: nat)
    requires n <= |sorted| && q in ShownUpTo(show, sorted, n)
    ensures k < n && show(k, sorted[k]) == Some(q)
  {
    if show(n - 1, sorted[n - 1]) == Some(q) {
      k := n - 1;
    } else {
      k := ShownFrom(show, sorted, n - 1, q);
    }
  }

  lemma {:induction false} ShownThere(show: Showing, sorted: seq<nat>, n: nat, k: nat)
    requires k < n <= |sorted| && show(k, sorted[k]).Some?
    ensures show(k, sorted[k]).value in ShownUpTo(show, sorted, n)
  {
    if k < n - 1 { ShownThere(show, sorted, n - 1, k); }
  }

  /** Every question shown is a row, shown as it is stored. */
  lemma ShownIsRow(v: Served, sentinel: Sentinel, exam: Exam, attempts: map<nat, Attempt>, rows: seq<nat>, review: bool,
                   q: QuestionView)
    returns (k: nat)
    requires q in ViewOf(v, sentinel, exam, attempts, rows, review)
    ensures
      var sorted := Sort(rows, ByPlace(v, exam, attempts));
      k < |sorted| == |rows| && q.attempt == sorted[k] && q.attempt in rows && q.attempt in attempts && q.index == k
    ensures q == Shown(v, sentinel, q.index, q.attempt, attempts[q.attempt], review)
  {
    var sorted := Sort(rows, ByPlace(v, exam, attempts));
    k := ShownFrom(ShowingOf(v, sentinel, attempts, review), sorted, |sorted|, q);
    SortPermutes(rows, ByPlace(v, exam, attempts));
    assert sorted[k] in sorted;
  }

  /**
   * Every question shown carries the index of its key in the frozen order, under any course deployed at
   * the time, any order of rows, and whichever exercises have since been withdrawn.
   */
  lemma IndexIsFrozen(s: State, v: Served, sentinel: Sentinel, e: nat, rows: seq<nat>, review: bool, q: QuestionView)
    requires Inv(s) && e in s.exams && s.exams[e].order.Some? && Lists(rows, s.attempts, e)
    requires q in ViewOf(v, sentinel, s.exams[e], s.attempts, rows, review)
    ensures q.attempt in IdsOf(s.attempts, e) && q.index < |s.exams[e].order.value|
    ensures s.attempts[q.attempt].key == s.exams[e].order.value[q.index]
  {
    var k := ShownIsRow(v, sentinel, s.exams[e], s.attempts, rows, review, q);
    SortedIsFrozenOrder(v, s.exams[e], s.attempts, e, rows, k);
  }

  /** No question whose exercise is still playable is missing. */
  lemma PlayableIsShown(s: State, v: Served, sentinel: Sentinel, e: nat, rows: seq<nat>, review: bool, i: nat)
    returns (q: QuestionView)
    requires e in s.exams && Lists(rows, s.attempts, e) && i in IdsOf(s.attempts, e) && Playable(v, s.attempts[i])
    ensures q in ViewOf(v, sentinel, s.exams[e], s.attempts, rows, review) && q.attempt == i
  {
    var (show, leq) := (ShowingOf(v, sentinel, s.attempts, review), ByPlace(v, s.exams[e], s.attempts));
    var sorted := Sort(rows, leq);
    SortPermutes(rows, leq);
    assert i in Elements(rows) && i in rows;
    var k :| 0 <= k < |sorted| && sorted[k] == i;
    ShownThere(show, sorted, |sorted|, k);
    q := show(k, i).value;
  }

  /** From one render to any later one, whatever happened and was redeployed between, an index stays put. */
  lemma IndexNeverMoves(s: State, steps: seq<Step>, e: nat, v: Served, w: Served, sentinel: Sentinel,
                        rows: seq<nat>, rows': seq<nat>, review: bool, review': bool, q: QuestionView, q': QuestionView)
    requires Inv(s) && Legal(s, steps) && e in s.exams && s.exams[e].order.Some?
    requires Lists(rows, s.attempts, e) && q in ViewOf(v, sentinel, s.exams[e], s.attempts, rows, review)
    requires e in Run(s, steps).exams && Lists(rows', Run(s, steps).attempts, e)
    requires q' in ViewOf(w, sentinel, Run(s, steps).exams[e], Run(s, steps).attempts, rows', review')
    requires q'.attempt == q.attempt
    ensures q'.index == q.index
  {
    var t := Run(s, steps);
    RunKeepsInv(s, steps);
    QuestionsForGood(s, steps, e);
    IndexIsFrozen(s, v, sentinel, e, rows, review, q);
    IndexIsFrozen(t, w, sentinel, e, rows', review', q');
    assert Frozen(s.attempts, e, s.exams[e].order.value);
  }

  /** A sitting older than the frozen order is shown in today's module order. */
  lemma UnfrozenFollowsModules(v: Served, sentinel: Sentinel, exam: Exam, attempts: map<nat, Attempt>, e: nat,
                               rows: seq<nat>, review: bool, q: QuestionView, q': QuestionView, m: nat, m': nat)
    requires Deployed(v) && Lists(rows, attempts, e) && (exam.order.None? || exam.order.value == [])
    requires q in ViewOf(v, sentinel, exam, attempts, rows, review)
    requires q' in ViewOf(v, sentinel, exam, attempts, rows, review)
    requires ExamBlocks.OfModule(v.course, q.exerciseId, m) && ExamBlocks.OfModule(v.course, q'.exerciseId, m')
    requires q.index < q'.index
    ensures m <= m'
  {
    ShownInPlaceOrder(v, sentinel, exam, attempts, e, rows, review, q, q');
    UnfrozenPlace(v, sentinel, exam, attempts, rows, review, q, m);
    UnfrozenPlace(v, sentinel, exam, attempts, rows, review, q', m');
  }

  lemma UnfrozenPlace(v: Served, sentinel: Sentinel, exam: Exam, attempts: map<nat, Attempt>, rows: seq<nat>,
                      review: bool, q: QuestionView, m: nat)
    requires Deployed(v) && (exam.order.None? || exam.order.value == [])
    requires q in ViewOf(v, sentinel, exam, attempts, rows, review) && q.attempt in attempts
    requires ExamBlocks.OfModule(v.course, q.exerciseId, m)
    ensures PlaceOf(v, exam, attempts[q.attempt].key) == m
  {
    var k := ShownIsRow(v, sentinel, exam, attempts, rows, review, q);
    ExamBlocks.RankOfModule(v, attempts[q.attempt].key, m);
  }

  lemma ShownInPlaceOrder(v: Served, sentinel: Sentinel, exam: Exam, attempts: map<nat, Attempt>, e: nat,
                          rows: seq<nat>, review: bool, q: QuestionView, q': QuestionView)
    requires Lists(rows, attempts, e)
    requires q in ViewOf(v, sentinel, exam, attempts, rows, review)
    requires q' in ViewOf(v, sentinel, exam, attempts, rows, review)
    requires q.index < q'.index
    ensures q.attempt in attempts && q'.attempt in attempts
    ensures PlaceOf(v, exam, attempts[q.attempt].key) <= PlaceOf(v, exam, attempts[q'.attempt].key)
  {
    var k := ShownIsRow(v, sentinel, exam, attempts, rows, review, q);
    var k' := ShownIsRow(v, sentinel, exam, attempts, rows, review, q');
    assert forall i :: i in rows ==> i in Elements(rows);
    SortedByPlace(v, exam, attempts, rows);
  }

  // ---- what is shown ----

  /** While an exam is open each question shows its stored answer, and nothing of what it would be marked. */
  lemma OpenShowsNoMarks(v: Served, sentinel: Sentinel, exam: Exam, attempts: map<nat, Attempt>, rows: seq<nat>,
                         q: QuestionView)
    requires q in ViewOf(v, sentinel, exam, attempts, rows, false)
    ensures q.attempt in attempts && q.exerciseId == DisplayId(v.registry, attempts[q.attempt].key)
    ensures q.given == attempts[q.attempt].given && (q.answered <==> q.given.Some?)
    ensures q.isCorrect.None? && q.result.None? && !q.unanswered
  {
    var k := ShownIsRow(v, sentinel, exam, attempts, rows, false, q);
  }

  // ---- what a review says ----

  /**
   * A review repeats each row's stored mark, and never calls an unanswered question right, even where the
   * placeholder that reveals its solution happens to grade right.
   */
  lemma ReviewRepeatsMarks(s: State, v: Served, sentinel: Sentinel, e: nat, rows: seq<nat>, q: QuestionView)
    requires Inv(s) && e in s.exams && s.exams[e].status == Submitted && Lists(rows, s.attempts, e)
    requires q in ViewOf(v, sentinel, s.exams[e], s.attempts, rows, true)
    ensures q.attempt in s.attempts && q.isCorrect == s.attempts[q.attempt].isCorrect
    ensures q.unanswered <==> s.attempts[q.attempt].given.None?
    ensures q.unanswered ==> q.isCorrect == Some(false)
  {
    var k := ShownIsRow(v, sentinel, s.exams[e], s.attempts, rows, true, q);
    assert q.attempt in Elements(rows);
    var a := s.attempts[q.attempt];
    assert AttemptFine(s.exams, a);
    assert a.isCorrect == Some(a.isCorrect.value);
    if a.isCorrect.value { assert a.given.Some?; }
  }

  lemma GradedAsMarked(v: Served, sentinel: Sentinel, exam: Exam, attempts: map<nat, Attempt>, rows: seq<nat>,
                       q: QuestionView)
    requires q in ViewOf(v, sentinel, exam, attempts, rows, true) && q.given.Some? && q.attempt in attempts
    requires
      var a := attempts[q.attempt];
      a.isCorrect.Some? && a.given.Some? && a.isCorrect == v.grade(DisplayId(v.registry, a.key), a.seed, a.given.value)
    ensures q.result == q.isCorrect
  {
    var k := ShownIsRow(v, sentinel, exam, attempts, rows, true, q);
    var a := attempts[q.attempt];
    if a.isCorrect.value {
      assert a.isCorrect == Some(true);
    } else {
      assert a.isCorrect == Some(false);
    }
  }

  /** What submitting marks is what grading the stored answer says, where it grades at all. */
  lemma MarkedAsGraded(v: Served, a: Attempt, now: int)
    requires a.given.Some? && Playable(v, a) && v.grade(DisplayId(v.registry, a.key), a.seed, a.given.value).Some?
    ensures Marked(v, a, now).isCorrect == v.grade(DisplayId(v.registry, a.key), a.seed, a.given.value)
  {
    var graded := v.grade(DisplayId(v.registry, a.key), a.seed, a.given.value);
    if graded.value {
      assert graded == Some(true);
    } else {
      assert graded == Some(false) && !Lanes.Verdict(v, a);
    }
  }

  /**
   * Reviewed with the course it was submitted to, an answered question that grades shows the grade it was marked
   * with.
   */
  lemma ReviewGradesAsMarked(s: State, v: Served, now: int, e: nat, exam: Exam, sentinel: Sentinel, rows: seq<nat>,
                             q: QuestionView)
    requires Lists(rows, MarkAll(s.attempts, v, IdsOf(s.attempts, e), now), e)
    requires q in ViewOf(v, sentinel, exam, MarkAll(s.attempts, v, IdsOf(s.attempts, e), now), rows, true)
    requires q.attempt in s.attempts && q.given.Some?
    requires v.grade(q.exerciseId, s.attempts[q.attempt].seed, q.given.value).Some?
    ensures q.result == q.isCorrect
  {
    var marked := MarkAll(s.attempts, v, IdsOf(s.attempts, e), now);
    var k := ShownIsRow(v, sentinel, exam, marked, rows, true, q);
    ShownIsPlayable(v, sentinel, exam, marked, rows, true, q);
    assert q.attempt in Elements(rows);
    MarkTouches(s.attempts, v, e, now, e);
    MarkedAsGraded(v, s.attempts[q.attempt], now);
    GradedAsMarked(v, sentinel, exam, marked, rows, q);
  }

  lemma ShownIsPlayable(v: Served, sentinel: Sentinel, exam: Exam, attempts: map<nat, Attempt>, rows: seq<nat>,
                        review: bool, q: QuestionView)
    requires q in ViewOf(v, sentinel, exam, attempts, rows, review)
    ensures q.attempt in attempts && Playable(v, attempts[q.attempt])
  {
    var sorted := Sort(rows, ByPlace(v, exam, attempts));
    var k := ShownFrom(ShowingOf(v, sentinel, attempts, review), sorted, |sorted|, q);
  }
}
