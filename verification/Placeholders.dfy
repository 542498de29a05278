/**
 * The review of questions nobody answered, with the grading the quizzes and calculations really do: when
 * the placeholder that reveals the solution grades right, and what the review says then.
 */
module Placeholders {
  import opened Text
  import opened Sequences
  import opened Manifest
  import opened ExamResults
  import opened Lanes
  import opened LaneRuns
  import opened ExamView
  import Quiz
  import Reveal

  /** The deployed configurations by display id, and what a seed samples from them. */
  datatype Bank = Bank(world: Quiz.World, configs: map<string, Reveal.Config>, locale: string)

  ghost predicate Sound(b: Bank) {
    Quiz.Fair(b.world) && forall id :: id in b.configs ==> Reveal.ValidConfig(b.configs[id])
  }

  function GradeOf(b: Bank): (grade: (string, int, Fields) -> Option<bool>)
    requires Sound(b)
  {
    (id, seed, answer) =>
      if id !in b.configs then None
      else match Reveal.Grade(b.world, b.configs[id], seed, answer, b.locale)
           case Graded(correct, _) => Some(correct)
           case Invalid => None
  }

  function SentinelOf(b: Bank): (sentinel: Sentinel)
    requires Sound(b)
  {
    (id, seed) =>
      if id !in b.configs then map[]
      else Reveal.SentinelAnswer(b.configs[id].QuizConfig?, Reveal.Generate(b.world, b.configs[id], seed, b.locale))
  }

  /** Saying nothing solves it: a false statement, or an option whose id is empty. */
  ghost predicate BlankSolves(b: Bank, id: string, seed: int)
    requires Sound(b)
  {
    && id in b.configs && b.configs[id].QuizConfig?
    && Reveal.BlankIsRight(Quiz.Chosen(b.world, b.configs[id].variants, seed))
  }

  lemma PlaceholderGrade(b: Bank, id: string, seed: int)
    requires Sound(b) && id in b.configs
    ensures GradeOf(b)(id, seed, SentinelOf(b)(id, seed)) == Some(BlankSolves(b, id, seed))
  {
    Reveal.SentinelMayGradeCorrect(b.world, b.configs[id], seed, b.locale);
  }

  /**
   * Of an unanswered question the placeholder's grade reads correct exactly where saying nothing solves it,
   * while the review itself calls it wrong, solved or not.
   */
  lemma UnansweredIsNeverRight(b: Bank, s: State, v: Served, e: nat, rows: seq<nat>, q: QuestionView)
    requires Sound(b) && v.grade == GradeOf(b)
    requires Inv(s) && e in s.exams && s.exams[e].status == Submitted && Lists(rows, s.attempts, e)
    requires q in ViewOf(v, SentinelOf(b), s.exams[e], s.attempts, rows, true)
    requires q.given.None? && q.exerciseId in b.configs
    ensures q.attempt in s.attempts && q.isCorrect == Some(false)
    ensures q.result == Some(BlankSolves(b, q.exerciseId, s.attempts[q.attempt].seed))
  {
    ReviewRepeatsMarks(s, v, SentinelOf(b), e, rows, q);
    var k := ShownIsRow(v, SentinelOf(b), s.exams[e], s.attempts, rows, true, q);
    PlaceholderGrade(b, q.exerciseId, s.attempts[q.attempt].seed);
  }

  // ---- it does happen ----

  /** One exercise: a statement that is false. */
  function FalseStatement(): (v: Quiz.Variant) {
    Quiz.Variant("v", Quiz.TrueFalse, [], Some(false), [], [])
  }

  function OneStatement(w: Quiz.World): (b: Bank) {
    Bank(w, map["e" := Reveal.QuizConfig([FalseStatement()])], "en")
  }

  /** A submitted exam whose only question, number 1, was left unanswered. */
  function LeftBlank(seed: int): (s: State) {
    State(map[1 := Attempt(0, "c", "f", Some(2), seed, Answered, None, Some(false), 0, Some(1))],
          map[2 := Exam(0, "c", "global", None, Submitted, 0, Some(1), Some(["f"]),
                        Some(ResultOf([Row("m", "b", false, true)])))])
  }

  lemma LeftBlankIsConsistent(seed: int)
    ensures Inv(LeftBlank(seed)) && IdsOf(LeftBlank(seed).attempts, 2) == {1}
  {
    var s := LeftBlank(seed);
    assert IdsOf(s.attempts, 2) == {1};
    assert RightOnes(s.attempts, 2) == {};
    var rows := [Row("m", "b", false, true)];
    assert rows[..0] == [] && Correct(rows) == 0;
    ResultBalances(rows);
  }

  /** Under the course that carries it, the blank question's placeholder reads correct, and the question wrong. */
  lemma PlaceholderMayGradeRight(w: Quiz.World, seed: int) returns (v: Served, q: QuestionView)
    requires Quiz.Fair(w)
    ensures Sound(OneStatement(w)) && Deployed(v) && v.grade == GradeOf(OneStatement(w))
    ensures Inv(LeftBlank(seed)) && LeftBlank(seed).exams[2].status == Submitted
    ensures q in ViewOf(v, SentinelOf(OneStatement(w)), LeftBlank(seed).exams[2], LeftBlank(seed).attempts, [1], true)
    ensures q.result == Some(true) && q.isCorrect == Some(false)
  {
    var b, s := OneStatement(w), LeftBlank(seed);
    OneStatementIsSolved(w, seed);
    v := Served(Renumbered(), RegistryOf(Renumbered()), {"e"}, GradeOf(b));
    RenumberedIsPlayable(v.registry);
    LeftBlankIsConsistent(seed);
    q := BlankReadsCorrect(b, s, v, 2, 1);
  }

  lemma BlankReadsCorrect(b: Bank, s: State, v: Served, e: nat, i: nat) returns (q: QuestionView)
    requires Sound(b) && v.grade == GradeOf(b)
    requires Inv(s) && e in s.exams && s.exams[e].status == Submitted && IdsOf(s.attempts, e) == {i}
    requires s.attempts[i].given.None? && Playable(v, s.attempts[i])
    requires BlankSolves(b, DisplayId(v.registry, s.attempts[i].key), s.attempts[i].seed)
    ensures q in ViewOf(v, SentinelOf(b), s.exams[e], s.attempts, [i], true)
    ensures q.result == Some(true) && q.isCorrect == Some(false)
  {
    assert Elements([i]) == {i};
    q := PlayableIsShown(s, v, SentinelOf(b), e, [i], true, i);
    var k := ShownIsRow(v, SentinelOf(b), s.exams[e], s.attempts, [i], true, q);
    UnansweredIsNeverRight(b, s, v, e, [i], q);
  }

  lemma OneStatementIsSolved(w: Quiz.World, seed: int)
    requires Quiz.Fair(w)
    ensures Sound(OneStatement(w)) && BlankSolves(OneStatement(w), "e", seed)
  {
    var bank := [FalseStatement()];
    assert Quiz.Accepted(bank[0]);
    assert Quiz.AcceptedBank(bank);
    assert w.choice(seed, |bank|) < 1;
    assert Quiz.Chosen(w, bank, seed) == FalseStatement();
  }

  lemma RenumberedIsPlayable(r: Registry)
    requires r == RegistryOf(Renumbered())
    ensures Valid(Renumbered()) && DisplayId(r, "f") == "e"
    ensures {"e"} <= Elements(ExerciseIds(Exercises(Renumbered())))
  {
    RenumberedIsValid();
    RenumberedParts();
    RegistryIndexes(Renumbered());
    var exs := Exercises(Renumbered());
    assert Knows(r, exs[0]);
    assert ExerciseIds(exs)[0] == "e";
  }
}
