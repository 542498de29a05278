# Curset: a verified model

This project models the parts of Curset (the `tradeschool` backend and the client's number reader) in
which a small slip would be hard to notice and expensive to have made, and proves what they promise.

- **Calculations.** `Options` builds the four choices of a calculation: rounded results as whole steps of
  the display grid, the filter loop, the fallback loop, the shuffle and the layout. `Rounding` is half-even
  quantization, `Shuffle` the Fisher-Yates pass, `Formulas` the named mistakes of four formulas.
- **Numbers.** `Numbers` prints a decimal for a locale and reads it back; `Calculator` finds the option a
  computed result belongs to, `CalculatorMatch` says when that is the answer's.
- **Quizzes.** `Quiz` lays out and grades the five sub-kinds, `Reveal` extracts a solution by grading a
  throwaway answer, `Displays` says what the page shows under which id; `Printing` makes the book of the
  course, `PrintedAnswers` reads its answer sheets.
- **The course.** `Manifest` validates a manifest and builds the maps between display ids and permanent
  keys, `Places` ties both to the manifest's nesting; `Sync` and `Catalog` reconcile manifests into the
  skeleton tables, whose rows `ManifestRows` reads off the manifest; `Enrollment` keeps a learner's courses.
- **Attempts and exams.** `Lanes` holds the two tables and the six requests that change them, `ExamResults`
  the totals of a submission; `LaneAnswers`, `ExamSteps` and `ExamBlocks` say what one request does, of the
  tables and the manifest, `LaneRuns` and `LaneMarks` what every run keeps. `ExamView` is the render and the
  review, `Placeholders` the review of questions nobody answered. `Stats`, `Cohort` and `CohortSums` derive
  both statistics documents from the rows and add them up, `Firsts` says which attempts they call first, and
  `Learner` what the learner's own document says of the attempts and the manifest.
- **Protocols.** `Reports` delivers reports with any number of concurrent workers, `ReportSteps` says when
  one is filed and that no worker is ever stuck; `MailLinks` confirms addresses and resets passwords by mailed
  links, with a clock, and `MailWorks` says when that succeeds.
- **Two loops.** `Usernames` is the migration that named every account, `GitStatus` the reader of
  `git status --porcelain=v1 -z`.

`Sequences` and `Text` are shared vocabulary. State machines come twice, on purpose: a function from the
tables before a request to the tables after it, over which the properties are proved, and a class whose
methods update the tables in place and are proved to compute that function. Random draws, fresh ids, the
clock, row orders and grading are arbitrary arguments, so every statement holds for all of them.

Where the code differs from what its comments or tests promise, the code is modelled and the difference is
a lemma:

- Option labels are printed in the language the course is read in, and the calculator reads them back with
  the language of the interface. Where those differ in separators most numbers change value
  (`Numbers.RoundTripExactly` says exactly which do not, `Numbers.MisreadAcrossLanguages` shows both
  directions). When the calculator still finds the answer is `CalculatorMatch.AnswerIsMatched`; an exercise
  for which it finds another option is `CalculatorMatch.AnotherOptionMatches`.
- Distractors are meant not to be told by their size, and initial-margin ones to pass the filter for every
  draw. Exactly when the filter keeps them is `Formulas.LiquidationMagnitude` and
  `Formulas.InitialMarginMagnitude`, with what rounding can change in `Formulas.LiquidationFilter` and
  `Formulas.InitialMarginFilter`; draws that lose a mistake are `Formulas.LiquidationAtLeverageOne` and
  `Formulas.InitialMarginLosesOne`. At leverage one two initial-margin mistakes coincide
  (`Formulas.InitialMarginDistractors`).
- A sentinel is called a wrong answer; it grades correct for a false statement
  (`Reveal.SentinelMayGradeCorrect`), and only the review's own check keeps such a question from being
  called right (`Placeholders.UnansweredIsNeverRight`, `Placeholders.PlaceholderMayGradeRight`).
- Answering a practice attempt does not check the lane, so it can resolve an exam's row; the invariants hold
  with that step included, and submission regrades (`LaneRuns.StepKeepsInv`, `LaneRuns.SubmissionRegrades`).
  An exam's rows are said to become answered only when it is submitted; that one step is the exception, and
  the only one (`LaneMarks.AnsweredEarly`, `LaneMarks.AnsweredBeforeSubmission`).
- A key the manifest dropped falls back to its raw form, which may be another exercise's display id
  (`Manifest.MisnamedIffReused`).
- An exercise with an empty display id is counted for the learner and skipped for the cohort
  (`CohortSums.CohortExactly`, `CohortSums.BlankIsSkipped`).
- A report is mailed twice when a worker dies between the server's acceptance and its commit
  (`Reports.CrashMailsTwice`).
- Printed numbers are meant to keep exercise and answer paired. Differently padded ids print as one number
  (`Printing.PaddedIdsPrintAlike`), and so does a raw id that reads like one (`Printing.RawIdPrintsAlike`);
  `Printing.SameNumberIff` is exactly when.

Run `dafny verify dfyconfig.toml` in this directory.

## Model

| member | source | states |
|---|---|---|
| `Options.OptionsAreWellBuilt` | backend/src/tradeschool/exercises/calculation.py:113-160 | for every result, distractor list, round and shuffle: four pairwise different values under four different ids, exactly one of them the rounded result, and that one alone carries no mistake |
| `Options.OptionsForParams` | backend/src/tradeschool/exercises/calculation.py:113-160 | the imperative builder (filter loop, fallback loop, in-place shuffle, layout loop) terminates and computes the specified options |
| `Options.FilterDistractors` | backend/src/tradeschool/exercises/calculation.py:128-135 | the filter loop keeps exactly the first three candidates that are new after rounding and of the right size |
| `Options.FillWithSlips` | backend/src/tradeschool/exercises/calculation.py:136-145 | the fallback loop terminates for every number of decimals, and adds exactly the missing slips |
| `Options.LayOut` | backend/src/tradeschool/exercises/calculation.py:150-159 | one option and one mistake per shuffled slot, and the id of the slot the answer landed in |
| `Options.SurvivorsSound` | backend/src/tradeschool/exercises/calculation.py:125-135 | each survivor is a candidate, rounds to a value not seen before, is of the right size and keeps its own label |
| `Options.SurvivorsInOrder` | backend/src/tradeschool/exercises/calculation.py:128-135 | survivors keep the order of the candidates |
| `Options.SurvivorsComplete` | backend/src/tradeschool/exercises/calculation.py:125-135 | no value of the right size is missing from the survivors while there are fewer than three |
| `Options.FallbackFills` | backend/src/tradeschool/exercises/calculation.py:136-145 | the fallback keeps what was picked and adds new values, each called a slip, until there are three |
| `Options.SlipsAlternate` | backend/src/tradeschool/exercises/calculation.py:137-140 | slips lie above the result for odd k and below it for even k, each a twentieth of the base farther out than the one before |
| `Options.NoSlipPassedOver` | backend/src/tradeschool/exercises/calculation.py:137-145 | slips are taken in order: each one tried is among the values in the end, taken or already seen |
| `Options.RepeatIsShort` | backend/src/tradeschool/exercises/calculation.py:137-143 | a slip can repeat a seen value only for a bounded k: the termination measure of the loop |
| `Options.SeventyTriesSuffice` | backend/src/tradeschool/exercises/calculation.py:123-145 | for every round, result and distractor list the builder tries fewer than seventy slips: a negative round is rounded to whole units, so no grid step exceeds the base |
| `Options.EntriesAreFour` | backend/src/tradeschool/exercises/calculation.py:125-147 | the answer and its three distractors are pairwise different after rounding, and only the answer has no mistake |
| `Options.SlipsOnlyFillGaps` | backend/src/tradeschool/exercises/calculation.py:128-145 | a slip is invented only for a missing survivor, and exactly as many as are missing |
| `Rounding.HalfEvenNearest` | backend/src/tradeschool/exercises/calculation.py:123-129 | quantize: no grid value lies nearer, and of two equally near ones the even is taken |
| `Rounding.RoundedApart` | backend/src/tradeschool/exercises/calculation.py:123-129 | values more than one display quantum apart stay apart after rounding, in order |
| `Rounding.OneStepApartMayMeet` | backend/src/tradeschool/exercises/calculation.py:123-129 | exactly one quantum apart is not enough: two halves can meet on the even value between them |
| `Shuffle.ShuffledPermutes` | backend/src/tradeschool/exercises/calculation.py:148-149 | a downward Fisher-Yates pass is a permutation for every stream of draws |
| `Shuffle.ShuffleIsOrder` | backend/src/tradeschool/exercises/quiz.py:134-138 | shuffling range(n) yields each index exactly once |
| `Shuffle.EveryArrangementReachable` | backend/src/tradeschool/exercises/calculation.py:148-149 | every permutation is reached by some draws |
| `Shuffle.ShuffleInPlace` | backend/src/tradeschool/exercises/quiz.py:134-138 | the in-place array pass computes that permutation |
| `Formulas.NamedMistakesExactly` | backend/src/tradeschool/exercises/calculation.py:123-147 | the options are exactly the result and the three named mistakes if and only if the four stay different after rounding and the filter finds none too large; for every formula and every round |
| `Formulas.NamedMistakesSuffice` | backend/src/tradeschool/exercises/calculation.py:123-138 | where result and mistakes lie more than one quantum apart, the fallback is never entered exactly when none is too large for the filter |
| `Formulas.SameMagnitudeIsNeverTooLarge` | backend/src/tradeschool/exercises/calculation.py:127-131 | mistakes of at most eight times the result pass the filter after rounding too, for every round |
| `Formulas.FundingDistractors` | backend/src/tradeschool/exercises/formulas.py:399-404 | funding mistakes are at most eight times the result, and all different exactly when the result is not zero |
| `Formulas.PositionSizeDistractors` | backend/src/tradeschool/exercises/formulas.py:448-459 | position-size mistakes are at most eight times the result, and all different exactly when something is risked |
| `Formulas.InitialMarginDistractors` | backend/src/tradeschool/exercises/formulas.py:407-417 | initial-margin mistakes are all different exactly when there is a position and leverage is none of 1, 1/2, 1/4 and -1/2; over every leverage the formulas accept |
| `Formulas.InitialMarginMagnitude` | backend/src/tradeschool/exercises/formulas.py:407-417 | the promise that every candidate passes the filter for every draw, before rounding: it holds exactly when leverage is at most 1 or position x (8 - 7 leverage) is at most 50 leverage (leverage - 1) |
| `Formulas.InitialMarginFilter` | backend/src/tradeschool/exercises/formulas.py:407-417 | as rounded, only the candidate divided by leverage minus one can be too large, and never from leverage 8/7 on; below, the bound of 50 decides but for four and a half display steps to either side |
| `Formulas.InitialMarginLosesOne` | backend/src/tradeschool/exercises/formulas.py:407-417 | a draw for which the promise fails: a position of 110 at leverage 1.1 loses that candidate and is given a slip |
| `Formulas.LiquidationDistractorsDiffer` | backend/src/tradeschool/exercises/formulas.py:383-396 | liquidation mistakes are all different exactly when mmr is not 0 and 1/leverage is neither mmr nor 2 mmr |
| `Formulas.LiquidationMagnitude` | backend/src/tradeschool/exercises/calculation.py:127-131 | before rounding, the filter keeps all three liquidation mistakes exactly when price x (10/leverage - 9(1 + mmr)), or for a short price x (9 mmr - 7(1 + 1/leverage)), is at most 50 |
| `Formulas.LiquidationFilter` | backend/src/tradeschool/exercises/calculation.py:127-131 | as rounded, it keeps all three exactly when it keeps the one farthest off; the bound of 50 decides that but for four and a half display steps to either side |
| `Formulas.LiquidationAtLeverageOne` | backend/src/tradeschool/exercises/formulas.py:383-390 | a concrete drop: long at leverage one at a price of 10000 the third mistake is too large and a slip takes its place |
| `Formulas.LiquidationOfASmallPrice` | backend/src/tradeschool/exercises/calculation.py:127-131 | at a price of 5 the same position keeps all three, though one is far more than eight times the result: the allowance of 50 covers it |
| `Numbers.ThreeStepsSwapAtOnce` | backend/src/tradeschool/content/numbers.py:48-51 | the three replacements through a placeholder equal one simultaneous swap exactly on texts free of the placeholder |
| `Numbers.FormatIsLaid` | backend/src/tradeschool/content/numbers.py:41-51 | what a locale prints is the English layout with the two separators exchanged |
| `Numbers.PrintedShape` | backend/src/tradeschool/content/numbers.py:41-51 | a minus exactly for a negative number, as many decimals as the value carries after the decimal mark, digits in threes before it parted by the thousands mark, no idle zero in front |
| `Numbers.RoundTrip` | backend/src/tradeschool/content/numbers.py:41-51 | parsing what was printed gives the value back, for every decimal, whenever the client reads with the separators the server printed with |
| `Numbers.RoundTripExactly` | frontend/src/lib/numbers.ts:13-23 | over the code printed in and the code read with, the round trip holds exactly when their separators agree, or the number prints without any, or it is zero |
| `Numbers.MisreadAcrossLanguages` | frontend/src/features/exercises/CalculationExercise.tsx:42 | printed in Spanish and read in English, or the other way round, one half reads as 5 and 1234 as 1.234 |
| `Numbers.PrinterInjective` | backend/src/tradeschool/content/numbers.py:41-51 | at one scale different values print differently in every locale |
| `Numbers.PercentIsHundredfold` | backend/src/tradeschool/content/numbers.py:54-65 | a rate prints as exactly one hundred times the fraction |
| `Numbers.PercentIgnoresStoredScale` | backend/src/tradeschool/content/numbers.py:54-65 | trailing zeros in the stored rate do not change what is printed |
| `Calculator.LabelsDiffer` | backend/src/tradeschool/exercises/calculation.py:180-186 | the four option labels are four different texts |
| `Calculator.MatchOptionValue` | frontend/src/lib/numbers.ts:32-50 | the loop returns the one option that matches (readable, closest, the first of equals, within tolerance), and null exactly when every readable option is out of tolerance |
| `Calculator.CalculatorFindsAnswer` | frontend/src/lib/numbers.ts:32-50 | where the separators agree, a result less than half a quantum from the answer has the answer closest, and no other option |
| `CalculatorMatch.AnswerIsMatched` | frontend/src/lib/numbers.ts:32-50 | given the answer, the option matched is the answer's exactly when the separators agree, or the answer prints without any, or it is zero; over every result, distractor list, round and shuffle, and any tolerance below 0.9 |
| `CalculatorMatch.AnotherOptionMatches` | frontend/src/features/exercises/CalculationExercise.tsx:42 | a position size with the labels 5,0 10,0 2,5 and 0,5 under an English interface: given the answer 5, in whatever order they are shown, the option matched is 0,5 |
| `Quiz.OrderingIsByPosition` | backend/src/tradeschool/exercises/quiz.py:222 | the accepted order puts at place k the one item whose position is k |
| `Quiz.CorrectMapJoinsPairs` | backend/src/tradeschool/exercises/quiz.py:234-238 | the accepted matching joins, slot to slot, the two halves of each pair through both shuffles |
| `Quiz.JoinIsUniqueBijection` | backend/src/tradeschool/exercises/quiz.py:234-238 | it is the only map that does, and it is a bijection of the slots |
| `Reveal.GradesExactlyTheRight` | backend/src/tradeschool/exercises/quiz.py:178-247 | grading accepts exactly the right answers of each of the five sub-kinds, said without grading |
| `Reveal.DummyIsGradable` | backend/src/tradeschool/exercises/reveal.py:41-62 | the throwaway answer has a shape grading accepts |
| `Reveal.RevealedIsRight` | backend/src/tradeschool/exercises/reveal.py:65-75 | what grading reveals, turned around, grades as correct |
| `Reveal.RevealNeverFails` | backend/src/tradeschool/exercises/reveal.py:86-102 | for every accepted quiz, and every calculation whose formula computes for that draw: whatever the seed and the shuffle, reveal raises nothing and its answer grades correct |
| `Reveal.RevealedIdsAreShown` | backend/src/tradeschool/exercises/reveal.py:41-62 | every id a quiz reveals is one the payload shows |
| `Displays.OptionsAreShown` | backend/src/tradeschool/exercises/calculation.py:180-207 | under each option's id the page shows that option's value, printed for the locale |
| `Displays.RightRowReadsRight` | backend/src/tradeschool/exercises/calculation.py:195-231 | choosing a row grades correct exactly when the row reads as the rounded result, and some row does |
| `Displays.RevealedLabelIsShown` | backend/src/tradeschool/exercises/calculation.py:180-186 | the key quotes a label the list shows: the row with the revealed id, and no other, carries the revealed text |
| `Displays.CalcReveals` | backend/src/tradeschool/exercises/calculation.py:227-231 | whatever is answered, grading reveals the answer's id and the print of the rounded result |
| `Displays.QuizIsShown` | backend/src/tradeschool/exercises/quiz.py:151-168 | every option and every item is shown with its own text under its own id, and nothing else is |
| `Displays.TextUnderId` | backend/src/tradeschool/exercises/quiz.py:151-168 | so the row with an id reads as the option or item with that id |
| `Displays.PairsAreShown` | backend/src/tradeschool/exercises/quiz.py:169-178 | both halves of every pair are shown, and the revealed matching joins the very ids they are shown under |
| `Reveal.SentinelMayGradeCorrect` | backend/src/tradeschool/exams/service.py:35-51 | a sentinel is gradable for every exercise, and grades correct exactly for a false statement or a right option with an empty id |
| `Printing.SameNumberIff` | backend/src/tradeschool/content/print_export.py:54-61 | two ids print alike exactly when they hold the same two numbers, or one is raw and reads like the number of the other, or they are the same raw id; over every pair of ids |
| `Printing.PaddedIdsPrintAlike` | backend/src/tradeschool/content/print_export.py:54-61 | so differently padded ids do print as one number |
| `Printing.RawIdPrintsAlike` | backend/src/tradeschool/content/print_export.py:54-61 | and so does an id outside the convention: 1.5 prints like m1-ex-5 |
| `Printing.OnlyUnauthoredExcluded` | backend/src/tradeschool/content/print_export.py:214-241 | of quizzes and calculations, exactly those without a configuration are excluded |
| `Printing.PrintedAnswerIsRight` | backend/src/tradeschool/content/print_export.py:116-150 | the printed answer is read off a submission that the printed instance grades correct |
| `PrintedAnswers.PrintedQuizAnswer` | backend/src/tradeschool/content/print_export.py:116-132 | the printed answer of a quiz, handed in, is right for the instance printed, in all five sub-kinds |
| `PrintedAnswers.PrintedCalculationAnswer` | backend/src/tradeschool/content/print_export.py:135-154 | that of a calculation names the option the page shows the rounded result under, with its text and the printed unit |
| `Printing.BuildPrintExercises` | backend/src/tradeschool/content/print_export.py:253-281 | the nested loops build the book of the course |
| `Printing.NothingIsDropped` | backend/src/tradeschool/content/print_export.py:253-281 | every exercise is printed or excluded by name, once for each time it is listed |
| `Printing.EveryLessonAppears` | backend/src/tradeschool/content/print_export.py:253-281 | every lesson appears in manifest order, with its printed exercises in order |
| `Manifest.ValidateStructure` | backend/src/tradeschool/content/schema.py:143-189 | validation succeeds exactly on structurally valid manifests, and otherwise names a genuine duplicate, the first exercise of an undeclared kind or the first module with a bad assumption, checked in that order |
| `Manifest.FirstRepeat` | backend/src/tradeschool/content/schema.py:144-156 | the walk over a namespace finds a repeat exactly when there is one |
| `Manifest.BuildRegistry` | backend/src/tradeschool/content/registry.py:115-127 | the nested loops fill the lookups, and for a valid course they index it |
| `Manifest.RegistryIndexes` | backend/src/tradeschool/content/registry.py:115-148 | for a valid course the id and key maps are mutually inverse at every level and locations are right |
| `Manifest.PlacesDiffer` | backend/src/tradeschool/content/schema.py:143-176 | exercises at different places of a valid course have different ids and keys |
| `Places.ModuleStands` | backend/src/tradeschool/content/schema.py:130-137 | modules are listed block by block in manifest order, each with its block |
| `Places.ListedExercise` | backend/src/tradeschool/content/schema.py:130-137 | the list of exercises holds every exercise the manifest nests, with its block, module and lesson |
| `Places.NestedExercise` | backend/src/tradeschool/content/schema.py:130-137 | and nothing else |
| `Places.RegistryLocates` | backend/src/tradeschool/content/registry.py:108-157 | an exercise of the manifest is found in its block, module and lesson, and by its id and key each way |
| `Places.DroppedKeyIsRaw` | backend/src/tradeschool/content/registry.py:138-139 | a key no exercise has is shown as it is stored |
| `Manifest.MisnamedIffReused` | backend/src/tradeschool/attempts/service.py:47-49 | a stored key is shown under another exercise's display id exactly when the course dropped the key and reuses the string as an id |
| `Manifest.DroppedKeyMayBeReused` | backend/src/tradeschool/attempts/service.py:47-49 | a valid course in which that happens |
| `Lanes.Database.OpenAttempt` | backend/src/tradeschool/attempts/service.py:52-96 | opening a practice attempt gives up on the unanswered one for the same exercise and adds one row |
| `LaneAnswers.PractisingOpens` | backend/src/tradeschool/attempts/service.py:65-97 | opening adds one open row for the exercise's key and abandons the learner's own open one, nothing else |
| `Lanes.Database.SubmitAnswer` | backend/src/tradeschool/attempts/service.py:99-134 | an open attempt of the owner in this course is graded and resolved, exam rows included; otherwise the stated error and no change |
| `LaneAnswers.AnswerRefused` | backend/src/tradeschool/attempts/service.py:109-128 | a practice answer is accepted exactly for an open row of the caller in this course whose exercise is played and whose answer grades; each refusal by its own error, changing nothing |
| `LaneAnswers.AnswerMarks` | backend/src/tradeschool/attempts/service.py:124-133 | an accepted answer is stored with the mark grading gives it and the time, and no other row or exam changes |
| `LaneAnswers.MarkIsGradeThen` | backend/src/tradeschool/attempts/service.py:124-133 | over every run, an answered practice row's mark is what grading said of its answer at the step that answered it |
| `Lanes.Database.StartExam` | backend/src/tradeschool/exams/service.py:266-331 | closes the sittings of the same scope, draws one exercise per module, freezes the order |
| `ExamSteps.StartRefused` | backend/src/tradeschool/exams/service.py:266-296 | a start is refused exactly for an unknown scope, or one with nothing to play |
| `ExamSteps.StartExamines` | backend/src/tradeschool/exams/service.py:96-104 | a module is asked about exactly if its block is wanted and it has something to play |
| `ExamSteps.NewSitting` | backend/src/tradeschool/exams/service.py:300-331 | the new exam is the learner's, in progress, its rows open, unanswered and theirs |
| `ExamSteps.StartReplaces` | backend/src/tradeschool/exams/service.py:283-296 | exactly the open sittings of the same learner, course, scope and block are given up, with every row; all others stay as they are |
| `Lanes.Database.AnswerQuestion` | backend/src/tradeschool/exams/service.py:370-386 | stores or replaces an answer of an exam in progress, and nothing else |
| `LaneAnswers.LatestAnswerIsStored` | backend/src/tradeschool/exams/service.py:370-386 | accepted exactly for a question of the caller's exam in progress; the latest answer replaces the stored one, unmarked |
| `Lanes.Database.SubmitExam` | backend/src/tradeschool/exams/service.py:389-477 | grades every row in bulk, with running totals per block, and closes the exam with the result |
| `ExamSteps.SubmitCloses` | backend/src/tradeschool/exams/service.py:389-402 | a submission is accepted exactly for the caller's exam in progress |
| `ExamSteps.SubmitChanges` | backend/src/tradeschool/exams/service.py:423-476 | it closes that exam with a result and marks every row of it, and changes no other exam or row |
| `ExamBlocks.RowOfQuestion` | backend/src/tradeschool/exams/service.py:434-447 | a question's row names the block its exercise stands in and the permanent key of its module |
| `ExamBlocks.RowOfDropped` | backend/src/tradeschool/exams/service.py:434-447 | a question the course no longer has names neither |
| `ExamBlocks.RowOfAnswer` | backend/src/tradeschool/exams/service.py:418-433 | a row says whether its question was left unanswered, and is right exactly when its stored answer is played and grades right |
| `ExamBlocks.BlocksAreTheManifests` | backend/src/tradeschool/exams/service.py:448-470 | each block of the stored result counts exactly the sitting's questions that stand in that block of the manifest, and those of them marked right |
| `ExamBlocks.EveryBlockIsListed` | backend/src/tradeschool/exams/service.py:448-470 | every question is credited to some block listed |
| `ExamBlocks.RowsFollowModules` | backend/src/tradeschool/exams/service.py:415-417 | the result has one row per question of the sitting, those of earlier modules first |
| `ExamBlocks.DroppedGoLast` | backend/src/tradeschool/exams/service.py:415-417 | questions the course no longer has come after those of every module, in a course of at most ten thousand modules |
| `Lanes.Database.AbandonExam` | backend/src/tradeschool/exams/service.py:480-484 | closes an exam in progress and abandons all its rows; a no-op on a closed one |
| `LaneAnswers.GivingUpCloses` | backend/src/tradeschool/exams/service.py:480-485 | giving up closes the caller's exam in progress and abandons every row of it, and changes nothing else; a closed exam is left alone |
| `Lanes.Database.CloseSittings` | backend/src/tradeschool/exams/service.py:292-295 | sittings closed one by one in any order leave the same tables as closing them at once |
| `Lanes.Database.GradeAll` | backend/src/tradeschool/exams/service.py:415-474 | the grading loop marks every row and its totals are those counted afresh over the rows |
| `ExamResults.ResultBalances` | backend/src/tradeschool/exams/service.py:436-474 | total and correct are the sums of the block totals and block corrections, each block listed once |
| `ExamResults.CountRow` | backend/src/tradeschool/exams/service.py:447-454 | one row listed and counted keeps the running totals right |
| `LaneRuns.RunKeepsInv` | backend/src/tradeschool/exams/service.py:266-484 | over every run of the six requests, under any redeployments: one open exam per learner, course, scope and block; one open practice attempt per learner, course and exercise; open exactly while unfinished; rows share their exam's fate; orders and results stay true |
| `LaneRuns.StepKeepsInv` | backend/src/tradeschool/attempts/service.py:65-133 | each of the six requests keeps that invariant, submit_answer on exam rows included |
| `LaneRuns.ClosedForGood` | backend/src/tradeschool/exams/service.py:140-145 | once submitted or abandoned, an exam keeps its result and all its rows through every later run |
| `LaneRuns.QuestionKeysDistinct` | backend/src/tradeschool/exams/service.py:300-329 | the keys drawn at a start are pairwise different |
| `LaneRuns.QuestionsFollowModules` | backend/src/tradeschool/exams/service.py:96-104 | the i-th question is a playable exercise of the i-th module in scope |
| `LaneRuns.QuestionsForGood` | backend/src/tradeschool/exams/service.py:300-329 | no run changes an exam's frozen order, or adds, drops or renames a question |
| `LaneRuns.ExamStepsLeavePractice` | backend/src/tradeschool/exams/service.py:300-331 | starting, answering, submitting and abandoning exams leave every practice row as it was |
| `LaneRuns.PractiseLeavesExams` | backend/src/tradeschool/attempts/service.py:65-80 | opening a practice attempt leaves every exam and its rows as they were |
| `LaneMarks.AnsweredEarly` | backend/src/tradeschool/attempts/service.py:109-133 | over every run, a row of an exam in progress is answered exactly when some step since resolved it through the practice lane, or it was to begin with |
| `LaneMarks.QuestionsStartOpen` | backend/src/tradeschool/exams/service.py:300-331 | and the rows of a new exam are open |
| `LaneMarks.AnsweredBeforeSubmission` | backend/src/tradeschool/attempts/service.py:109-133 | it does happen: from the empty tables, an exam is started and its question answered through the practice lane; the exam is in progress and the row answered |
| `LaneRuns.SubmissionRegrades` | backend/src/tradeschool/exams/service.py:415-432 | submission depends on nothing an earlier step marked on the exam's rows |
| `LaneRuns.SubmissionMarks` | backend/src/tradeschool/exams/service.py:418-432 | each row is marked correct exactly when its stored answer grades correct under the course submitted to |
| `ExamView.BuildView` | backend/src/tradeschool/exams/service.py:180-263 | the render loop computes the specified list of questions |
| `ExamView.IndexIsFrozen` | backend/src/tradeschool/exams/service.py:192-219 | every question shown has the index of its key in the frozen order, under any deployed course, any row order and any withdrawn exercises |
| `ExamView.IndexNeverMoves` | backend/src/tradeschool/exams/service.py:189-219 | between any two renders, whatever happened in between, a question keeps its index |
| `ExamView.UnfrozenFollowsModules` | backend/src/tradeschool/exams/service.py:200-208 | an exam without a frozen order is shown in today's module order |
| `ExamView.OpenShowsNoMarks` | backend/src/tradeschool/exams/service.py:215-237 | while an exam is open a question shows its stored answer, and nothing of what it would be marked |
| `ExamView.PlayableIsShown` | backend/src/tradeschool/exams/service.py:215-219 | no question whose exercise is still playable is missing |
| `ExamView.ReviewRepeatsMarks` | backend/src/tradeschool/exams/service.py:238-247 | a review repeats the stored marks, and never reports an unanswered question correct |
| `Placeholders.UnansweredIsNeverRight` | backend/src/tradeschool/exams/service.py:238-247 | with the grading quizzes and calculations really do: the placeholder of an unanswered question grades right exactly where saying nothing solves it, and the review calls the question wrong either way |
| `Placeholders.PlaceholderMayGradeRight` | backend/src/tradeschool/exams/service.py:35-51 | it does happen: a submitted exam whose unanswered question is a false statement, reviewed with the result correct and the question wrong |
| `ExamView.ReviewGradesAsMarked` | backend/src/tradeschool/exams/service.py:238-247 | reviewed under the course submitted to, an answered gradeable question shows the grade it was marked with |
| `Stats.ExerciseRoll.Add` | backend/src/tradeschool/stats/service.py:49-63 | the four counters stay those of the history of marks |
| `Stats.FirstWinIsEarliest` | backend/src/tradeschool/stats/service.py:49-63 | attempts_to_success points at the earliest right mark, and is unset exactly when there is none |
| `Stats.RollByExercise` | backend/src/tradeschool/stats/service.py:81-86 | one roll per attempted key, each that of the key's own marks |
| `Stats.StatsOf` | backend/src/tradeschool/stats/service.py:102-195 | an exercise has a roll exactly when it has an answered practice attempt, each roll is the one its marks determine in order, and the document is the one those rolls determine |
| `Firsts.RollsAreTries` | backend/src/tradeschool/stats/service.py:66-95 | said of the attempts table: an exercise has a roll exactly if the learner answered it in practice; its first mark is that of the earliest by time and id, and it counts the answered and the right ones |
| `Firsts.EarliestExists` | backend/src/tradeschool/stats/service.py:66-78 | there is an earliest wherever there is one at all |
| `Firsts.TriesToSuccess` | backend/src/tradeschool/stats/service.py:56-63 | how many tries it took is one more than the answered attempts before the earliest right one, and untold while there is none |
| `CohortSums.LearnersDocument` | backend/src/tradeschool/stats/service.py:102-195 | a learner's document, from the rolls StatsOf computes: in every module row the incorrect counts to review are positive and add up to answered minus correct, and the overall counts are the rows added up |
| `Learner.DocumentRows` | backend/src/tradeschool/stats/service.py:115-128 | the document has one row per module with lessons, in manifest order, and counts every module |
| `Learner.RowIsOfModule` | backend/src/tradeschool/stats/service.py:129-183 | a row names its module and block; its lessons completed are those whose permanent key the learner completed, its exercises passed those with a right answered attempt in the table |
| `Learner.CountsAdd` | backend/src/tradeschool/stats/service.py:136-146 | its other counts are the sums over its exercises of what the learner's rolls say |
| `Learner.ReviewsAreWrongOnes` | backend/src/tradeschool/stats/service.py:147-158 | listed to review are exactly its exercises with a wrong answer, in order, each with how many were wrong and whether one was right |
| `Learner.ReviewNamesLesson` | backend/src/tradeschool/stats/service.py:147-158 | each under the lesson the manifest has it in |
| `CohortSums.AnsweredAreRows` | backend/src/tradeschool/stats/service.py:127-139 | a module's answered is the number of answered practice attempts at its exercises |
| `Cohort.CohortOf` | backend/src/tradeschool/stats/service.py:234-294 | the cohort document's loops compute the specified counts and publish exactly the rows with at least three learners |
| `Firsts.SightingsAreTries` | backend/src/tradeschool/stats/service.py:234-262 | the cohort's mark for a learner and an exercise is that of the same earliest attempt |
| `Learner.CountedAtItsPlace` | backend/src/tradeschool/stats/service.py:251-260 | an answer counts under the exercise and the module at which its key stands in the manifest deployed |
| `Learner.DroppedIsNotCounted` | backend/src/tradeschool/stats/service.py:251-257 | and under none where the manifest no longer has the key |
| `Cohort.FirstMarks` | backend/src/tradeschool/stats/service.py:237-242 | the first mark of each learner at each exercise |
| `CohortSums.CohortIsSumOfLearners` | backend/src/tradeschool/stats/service.py:244-262 | per module, the learners' firstSeen and firstCorrect add up to the cohort's, plus the sightings of exercises with a blank display id, which the cohort skips |
| `CohortSums.CohortExactly` | backend/src/tradeschool/stats/service.py:244-262 | the learners' firstSeen add up to exactly the cohort's if and only if nobody answered an exercise with a blank display id, and the firstCorrect if and only if nobody's first answer at one was right |
| `CohortSums.BlankIsSkipped` | backend/src/tradeschool/stats/service.py:251-256 | a valid course and one answer for which they differ: seen once by the learner, never by the cohort |
| `CohortSums.ExerciseLearnersAreSightings` | backend/src/tradeschool/stats/service.py:257-262 | an exercise row has as many learners as first sightings |
| `CohortSums.PublishedRows` | backend/src/tradeschool/stats/service.py:264-279 | every published exercise row has learners equal to firstSeen and at least three of them |
| `Cohort.ExamsDoNotCount` | backend/src/tradeschool/stats/service.py:66-78 | the rows behind both documents depend on the practice rows alone |
| `Cohort.ErasingExams` | backend/src/tradeschool/stats/service.py:66-78 | erasing every exam row leaves them unchanged |
| `Cohort.ExamStepsDoNotCount` | backend/src/tradeschool/stats/service.py:66-78 | no exam request changes them |
| `Reports.DeliveredAtMostOnce` | backend/src/tradeschool/reports/service.py:118-150 | any interleaving of any number of workers, no acceptance lost to a crash: accepted at most once; an unlocked row is stamped exactly when accepted; email_attempts equals the deliveries tried |
| `Reports.AcceptancesCounted` | backend/src/tradeschool/reports/service.py:118-150 | with crashes: one acceptance for the stamp or the answer in flight, and one more per acceptance lost |
| `Reports.CrashMailsTwice` | backend/src/tradeschool/reports/service.py:138-148 | a run from the empty table in which a crash between acceptance and commit mails one report twice |
| `Reports.ReturnsAddUp` | backend/src/tradeschool/reports/service.py:122-150 | what all workers delivered adds up to the number of mailed reports |
| `Reports.StepKeepsInv` | backend/src/tradeschool/reports/service.py:131-149 | every event of the protocol keeps the accounts |
| `Reports.Outbox.DeliverPending` | backend/src/tradeschool/reports/service.py:118-150 | one run on its own tries each pending report once, stamps those accepted, and is a run of the protocol |
| `ReportSteps.WorkerStarts` | backend/src/tradeschool/reports/service.py:123-130 | a run starts with every pending report once, oldest first |
| `ReportSteps.NeverStuck` | backend/src/tradeschool/reports/service.py:131-150 | in every reachable state a running worker has its next step: it takes its row exactly if that is there, not mailed and in nobody's hands, and otherwise passes on |
| `ReportSteps.CommitStamps` | backend/src/tradeschool/reports/service.py:143-149 | a commit counts the try and stamps the row exactly if the server took it |
| `Reports.RunAloneDelivers` | backend/src/tradeschool/reports/service.py:118-150 | such a run mails exactly the pending reports the server takes and touches no other |
| `Reports.Outbox.FileReport` | backend/src/tradeschool/reports/service.py:52-67 | a report is refused when its attempt has one or the day is full, else added |
| `ReportSteps.FilingAccepts` | backend/src/tradeschool/reports/service.py:52-67 | refused exactly for an attempt already reported, or the eleventh of the user's day; each by its own error |
| `Reports.LimitsHold` | backend/src/tradeschool/reports/service.py:52-67 | over every run no attempt is reported twice and nobody files more than ten reports on one day |
| `Sync.Upsert` | backend/src/tradeschool/content/sync.py:52-75 | the upsert leaves the manifest's rows active as given, the course's others inactive, the rest alone, and counts each change |
| `Sync.CountedIsDifference` | backend/src/tradeschool/content/sync.py:47-75 | the three counters are how the table differs afterwards: rows added, rows changed, rows gone inactive |
| `Sync.UpsertOfMirror` | backend/src/tradeschool/content/sync.py:52-75 | a table that mirrors the rows is left unchanged with all counters zero |
| `Sync.ReconcileMirrors` | backend/src/tradeschool/content/sync.py:47-123 | after a reconciliation the active rows of the course are exactly the manifest's; no row is deleted and no other course differs |
| `Sync.SecondRunIsQuiet` | backend/src/tradeschool/content/sync.py:47-123 | a second run reports 0 inserted, 0 updated, 0 deactivated |
| `Sync.FlushesRooted` | backend/src/tradeschool/content/sync.py:112-120 | at every flush each row's parents are there |
| `Sync.ManifestIsClosed` | backend/src/tradeschool/content/sync.py:83-110 | the rows of a manifest name only parents the manifest has |
| `ManifestRows.CourseAndBlockRows` | backend/src/tradeschool/content/sync.py:86-88 | the course has its row, and every block one, with its place, and no other block has |
| `ManifestRows.ModuleRow` | backend/src/tradeschool/content/sync.py:89-95 | every module has a row under its permanent key, with its block, its place and the permanent keys of the modules it assumes |
| `ManifestRows.LessonRow` | backend/src/tradeschool/content/sync.py:96-101 | every lesson has a row under its permanent key, with its module and place |
| `ManifestRows.ExerciseRow` | backend/src/tradeschool/content/sync.py:102-109 | every exercise has a row under its permanent key, with its module, lesson, kind and place |
| `ManifestRows.NoOtherRows` | backend/src/tradeschool/content/sync.py:79-109 | and there are no other rows of modules, lessons and exercises |
| `Catalog.Skeleton.Reconcile` | backend/src/tradeschool/content/sync.py:47-123 | the five upserts in flush order compute the reconciliation and its summary |
| `Sync.TallyIsDifference` | backend/src/tradeschool/content/sync.py:111-123 | its summary is how all five tables differ afterwards |
| `Catalog.Skeleton.ReconcileCatalog` | backend/src/tradeschool/content/sync.py:126-139 | the loop over sorted slugs, then the withdrawn courses; the summary is every course's added up, plus the courses that went inactive |
| `Catalog.LastManifestWins` | backend/src/tradeschool/content/sync.py:47-123 | after any history from any tables, a course's active rows are those of the last manifest seen for it |
| `Catalog.NeverDeletes` | backend/src/tradeschool/content/sync.py:47-75 | no history deletes a row |
| `Catalog.OthersUntouched` | backend/src/tradeschool/content/sync.py:47-75 | a history that never names a course leaves its rows as they were |
| `Catalog.RenumberingIsQuiet` | backend/src/tradeschool/content/sync.py:77-110 | a valid manifest that is another one with display ids renamed (modules where they stand and where they are assumed, lessons and exercises anyhow) changes nothing and counts nothing |
| `Catalog.CatalogueIsMirrored` | backend/src/tradeschool/content/sync.py:126-139 | from any tables, every course of the catalogue mirrors its manifest at its place in order of slug, and every other course is inactive |
| `Catalog.CatalogSettles` | backend/src/tradeschool/content/sync.py:126-139 | reconciling the same catalogue again changes nothing and reports 0/0/0 |
| `Enrollment.UserCourses.SaveState` | backend/src/tradeschool/enrollment/service.py:97-130 | validates, settles the selection and rewrites the rows in two flushes, each with at most one selected row; on an error nothing changes |
| `Enrollment.SaveAccepts` | backend/src/tradeschool/enrollment/service.py:81-94 | a save is accepted exactly when every course named is published and every language chosen is one its course offers; an unpublished course is reported first |
| `Enrollment.FallbackSelection` | backend/src/tradeschool/enrollment/service.py:47-58 | the loop over the courses after the previous one |
| `Enrollment.LoadAfterSave` | backend/src/tradeschool/enrollment/service.py:61-78 | loading after saving gives exactly the requested courses in order and the selection the save chose |
| `Enrollment.ResaveChangesNothing` | backend/src/tradeschool/enrollment/service.py:97-130 | saving the loaded state back changes no row |
| `Enrollment.MovesToNextActive` | backend/src/tradeschool/enrollment/service.py:47-58 | a selection no longer active moves to its cyclic successor, with no active course in between |
| `Enrollment.EffectiveIsActive` | backend/src/tradeschool/enrollment/service.py:108-112 | there is a selection exactly when a course is active, and it is one of them |
| `Enrollment.WithdrawnKeepActive` | backend/src/tradeschool/enrollment/service.py:119-126 | over any saves made while a course is withdrawn, its row and its active flag stay |
| `Enrollment.RepublishedIsAsItWas` | backend/src/tradeschool/enrollment/service.py:61-78 | published again, the course is back on the learner's list exactly if it was active when it went |
| `Enrollment.LastChoiceIsRead` | backend/src/tradeschool/enrollment/reading.py:7-12 | after any later saves, a course is read in the language last chosen for it, for as long as it offers that language |
| `Enrollment.UnchosenReadsAccount` | backend/src/tradeschool/enrollment/reading.py:7-12 | over any saves that choose none for it, a course is read in the language of the account, or else in its own preferred one |
| `MailLinks.RunKeepsInv` | backend/src/tradeschool/auth/email_verification.py:30-78 | over every run of all eight steps the accounts, the tokens and the log stay consistent |
| `MailLinks.NoSharedAddress` | backend/src/tradeschool/auth/email_verification.py:30-50 | no two verified users share an address |
| `MailLinks.VerifiedWasConfirmed` | backend/src/tradeschool/auth/email_verification.py:67-78 | a verified address was confirmed, after its last change, with an unused unexpired link mailed to exactly that address |
| `MailLinks.TokenUsedOnce` | backend/src/tradeschool/auth/email_tokens.py:66-76 | each token is used at most once, for either purpose |
| `MailLinks.MailsAreSpaced` | backend/src/tradeschool/auth/email_tokens.py:36-43 | two mails to one account for one purpose are at least 60 seconds apart |
| `MailLinks.OneRowPerPurpose` | backend/src/tradeschool/auth/email_tokens.py:46-63 | there is at most one token row per user and purpose |
| `MailLinks.NoSessionSurvivesReset` | backend/src/tradeschool/auth/password_reset.py:60-65 | over every run after a successful reset, each session of its user was opened by a login since |
| `MailLinks.ResetFindsOne` | backend/src/tradeschool/auth/password_reset.py:31-37 | the reset query finds at most one user |
| `MailLinks.Accounts.ChangeEmail` | backend/src/tradeschool/auth/email_verification.py:39-50 | a changed address is unverified and a link goes out; a taken one is refused |
| `MailWorks.AddressChanges` | backend/src/tradeschool/auth/email_verification.py:39-50 | refused exactly while another verified user holds the address; else stored unverified, with a live link to it when one may be sent |
| `MailLinks.Accounts.SendLink` | backend/src/tradeschool/auth/email_verification.py:53-64 | silent when mail is off, there is nothing to verify, or a link just went out |
| `MailWorks.LinkGoesOut` | backend/src/tradeschool/auth/email_verification.py:53-64 | a link goes out exactly when mail is on, there is an unverified address and none went out in the last minute; it is then the only one, for 48 hours, to that address |
| `MailWorks.ResetLinkGoesOut` | backend/src/tradeschool/auth/password_reset.py:31-43 | so does a reset link, for an hour |
| `MailWorks.RegisterCreates` | backend/src/tradeschool/auth/router.py:88-101 | a registration is refused exactly for an address another verified user holds, then for a short password; else there is a new active account, unverified, and a live link to its address when one may be sent |
| `MailLinks.Accounts.ConfirmEmail` | backend/src/tradeschool/auth/email_verification.py:67-78 | confirms the current address of an active user by a live token, else refuses |
| `MailWorks.ConfirmAccepts` | backend/src/tradeschool/auth/email_verification.py:67-78 | accepted exactly for a live link of an active user still at its address, which no other verified user holds; each refusal by its own error |
| `MailWorks.ConfirmVerifies` | backend/src/tradeschool/auth/email_verification.py:67-78 | then that user is verified at that address, the link is used up, and nothing else changes |
| `MailLinks.Accounts.Issue` | backend/src/tradeschool/auth/email_tokens.py:46-63 | a new token replaces the older ones of its user and purpose |
| `MailLinks.Accounts.ConfirmReset` | backend/src/tradeschool/auth/password_reset.py:46-65 | changes the password, spends the token and ends the sessions, or refuses without a change |
| `MailWorks.ResetAccepts` | backend/src/tradeschool/auth/password_reset.py:46-65 | accepted exactly for a live link of an active user still at its address and a password of at least eight characters |
| `MailWorks.ResetChangesPassword` | backend/src/tradeschool/auth/password_reset.py:60-65 | then the user has the new password and no session, the link is used up, and nothing else changes |
| `MailWorks.AccountsWork` | backend/src/tradeschool/auth/password_reset.py:31-65 | a run from nothing: an account is registered, confirmed and given a new password by mail |
| `Usernames.Upgrade` | backend/alembic/versions/d4e5f6a7b8c9_username_instead_of_email.py:34-47 | every name is new, is the first free candidate of its account, and has 3 to 32 allowed characters for fewer than 10^29 accounts |
| `Usernames.FreeName` | backend/alembic/versions/d4e5f6a7b8c9_username_instead_of_email.py:40-47 | the suffix loop terminates for any set of taken names, with the first free candidate |
| `Usernames.SuffixedDiffer` | backend/alembic/versions/d4e5f6a7b8c9_username_instead_of_email.py:44-45 | different suffixes make different names, whatever is left of the base |
| `Usernames.Derive` | backend/alembic/versions/d4e5f6a7b8c9_username_instead_of_email.py:25-31 | a derived base has 3 to 32 characters, all of them allowed |
| `Usernames.DeriveIsLocalPart` | backend/alembic/versions/d4e5f6a7b8c9_username_instead_of_email.py:25-31 | the base is the lowered local part without forbidden characters, cut to 32, filled up from user when shorter than 3 |
| `Usernames.TriedIs` | backend/alembic/versions/d4e5f6a7b8c9_username_instead_of_email.py:40-44 | the base is tried first, then from 2 on the number behind a hyphen, after as much of the base as fits |
| `Usernames.TriedFits` | backend/alembic/versions/d4e5f6a7b8c9_username_instead_of_email.py:41-46 | every candidate is a proper username while its number has at most thirty digits |
| `GitStatus.WorkingTreeChanges` | backend/scripts/export_contracts_to_android.py:96-115 | the loop over the fields returns their paths sorted |
| `GitStatus.ReaderInvertsPrinter` | backend/scripts/export_contracts_to_android.py:96-115 | for every list of entries git can print, the result is the sorted multiset of all their paths, rename sources included |

## Left out

- Charts of every family (series, indicators, pattern and divergence exercises, figures): floating-point code; where an exercise's kind does not matter, grading is an arbitrary partial function instead.
- Random number generators, seeds and hashing: arbitrary draw streams, arbitrary seeds, tokens that stand for their hashes.
- Decimal's 28-digit context and the sign of zero: values are exact; binary floating point in the client is idealised as reals.
- The six formulas other than liquidation, funding, initial margin and position size, parameter sampling, worked-solution prose and translations: no property beyond what the option builder guarantees for every formula.
- Formulas.LiquidationMagnitude: compares values before rounding, where the filter compares rounded ones; what rounding can change is Formulas.LiquidationFilter.
- Formulas.InitialMarginMagnitude: compares values before rounding, where the filter compares rounded ones; what rounding can change is Formulas.InitialMarginFilter.
- Reveal.RevealNeverFails: a calculation whose formula raises for a draw, as leverage 0 would by dividing, is not modelled; a problem is a result and its distractors for every seed.
- Localized texts in quiz payloads and answers beyond what grading reads.
- Ratios, averages, titles, the ranking of costliest sections and the sort order of published rows: derived from the modelled counts by rounded floating-point division.
- SQL, transactions and constraints beyond what is stated: each service call is one atomic step, except report delivery, which is interleaved event by event, and the two flushes of a save; a race between two registrations is left to the database's unique indexes.
- The password column is written in the same step as the token and the sessions, although the framework's user adapter commits it first: a crash between the two is not part of this model.
- Deletion of users, and with them of reports, attempts and tokens by cascade.
- The wording of mails and reports, SMTP, rate limits, cookies, usernames at registration, locale settings and password hashing (a password is a number and its length).
- The row dictionaries of a reconciliation and the derived views of a manifest are given as functions rather than as the loops that fill them; what is proved about them does not depend on that.
- ExamView.IndexIsFrozen: claims nothing for exams assembled before question orders were frozen; their order is modelled, but it follows today's manifest and does move.
- Alphabetical collation of course titles: the listing order is an arbitrary duplicate-free order.
- Unicode digits and case mapping beyond an arbitrary lowering function; a trailing newline in an exercise id.
- Routers, schemas' field validation, the React components, PDF and Markdown code, reading times, glossary checks, other migrations and export scripts.
