/** Reconciliations in sequence: any history of manifests, renumberings, and the whole catalogue. */
module Catalog {
  import opened Text
  import opened Sequences
  import opened Manifest
  import opened Sync

  // ---- what a manifest lists ----

  lemma BlockIdsUnique(c: Course)
    requires Valid(c)
    ensures NoDup(BlockIds(c))
  {
    IdsSplit(c);
    SliceNoDup(AllIds(c), [c.id], BlockIds(c), IdsBelowBlocks(c));
  }

  function IdsBelowBlocks(c: Course): (r: seq<string>) {
    ModuleIds(Modules(c)) + LessonIds(Lessons(c)) + ExerciseIds(Exercises(c))
  }

  lemma IdsSplit(c: Course)
    ensures AllIds(c) == [c.id] + BlockIds(c) + IdsBelowBlocks(c)
  {
  }

  /** The keys of each dictionary, in the order the manifest was walked. */
  datatype Listing = Listing(courses: seq<string>, blocks: seq<string>, modules: seq<string>, lessons: seq<string>,
                             exercises: seq<string>)

  ghost predicate Lists(l: Listing, r: Rows) {
    && NoDup(l.courses) && Elements(l.courses) == r.courses.Keys
    && NoDup(l.blocks) && Elements(l.blocks) == r.blocks.Keys
    && NoDup(l.modules) && Elements(l.modules) == r.modules.Keys
    && NoDup(l.lessons) && Elements(l.lessons) == r.lessons.Keys
    && NoDup(l.exercises) && Elements(l.exercises) == r.exercises.Keys
  }

  function ListingOf(c: Course): (l: Listing) {
    Listing([c.id], BlockIds(c), ModuleKeys(Modules(c)), LessonKeys(Lessons(c)), ExerciseKeys(Exercises(c)))
  }

  lemma ListingOfManifest(c: Course, order: nat)
    requires Valid(c)
    ensures Lists(ListingOf(c), RowsFor(c, order))
  {
    BlockIdsUnique(c);
    NamesUnique(c);
  }

  // ---- any history ----

  /** One reconciliation: a course and the rows its manifest asked for. */
  datatype Asked = Asked(course: string, rows: Rows)

  function Ask(c: Course, order: nat): (a: Asked) { Asked(c.id, RowsFor(c, order)) }

  function Reconciling(): (step: (Db, Asked) -> Db) {
    (d: Db, a: Asked) => Reconciled(d, a.course, a.rows)
  }

  /** The tables after a history of reconciliations, of any courses. */
  function After(d: Db, history: seq<Asked>): (e: Db) {
    Fold(d, history, Reconciling())
  }

  lemma OneMoreAsked(d: Db, history: seq<Asked>, last: Asked)
    ensures After(d, history + [last]) == Reconciled(After(d, history), last.course, last.rows)
  {
    assert (history + [last])[..|history|] == history;
  }

  ghost predicate SameCourse(d: Db, e: Db, course: string) {
    && Within(d.courses, e.courses, course) && Within(d.blocks, e.blocks, course)
    && Within(d.modules, e.modules, course)
    && Within(d.lessons, e.lessons, course) && Within(d.exercises, e.exercises, course)
  }

  /** A course's rows are the same in both tables. */
  ghost predicate Within<A>(t: Table<A>, u: Table<A>, course: string) {
    forall k: (string, string) :: k.0 == course ==> (k in t <==> k in u) && (k in t ==> t[k] == u[k])
  }

  lemma CourseAmongOthers(d: Db, e: Db, f: Db, other: string, course: string)
    requires SameCourse(d, e, course) && SameElsewhere(e, f, other) && other != course
    ensures SameCourse(d, f, course)
  {
  }

  lemma {:induction false} OthersUntouched(d: Db, history: seq<Asked>, course: string)
    requires forall i :: 0 <= i < |history| ==> history[i].course != course
    ensures SameCourse(d, After(d, history), course)
  {
    if history != [] {
      var (before, last) := (history[..|history| - 1], history[|history| - 1]);
      OthersUntouched(d, before, course);
      ReconcileMirrors(After(d, before), last.course, last.rows);
      OneMoreAsked(d, before, last);
      assert history == before + [last];
      CourseAmongOthers(d, After(d, before), After(d, history), last.course, course);
    }
  }

  lemma {:induction false} NeverDeletes(d: Db, history: seq<Asked>)
    ensures NothingDeleted(d, After(d, history))
  {
    if history != [] {
      var (n, last) := (|history| - 1, history[|history| - 1]);
      NeverDeletes(d, history[..n]);
      ReconcileMirrors(After(d, history[..n]), last.course, last.rows);
    }
  }

  lemma MirrorsTravels<A>(t: Table<A>, u: Table<A>, course: string, rows: map<string, A>)
    requires Mirrors(t, course, rows) && Within(t, u, course)
    ensures Mirrors(u, course, rows)
  {
    forall id ensures ((course, id) in u && u[(course, id)].active <==> id in rows)
                   && (id in rows ==> (course, id) in u && u[(course, id)].attrs == rows[id])
    {
      assert (course, id).0 == course;
      assert (course, id) in t && t[(course, id)].active <==> id in rows;
    }
  }

  lemma MirrorsAllTravels(d: Db, e: Db, course: string, r: Rows)
    requires MirrorsAll(d, course, r) && SameCourse(d, e, course)
    ensures MirrorsAll(e, course, r)
  {
    MirrorsTravels(d.courses, e.courses, course, r.courses);
    MirrorsTravels(d.blocks, e.blocks, course, r.blocks);
    MirrorsTravels(d.modules, e.modules, course, r.modules);
    MirrorsTravels(d.lessons, e.lessons, course, r.lessons);
    MirrorsTravels(d.exercises, e.exercises, course, r.exercises);
  }

  /**
   * Whatever the tables held and whatever was reconciled before, the active rows of a course are exactly
   * those of the last manifest seen for it.
   */
  lemma LastManifestWins(d: Db, history: seq<Asked>, i: nat)
    requires i < |history| && forall j :: i < j < |history| ==> history[j].course != history[i].course
    ensures MirrorsAll(After(d, history), history[i].course, history[i].rows)
  {
    var (upTo, later, last) := (history[..i + 1], history[i + 1..], history[i]);
    assert history == upTo + later && upTo == history[..i] + [last];
    FoldJoin(d, upTo, later, Reconciling());
    OneMoreAsked(d, history[..i], last);
    assert forall j :: 0 <= j < |later| ==> later[j] == history[i + 1 + j];
    ReconcileMirrors(After(d, history[..i]), last.course, last.rows);
    OthersUntouched(After(d, upTo), later, last.course);
    MirrorsAllTravels(After(d, upTo), After(d, history), last.course, last.rows);
  }

  // ---- renumbering ----

  predicate SameExercises(a: seq<Exercise>, b: seq<Exercise>) {
    |a| == |b| && forall i :: 0 <= i < |a| ==> a[i].key == b[i].key && a[i].kind == b[i].kind
  }

  predicate SameLessons(a: seq<Lesson>, b: seq<Lesson>) {
    |a| == |b| && forall i :: 0 <= i < |a| ==> a[i].key == b[i].key && SameExercises(a[i].exercises, b[i].exercises)
  }

  predicate SameModules(a: seq<Module>, b: seq<Module>, ka: map<string, string>, kb: map<string, string>) {
    |a| == |b| && forall i :: 0 <= i < |a| ==>
      a[i].key == b[i].key && SameLessons(a[i].lessons, b[i].lessons)
        && Translated(ka, a[i].assumes) == Translated(kb, b[i].assumes)
  }

  predicate SameBlocks(a: seq<Block>, b: seq<Block>, ka: map<string, string>, kb: map<string, string>) {
    |a| == |b| && forall i :: 0 <= i < |a| ==> a[i].id == b[i].id && SameModules(a[i].modules, b[i].modules, ka, kb)
  }

  /** Manifests with the same blocks, keys and kinds, and with prerequisites that stand for the same keys. */
  predicate Corresponds(c: Course, d: Course) {
    c.id == d.id && SameBlocks(c.blocks, d.blocks, KeyOfModules(c), KeyOfModules(d))
  }

  function Renamed(f: string -> string, ids: seq<string>): (r: seq<string>)
    ensures |r| == |ids|
  {
    seq(|ids|, i requires 0 <= i < |ids| => f(ids[i]))
  }

  predicate RenamedModule(a: Module, b: Module, f: string -> string) {
    b.id == f(a.id) && b.assumes == Renamed(f, a.assumes) && b.key == a.key && SameLessons(a.lessons, b.lessons)
  }

  predicate RenamedModules(a: seq<Module>, b: seq<Module>, f: string -> string) {
    |a| == |b| && forall i :: 0 <= i < |a| ==> RenamedModule(a[i], b[i], f)
  }

  predicate RenamedBlocks(a: seq<Block>, b: seq<Block>, f: string -> string) {
    |a| == |b| && forall i :: 0 <= i < |a| ==> a[i].id == b[i].id && RenamedModules(a[i].modules, b[i].modules, f)
  }

  /**
   * The second manifest is the first with other display ids: modules renamed by `f`, where they stand and
   * where they are assumed; lessons and exercises anyhow.
   */
  predicate Renumbers(c: Course, d: Course, f: string -> string) {
    c.id == d.id && RenamedBlocks(c.blocks, d.blocks, f)
  }

  predicate RenamedPlaces(a: seq<ModuleAt>, b: seq<ModuleAt>, f: string -> string) {
    |a| == |b| && forall i :: 0 <= i < |a| ==> RenamedModule(a[i].mod, b[i].mod, f)
  }

  lemma BlockRenamed(a: Block, b: Block, f: string -> string)
    requires RenamedModules(a.modules, b.modules, f)
    ensures RenamedPlaces(InBlock(a), InBlock(b), f)
  {
  }

  lemma RenamedJoin(a: seq<ModuleAt>, b: seq<ModuleAt>, c: seq<ModuleAt>, d: seq<ModuleAt>, f: string -> string)
    requires RenamedPlaces(a, b, f) && RenamedPlaces(c, d, f)
    ensures RenamedPlaces(a + c, b + d, f)
  {
  }

  lemma {:induction false} BlocksRenamed(a: seq<Block>, b: seq<Block>, f: string -> string)
    requires RenamedBlocks(a, b, f)
    ensures RenamedPlaces(ModulesOf(a), ModulesOf(b), f)
  {
    if a != [] {
      BlockRenamed(a[0], b[0], f);
      BlocksRenamed(a[1..], b[1..], f);
      RenamedJoin(InBlock(a[0]), InBlock(b[0]), ModulesOf(a[1..]), ModulesOf(b[1..]), f);
    }
  }

  /** An id and its new form stand for one key. */
  predicate OneKey(ka: map<string, string>, kb: map<string, string>, f: string -> string, id: string) {
    id in ka && f(id) in kb && ka[id] == kb[f(id)]
  }

  lemma {:induction false} TranslatedAlike(
      ka: map<string, string>, kb: map<string, string>, f: string -> string, ids: seq<string>)
    requires forall i :: 0 <= i < |ids| ==> OneKey(ka, kb, f, ids[i])
    ensures Translated(ka, ids) == Translated(kb, Renamed(f, ids))
  {
    if ids != [] {
      assert OneKey(ka, kb, f, ids[0]);
      assert Renamed(f, ids)[1..] == Renamed(f, ids[1..]);
      TranslatedAlike(ka, kb, f, ids[1..]);
    }
  }

  lemma ModuleKeysAgree(c: Course, d: Course, f: string -> string, id: string)
    requires Valid(c) && Valid(d) && Renumbers(c, d, f) && id in ModuleIds(Modules(c))
    ensures OneKey(KeyOfModules(c), KeyOfModules(d), f, id)
  {
    var (a, b) := (Modules(c), Modules(d));
    BlocksRenamed(c.blocks, d.blocks, f);
    NamesUnique(c);
    NamesUnique(d);
    var i :| 0 <= i < |a| && ModuleIds(a)[i] == id;
    assert RenamedModule(a[i].mod, b[i].mod, f);
    DictAt(ModuleIds(a), ModuleKeys(a), i);
    DictAt(ModuleIds(b), ModuleKeys(b), i);
  }

  /** Every module's prerequisites have one key before and after. */
  ghost predicate AssumesAgree(mods: seq<ModuleAt>, ka: map<string, string>, kb: map<string, string>,
                               f: string -> string) {
    forall i, j :: 0 <= i < |mods| && 0 <= j < |mods[i].mod.assumes| ==> OneKey(ka, kb, f, mods[i].mod.assumes[j])
  }

  lemma BlockCorresponds(a: Block, b: Block, ka: map<string, string>, kb: map<string, string>, f: string -> string)
    requires RenamedModules(a.modules, b.modules, f) && AssumesAgree(InBlock(a), ka, kb, f)
    ensures SameModules(a.modules, b.modules, ka, kb)
  {
    forall i | 0 <= i < |a.modules|
      ensures Translated(ka, a.modules[i].assumes) == Translated(kb, b.modules[i].assumes)
    {
      assert RenamedModule(a.modules[i], b.modules[i], f);
      assert InBlock(a)[i].mod == a.modules[i];
      TranslatedAlike(ka, kb, f, a.modules[i].assumes);
    }
  }

  lemma {:induction false} BlocksCorrespond(
      a: seq<Block>, b: seq<Block>, ka: map<string, string>, kb: map<string, string>, f: string -> string)
    requires RenamedBlocks(a, b, f) && AssumesAgree(ModulesOf(a), ka, kb, f)
    ensures SameBlocks(a, b, ka, kb)
  {
    if a != [] {
      var (first, rest) := (InBlock(a[0]), ModulesOf(a[1..]));
      assert ModulesOf(a) == first + rest;
      AgreeApart(first, rest, ka, kb, f);
      BlockCorresponds(a[0], b[0], ka, kb, f);
      BlocksCorrespond(a[1..], b[1..], ka, kb, f);
      assert a == [a[0]] + a[1..] && b == [b[0]] + b[1..];
    }
  }

  lemma AgreeApart(first: seq<ModuleAt>, rest: seq<ModuleAt>, ka: map<string, string>, kb: map<string, string>,
                   f: string -> string)
    requires AssumesAgree(first + rest, ka, kb, f)
    ensures AssumesAgree(first, ka, kb, f) && AssumesAgree(rest, ka, kb, f)
  {
    var all := first + rest;
    forall i, j | 0 <= i < |first| && 0 <= j < |first[i].mod.assumes|
      ensures OneKey(ka, kb, f, first[i].mod.assumes[j])
    {
      assert all[i] == first[i];
    }
    forall i, j | 0 <= i < |rest| && 0 <= j < |rest[i].mod.assumes|
      ensures OneKey(ka, kb, f, rest[i].mod.assumes[j])
    {
      assert all[|first| + i] == rest[i];
    }
  }

  /** A renumbering of a valid manifest into a valid one leaves every prerequisite's key what it was. */
  lemma RenumberedCorresponds(c: Course, d: Course, f: string -> string)
    requires Valid(c) && Valid(d) && Renumbers(c, d, f)
    ensures Corresponds(c, d)
  {
    var (mods, ka, kb) := (Modules(c), KeyOfModules(c), KeyOfModules(d));
    forall i, j | 0 <= i < |mods| && 0 <= j < |mods[i].mod.assumes| ensures OneKey(ka, kb, f, mods[i].mod.assumes[j]) {
      assert AssumesKnown(mods, mods[i].mod);
      ModuleKeysAgree(c, d, f, mods[i].mod.assumes[j]);
    }
    BlocksCorrespond(c.blocks, d.blocks, ka, kb, f);
  }

  predicate AlikeModules(a: seq<ModuleAt>, b: seq<ModuleAt>) {
    |a| == |b| && forall i :: 0 <= i < |a| ==>
      a[i].mod.key == b[i].mod.key && SameLessons(a[i].mod.lessons, b[i].mod.lessons)
  }

  predicate AlikeLessons(a: seq<LessonAt>, b: seq<LessonAt>) {
    |a| == |b| && forall i :: 0 <= i < |a| ==>
      a[i].mod.key == b[i].mod.key && a[i].lesson.key == b[i].lesson.key
        && SameExercises(a[i].lesson.exercises, b[i].lesson.exercises)
  }

  lemma BlockAlike(a: Block, b: Block, ka: map<string, string>, kb: map<string, string>)
    requires a.id == b.id && SameModules(a.modules, b.modules, ka, kb)
    ensures AlikeModules(InBlock(a), InBlock(b)) && ModulesIn(a, ka) == ModulesIn(b, kb)
  {
  }

  lemma AlikeJoin(a: seq<ModuleAt>, b: seq<ModuleAt>, c: seq<ModuleAt>, d: seq<ModuleAt>)
    requires AlikeModules(a, b) && AlikeModules(c, d)
    ensures AlikeModules(a + c, b + d)
  {
  }

  lemma {:induction false} BlocksAlike(a: seq<Block>, b: seq<Block>, ka: map<string, string>, kb: map<string, string>)
    requires SameBlocks(a, b, ka, kb)
    ensures AlikeModules(ModulesOf(a), ModulesOf(b)) && ModuleRows(a, ka) == ModuleRows(b, kb)
  {
    if a != [] {
      BlockAlike(a[0], b[0], ka, kb);
      BlocksAlike(a[1..], b[1..], ka, kb);
      AlikeJoin(InBlock(a[0]), InBlock(b[0]), ModulesOf(a[1..]), ModulesOf(b[1..]));
      assert ModuleRows(a, ka) == ModulesIn(a[0], ka) + ModuleRows(a[1..], ka);
      assert ModuleRows(b, kb) == ModulesIn(b[0], kb) + ModuleRows(b[1..], kb);
    }
  }

  lemma {:induction false} ModulesAlike(a: seq<ModuleAt>, b: seq<ModuleAt>)
    requires AlikeModules(a, b)
    ensures AlikeLessons(LessonsOf(a), LessonsOf(b)) && LessonRows(a) == LessonRows(b)
  {
    if a != [] {
      assert SameLessons(a[0].mod.lessons, b[0].mod.lessons);
      assert LessonsIn(a[0]) == LessonsIn(b[0]);
      ModulesAlike(a[1..], b[1..]);
    }
  }

  lemma {:induction false} LessonsAlike(a: seq<LessonAt>, b: seq<LessonAt>)
    requires AlikeLessons(a, b)
    ensures ExerciseKeys(ExercisesOf(a)) == ExerciseKeys(ExercisesOf(b)) && ExerciseRows(a) == ExerciseRows(b)
  {
    if a != [] {
      assert SameExercises(a[0].lesson.exercises, b[0].lesson.exercises);
      assert ExercisesIn(a[0]) == ExercisesIn(b[0]);
      LessonsAlike(a[1..], b[1..]);
      KeysOfJoin(InLesson(a[0]), ExercisesOf(a[1..]));
      KeysOfJoin(InLesson(b[0]), ExercisesOf(b[1..]));
      assert ExerciseKeys(InLesson(a[0])) == ExerciseKeys(InLesson(b[0]));
    }
  }

  lemma KeysOfJoin(a: seq<ExerciseAt>, b: seq<ExerciseAt>)
    ensures ExerciseKeys(a + b) == ExerciseKeys(a) + ExerciseKeys(b)
  {
  }

  lemma RenumberingKeepsRows(c: Course, d: Course, order: nat)
    requires Corresponds(c, d)
    ensures RowsFor(c, order) == RowsFor(d, order)
  {
    BlocksAlike(c.blocks, d.blocks, KeyOfModules(c), KeyOfModules(d));
    ModulesAlike(Modules(c), Modules(d));
    LessonsAlike(Lessons(c), Lessons(d));
    assert BlockIds(c) == BlockIds(d);
    assert ModuleKeys(Modules(c)) == ModuleKeys(Modules(d));
    assert LessonKeys(Lessons(c)) == LessonKeys(Lessons(d));
  }

  /** A renumbered manifest, reconciled after the one it renumbers, changes no row and counts nothing. */
  lemma RenumberingIsQuiet(e: Db, c: Course, d: Course, f: string -> string, order: nat)
    requires Valid(c) && Valid(d) && Renumbers(c, d, f) && MirrorsAll(e, c.id, RowsFor(c, order))
    ensures Reconciled(e, d.id, RowsFor(d, order)) == e && Tally(e, d.id, RowsFor(d, order)) == Summary(0, 0, 0)
  {
    RenumberedCorresponds(c, d, f);
    RenumberingKeepsRows(c, d, order);
    SecondRunIsQuiet(e, c.id, RowsFor(c, order));
  }

  // ---- the whole catalogue ----

  /** Courses no longer under `content/` go inactive; their rows below stay as they are. */
  function Withdrawn(d: Db, kept: set<string>): (e: Db) {
    d.(courses := map k | k in d.courses :: if k.1 in kept then d.courses[k] else d.courses[k].(active := false))
  }

  function Gone(d: Db, kept: set<string>): (r: set<(string, string)>) {
    set k | k in d.courses && k.1 !in kept && d.courses[k].active
  }

  /** A catalogue's reconciliations: each course once, its own row among the courses. */
  ghost predicate IsCatalog(h: seq<Asked>) {
    && (forall i, j :: 0 <= i < j < |h| ==> h[i].course != h[j].course)
    && (forall i :: 0 <= i < |h| ==> h[i].rows.courses.Keys == {h[i].course})
  }

  function SlugsOf(h: seq<Asked>): (r: set<string>) {
    set i | 0 <= i < |h| :: h[i].course
  }

  function CatalogAfter(d: Db, h: seq<Asked>): (e: Db) {
    Withdrawn(After(d, h), SlugsOf(h))
  }

  function Tallying(): (count: (Db, Asked) -> Summary) {
    (d: Db, a: Asked) => Tally(d, a.course, a.rows)
  }

  /** What a history of reconciliations counts, one summary added to the next. */
  function TallyEach(d: Db, h: seq<Asked>, count: (Db, Asked) -> Summary): (s: Summary) {
    if h == [] then Summary(0, 0, 0)
    else
      var (before, last) := (h[..|h| - 1], h[|h| - 1]);
      Sum(TallyEach(d, before, count), count(After(d, before), last))
  }

  function TallyAll(d: Db, h: seq<Asked>): (s: Summary) {
    TallyEach(d, h, Tallying())
  }

  /** What a catalogue's reconciliation counts: every course's rows, and the courses withdrawn. */
  function CatalogTally(d: Db, h: seq<Asked>): (s: Summary) {
    var s := TallyAll(d, h);
    s.(deactivated := s.deactivated + |Gone(After(d, h), SlugsOf(h))|)
  }

  /** Distinct courses in order of slug, numbered from one. */
  function Asks(cs: seq<Course>): (h: seq<Asked>)
    ensures |h| == |cs|
  {
    seq(|cs|, i requires 0 <= i < |cs| => Ask(cs[i], i + 1))
  }

  lemma AsksAreCatalog(cs: seq<Course>)
    requires forall i, j :: 0 <= i < j < |cs| ==> cs[i].id != cs[j].id
    ensures IsCatalog(Asks(cs))
  {
    var h := Asks(cs);
    forall i | 0 <= i < |h|
      ensures h[i].rows.courses.Keys == {h[i].course} && h[i].course == cs[i].id
    {
      AskedOnce(cs[i], i + 1);
    }
  }

  lemma AskedOnce(c: Course, order: nat)
    ensures Ask(c, order).rows.courses.Keys == {c.id} && Ask(c, order).course == c.id
  {
  }

  /** A table of courses has each course under its own slug. */
  ghost predicate SelfKeyed(d: Db) {
    forall k :: k in d.courses ==> k.0 == k.1
  }

  lemma WithdrawalSpares(d: Db, kept: set<string>, course: string)
    requires SelfKeyed(d) && course in kept
    ensures SameCourse(d, Withdrawn(d, kept), course)
  {
  }

  lemma {:induction false} AfterSelfKeyed(d: Db, history: seq<Asked>)
    requires SelfKeyed(d) && forall i :: 0 <= i < |history| ==> history[i].rows.courses.Keys == {history[i].course}
    ensures SelfKeyed(After(d, history))
  {
    if history != [] { AfterSelfKeyed(d, history[..|history| - 1]); }
  }

  /**
   * After a catalogue is reconciled, every course in it mirrors its manifest at its place in the order of
   * slugs, and every other course is inactive, whatever the tables held.
   */
  lemma CatalogMirrors(d: Db, h: seq<Asked>, i: nat)
    requires SelfKeyed(d) && IsCatalog(h) && i < |h|
    ensures MirrorsAll(CatalogAfter(d, h), h[i].course, h[i].rows)
  {
    LastManifestWins(d, h, i);
    AfterSelfKeyed(d, h);
    WithdrawalSpares(After(d, h), SlugsOf(h), h[i].course);
    MirrorsAllTravels(After(d, h), CatalogAfter(d, h), h[i].course, h[i].rows);
  }

  lemma OthersInactive(d: Db, h: seq<Asked>, k: (string, string))
    requires k in CatalogAfter(d, h).courses && k.1 !in SlugsOf(h)
    ensures !CatalogAfter(d, h).courses[k].active
  {
  }

  /** Distinct courses stay distinct in order of slug. */
  lemma SortedStayDistinct(catalog: seq<Course>)
    requires forall i, j :: 0 <= i < j < |catalog| ==> catalog[i].id != catalog[j].id
    ensures var cs := Sort(catalog, BySlug());
      multiset(cs) == multiset(catalog) && forall i, j :: 0 <= i < j < |cs| ==> cs[i].id != cs[j].id
  {
    var cs := Sort(catalog, BySlug());
    SortPermutes(catalog, BySlug());
    PermutationKeepsNoDup(catalog, cs);
    forall i, j | 0 <= i < j < |cs| ensures cs[i].id != cs[j].id {
      assert cs[i] in catalog && cs[j] in catalog;
      var p :| 0 <= p < |catalog| && catalog[p] == cs[i];
      var q :| 0 <= q < |catalog| && catalog[q] == cs[j];
      assert p != q;
    }
  }

  /**
   * After the catalogue is reconciled, whatever the tables held, each of its courses mirrors its manifest
   * at the course's place in order of slug, and every other course is inactive.
   */
  lemma CatalogueIsMirrored(d: Db, catalog: seq<Course>)
    requires SelfKeyed(d) && forall i, j :: 0 <= i < j < |catalog| ==> catalog[i].id != catalog[j].id
    ensures var cs := Sort(catalog, BySlug());
      var e := CatalogAfter(d, Asks(cs));
      && multiset(cs) == multiset(catalog)
      && (forall i :: 0 <= i < |cs| ==> MirrorsAll(e, cs[i].id, RowsFor(cs[i], i + 1)))
      && (forall k :: k in e.courses && e.courses[k].active ==> exists i :: 0 <= i < |cs| && cs[i].id == k.1)
  {
    SortedStayDistinct(catalog);
    var cs := Sort(catalog, BySlug());
    forall i | 0 <= i < |cs| ensures MirrorsAll(CatalogAfter(d, Asks(cs)), cs[i].id, RowsFor(cs[i], i + 1)) {
      CourseIsMirrored(d, cs, i);
    }
    forall k | k in CatalogAfter(d, Asks(cs)).courses && CatalogAfter(d, Asks(cs)).courses[k].active
      ensures exists i :: 0 <= i < |cs| && cs[i].id == k.1
    {
      var i := ActiveIsListed(d, cs, k);
    }
  }

  lemma CourseIsMirrored(d: Db, cs: seq<Course>, i: nat)
    requires SelfKeyed(d) && i < |cs| && forall i, j :: 0 <= i < j < |cs| ==> cs[i].id != cs[j].id
    ensures MirrorsAll(CatalogAfter(d, Asks(cs)), cs[i].id, RowsFor(cs[i], i + 1))
  {
    AsksAreCatalog(cs);
    AskedFor(cs, i);
    CatalogMirrors(d, Asks(cs), i);
  }

  lemma AskedFor(cs: seq<Course>, i: nat)
    requires i < |cs|
    ensures Asks(cs)[i].course == cs[i].id && Asks(cs)[i].rows == RowsFor(cs[i], i + 1)
  {
  }

  lemma ActiveIsListed(d: Db, cs: seq<Course>, k: (string, string)) returns (i: nat)
    requires k in CatalogAfter(d, Asks(cs)).courses && CatalogAfter(d, Asks(cs)).courses[k].active
    ensures i < |cs| && cs[i].id == k.1
  {
    var h := Asks(cs);
    if k.1 !in SlugsOf(h) { OthersInactive(d, h, k); }
    i :| 0 <= i < |h| && h[i].course == k.1;
    AskedFor(cs, i);
  }

  lemma {:induction false} QuietHistory(d: Db, history: seq<Asked>)
    requires forall i :: 0 <= i < |history| ==> MirrorsAll(d, history[i].course, history[i].rows)
    ensures After(d, history) == d
  {
    if history != [] {
      QuietHistory(d, history[..|history| - 1]);
      var last := history[|history| - 1];
      SecondRunIsQuiet(d, last.course, last.rows);
    }
  }

  // ---- the service over its tables ----

  class Skeleton {
    var courses: Table<nat>
    var blocks: Table<nat>
    var modules: Table<ModuleAttrs>
    var lessons: Table<LessonAttrs>
    var exercises: Table<ExerciseAttrs>

    function View(): (d: Db)
      reads this
    {
      Db(courses, blocks, modules, lessons, exercises)
    }

    constructor ()
      ensures View() == Db(map[], map[], map[], map[], map[])
    {
      courses, blocks, modules, lessons, exercises := map[], map[], map[], map[], map[];
    }

    /** Parents before children; every row's parents are there at each flush. */
    method ReconcileRows(course: string, rows: Rows, listed: Listing) returns (summary: Summary)
      requires Lists(listed, rows) && Rooted(View()) && Closed(rows, course)
      modifies this
      ensures View() == Reconciled(old(View()), course, rows)
      ensures summary == Tally(old(View()), course, rows)
      ensures Rooted(View())
    {
      FlushesRooted(View(), course, rows);
      var part;
      summary := FlushCourse(course, rows, listed);
      part := FlushBlocks(course, rows, listed);
      summary := Sum(summary, part);
      part := FlushModules(course, rows, listed);
      summary := Sum(summary, part);
      part := FlushLessons(course, rows, listed);
      summary := Sum(summary, part);
      part := FlushExercises(course, rows, listed);
      summary := Sum(summary, part);
    }

    method FlushCourse(course: string, rows: Rows, listed: Listing) returns (summary: Summary)
      requires Lists(listed, rows)
      modifies this
      ensures View() == Stage1(old(View()), course, rows)
      ensures summary == Counted(old(courses), course, rows.courses)
    {
      courses, summary := Upsert(courses, course, rows.courses, listed.courses);
    }

    method FlushBlocks(course: string, rows: Rows, listed: Listing) returns (summary: Summary)
      requires Lists(listed, rows)
      modifies this
      ensures View() == old(View()).(blocks := Upserted(old(blocks), course, rows.blocks))
      ensures summary == Counted(old(blocks), course, rows.blocks)
    {
      blocks, summary := Upsert(blocks, course, rows.blocks, listed.blocks);
    }

    method FlushModules(course: string, rows: Rows, listed: Listing) returns (summary: Summary)
      requires Lists(listed, rows)
      modifies this
      ensures View() == old(View()).(modules := Upserted(old(modules), course, rows.modules))
      ensures summary == Counted(old(modules), course, rows.modules)
    {
      modules, summary := Upsert(modules, course, rows.modules, listed.modules);
    }

    method FlushLessons(course: string, rows: Rows, listed: Listing) returns (summary: Summary)
      requires Lists(listed, rows)
      modifies this
      ensures View() == Stage3(old(View()), course, rows)
      ensures summary == Counted(old(lessons), course, rows.lessons)
    {
      lessons, summary := Upsert(lessons, course, rows.lessons, listed.lessons);
    }

    method FlushExercises(course: string, rows: Rows, listed: Listing) returns (summary: Summary)
      requires Lists(listed, rows)
      modifies this
      ensures View() == Stage4(old(View()), course, rows)
      ensures summary == Counted(old(exercises), course, rows.exercises)
    {
      exercises, summary := Upsert(exercises, course, rows.exercises, listed.exercises);
    }

    method Reconcile(c: Course, order: nat) returns (summary: Summary)
      requires Valid(c) && Rooted(View())
      modifies this
      ensures View() == Reconciled(old(View()), c.id, RowsFor(c, order))
      ensures summary == Tally(old(View()), c.id, RowsFor(c, order))
      ensures Rooted(View())
    {
      ListingOfManifest(c, order);
      ManifestIsClosed(c, order);
      summary := ReconcileRows(c.id, RowsFor(c, order), ListingOf(c));
    }
  
    /** Courses missing from the catalogue go inactive, in whatever order the query lists them. */
    method Withdraw(kept: set<string>) returns (deactivated: nat)
      modifies this
      ensures View() == Withdrawn(old(View()), kept)
      ensures deactivated == |Gone(old(View()), kept)|
    {
      var fetched := Query(courses, (k: (string, string)) => k.1 !in kept);
      ghost var before := courses;
      courses, deactivated := DeactivateRest(courses, map[], fetched);
      assert Fallen(before, map[], Elements(fetched)) == Gone(old(View()), kept);
      assert courses == Withdrawn(old(View()), kept).courses;
    }

    /** Every course of the catalogue in order of slug, then the withdrawn ones. */
    method ReconcileCatalog(catalog: seq<Course>) returns (total: Summary)
      requires forall i :: 0 <= i < |catalog| ==> Valid(catalog[i])
      requires Rooted(View())
      modifies this
      ensures View() == CatalogAfter(old(View()), Asks(Sort(catalog, BySlug())))
      ensures total == CatalogTally(old(View()), Asks(Sort(catalog, BySlug())))
      ensures Rooted(View())
    {
      var cs := Sort(catalog, BySlug());
      SortPermutes(catalog, BySlug());
      forall i | 0 <= i < |cs| ensures Valid(cs[i]) { assert cs[i] in catalog; }
      total := Summary(0, 0, 0);
      var i := 0;
      ghost var h := Asks(cs);
      while i < |cs|
        invariant 0 <= i <= |cs| && Rooted(View())
        invariant View() == After(old(View()), h[..i])
        invariant total == TallyAll(old(View()), h[..i])
      {
        var summary := Reconcile(cs[i], i + 1);
        total := Sum(total, summary);
        TakeSnoc(h, i);
        OneMoreAsked(old(View()), h[..i], h[i]);
        OneMoreTallied(old(View()), h[..i], h[i], Tallying());
        i := i + 1;
      }
      TakeAll(h);
      var deactivated := Withdraw(Slugs(cs));
      SlugsOfAsks(cs);
      total := total.(deactivated := total.deactivated + deactivated);
    }
  }

  function BySlug(): (leq: (Course, Course) -> bool) {
    (a: Course, b: Course) => LexLeq(a.id, b.id)
  }

  function Slugs(cs: seq<Course>): (r: set<string>) {
    set c | c in cs :: c.id
  }

  lemma SlugsOfAsks(cs: seq<Course>)
    ensures SlugsOf(Asks(cs)) == Slugs(cs)
  {
    var h := Asks(cs);
    forall i | 0 <= i < |h| ensures h[i].course == cs[i].id { AskedOnce(cs[i], i + 1); }
    forall x | x in Slugs(cs) ensures x in SlugsOf(h) {
      var c :| c in cs && c.id == x;
      var i :| 0 <= i < |cs| && cs[i] == c;
      assert h[i].course == x;
    }
  }

  lemma WithdrawnTwice(d: Db, kept: set<string>)
    ensures Withdrawn(Withdrawn(d, kept), kept) == Withdrawn(d, kept) && Gone(Withdrawn(d, kept), kept) == {}
  {
    assert Withdrawn(Withdrawn(d, kept), kept).courses == Withdrawn(d, kept).courses;
  }

  lemma OneMoreTallied(d: Db, h: seq<Asked>, last: Asked, count: (Db, Asked) -> Summary)
    ensures TallyEach(d, h + [last], count) == Sum(TallyEach(d, h, count), count(After(d, h), last))
  {
    assert (h + [last])[..|h|] == h;
  }

  lemma {:induction false} QuietTally(d: Db, h: seq<Asked>)
    requires forall i :: 0 <= i < |h| ==> MirrorsAll(d, h[i].course, h[i].rows)
    ensures TallyAll(d, h) == Summary(0, 0, 0)
  {
    if h != [] {
      var (before, last) := (h[..|h| - 1], h[|h| - 1]);
      QuietTally(d, before);
      QuietHistory(d, before);
      SecondRunIsQuiet(d, last.course, last.rows);
    }
  }

  /** Reconciling the same catalogue again changes no row of any table, and reports 0/0/0. */
  lemma CatalogSettles(d: Db, h: seq<Asked>)
    requires SelfKeyed(d) && IsCatalog(h)
    ensures
      var e := CatalogAfter(d, h);
      CatalogAfter(e, h) == e && CatalogTally(e, h) == Summary(0, 0, 0)
  {
    var e := CatalogAfter(d, h);
    forall i | 0 <= i < |h| ensures MirrorsAll(e, h[i].course, h[i].rows) {
      CatalogMirrors(d, h, i);
    }
    QuietHistory(e, h);
    QuietTally(e, h);
    WithdrawnTwice(After(d, h), SlugsOf(h));
  }
}
