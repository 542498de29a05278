/**
 * A course's manifest, its structural validation, and the registry's maps between display ids and
 * permanent keys.
 */
module Manifest {
  import opened Text
  import opened Sequences

  datatype Exercise = Exercise(id: string, key: string, kind: string)
  datatype Lesson = Lesson(id: string, key: string, exercises: seq<Exercise>)
  datatype Module = Module(id: string, key: string, assumes: seq<string>, lessons: seq<Lesson>)
  datatype Block = Block(id: string, modules: seq<Module>)
  datatype Course = Course(id: string, blocks: seq<Block>, kinds: seq<string>)

  /** A module with its block, and an exercise with everything around it. */
  datatype ModuleAt = ModuleAt(blockId: string, mod: Module)
  datatype LessonAt = LessonAt(blockId: string, mod: Module, lesson: Lesson)
  datatype ExerciseAt = ExerciseAt(blockId: string, mod: Module, lesson: Lesson, exercise: Exercise)

  // ---- derived views ----

  function InBlock(b: Block): (r: seq<ModuleAt>)
    ensures |r| == |b.modules|
  {
    seq(|b.modules|, i requires 0 <= i < |b.modules| => ModuleAt(b.id, b.modules[i]))
  }

  function InModule(m: ModuleAt): (r: seq<LessonAt>)
    ensures |r| == |m.mod.lessons|
    ensures forall i :: 0 <= i < |r| ==> r[i].mod == m.mod && r[i].blockId == m.blockId
  {
    seq(|m.mod.lessons|, i requires 0 <= i < |m.mod.lessons| => LessonAt(m.blockId, m.mod, m.mod.lessons[i]))
  }

  function InLesson(l: LessonAt): (r: seq<ExerciseAt>)
    ensures |r| == |l.lesson.exercises|
    ensures forall i :: 0 <= i < |r| ==> r[i].mod == l.mod && r[i].blockId == l.blockId && r[i].lesson == l.lesson
  {
    seq(|l.lesson.exercises|, i requires 0 <= i < |l.lesson.exercises| =>
      ExerciseAt(l.blockId, l.mod, l.lesson, l.lesson.exercises[i]))
  }

  function ModulesOf(blocks: seq<Block>): (r: seq<ModuleAt>) {
    if blocks == [] then [] else InBlock(blocks[0]) + ModulesOf(blocks[1..])
  }

  function LessonsOf(mods: seq<ModuleAt>): (r: seq<LessonAt>) {
    if mods == [] then [] else InModule(mods[0]) + LessonsOf(mods[1..])
  }

  function ExercisesOf(lessons: seq<LessonAt>): (r: seq<ExerciseAt>) {
    if lessons == [] then [] else InLesson(lessons[0]) + ExercisesOf(lessons[1..])
  }

  function Modules(c: Course): (r: seq<ModuleAt>) { ModulesOf(c.blocks) }

  function Lessons(c: Course): (r: seq<LessonAt>) { LessonsOf(Modules(c)) }

  function Exercises(c: Course): (r: seq<ExerciseAt>) { ExercisesOf(Lessons(c)) }

  // ---- validation ----

  function BlockIds(c: Course): (r: seq<string>)
    ensures |r| == |c.blocks|
  {
    seq(|c.blocks|, i requires 0 <= i < |c.blocks| => c.blocks[i].id)
  }

  function ModuleIds(mods: seq<ModuleAt>): (r: seq<string>)
    ensures |r| == |mods|
  {
    seq(|mods|, i requires 0 <= i < |mods| => mods[i].mod.id)
  }

  function ModuleKeys(mods: seq<ModuleAt>): (r: seq<string>)
    ensures |r| == |mods|
  {
    seq(|mods|, i requires 0 <= i < |mods| => mods[i].mod.key)
  }

  function LessonIds(lessons: seq<LessonAt>): (r: seq<string>)
    ensures |r| == |lessons|
  {
    seq(|lessons|, i requires 0 <= i < |lessons| => lessons[i].lesson.id)
  }

  function LessonKeys(lessons: seq<LessonAt>): (r: seq<string>)
    ensures |r| == |lessons|
  {
    seq(|lessons|, i requires 0 <= i < |lessons| => lessons[i].lesson.key)
  }

  function ExerciseIds(exs: seq<ExerciseAt>): (r: seq<string>)
    ensures |r| == |exs|
  {
    seq(|exs|, i requires 0 <= i < |exs| => exs[i].exercise.id)
  }

  function ExerciseKeys(exs: seq<ExerciseAt>): (r: seq<string>)
    ensures |r| == |exs|
  {
    seq(|exs|, i requires 0 <= i < |exs| => exs[i].exercise.key)
  }

  /** Every display id of the course, level by level. */
  function AllIds(c: Course): (r: seq<string>) {
    [c.id] + BlockIds(c) + ModuleIds(Modules(c)) + LessonIds(Lessons(c)) + ExerciseIds(Exercises(c))
  }

  /** Every permanent key; course and block ids double as theirs. */
  function AllKeys(c: Course): (r: seq<string>) {
    [c.id] + BlockIds(c) + ModuleKeys(Modules(c)) + LessonKeys(Lessons(c)) + ExerciseKeys(Exercises(c))
  }

  ghost predicate Valid(c: Course) {
    && NoDup(AllIds(c))
    && NoDup(AllKeys(c))
    && (forall i :: 0 <= i < |Exercises(c)| ==> Exercises(c)[i].exercise.kind in c.kinds)
    && (forall i :: 0 <= i < |Modules(c)| ==> AssumesKnown(Modules(c), Modules(c)[i].mod))
  }

  predicate AssumesKnown(mods: seq<ModuleAt>, m: Module) {
    forall i :: 0 <= i < |m.assumes| ==> m.assumes[i] in ModuleIds(mods) && m.assumes[i] != m.id
  }

  datatype Finding =
    | Ok
    | DuplicateId(id: string)
    | DuplicateKey(key: string)
    | UndeclaredKind(id: string)
    | BadAssumption(id: string)

  /** One pass over a namespace: the first name seen before, if any. */
  method FirstRepeat(names: seq<string>) returns (r: Option<string>)
    ensures r.None? <==> NoDup(names)
    ensures r.Some? ==> multiset(names)[r.value] >= 2
  {
    var seen: set<string> := {};
    var i := 0;
    while i < |names|
      invariant 0 <= i <= |names|
      invariant seen == Elements(names[..i])
      invariant NoDup(names[..i])
    {
      if names[i] in seen {
        var j :| 0 <= j < i && names[j] == names[i];
        TwiceThere(names, j, i);
        return Some(names[i]);
      }
      seen := seen + {names[i]};
      assert names[..i + 1] == names[..i] + [names[i]];
      i := i + 1;
    }
    assert names[..i] == names;
    return None;
  }

  lemma TwiceThere(s: seq<string>, i: nat, j: nat)
    requires i < j < |s| && s[i] == s[j]
    ensures multiset(s)[s[j]] >= 2
  {
    assert s == s[..i] + [s[i]] + s[i + 1..j] + [s[j]] + s[j + 1..];
    assert multiset(s)
      == multiset(s[..i]) + multiset{s[i]} + multiset(s[i + 1..j]) + multiset{s[j]} + multiset(s[j + 1..]);
  }

  /** Exercise `i` is the first of a kind the course does not declare. */
  predicate Undeclares(exs: seq<ExerciseAt>, kinds: seq<string>, i: nat) {
    i < |exs| && exs[i].exercise.kind !in kinds && forall k :: 0 <= k < i ==> exs[k].exercise.kind in kinds
  }

  /** Module `i` is the first to assume itself or a module the course does not have. */
  predicate Misassumes(mods: seq<ModuleAt>, i: nat) {
    i < |mods| && !AssumesKnown(mods, mods[i].mod) && forall k :: 0 <= k < i ==> AssumesKnown(mods, mods[k].mod)
  }

  /** The first exercise of a kind the course does not declare, if any. */
  method FirstUndeclared(exs: seq<ExerciseAt>, kinds: seq<string>) returns (r: Option<string>)
    ensures r.None? <==> forall i :: 0 <= i < |exs| ==> exs[i].exercise.kind in kinds
    ensures r.Some? ==> exists i: nat :: Undeclares(exs, kinds, i) && exs[i].exercise.id == r.value
  {
    var i := 0;
    while i < |exs|
      invariant 0 <= i <= |exs|
      invariant forall k :: 0 <= k < i ==> exs[k].exercise.kind in kinds
    {
      if exs[i].exercise.kind !in kinds {
        assert Undeclares(exs, kinds, i);
        return Some(exs[i].exercise.id);
      }
      i := i + 1;
    }
    return None;
  }

  /** The first module that assumes itself or a module the course does not have, if any. */
  method FirstBadAssumption(mods: seq<ModuleAt>) returns (r: Option<string>)
    ensures r.None? <==> forall i :: 0 <= i < |mods| ==> AssumesKnown(mods, mods[i].mod)
    ensures r.Some? ==> exists i: nat :: Misassumes(mods, i) && mods[i].mod.id == r.value
  {
    var i := 0;
    while i < |mods|
      invariant 0 <= i <= |mods|
      invariant forall k :: 0 <= k < i ==> AssumesKnown(mods, mods[k].mod)
    {
      if !AssumesKnown(mods, mods[i].mod) {
        assert Misassumes(mods, i);
        return Some(mods[i].mod.id);
      }
      i := i + 1;
    }
    return None;
  }

  /** The structural check a manifest passes before anything is built from it. */
  method ValidateStructure(c: Course) returns (v: Finding)
    ensures v.Ok? <==> Valid(c)
    ensures v.DuplicateId? ==> multiset(AllIds(c))[v.id] >= 2
    ensures v.DuplicateKey? ==> NoDup(AllIds(c)) && multiset(AllKeys(c))[v.key] >= 2
    ensures v.UndeclaredKind? || v.BadAssumption? ==> NoDup(AllIds(c)) && NoDup(AllKeys(c))
    ensures v.UndeclaredKind? ==>
      exists i: nat :: Undeclares(Exercises(c), c.kinds, i) && Exercises(c)[i].exercise.id == v.id
    ensures v.BadAssumption? ==> forall i :: 0 <= i < |Exercises(c)| ==> Exercises(c)[i].exercise.kind in c.kinds
    ensures v.BadAssumption? ==> exists i: nat :: Misassumes(Modules(c), i) && Modules(c)[i].mod.id == v.id
  {
    var exs, mods, ids, keys := Exercises(c), Modules(c), AllIds(c), AllKeys(c);
    var repeat := FirstRepeat(ids);
    if repeat.Some? { return DuplicateId(repeat.value); }
    repeat := FirstRepeat(keys);
    if repeat.Some? { return DuplicateKey(repeat.value); }
    repeat := FirstUndeclared(exs, c.kinds);
    if repeat.Some? { return UndeclaredKind(repeat.value); }
    repeat := FirstBadAssumption(mods);
    if repeat.Some? { return BadAssumption(repeat.value); }
    return Ok;
  }

  // ---- one exercise, one place ----

  lemma {:induction false} LessonsAppend(a: seq<ModuleAt>, b: seq<ModuleAt>)
    ensures LessonsOf(a + b) == LessonsOf(a) + LessonsOf(b)
  {
    if a == [] {
      assert a + b == b;
    } else {
      LessonsAppend(a[1..], b);
      assert (a + b)[1..] == a[1..] + b && (a + b)[0] == a[0];
      Associates(InModule(a[0]), LessonsOf(a[1..]), LessonsOf(b));
    }
  }

  lemma {:induction false} ExercisesAppend(a: seq<LessonAt>, b: seq<LessonAt>)
    ensures ExercisesOf(a + b) == ExercisesOf(a) + ExercisesOf(b)
  {
    if a == [] {
      assert a + b == b;
    } else {
      ExercisesAppend(a[1..], b);
      assert (a + b)[1..] == a[1..] + b && (a + b)[0] == a[0];
      Associates(InLesson(a[0]), ExercisesOf(a[1..]), ExercisesOf(b));
    }
  }

  /** The exercises of one module, in the order its lessons embed them. */
  function ModuleExercises(m: ModuleAt): (r: seq<ExerciseAt>) { ExercisesOf(LessonsOf([m])) }

  /** The exercises of a run of modules. */
  function Walk(mods: seq<ModuleAt>): (r: seq<ExerciseAt>) { ExercisesOf(LessonsOf(mods)) }

  lemma WalkAppend(a: seq<ModuleAt>, b: seq<ModuleAt>)
    ensures Walk(a + b) == Walk(a) + Walk(b)
  {
    LessonsAppend(a, b);
    ExercisesAppend(LessonsOf(a), LessonsOf(b));
  }

  /** Where the k-th exercise of the i-th module stands in the walk over all of them. */
  lemma WalkAt(mods: seq<ModuleAt>, i: nat, k: nat)
    requires i < |mods| && k < |ModuleExercises(mods[i])|
    ensures |Walk(mods[..i])| + k < |Walk(mods[..i + 1])| <= |Walk(mods)|
    ensures Walk(mods)[|Walk(mods[..i])| + k] == ModuleExercises(mods[i])[k]
  {
    assert mods == mods[..i + 1] + mods[i + 1..];
    WalkAppend(mods[..i + 1], mods[i + 1..]);
    assert mods[..i + 1] == mods[..i] + [mods[i]];
    WalkAppend(mods[..i], [mods[i]]);
  }

  /** Every exercise of the walk is one of some module. */
  lemma {:induction false} WalkFrom(mods: seq<ModuleAt>, p: nat) returns (i: nat, k: nat)
    requires p < |Walk(mods)|
    ensures i < |mods| && k < |ModuleExercises(mods[i])| && ModuleExercises(mods[i])[k] == Walk(mods)[p]
  {
    assert mods == [mods[0]] + mods[1..];
    WalkAppend([mods[0]], mods[1..]);
    var n := |ModuleExercises(mods[0])|;
    if p < n {
      i, k := 0, p;
    } else {
      i, k := WalkFrom(mods[1..], p - n);
      i := i + 1;
    }
  }

  lemma {:induction false} LessonsKnowModule(mods: seq<ModuleAt>, j: nat) returns (i: nat)
    requires j < |LessonsOf(mods)|
    ensures i < |mods| && LessonsOf(mods)[j].mod == mods[i].mod && LessonsOf(mods)[j].blockId == mods[i].blockId
  {
    var n := |mods[0].mod.lessons|;
    if j < n {
      i := 0;
    } else {
      i := LessonsKnowModule(mods[1..], j - n);
      i := i + 1;
    }
  }

  lemma {:induction false} ExercisesKnowLesson(lessons: seq<LessonAt>, j: nat) returns (i: nat)
    requires j < |ExercisesOf(lessons)|
    ensures i < |lessons|
    ensures ExercisesOf(lessons)[j].mod == lessons[i].mod && ExercisesOf(lessons)[j].blockId == lessons[i].blockId
    ensures ExercisesOf(lessons)[j].lesson == lessons[i].lesson
  {
    var n := |lessons[0].lesson.exercises|;
    if j < n {
      i := 0;
    } else {
      i := ExercisesKnowLesson(lessons[1..], j - n);
      i := i + 1;
    }
  }

  lemma ModuleExercisesKnowModule(m: ModuleAt, k: nat)
    requires k < |ModuleExercises(m)|
    ensures ModuleExercises(m)[k].mod == m.mod && ModuleExercises(m)[k].blockId == m.blockId
  {
    var j := ExercisesKnowLesson(LessonsOf([m]), k);
    var _ := LessonsKnowModule([m], j);
  }

  /** A name list inside a duplicate-free one is duplicate-free. */
  lemma SliceNoDup(s: seq<string>, a: seq<string>, b: seq<string>, c: seq<string>)
    requires s == a + b + c && NoDup(s)
    ensures NoDup(b)
  {
    forall i, j | 0 <= i < j < |b| ensures b[i] != b[j] {
      assert s[|a| + i] == b[i] && s[|a| + j] == b[j];
    }
  }

  /** In a valid course, ids are unique at each level, and so are keys. */
  lemma NamesUnique(c: Course)
    requires Valid(c)
    ensures NoDup(ModuleIds(Modules(c))) && NoDup(ModuleKeys(Modules(c)))
    ensures NoDup(LessonIds(Lessons(c))) && NoDup(LessonKeys(Lessons(c)))
    ensures NoDup(ExerciseIds(Exercises(c))) && NoDup(ExerciseKeys(Exercises(c)))
  {
    var (mods, lessons, exs) := (Modules(c), Lessons(c), Exercises(c));
    var head := [c.id] + BlockIds(c);
    ThreeParts(AllIds(c), head, ModuleIds(mods), LessonIds(lessons), ExerciseIds(exs));
    ThreeParts(AllKeys(c), head, ModuleKeys(mods), LessonKeys(lessons), ExerciseKeys(exs));
  }

  lemma ThreeParts(s: seq<string>, head: seq<string>, x: seq<string>, y: seq<string>, z: seq<string>)
    requires s == head + x + y + z && NoDup(s)
    ensures NoDup(x) && NoDup(y) && NoDup(z)
  {
    assert s == head + x + (y + z);
    SliceNoDup(s, head, x, y + z);
    assert s == (head + x) + y + z;
    SliceNoDup(s, head + x, y, z);
    assert s == (head + x + y) + z + [];
    SliceNoDup(s, head + x + y, z, []);
  }

  /** Exercises of different modules, or at different places of one, have different ids and keys. */
  lemma PlacesDiffer(c: Course, i: nat, k: nat, j: nat, l: nat)
    requires Valid(c)
    requires i < |Modules(c)| && k < |ModuleExercises(Modules(c)[i])|
    requires j < |Modules(c)| && l < |ModuleExercises(Modules(c)[j])|
    requires i != j || k != l
    ensures ModuleExercises(Modules(c)[i])[k].exercise.id != ModuleExercises(Modules(c)[j])[l].exercise.id
    ensures ModuleExercises(Modules(c)[i])[k].exercise.key != ModuleExercises(Modules(c)[j])[l].exercise.key
  {
    NamesUnique(c);
    var mods := Modules(c);
    WalkAt(mods, i, k);
    WalkAt(mods, j, l);
    PositionsDiffer(mods, i, k, j, l);
    NamesAtDiffer(Exercises(c), |Walk(mods[..i])| + k, |Walk(mods[..j])| + l);
  }

  lemma PositionsDiffer(mods: seq<ModuleAt>, i: nat, k: nat, j: nat, l: nat)
    requires i < |mods| && k < |ModuleExercises(mods[i])| && j < |mods| && l < |ModuleExercises(mods[j])|
    requires i != j || k != l
    ensures |Walk(mods[..i])| + k != |Walk(mods[..j])| + l
  {
    WalkAt(mods, i, k);
    WalkAt(mods, j, l);
    if i < j { WalkGrows(mods, i + 1, j); }
    if j < i { WalkGrows(mods, j + 1, i); }
  }

  lemma NamesAtDiffer(exs: seq<ExerciseAt>, p: nat, q: nat)
    requires NoDup(ExerciseIds(exs)) && NoDup(ExerciseKeys(exs)) && p < |exs| && q < |exs| && p != q
    ensures exs[p].exercise.id != exs[q].exercise.id && exs[p].exercise.key != exs[q].exercise.key
  {
    assert ExerciseIds(exs)[p] != ExerciseIds(exs)[q];
    assert ExerciseKeys(exs)[p] != ExerciseKeys(exs)[q];
  }

  lemma WalkGrows(mods: seq<ModuleAt>, i: nat, j: nat)
    requires i <= j <= |mods|
    ensures |Walk(mods[..i])| <= |Walk(mods[..j])|
  {
    assert mods[..j] == mods[..i] + mods[i..j];
    WalkAppend(mods[..i], mods[i..j]);
  }

  // ---- the registry's maps ----

  datatype Location = Location(blockId: string, moduleId: string)

  /** The course as served: its slug, and the lookups built once at load. */
  datatype Registry = Registry(
    slug: string,
    moduleIds: map<string, string>,     // key -> id
    moduleKeys: map<string, string>,    // id -> key
    lessonIds: map<string, string>,
    lessonKeys: map<string, string>,
    exerciseIds: map<string, string>,
    exerciseKeys: map<string, string>,
    locations: map<string, Location>,   // exercise id -> where it is
    homes: map<string, string>)         // exercise id -> lesson id

  /** A dictionary filled pair by pair: a later pair with the same name wins. */
  function Dict<V>(names: seq<string>, values: seq<V>): (m: map<string, V>)
    requires |names| == |values|
    ensures m.Keys == Elements(names)
  {
    if names == [] then map[]
    else
      var n := |names| - 1;
      assert names == names[..n] + [names[n]];
      Dict(names[..n], values[..n])[names[n] := values[n]]
  }

  lemma {:induction false} DictAt<V>(names: seq<string>, values: seq<V>, i: nat)
    requires |names| == |values| && NoDup(names) && i < |names|
    ensures names[i] in Dict(names, values) && Dict(names, values)[names[i]] == values[i]
  {
    var n := |names| - 1;
    if i < n { DictAt(names[..n], values[..n], i); }
  }

  function Locations(exs: seq<ExerciseAt>): (r: seq<Location>)
    ensures |r| == |exs|
  {
    seq(|exs|, i requires 0 <= i < |exs| => Location(exs[i].blockId, exs[i].mod.id))
  }

  function Homes(exs: seq<ExerciseAt>): (r: seq<string>)
    ensures |r| == |exs|
  {
    seq(|exs|, i requires 0 <= i < |exs| => exs[i].lesson.id)
  }

  /** The lookups over a run of modules, lessons and exercises. */
  function Lookups(slug: string, mods: seq<ModuleAt>, lessons: seq<LessonAt>, exs: seq<ExerciseAt>): (r: Registry) {
    Registry(slug,
      Dict(ModuleKeys(mods), ModuleIds(mods)), Dict(ModuleIds(mods), ModuleKeys(mods)),
      Dict(LessonKeys(lessons), LessonIds(lessons)), Dict(LessonIds(lessons), LessonKeys(lessons)),
      Dict(ExerciseKeys(exs), ExerciseIds(exs)), Dict(ExerciseIds(exs), ExerciseKeys(exs)),
      Dict(ExerciseIds(exs), Locations(exs)), Dict(ExerciseIds(exs), Homes(exs)))
  }

  function RegistryOf(c: Course): (r: Registry) { Lookups(c.id, Modules(c), Lessons(c), Exercises(c)) }

  function WithModule(r: Registry, m: ModuleAt): (s: Registry) {
    r.(moduleIds := r.moduleIds[m.mod.key := m.mod.id], moduleKeys := r.moduleKeys[m.mod.id := m.mod.key])
  }

  function WithLesson(r: Registry, l: LessonAt): (s: Registry) {
    r.(lessonIds := r.lessonIds[l.lesson.key := l.lesson.id], lessonKeys := r.lessonKeys[l.lesson.id := l.lesson.key])
  }

  function WithExercise(r: Registry, e: ExerciseAt): (s: Registry) {
    r.(exerciseIds := r.exerciseIds[e.exercise.key := e.exercise.id],
       exerciseKeys := r.exerciseKeys[e.exercise.id := e.exercise.key],
       locations := r.locations[e.exercise.id := Location(e.blockId, e.mod.id)],
       homes := r.homes[e.exercise.id := e.lesson.id])
  }

  lemma DictSnoc<V>(names: seq<string>, values: seq<V>, name: string, value: V)
    requires |names| == |values|
    ensures Dict(names + [name], values + [value]) == Dict(names, values)[name := value]
  {
    var (ns, vs) := (names + [name], values + [value]);
    assert ns[..|names|] == names && vs[..|names|] == values;
  }

  lemma ModuleIndexed(slug: string, mods: seq<ModuleAt>, lessons: seq<LessonAt>, exs: seq<ExerciseAt>, m: ModuleAt)
    ensures Lookups(slug, mods + [m], lessons, exs) == WithModule(Lookups(slug, mods, lessons, exs), m)
  {
    var more := mods + [m];
    assert ModuleIds(more) == ModuleIds(mods) + [m.mod.id];
    assert ModuleKeys(more) == ModuleKeys(mods) + [m.mod.key];
    DictSnoc(ModuleIds(mods), ModuleKeys(mods), m.mod.id, m.mod.key);
    DictSnoc(ModuleKeys(mods), ModuleIds(mods), m.mod.key, m.mod.id);
  }

  lemma LessonIndexed(slug: string, mods: seq<ModuleAt>, lessons: seq<LessonAt>, exs: seq<ExerciseAt>, l: LessonAt)
    ensures Lookups(slug, mods, lessons + [l], exs) == WithLesson(Lookups(slug, mods, lessons, exs), l)
  {
    var more := lessons + [l];
    assert LessonIds(more) == LessonIds(lessons) + [l.lesson.id];
    assert LessonKeys(more) == LessonKeys(lessons) + [l.lesson.key];
    DictSnoc(LessonIds(lessons), LessonKeys(lessons), l.lesson.id, l.lesson.key);
    DictSnoc(LessonKeys(lessons), LessonIds(lessons), l.lesson.key, l.lesson.id);
  }

  lemma ExerciseIndexed(slug: string, mods: seq<ModuleAt>, lessons: seq<LessonAt>, exs: seq<ExerciseAt>, e: ExerciseAt)
    ensures Lookups(slug, mods, lessons, exs + [e]) == WithExercise(Lookups(slug, mods, lessons, exs), e)
  {
    var more := exs + [e];
    assert ExerciseIds(more) == ExerciseIds(exs) + [e.exercise.id];
    assert ExerciseKeys(more) == ExerciseKeys(exs) + [e.exercise.key];
    assert Locations(more) == Locations(exs) + [Location(e.blockId, e.mod.id)];
    assert Homes(more) == Homes(exs) + [e.lesson.id];
    DictSnoc(ExerciseIds(exs), ExerciseKeys(exs), e.exercise.id, e.exercise.key);
    DictSnoc(ExerciseKeys(exs), ExerciseIds(exs), e.exercise.key, e.exercise.id);
    DictSnoc(ExerciseIds(exs), Locations(exs), e.exercise.id, Location(e.blockId, e.mod.id));
    DictSnoc(ExerciseIds(exs), Homes(exs), e.exercise.id, e.lesson.id);
  }

  /** The nested walk that fills every lookup, module by module. */
  method BuildRegistry(c: Course) returns (r: Registry)
    ensures r == RegistryOf(c)
    ensures Valid(c) ==> Indexes(r, c)
  {
    var mods := Modules(c);
    r := Registry(c.id, map[], map[], map[], map[], map[], map[], map[], map[]);
    var i := 0;
    assert r == Lookups(c.id, [], [], []);
    assert mods[..0] == [];
    while i < |mods|
      invariant 0 <= i <= |mods|
      invariant r == Lookups(c.id, mods[..i], LessonsOf(mods[..i]), Walk(mods[..i]))
    {
      ModuleIndexed(c.id, mods[..i], LessonsOf(mods[..i]), Walk(mods[..i]), mods[i]);
      r := WithModule(r, mods[i]);
      assert mods[..i + 1] == mods[..i] + [mods[i]];
      r := IndexLessons(r, c.id, mods[..i + 1], LessonsOf(mods[..i]), Walk(mods[..i]), LessonsOf([mods[i]]));
      LessonsAppend(mods[..i], [mods[i]]);
      WalkAppend(mods[..i], [mods[i]]);
      i := i + 1;
    }
    assert mods[..i] == mods;
    if Valid(c) { RegistryIndexes(c); }
  }

  method IndexLessons(start: Registry, slug: string, ghost mods: seq<ModuleAt>, ghost before: seq<LessonAt>,
                      ghost exsBefore: seq<ExerciseAt>, lessons: seq<LessonAt>) returns (r: Registry)
    requires start == Lookups(slug, mods, before, exsBefore)
    ensures r == Lookups(slug, mods, before + lessons, exsBefore + ExercisesOf(lessons))
  {
    r := start;
    var j := 0;
    ghost var ls, es := before, exsBefore;
    while j < |lessons|
      invariant 0 <= j <= |lessons|
      invariant ls == before + lessons[..j] && es == exsBefore + ExercisesOf(lessons[..j])
      invariant r == Lookups(slug, mods, ls, es)
    {
      r := IndexLesson(r, slug, mods, ls, es, lessons[j]);
      ls, es := ls + [lessons[j]], es + ExercisesOf([lessons[j]]);
      OneMoreLesson(exsBefore, lessons, j);
      TakeOneMore(before, lessons, j);
      j := j + 1;
    }
    assert lessons[..j] == lessons;
  }

  method IndexLesson(start: Registry, slug: string, ghost mods: seq<ModuleAt>, ghost before: seq<LessonAt>,
                     ghost exsBefore: seq<ExerciseAt>, l: LessonAt) returns (r: Registry)
    requires start == Lookups(slug, mods, before, exsBefore)
    ensures r == Lookups(slug, mods, before + [l], exsBefore + ExercisesOf([l]))
  {
    LessonIndexed(slug, mods, before, exsBefore, l);
    r := WithLesson(start, l);
    r := IndexExercises(r, slug, mods, before + [l], exsBefore, l);
  }

  lemma OneMoreLesson(before: seq<ExerciseAt>, lessons: seq<LessonAt>, j: nat)
    requires j < |lessons|
    ensures before + ExercisesOf(lessons[..j]) + ExercisesOf([lessons[j]]) == before + ExercisesOf(lessons[..j + 1])
  {
    assert lessons[..j + 1] == lessons[..j] + [lessons[j]];
    ExercisesAppend(lessons[..j], [lessons[j]]);
  }

  method IndexExercises(start: Registry, slug: string, ghost mods: seq<ModuleAt>, ghost lessons: seq<LessonAt>,
                        ghost before: seq<ExerciseAt>, l: LessonAt) returns (r: Registry)
    requires start == Lookups(slug, mods, lessons, before)
    ensures r == Lookups(slug, mods, lessons, before + ExercisesOf([l]))
  {
    r := start;
    var exs := ExercisesOf([l]);
    var k := 0;
    assert before + exs[..0] == before;
    while k < |exs|
      invariant 0 <= k <= |exs|
      invariant r == Lookups(slug, mods, lessons, before + exs[..k])
    {
      ExerciseIndexed(slug, mods, lessons, before + exs[..k], exs[k]);
      r := WithExercise(r, exs[k]);
      TakeOneMore(before, exs, k);
      k := k + 1;
    }
    assert exs[..k] == exs;
  }

  /** What the maps must say about a course: at every level, id and key lead to each other. */
  ghost predicate Indexes(r: Registry, c: Course) {
    && r.slug == c.id
    && (forall i :: 0 <= i < |Modules(c)| ==>
          Paired(r.moduleIds, r.moduleKeys, Modules(c)[i].mod.key, Modules(c)[i].mod.id))
    && (forall i :: 0 <= i < |Lessons(c)| ==>
          Paired(r.lessonIds, r.lessonKeys, Lessons(c)[i].lesson.key, Lessons(c)[i].lesson.id))
    && (forall i :: 0 <= i < |Exercises(c)| ==> Knows(r, Exercises(c)[i]))
    && MutuallyInverse(r.moduleIds, r.moduleKeys)
    && MutuallyInverse(r.lessonIds, r.lessonKeys)
    && MutuallyInverse(r.exerciseIds, r.exerciseKeys)
    && r.exerciseKeys.Keys == r.locations.Keys == r.homes.Keys == Elements(ExerciseIds(Exercises(c)))
  }

  predicate Paired(ids: map<string, string>, keys: map<string, string>, key: string, id: string) {
    key in ids && ids[key] == id && id in keys && keys[id] == key
  }

  predicate MutuallyInverse(ids: map<string, string>, keys: map<string, string>) {
    && (forall key :: key in ids ==> ids[key] in keys && keys[ids[key]] == key)
    && (forall id :: id in keys ==> keys[id] in ids && ids[keys[id]] == id)
  }

  predicate Knows(r: Registry, e: ExerciseAt) {
    && Paired(r.exerciseIds, r.exerciseKeys, e.exercise.key, e.exercise.id)
    && e.exercise.id in r.locations && r.locations[e.exercise.id] == Location(e.blockId, e.mod.id)
    && e.exercise.id in r.homes && r.homes[e.exercise.id] == e.lesson.id
  }

  /** Duplicate-free lists of names and values make two dictionaries that undo each other. */
  lemma DictsInverse(keys: seq<string>, ids: seq<string>)
    requires |keys| == |ids| && NoDup(keys) && NoDup(ids)
    ensures MutuallyInverse(Dict(keys, ids), Dict(ids, keys))
    ensures forall i :: 0 <= i < |keys| ==> Paired(Dict(keys, ids), Dict(ids, keys), keys[i], ids[i])
  {
    forall i | 0 <= i < |keys| ensures Paired(Dict(keys, ids), Dict(ids, keys), keys[i], ids[i]) {
      DictAt(keys, ids, i);
      DictAt(ids, keys, i);
    }
    forall key | key in Dict(keys, ids)
      ensures Dict(keys, ids)[key] in Dict(ids, keys) && Dict(ids, keys)[Dict(keys, ids)[key]] == key
    {
      var i :| 0 <= i < |keys| && keys[i] == key;
      assert Paired(Dict(keys, ids), Dict(ids, keys), keys[i], ids[i]);
    }
    forall id | id in Dict(ids, keys)
      ensures Dict(ids, keys)[id] in Dict(keys, ids) && Dict(keys, ids)[Dict(ids, keys)[id]] == id
    {
      var i :| 0 <= i < |ids| && ids[i] == id;
      assert Paired(Dict(keys, ids), Dict(ids, keys), keys[i], ids[i]);
    }
  }

  /** Validation is what makes the id and key maps mutually inverse at every level. */
  lemma RegistryIndexes(c: Course)
    requires Valid(c)
    ensures Indexes(RegistryOf(c), c)
  {
    NamesUnique(c);
    var (r, mods, lessons, exs) := (RegistryOf(c), Modules(c), Lessons(c), Exercises(c));
    var (mids, mkeys, lids, lkeys) := (ModuleIds(mods), ModuleKeys(mods), LessonIds(lessons), LessonKeys(lessons));
    DictsInverse(mkeys, mids);
    DictsInverse(lkeys, lids);
    forall i | 0 <= i < |mods| ensures Paired(r.moduleIds, r.moduleKeys, mods[i].mod.key, mods[i].mod.id) {
      assert Paired(Dict(mkeys, mids), Dict(mids, mkeys), mkeys[i], mids[i]);
    }
    forall i | 0 <= i < |lessons|
      ensures Paired(r.lessonIds, r.lessonKeys, lessons[i].lesson.key, lessons[i].lesson.id)
    {
      assert Paired(Dict(lkeys, lids), Dict(lids, lkeys), lkeys[i], lids[i]);
    }
    ExercisesIndexed(c);
  }

  lemma ExercisesIndexed(c: Course)
    requires NoDup(ExerciseIds(Exercises(c))) && NoDup(ExerciseKeys(Exercises(c)))
    ensures forall i :: 0 <= i < |Exercises(c)| ==> Knows(RegistryOf(c), Exercises(c)[i])
    ensures MutuallyInverse(RegistryOf(c).exerciseIds, RegistryOf(c).exerciseKeys)
  {
    var (r, exs) := (RegistryOf(c), Exercises(c));
    var (ids, keys, locs, homes) := (ExerciseIds(exs), ExerciseKeys(exs), Locations(exs), Homes(exs));
    DictsInverse(keys, ids);
    forall i | 0 <= i < |exs| ensures Knows(r, exs[i]) {
      assert Paired(Dict(keys, ids), Dict(ids, keys), keys[i], ids[i]);
      DictAt(ids, locs, i);
      DictAt(ids, homes, i);
    }
  }

  // ---- stored keys seen as display ids ----

  /** The display id for a stored key; a key the manifest dropped keeps its raw form. */
  function DisplayId(r: Registry, key: string): (id: string) {
    if key in r.exerciseIds && r.exerciseIds[key] != "" then r.exerciseIds[key] else key
  }

  /** The course still carries the exercise with this key. */
  predicate Carried(r: Registry, key: string) {
    key in r.exerciseIds && r.exerciseIds[key] != ""
  }

  /** The id shown for a stored key is the display id of another exercise. */
  predicate Misnamed(r: Registry, key: string) {
    var id := DisplayId(r, key);
    id in r.exerciseKeys && r.exerciseKeys[id] != key
  }

  /**
   * The id shown for a stored key is never another exercise's while the course carries the key; once it
   * is dropped, that happens exactly when the course uses the same string as a display id of another.
   */
  lemma MisnamedIffReused(c: Course, key: string)
    requires Valid(c)
    ensures
      var r := RegistryOf(c);
      Misnamed(r, key) <==> !Carried(r, key) && key in r.exerciseKeys && r.exerciseKeys[key] != key
  {
    RegistryIndexes(c);
  }

  /** A course whose only exercise was renumbered to a string that may be some dropped key. */
  function Renumbered(): (c: Course) {
    Course("c", [Block("b", [Module("m", "m", [], [Lesson("l", "l", [Exercise("e", "f", "quiz")])])])], ["quiz"])
  }

  lemma RenumberedParts()
    ensures
      var c := Renumbered();
      && |Modules(c)| == |Lessons(c)| == |Exercises(c)| == 1
      && Modules(c)[0].mod == c.blocks[0].modules[0]
      && Lessons(c)[0].lesson == Modules(c)[0].mod.lessons[0]
      && Exercises(c)[0].exercise == Exercise("e", "f", "quiz")
  {
    var c := Renumbered();
    assert c.blocks[1..] == [] && ModulesOf(c.blocks[1..]) == [];
    assert Modules(c) == InBlock(c.blocks[0]);
    assert Modules(c)[1..] == [] && LessonsOf(Modules(c)[1..]) == [];
    assert Lessons(c) == InModule(Modules(c)[0]);
    assert Lessons(c)[1..] == [] && ExercisesOf(Lessons(c)[1..]) == [];
    assert Exercises(c) == InLesson(Lessons(c)[0]);
  }

  lemma RenumberedIsValid()
    ensures Valid(Renumbered())
  {
    RenumberedParts();
    var c := Renumbered();
    var (i, k) := (AllIds(c), AllKeys(c));
    assert |i| == |k| == 5;
    assert i[0] == "c" && i[1] == "b" && i[2] == "m" && i[3] == "l" && i[4] == "e";
    assert k[0] == "c" && k[1] == "b" && k[2] == "m" && k[3] == "l" && k[4] == "f";
    assert i[0][0] == 'c' && i[1][0] == 'b' && i[2][0] == 'm' && i[3][0] == 'l' && i[4][0] == 'e' && k[4][0] == 'f';
  }

  /** It does happen: ids and keys may overlap in value, and a renumbering may reuse a dropped key. */
  lemma DroppedKeyMayBeReused()
    ensures Valid(Renumbered()) && Misnamed(RegistryOf(Renumbered()), "e")
  {
    RenumberedIsValid();
    RenumberedParts();
    RegistryIndexes(Renumbered());
    OnlyKeyIsCarried(RegistryOf(Renumbered()));
  }

  lemma OnlyKeyIsCarried(r: Registry)
    requires r == RegistryOf(Renumbered()) && Knows(r, Exercises(Renumbered())[0])
    requires |Exercises(Renumbered())| == 1 && Exercises(Renumbered())[0].exercise == Exercise("e", "f", "quiz")
    ensures Misnamed(r, "e")
  {
    assert r.exerciseIds.Keys == Elements(ExerciseKeys(Exercises(Renumbered())));
    assert "e"[0] != "f"[0];
    assert "e" !in r.exerciseIds;
  }
}
