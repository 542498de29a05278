/**
 * The flat views of a manifest against its nesting: where a module, and an exercise, of a block of the
 * manifest stands in the lists everything else is derived from.
 */
module Places {
  import opened Text
  import opened Sequences
  import opened Manifest

  /** Exercise `e` of lesson `l` of module `m` of block `b`, counted from zero. */
  datatype Place = Place(b: nat, m: nat, l: nat, e: nat)

  predicate Holds(c: Course, p: Place) {
    && p.b < |c.blocks| && p.m < |c.blocks[p.b].modules| && p.l < |c.blocks[p.b].modules[p.m].lessons|
    && p.e < |c.blocks[p.b].modules[p.m].lessons[p.l].exercises|
  }

  function BlockHere(c: Course, p: Place): (b: Block)
    requires Holds(c, p)
  {
    c.blocks[p.b]
  }

  function ModuleHere(c: Course, p: Place): (m: Module)
    requires Holds(c, p)
  {
    BlockHere(c, p).modules[p.m]
  }

  function LessonHere(c: Course, p: Place): (l: Lesson)
    requires Holds(c, p)
  {
    ModuleHere(c, p).lessons[p.l]
  }

  function ExerciseHere(c: Course, p: Place): (x: Exercise)
    requires Holds(c, p)
  {
    LessonHere(c, p).exercises[p.e]
  }

  /** The exercise with everything around it, as the flat views list it. */
  function Surrounded(c: Course, p: Place): (x: ExerciseAt)
    requires Holds(c, p)
  {
    ExerciseAt(BlockHere(c, p).id, ModuleHere(c, p), LessonHere(c, p), ExerciseHere(c, p))
  }

  /** How many modules come before block `b`. */
  function ModulesBefore(blocks: seq<Block>, b: nat): (n: nat)
    requires b <= |blocks|
  {
    if b == 0 then 0 else |blocks[0].modules| + ModulesBefore(blocks[1..], b - 1)
  }

  /** Modules are listed block by block, each with its block's id. */
  lemma {:induction false} ModuleStands(blocks: seq<Block>, b: nat, m: nat)
    requires b < |blocks| && m < |blocks[b].modules|
    ensures ModulesBefore(blocks, b) + m < |ModulesOf(blocks)|
    ensures ModulesOf(blocks)[ModulesBefore(blocks, b) + m] == ModuleAt(blocks[b].id, blocks[b].modules[m])
    decreases b
  {
    if b > 0 { ModuleStands(blocks[1..], b - 1, m); }
  }

  /** And nothing else is listed. */
  lemma {:induction false} ModuleComesFrom(blocks: seq<Block>, i: nat) returns (b: nat, m: nat)
    requires i < |ModulesOf(blocks)|
    ensures b < |blocks| && m < |blocks[b].modules| && i == ModulesBefore(blocks, b) + m
    ensures ModulesOf(blocks)[i] == ModuleAt(blocks[b].id, blocks[b].modules[m])
    decreases |blocks|
  {
    var n := |blocks[0].modules|;
    if i < n {
      b, m := 0, i;
    } else {
      b, m := ModuleComesFrom(blocks[1..], i - n);
      b := b + 1;
    }
  }

  lemma {:induction false} ExerciseStandsInLessons(lessons: seq<LessonAt>, l: nat, e: nat) returns (k: nat)
    requires l < |lessons| && e < |lessons[l].lesson.exercises|
    ensures k < |ExercisesOf(lessons)|
    ensures ExercisesOf(lessons)[k]
         == ExerciseAt(lessons[l].blockId, lessons[l].mod, lessons[l].lesson, lessons[l].lesson.exercises[e])
    decreases l
  {
    if l == 0 {
      k := e;
    } else {
      k := ExerciseStandsInLessons(lessons[1..], l - 1, e);
      k := k + |lessons[0].lesson.exercises|;
    }
  }

  lemma {:induction false} ExerciseComesFromLessons(lessons: seq<LessonAt>, k: nat) returns (l: nat, e: nat)
    requires k < |ExercisesOf(lessons)|
    ensures l < |lessons| && e < |lessons[l].lesson.exercises|
    ensures ExercisesOf(lessons)[k]
         == ExerciseAt(lessons[l].blockId, lessons[l].mod, lessons[l].lesson, lessons[l].lesson.exercises[e])
    decreases |lessons|
  {
    var n := |lessons[0].lesson.exercises|;
    if k < n {
      l, e := 0, k;
    } else {
      l, e := ExerciseComesFromLessons(lessons[1..], k - n);
      l := l + 1;
    }
  }

  lemma LessonsOfOne(m: ModuleAt)
    ensures LessonsOf([m]) == InModule(m)
  {
    assert [m][1..] == [];
  }

  /** An exercise of a module stands among that module's, with everything around it. */
  lemma ExerciseStands(m: ModuleAt, l: nat, e: nat) returns (k: nat)
    requires l < |m.mod.lessons| && e < |m.mod.lessons[l].exercises|
    ensures k < |ModuleExercises(m)|
    ensures ModuleExercises(m)[k] == ExerciseAt(m.blockId, m.mod, m.mod.lessons[l], m.mod.lessons[l].exercises[e])
  {
    LessonsOfOne(m);
    k := ExerciseStandsInLessons(LessonsOf([m]), l, e);
  }

  lemma ExerciseComesFrom(m: ModuleAt, k: nat) returns (l: nat, e: nat)
    requires k < |ModuleExercises(m)|
    ensures l < |m.mod.lessons| && e < |m.mod.lessons[l].exercises|
    ensures ModuleExercises(m)[k] == ExerciseAt(m.blockId, m.mod, m.mod.lessons[l], m.mod.lessons[l].exercises[e])
  {
    LessonsOfOne(m);
    l, e := ExerciseComesFromLessons(LessonsOf([m]), k);
  }

  /** The flat list of exercises holds what the manifest nests. */
  lemma ListedExercise(c: Course, p: Place) returns (k: nat)
    requires Holds(c, p)
    ensures k < |Exercises(c)| && Exercises(c)[k] == Surrounded(c, p)
  {
    ModuleStands(c.blocks, p.b, p.m);
    var i := ModulesBefore(c.blocks, p.b) + p.m;
    var j := ExerciseStands(Modules(c)[i], p.l, p.e);
    WalkAt(Modules(c), i, j);
    k := |Walk(Modules(c)[..i])| + j;
  }

  /** And nothing else. */
  lemma NestedExercise(c: Course, k: nat) returns (p: Place)
    requires k < |Exercises(c)|
    ensures Holds(c, p) && Exercises(c)[k] == Surrounded(c, p)
  {
    var i, j := WalkFrom(Modules(c), k);
    var b, m := ModuleComesFrom(c.blocks, i);
    var l, e := ExerciseComesFrom(Modules(c)[i], j);
    p := Place(b, m, l, e);
  }

  // ---- what the registry says of a place ----

  /** An exercise of the manifest is found in its block and module, under its lesson, by both its names. */
  lemma RegistryLocates(c: Course, p: Place)
    requires Valid(c) && Holds(c, p)
    ensures
      var (r, x, mod) := (RegistryOf(c), ExerciseHere(c, p), ModuleHere(c, p));
      && x.id in r.locations && r.locations[x.id] == Location(BlockHere(c, p).id, mod.id)
      && x.id in r.homes && r.homes[x.id] == LessonHere(c, p).id
      && x.id in r.exerciseKeys && r.exerciseKeys[x.id] == x.key
      && x.key in r.exerciseIds && r.exerciseIds[x.key] == x.id
      && mod.id in r.moduleKeys && r.moduleKeys[mod.id] == mod.key
      && (x.id != "" ==> DisplayId(r, x.key) == x.id)
  {
    RegistryIndexes(c);
    var k := ListedExercise(c, p);
    assert Knows(RegistryOf(c), Exercises(c)[k]);
    ModuleStands(c.blocks, p.b, p.m);
    var i := ModulesBefore(c.blocks, p.b) + p.m;
    assert Paired(RegistryOf(c).moduleIds, RegistryOf(c).moduleKeys, Modules(c)[i].mod.key, Modules(c)[i].mod.id);
  }

  /** A key no exercise of the manifest has is shown as it is stored. */
  lemma DroppedKeyIsRaw(c: Course, key: string)
    requires Valid(c)
    requires forall p :: Holds(c, p) ==> ExerciseHere(c, p).key != key
    ensures DisplayId(RegistryOf(c), key) == key
  {
    var exs := Exercises(c);
    if key in RegistryOf(c).exerciseIds {
      assert key in Elements(ExerciseKeys(exs));
      var k :| 0 <= k < |exs| && ExerciseKeys(exs)[k] == key;
      var p := NestedExercise(c, k);
    }
  }
}
