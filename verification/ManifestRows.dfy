/** What a reconciliation asks of each table, said of the manifest's own nesting. */
module ManifestRows {
  import opened Text
  import opened Sequences
  import opened Manifest
  import opened Places
  import opened Sync
  import Catalog

  /** A course's row holds its place in the catalogue, a block's its place in the course. */
  lemma CourseAndBlockRows(c: Course, order: nat, b: nat)
    requires Valid(c) && b < |c.blocks|
    ensures RowsFor(c, order).courses == map[c.id := order]
    ensures c.blocks[b].id in RowsFor(c, order).blocks && RowsFor(c, order).blocks[c.blocks[b].id] == b + 1
    ensures RowsFor(c, order).blocks.Keys == set k | 0 <= k < |c.blocks| :: c.blocks[k].id
  {
    var ids := BlockIds(c);
    Catalog.BlockIdsUnique(c);
    DictAt(ids, Numbered(|c.blocks|), b);
    forall x ensures x in Elements(ids) <==> x in (set k | 0 <= k < |c.blocks| :: c.blocks[k].id) {
      if x in Elements(ids) { var k :| 0 <= k < |ids| && ids[k] == x; }
      if k :| 0 <= k < |c.blocks| && c.blocks[k].id == x { assert ids[k] == x; }
    }
  }

  lemma {:induction false} ModuleRowStands(blocks: seq<Block>, keyOf: map<string, string>, b: nat, m: nat)
    requires b < |blocks| && m < |blocks[b].modules|
    ensures ModulesBefore(blocks, b) + m < |ModuleRows(blocks, keyOf)|
    ensures ModuleRows(blocks, keyOf)[ModulesBefore(blocks, b) + m]
         == ModuleAttrs(blocks[b].id, m + 1, Translated(keyOf, blocks[b].modules[m].assumes))
    decreases b
  {
    if b > 0 { ModuleRowStands(blocks[1..], keyOf, b - 1, m); }
  }

  lemma ModuleRowIn(blocks: seq<Block>, keyOf: map<string, string>, b: nat, m: nat)
    requires b < |blocks| && m < |blocks[b].modules| && NoDup(ModuleKeys(ModulesOf(blocks)))
    ensures
      var (rows, mod) := (Dict(ModuleKeys(ModulesOf(blocks)), ModuleRows(blocks, keyOf)), blocks[b].modules[m]);
      mod.key in rows && rows[mod.key] == ModuleAttrs(blocks[b].id, m + 1, Translated(keyOf, mod.assumes))
  {
    ModuleStands(blocks, b, m);
    ModuleRowStands(blocks, keyOf, b, m);
    DictAt(ModuleKeys(ModulesOf(blocks)), ModuleRows(blocks, keyOf), ModulesBefore(blocks, b) + m);
  }

  /** The key of the module with this display id. */
  ghost predicate AssumesKey(c: Course, id: string, key: string) {
    exists k :: 0 <= k < |Modules(c)| && Modules(c)[k].mod.id == id && Modules(c)[k].mod.key == key
  }

  lemma KeyOfAssumed(c: Course, id: string)
    requires Valid(c) && id in ModuleIds(Modules(c))
    ensures id in KeyOfModules(c) && AssumesKey(c, id, KeyOfModules(c)[id])
  {
    NamesUnique(c);
    var k :| 0 <= k < |Modules(c)| && ModuleIds(Modules(c))[k] == id;
    DictAt(ModuleIds(Modules(c)), ModuleKeys(Modules(c)), k);
    assert Modules(c)[k].mod.id == id;
  }

  lemma {:induction false} TranslatedAt(keyOf: map<string, string>, ids: seq<string>)
    ensures |Translated(keyOf, ids)| == |ids|
    ensures forall j :: 0 <= j < |ids| && ids[j] in keyOf ==> Translated(keyOf, ids)[j] == keyOf[ids[j]]
  {
    if ids != [] { TranslatedAt(keyOf, ids[1..]); }
  }

  /** Translated, a module's prerequisites are the permanent keys of the modules it assumes. */
  lemma AssumedKeys(c: Course, b: nat, m: nat)
    requires Valid(c) && b < |c.blocks| && m < |c.blocks[b].modules|
    ensures
      var (assumes, keys) := (c.blocks[b].modules[m].assumes,
                              Translated(KeyOfModules(c), c.blocks[b].modules[m].assumes));
      |keys| == |assumes| && forall j :: 0 <= j < |assumes| ==> AssumesKey(c, assumes[j], keys[j])
  {
    var (i, assumes) := (ModulesBefore(c.blocks, b) + m, c.blocks[b].modules[m].assumes);
    ModuleStands(c.blocks, b, m);
    TranslatedAt(KeyOfModules(c), assumes);
    assert AssumesKnown(Modules(c), Modules(c)[i].mod);
    forall j | 0 <= j < |assumes| ensures AssumesKey(c, assumes[j], Translated(KeyOfModules(c), assumes)[j]) {
      KeyOfAssumed(c, assumes[j]);
    }
  }

  /** A module's row holds its block, its place in it, and its prerequisites by permanent key. */
  lemma ModuleRow(c: Course, order: nat, b: nat, m: nat)
    requires Valid(c) && b < |c.blocks| && m < |c.blocks[b].modules|
    ensures
      var (rows, mod) := (RowsFor(c, order).modules, c.blocks[b].modules[m]);
      && mod.key in rows && rows[mod.key].blockId == c.blocks[b].id && rows[mod.key].orderIndex == m + 1
      && |rows[mod.key].assumes| == |mod.assumes|
      && forall j :: 0 <= j < |mod.assumes| ==> AssumesKey(c, mod.assumes[j], rows[mod.key].assumes[j])
  {
    NamesUnique(c);
    ModuleRowIn(c.blocks, KeyOfModules(c), b, m);
    AssumedKeys(c, b, m);
  }

  lemma {:induction false} LessonRowStands(mods: seq<ModuleAt>, i: nat, l: nat) returns (k: nat)
    requires i < |mods| && l < |mods[i].mod.lessons|
    ensures k < |LessonsOf(mods)| == |LessonRows(mods)|
    ensures LessonsOf(mods)[k] == LessonAt(mods[i].blockId, mods[i].mod, mods[i].mod.lessons[l])
    ensures LessonRows(mods)[k] == LessonAttrs(mods[i].mod.key, l + 1)
    decreases i
  {
    if i == 0 {
      k := l;
    } else {
      k := LessonRowStands(mods[1..], i - 1, l);
      k := k + |mods[0].mod.lessons|;
    }
  }

  lemma LessonRowIn(mods: seq<ModuleAt>, i: nat, l: nat)
    requires i < |mods| && l < |mods[i].mod.lessons| && NoDup(LessonKeys(LessonsOf(mods)))
    ensures
      var (rows, mod) := (Dict(LessonKeys(LessonsOf(mods)), LessonRows(mods)), mods[i].mod);
      mod.lessons[l].key in rows && rows[mod.lessons[l].key] == LessonAttrs(mod.key, l + 1)
  {
    var k := LessonRowStands(mods, i, l);
    DictAt(LessonKeys(LessonsOf(mods)), LessonRows(mods), k);
  }

  /** A lesson's row holds its module and its place in it. */
  lemma LessonRow(c: Course, order: nat, b: nat, m: nat, l: nat)
    requires Valid(c) && b < |c.blocks| && m < |c.blocks[b].modules| && l < |c.blocks[b].modules[m].lessons|
    ensures
      var (rows, mod) := (RowsFor(c, order).lessons, c.blocks[b].modules[m]);
      mod.lessons[l].key in rows && rows[mod.lessons[l].key] == LessonAttrs(mod.key, l + 1)
  {
    NamesUnique(c);
    ModuleStands(c.blocks, b, m);
    LessonRowIn(Modules(c), ModulesBefore(c.blocks, b) + m, l);
  }

  lemma {:induction false} ExerciseRowStands(lessons: seq<LessonAt>, k: nat, e: nat) returns (j: nat)
    requires k < |lessons| && e < |lessons[k].lesson.exercises|
    ensures j < |ExercisesOf(lessons)| == |ExerciseRows(lessons)|
    ensures ExercisesOf(lessons)[j].exercise == lessons[k].lesson.exercises[e]
    ensures ExerciseRows(lessons)[j]
         == ExerciseAttrs(lessons[k].mod.key, lessons[k].lesson.key, lessons[k].lesson.exercises[e].kind, e + 1)
    decreases k
  {
    if k == 0 {
      j := e;
    } else {
      j := ExerciseRowStands(lessons[1..], k - 1, e);
      j := j + |lessons[0].lesson.exercises|;
    }
  }

  lemma ExerciseRowIn(lessons: seq<LessonAt>, k: nat, e: nat)
    requires k < |lessons| && e < |lessons[k].lesson.exercises| && NoDup(ExerciseKeys(ExercisesOf(lessons)))
    ensures
      var (rows, x) := (Dict(ExerciseKeys(ExercisesOf(lessons)), ExerciseRows(lessons)),
                        lessons[k].lesson.exercises[e]);
      x.key in rows && rows[x.key] == ExerciseAttrs(lessons[k].mod.key, lessons[k].lesson.key, x.kind, e + 1)
  {
    var j := ExerciseRowStands(lessons, k, e);
    DictAt(ExerciseKeys(ExercisesOf(lessons)), ExerciseRows(lessons), j);
  }

  /** An exercise's row holds its module, its lesson, its kind and its place in the lesson. */
  lemma ExerciseRow(c: Course, order: nat, p: Place)
    requires Valid(c) && Holds(c, p)
    ensures
      var (rows, x) := (RowsFor(c, order).exercises, ExerciseHere(c, p));
      x.key in rows
      && rows[x.key] == ExerciseAttrs(ModuleHere(c, p).key, LessonHere(c, p).key, x.kind, p.e + 1)
  {
    ModuleStands(c.blocks, p.b, p.m);
    var k := LessonRowStands(Modules(c), ModulesBefore(c.blocks, p.b) + p.m, p.l);
    NamesUnique(c);
    ExerciseRowIn(Lessons(c), k, p.e);
  }

  /** No table is asked for a row of anything the manifest lacks. */
  lemma NoOtherRows(c: Course, order: nat, key: string)
    requires Valid(c)
    ensures key in RowsFor(c, order).exercises ==> exists p :: Holds(c, p) && ExerciseHere(c, p).key == key
    ensures key in RowsFor(c, order).modules ==> exists k :: 0 <= k < |Modules(c)| && Modules(c)[k].mod.key == key
    ensures key in RowsFor(c, order).lessons ==> exists k :: 0 <= k < |Lessons(c)| && Lessons(c)[k].lesson.key == key
  {
    if key in RowsFor(c, order).exercises {
      assert key in Elements(ExerciseKeys(Exercises(c)));
      var k :| 0 <= k < |Exercises(c)| && ExerciseKeys(Exercises(c))[k] == key;
      var p := NestedExercise(c, k);
      assert Holds(c, p) && ExerciseHere(c, p).key == key;
    }
    if key in RowsFor(c, order).modules {
      assert key in Elements(ModuleKeys(Modules(c)));
      var k :| 0 <= k < |Modules(c)| && ModuleKeys(Modules(c))[k] == key;
      assert Modules(c)[k].mod.key == key;
    }
    if key in RowsFor(c, order).lessons {
      assert key in Elements(LessonKeys(Lessons(c)));
      var k :| 0 <= k < |Lessons(c)| && LessonKeys(Lessons(c))[k] == key;
      assert Lessons(c)[k].lesson.key == key;
    }
  }
}
