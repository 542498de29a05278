/** Reconciling a manifest into the skeleton tables: an upsert by permanent key that never deletes. */
module Sync {
  import opened Sequences
  import opened Manifest

  /** A row of any skeleton table: whether it is active, and its attributes. */
  datatype Row<A> = Row(active: bool, attrs: A)

  /** Rows by course and permanent key. */
  type Table<A> = map<(string, string), Row<A>>

  datatype Summary = Summary(inserted: nat, updated: nat, deactivated: nat)

  function Sum(a: Summary, b: Summary): (c: Summary) {
    Summary(a.inserted + b.inserted, a.updated + b.updated, a.deactivated + b.deactivated)
  }

  // ---- one table ----

  /** The table a manifest's rows leave: theirs active and as given, the course's others inactive, the rest alone. */
  function Upserted<A>(table: Table<A>, course: string, rows: map<string, A>): (t: Table<A>) {
    map k | k in table.Keys + Keyed(course, rows.Keys) ::
      if k.0 == course && k.1 in rows then Row(true, rows[k.1])
      else if k.0 == course then table[k].(active := false)
      else table[k]
  }

  function Keyed(course: string, ids: set<string>): (r: set<(string, string)>)
    ensures forall k :: k in r <==> k.0 == course && k.1 in ids
  {
    set id | id in ids :: (course, id)
  }

  function NewIds<A>(table: Table<A>, course: string, rows: map<string, A>): (r: set<string>) {
    set id | id in rows && (course, id) !in table
  }

  function StaleIds<A(==)>(table: Table<A>, course: string, rows: map<string, A>): (r: set<string>) {
    set id | id in rows && (course, id) in table && table[(course, id)] != Row(true, rows[id])
  }

  function DroppedKeys<A>(table: Table<A>, course: string, rows: map<string, A>): (r: set<(string, string)>) {
    set k | k in table && k.0 == course && k.1 !in rows && table[k].active
  }

  function Counted<A(==)>(table: Table<A>, course: string, rows: map<string, A>): (s: Summary) {
    Summary(|NewIds(table, course, rows)|, |StaleIds(table, course, rows)|, |DroppedKeys(table, course, rows)|)
  }

  /** The rows one table has and an earlier one had not. */
  function Added<A>(before: Table<A>, after: Table<A>): (r: set<(string, string)>) {
    set k | k in after && k !in before
  }

  /** The rows that are active now and were otherwise. */
  function Refreshed<A(==)>(before: Table<A>, after: Table<A>): (r: set<(string, string)>) {
    set k | k in after && k in before && after[k].active && after[k] != before[k]
  }

  /** The rows that were active and are not. */
  function Retired<A>(before: Table<A>, after: Table<A>): (r: set<(string, string)>) {
    set k | k in after && k in before && before[k].active && !after[k].active
  }

  lemma {:induction false} KeyedSize(course: string, ids: set<string>)
    ensures |Keyed(course, ids)| == |ids|
    decreases |ids|
  {
    if ids != {} {
      var id :| id in ids;
      KeyedSize(course, ids - {id});
      assert Keyed(course, ids) == Keyed(course, ids - {id}) + {(course, id)};
    }
  }

  /** The counters say how the table differs afterwards: rows added, rows changed, rows gone inactive. */
  lemma CountedIsDifference<A>(table: Table<A>, course: string, rows: map<string, A>)
    ensures
      var t := Upserted(table, course, rows);
      Counted(table, course, rows) == Summary(|Added(table, t)|, |Refreshed(table, t)|, |Retired(table, t)|)
  {
    var t := Upserted(table, course, rows);
    assert Added(table, t) == Keyed(course, NewIds(table, course, rows));
    KeyedSize(course, NewIds(table, course, rows));
    assert Refreshed(table, t) == Keyed(course, StaleIds(table, course, rows));
    KeyedSize(course, StaleIds(table, course, rows));
    assert Retired(table, t) == DroppedKeys(table, course, rows);
  }

  /** The table once some of the rows are upserted and nothing is deactivated yet. */
  function Partly<A>(table: Table<A>, course: string, rows: map<string, A>, done: set<string>): (t: Table<A>)
    requires done <= rows.Keys
  {
    map k | k in table.Keys + Keyed(course, done) :: if k.0 == course && k.1 in done then Row(true, rows[k.1])
      else table[k]
  }

  datatype Change = Inserted | Updated | Kept

  /** One row: inserted, brought up to date, or found as it should be. */
  method UpsertOne<A(==)>(table: Table<A>, k: (string, string), attrs: A) returns (t: Table<A>, change: Change)
    ensures t == table[k := Row(true, attrs)]
    ensures change == if k !in table then Inserted else if table[k] != Row(true, attrs) then Updated else Kept
  {
    if k !in table { return table[k := Row(true, attrs)], Inserted; }
    var current := table[k];
    var changed := !current.active;
    if current.attrs != attrs {
      current := current.(attrs := attrs);
      changed := true;
    }
    if !current.active { current := current.(active := true); }
    t, change := table[k := current], if changed then Updated else Kept;
  }

  lemma PartlyMore<A>(table: Table<A>, course: string, rows: map<string, A>, done: set<string>, id: string)
    requires done <= rows.Keys && id in rows && id !in done
    ensures Partly(table, course, rows, done + {id})
         == Partly(table, course, rows, done)[(course, id) := Row(true, rows[id])]
    ensures (course, id) in Partly(table, course, rows, done) <==> (course, id) in table
    ensures (course, id) in table ==> Partly(table, course, rows, done)[(course, id)] == table[(course, id)]
  {
    var (t, u) := (Partly(table, course, rows, done + {id}),
                   Partly(table, course, rows, done)[(course, id) := Row(true, rows[id])]);
    forall k ensures k in t <==> k in u {}
    forall k | k in t ensures t[k] == u[k] {}
  }

  /** How many of a list are in a set, one after another. */
  function Hits<T(==)>(listed: seq<T>, s: set<T>): (n: nat) {
    if listed == [] then 0 else Hits(listed[..|listed| - 1], s) + (if listed[|listed| - 1] in s then 1 else 0)
  }

  lemma {:induction false} HitsAll<T>(listed: seq<T>, s: set<T>)
    requires NoDup(listed) && s <= Elements(listed)
    ensures Hits(listed, s) == |s|
  {
    if listed != [] {
      var (n, x) := (|listed| - 1, listed[|listed| - 1]);
      assert listed == listed[..n] + [x] && x !in listed[..n];
      HitsSame(listed[..n], s, s - {x});
      HitsAll(listed[..n], s - {x});
    }
  }

  lemma {:induction false} HitsSame<T>(listed: seq<T>, s: set<T>, t: set<T>)
    requires forall x :: x in listed ==> (x in s <==> x in t)
    ensures Hits(listed, s) == Hits(listed, t)
  {
    if listed != [] { HitsSame(listed[..|listed| - 1], s, t); }
  }

  lemma NextHit<T>(listed: seq<T>, i: nat, s: set<T>)
    requires i < |listed|
    ensures Hits(listed[..i + 1], s) == Hits(listed[..i], s) + (if listed[i] in s then 1 else 0)
  {
    assert listed[..i + 1][..i] == listed[..i];
  }

  method UpsertNext<A(==)>(table: Table<A>, ghost start: Table<A>, course: string, rows: map<string, A>,
                           ghost done: set<string>,
                           ghost more: set<string>, id: string) returns (t: Table<A>, change: Change)
    requires done <= rows.Keys && table == Partly(start, course, rows, done) && id in rows && id !in done
    requires more == done + {id}
    ensures t == Partly(start, course, rows, more)
    ensures change.Inserted? <==> id in NewIds(start, course, rows)
    ensures change.Updated? <==> id in StaleIds(start, course, rows)
  {
    PartlyMore(start, course, rows, done, id);
    t, change := UpsertOne(table, (course, id), rows[id]);
  }

  /** The first `i` listed rows are upserted; so many were new, and so many were stale. */
  ghost predicate Applied<A>(start: Table<A>, course: string, rows: map<string, A>, listed: seq<string>, i: nat,
                             t: Table<A>, s: Summary)
    requires i <= |listed| && Elements(listed) == rows.Keys
  {
    && Elements(listed[..i]) <= rows.Keys
    && t == Partly(start, course, rows, Elements(listed[..i]))
    && s.inserted == Hits(listed[..i], NewIds(start, course, rows))
    && s.updated == Hits(listed[..i], StaleIds(start, course, rows))
    && s.deactivated == 0
  }

  method UpsertStep<A(==)>(table: Table<A>, summary: Summary, ghost start: Table<A>, course: string,
                           rows: map<string, A>, listed: seq<string>, i: nat)
    returns (t: Table<A>, s: Summary)
    requires NoDup(listed) && Elements(listed) == rows.Keys && i < |listed|
    requires Applied(start, course, rows, listed, i, table, summary)
    ensures Applied(start, course, rows, listed, i + 1, t, s)
  {
    NextListed(listed, i);
    NextHit(listed, i, NewIds(start, course, rows));
    NextHit(listed, i, StaleIds(start, course, rows));
    var change;
    t, change := UpsertNext(table, start, course, rows, Elements(listed[..i]), Elements(listed[..i + 1]), listed[i]);
    s := summary;
    if change.Inserted? { s := s.(inserted := s.inserted + 1); }
    if change.Updated? { s := s.(updated := s.updated + 1); }
  }

  /** The rows, in the order the dictionary lists them, counting as it goes. */
  method UpsertRows<A(==)>(table: Table<A>, course: string, rows: map<string, A>, listed: seq<string>)
    returns (t: Table<A>, summary: Summary)
    requires NoDup(listed) && Elements(listed) == rows.Keys
    ensures t == Partly(table, course, rows, rows.Keys)
    ensures summary == Summary(|NewIds(table, course, rows)|, |StaleIds(table, course, rows)|, 0)
  {
    t, summary := table, Summary(0, 0, 0);
    var i := 0;
    NoneApplied(table, course, rows, listed);
    while i < |listed|
      invariant 0 <= i <= |listed| && Applied(table, course, rows, listed, i, t, summary)
    {
      t, summary := UpsertStep(t, summary, table, course, rows, listed, i);
      i := i + 1;
    }
    AllApplied(table, course, rows, listed, t, summary);
  }

  lemma NoneApplied<A>(table: Table<A>, course: string, rows: map<string, A>, listed: seq<string>)
    requires Elements(listed) == rows.Keys
    ensures Applied(table, course, rows, listed, 0, table, Summary(0, 0, 0))
  {
    assert Partly(table, course, rows, {}) == table;
  }

  lemma AllApplied<A>(start: Table<A>, course: string, rows: map<string, A>, listed: seq<string>, t: Table<A>,
                      s: Summary)
    requires NoDup(listed) && Elements(listed) == rows.Keys
    requires Applied(start, course, rows, listed, |listed|, t, s)
    ensures t == Partly(start, course, rows, rows.Keys)
    ensures s == Summary(|NewIds(start, course, rows)|, |StaleIds(start, course, rows)|, 0)
  {
    TakeAll(listed);
    HitsAll(listed, NewIds(start, course, rows));
    HitsAll(listed, StaleIds(start, course, rows));
  }

  lemma NextListed<T>(listed: seq<T>, i: nat)
    requires NoDup(listed) && i < |listed|
    ensures listed[i] in Elements(listed) && listed[i] !in Elements(listed[..i])
    ensures Elements(listed[..i + 1]) == Elements(listed[..i]) + {listed[i]} <= Elements(listed)
  {
    assert listed[..i + 1] == listed[..i] + [listed[i]];
  }

  /** The table with those walked so far deactivated if the manifest does not name them. */
  function Fading<A>(table: Table<A>, rows: map<string, A>, done: set<(string, string)>): (t: Table<A>) {
    map k | k in table :: if k in done && k.1 !in rows then table[k].(active := false) else table[k]
  }

  lemma FadingMore<A>(table: Table<A>, rows: map<string, A>, done: set<(string, string)>, k: (string, string))
    requires k in table && k !in done
    ensures Fading(table, rows, done)[k] == table[k]
    ensures Fading(table, rows, done + {k})
      == if k.1 !in rows && table[k].active then Fading(table, rows, done)[k := table[k].(active := false)]
        else Fading(table, rows, done)
  {
  }

  /** Those of the walked rows that go from active to inactive. */
  function Fallen<A>(table: Table<A>, rows: map<string, A>, walked: set<(string, string)>): (r: set<(string, string)>)
    requires walked <= table.Keys
  {
    set k | k in walked && k.1 !in rows && table[k].active
  }

  method FadeNext<A>(table: Table<A>, ghost start: Table<A>, rows: map<string, A>, ghost done: set<(string, string)>,
                     ghost more: set<(string, string)>, k: (string, string))
    returns (t: Table<A>, faded: bool)
    requires table == Fading(start, rows, done) && k in start && k !in done && more == done + {k}
    ensures t == Fading(start, rows, more)
    ensures faded == (k.1 !in rows && start[k].active)
  {
    FadingMore(start, rows, done, k);
    faded := k.1 !in rows && table[k].active;
    t := if faded then table[k := table[k].(active := false)] else table;
  }

  /** The first `i` fetched rows are walked, and so many of them fell. */
  ghost predicate Faded<A>(start: Table<A>, rows: map<string, A>, fetched: seq<(string, string)>, i: nat, t: Table<A>,
                           count: nat)
    requires i <= |fetched| && Elements(fetched) <= start.Keys
  {
    t == Fading(start, rows, Elements(fetched[..i]))
      && count == Hits(fetched[..i], Fallen(start, rows, Elements(fetched)))
  }

  method FadeStep<A>(table: Table<A>, count: nat, ghost start: Table<A>, rows: map<string, A>,
                     fetched: seq<(string, string)>, i: nat)
    returns (t: Table<A>, more: nat)
    requires NoDup(fetched) && Elements(fetched) <= start.Keys && i < |fetched|
    requires Faded(start, rows, fetched, i, table, count)
    ensures Faded(start, rows, fetched, i + 1, t, more)
  {
    NextListed(fetched, i);
    NextHit(fetched, i, Fallen(start, rows, Elements(fetched)));
    var faded;
    t, faded := FadeNext(table, start, rows, Elements(fetched[..i]), Elements(fetched[..i + 1]), fetched[i]);
    more := if faded then count + 1 else count;
  }

  /** What the manifest no longer names goes inactive, in the order the rows were fetched. */
  method DeactivateRest<A>(table: Table<A>, rows: map<string, A>, fetched: seq<(string, string)>)
    returns (t: Table<A>, deactivated: nat)
    requires NoDup(fetched) && Elements(fetched) <= table.Keys
    ensures t == Fading(table, rows, Elements(fetched))
    ensures deactivated == |Fallen(table, rows, Elements(fetched))|
  {
    t, deactivated := table, 0;
    var i := 0;
    assert Fading(table, rows, {}) == table;
    while i < |fetched|
      invariant 0 <= i <= |fetched| && Faded(table, rows, fetched, i, t, deactivated)
    {
      t, deactivated := FadeStep(t, deactivated, table, rows, fetched, i);
      i := i + 1;
    }
    TakeAll(fetched);
    HitsAll(fetched, Fallen(table, rows, Elements(fetched)));
  }

  lemma FadedIsUpserted<A>(table: Table<A>, course: string, rows: map<string, A>, existing: set<(string, string)>)
    requires existing == set k | k in table && k.0 == course
    ensures existing <= Partly(table, course, rows, rows.Keys).Keys
    ensures Fading(Partly(table, course, rows, rows.Keys), rows, existing) == Upserted(table, course, rows)
    ensures DroppedKeys(table, course, rows) == Fallen(Partly(table, course, rows, rows.Keys), rows, existing)
  {
    var (t, u) := (Fading(Partly(table, course, rows, rows.Keys), rows, existing), Upserted(table, course, rows));
    forall k | k in u ensures k in t && t[k] == u[k] {}
  }

  /** A course's rows as a query lists them, in any order. */
  ghost predicate Fetched<A>(fetched: seq<(string, string)>, table: Table<A>, course: string) {
    NoDup(fetched) && forall k :: k in fetched <==> k in table && k.0 == course
  }

  /** The query itself: the order is whatever the database makes it. */
  method FetchRows<A>(table: Table<A>, course: string) returns (fetched: seq<(string, string)>)
    ensures Fetched(fetched, table, course)
  {
    fetched := Query(table, (k: (string, string)) => k.0 == course);
  }

  method Query<A>(table: Table<A>, where: ((string, string)) -> bool) returns (fetched: seq<(string, string)>)
    ensures NoDup(fetched) && forall k :: k in fetched <==> k in table && where(k)
  {
    fetched := [];
    var rest := set k | k in table && where(k);
    while rest != {}
      invariant forall k :: k in rest ==> k in table && where(k)
      invariant NoDup(fetched)
      invariant forall k :: k in fetched || k in rest <==> k in table && where(k)
      invariant forall k :: k in fetched ==> k !in rest
      decreases |rest|
    {
      var k :| k in rest;
      fetched := fetched + [k];
      rest := rest - {k};
    }
  }

  method Upsert<A(==)>(table: Table<A>, course: string, rows: map<string, A>, listed: seq<string>)
    returns (t: Table<A>, summary: Summary)
    requires NoDup(listed) && Elements(listed) == rows.Keys
    ensures t == Upserted(table, course, rows)
    ensures summary == Counted(table, course, rows)
  {
    var deactivated;
    var fetched := FetchRows(table, course);
    t, summary := UpsertRows(table, course, rows, listed);
    FadedIsUpserted(table, course, rows, Elements(fetched));
    t, deactivated := DeactivateRest(t, rows, fetched);
    summary := summary.(deactivated := deactivated);
  }

  // ---- what one upsert leaves ----

  /** The course's active rows are exactly these, with these attributes. */
  ghost predicate Mirrors<A>(table: Table<A>, course: string, rows: map<string, A>) {
    forall id :: ((course, id) in table && table[(course, id)].active <==> id in rows)
              && (id in rows ==> (course, id) in table && table[(course, id)].attrs == rows[id])
  }

  lemma UpsertMirrors<A>(table: Table<A>, course: string, rows: map<string, A>)
    ensures Mirrors(Upserted(table, course, rows), course, rows)
    ensures table.Keys <= Upserted(table, course, rows).Keys
    ensures forall k :: k in Upserted(table, course, rows) && k.0 != course ==>
      k in table && Upserted(table, course, rows)[k] == table[k]
  {
  }

  /** A table that already mirrors the rows is left as it is, and nothing is counted. */
  lemma UpsertOfMirror<A>(table: Table<A>, course: string, rows: map<string, A>)
    requires Mirrors(table, course, rows)
    ensures Upserted(table, course, rows) == table && Counted(table, course, rows) == Summary(0, 0, 0)
  {
    var t := Upserted(table, course, rows);
    forall k | k in t ensures k in table && t[k] == table[k] {
      assert k == (k.0, k.1);
      if k.0 == course { assert ((course, k.1) in table && table[(course, k.1)].active) <==> k.1 in rows; }
    }
    assert NewIds(table, course, rows) == {} && StaleIds(table, course, rows) == {};
    forall k | k in table && k.0 == course ensures k.1 in rows || !table[k].active {
      assert k == (course, k.1);
    }
    assert DroppedKeys(table, course, rows) == {};
  }

  // ---- what a manifest says of each table ----

  datatype ModuleAttrs = ModuleAttrs(blockId: string, orderIndex: nat, assumes: seq<string>)
  datatype LessonAttrs = LessonAttrs(moduleKey: string, orderIndex: nat)
  datatype ExerciseAttrs = ExerciseAttrs(moduleKey: string, lessonKey: string, kind: string, orderIndex: nat)

  /** One dictionary of rows per table, by permanent key. */
  datatype Rows = Rows(
    courses: map<string, nat>, blocks: map<string, nat>, modules: map<string, ModuleAttrs>,
    lessons: map<string, LessonAttrs>, exercises: map<string, ExerciseAttrs>)

  /** A module's prerequisites, named by display id in the manifest and by key in the table. */
  function Translated(keyOf: map<string, string>, ids: seq<string>): (r: seq<string>) {
    if ids == [] then [] else [if ids[0] in keyOf then keyOf[ids[0]] else ids[0]] + Translated(keyOf, ids[1..])
  }

  function ModulesIn(b: Block, keyOf: map<string, string>): (r: seq<ModuleAttrs>)
    ensures |r| == |b.modules|
  {
    seq(|b.modules|,
        i requires 0 <= i < |b.modules| => ModuleAttrs(b.id, i + 1, Translated(keyOf, b.modules[i].assumes)))
  }

  function LessonsIn(m: ModuleAt): (r: seq<LessonAttrs>)
    ensures |r| == |m.mod.lessons|
  {
    seq(|m.mod.lessons|, i requires 0 <= i < |m.mod.lessons| => LessonAttrs(m.mod.key, i + 1))
  }

  function ExercisesIn(l: LessonAt): (r: seq<ExerciseAttrs>)
    ensures |r| == |l.lesson.exercises|
  {
    seq(|l.lesson.exercises|, i requires 0 <= i < |l.lesson.exercises| =>
      ExerciseAttrs(l.mod.key, l.lesson.key, l.lesson.exercises[i].kind, i + 1))
  }

  function ModuleRows(blocks: seq<Block>, keyOf: map<string, string>): (r: seq<ModuleAttrs>)
    ensures |r| == |ModulesOf(blocks)|
  {
    if blocks == [] then [] else ModulesIn(blocks[0], keyOf) + ModuleRows(blocks[1..], keyOf)
  }

  function LessonRows(mods: seq<ModuleAt>): (r: seq<LessonAttrs>)
    ensures |r| == |LessonsOf(mods)|
  {
    if mods == [] then [] else LessonsIn(mods[0]) + LessonRows(mods[1..])
  }

  function ExerciseRows(lessons: seq<LessonAt>): (r: seq<ExerciseAttrs>)
    ensures |r| == |ExercisesOf(lessons)|
  {
    if lessons == [] then [] else ExercisesIn(lessons[0]) + ExerciseRows(lessons[1..])
  }

  function Numbered(n: nat): (r: seq<nat>)
    ensures |r| == n
  {
    seq(n, i => i + 1)
  }

  function KeyOfModules(c: Course): (m: map<string, string>) {
    Dict(ModuleIds(Modules(c)), ModuleKeys(Modules(c)))
  }

  /** The rows a manifest asks for, at a place in the catalogue. */
  function RowsFor(c: Course, order: nat): (r: Rows) {
    Rows(map[c.id := order],
         Dict(BlockIds(c), Numbered(|c.blocks|)),
         Dict(ModuleKeys(Modules(c)), ModuleRows(c.blocks, KeyOfModules(c))),
         Dict(LessonKeys(Lessons(c)), LessonRows(Modules(c))),
         Dict(ExerciseKeys(Exercises(c)), ExerciseRows(Lessons(c))))
  }

  // ---- reconciling one course ----

  datatype Db = Db(courses: Table<nat>, blocks: Table<nat>, modules: Table<ModuleAttrs>, lessons: Table<LessonAttrs>,
                   exercises: Table<ExerciseAttrs>)

  function Reconciled(d: Db, course: string, r: Rows): (e: Db) {
    Db(Upserted(d.courses, course, r.courses), Upserted(d.blocks, course, r.blocks),
       Upserted(d.modules, course, r.modules),
       Upserted(d.lessons, course, r.lessons), Upserted(d.exercises, course, r.exercises))
  }

  function Tally(d: Db, course: string, r: Rows): (s: Summary) {
    Sum(Sum(Sum(Sum(Counted(d.courses, course, r.courses), Counted(d.blocks, course, r.blocks)),
        Counted(d.modules, course, r.modules)), Counted(d.lessons, course, r.lessons)),
          Counted(d.exercises, course, r.exercises))
  }

  /** A reconciliation's summary is how all five tables differ afterwards. */
  lemma TallyIsDifference(d: Db, course: string, r: Rows)
    ensures
      var (e, s) := (Reconciled(d, course, r), Tally(d, course, r));
      && s.inserted == |Added(d.courses, e.courses)| + |Added(d.blocks, e.blocks)| + |Added(d.modules, e.modules)|
                       + |Added(d.lessons, e.lessons)| + |Added(d.exercises, e.exercises)|
      && s.updated == |Refreshed(d.courses, e.courses)| + |Refreshed(d.blocks, e.blocks)|
                      + |Refreshed(d.modules, e.modules)| + |Refreshed(d.lessons, e.lessons)|
                      + |Refreshed(d.exercises, e.exercises)|
      && s.deactivated == |Retired(d.courses, e.courses)| + |Retired(d.blocks, e.blocks)|
                          + |Retired(d.modules, e.modules)| + |Retired(d.lessons, e.lessons)|
                          + |Retired(d.exercises, e.exercises)|
  {
    CountedIsDifference(d.courses, course, r.courses);
    CountedIsDifference(d.blocks, course, r.blocks);
    CountedIsDifference(d.modules, course, r.modules);
    CountedIsDifference(d.lessons, course, r.lessons);
    CountedIsDifference(d.exercises, course, r.exercises);
  }

  /** Every row's parents are there. */
  ghost predicate Rooted(d: Db) {
    && (forall k :: k in d.blocks ==> (k.0, k.0) in d.courses)
    && (forall k :: k in d.modules ==> (k.0, d.modules[k].attrs.blockId) in d.blocks)
    && (forall k :: k in d.lessons ==> (k.0, d.lessons[k].attrs.moduleKey) in d.modules)
    && (forall k :: k in d.exercises ==>
          (k.0, d.exercises[k].attrs.moduleKey) in d.modules && (k.0, d.exercises[k].attrs.lessonKey) in d.lessons)
  }

  /** The rows name each other: every parent a row names is a row of the table above. */
  ghost predicate Closed(r: Rows, course: string) {
    && course in r.courses
    && (forall k :: k in r.modules ==> r.modules[k].blockId in r.blocks)
    && (forall k :: k in r.lessons ==> r.lessons[k].moduleKey in r.modules)
    && (forall k :: k in r.exercises ==> r.exercises[k].moduleKey in r.modules && r.exercises[k].lessonKey in r.lessons)
  }

  ghost predicate MirrorsAll(d: Db, course: string, r: Rows) {
    && Mirrors(d.courses, course, r.courses) && Mirrors(d.blocks, course, r.blocks)
    && Mirrors(d.modules, course, r.modules)
    && Mirrors(d.lessons, course, r.lessons) && Mirrors(d.exercises, course, r.exercises)
  }

  /** Nothing of another course differs, in any table. */
  ghost predicate SameElsewhere(d: Db, e: Db, course: string) {
    && Elsewhere(d.courses, e.courses, course) && Elsewhere(d.blocks, e.blocks, course)
    && Elsewhere(d.modules, e.modules, course)
    && Elsewhere(d.lessons, e.lessons, course) && Elsewhere(d.exercises, e.exercises, course)
  }

  ghost predicate Elsewhere<A>(t: Table<A>, u: Table<A>, course: string) {
    forall k: (string, string) :: k.0 != course ==> (k in t <==> k in u) && (k in t ==> t[k] == u[k])
  }

  ghost predicate NothingDeleted(d: Db, e: Db) {
    d.courses.Keys <= e.courses.Keys && d.blocks.Keys <= e.blocks.Keys && d.modules.Keys <= e.modules.Keys
    && d.lessons.Keys <= e.lessons.Keys && d.exercises.Keys <= e.exercises.Keys
  }

  /** One reconciliation: the course's active rows become exactly the manifest's, and nothing else moves. */
  lemma ReconcileMirrors(d: Db, course: string, r: Rows)
    ensures MirrorsAll(Reconciled(d, course, r), course, r)
    ensures SameElsewhere(d, Reconciled(d, course, r), course) && NothingDeleted(d, Reconciled(d, course, r))
  {
    UpsertMirrors(d.courses, course, r.courses);
    UpsertMirrors(d.blocks, course, r.blocks);
    UpsertMirrors(d.modules, course, r.modules);
    UpsertMirrors(d.lessons, course, r.lessons);
    UpsertMirrors(d.exercises, course, r.exercises);
  }

  /** A second run finds nothing to do: 0 inserted, 0 updated, 0 deactivated. */
  lemma SecondRunIsQuiet(d: Db, course: string, r: Rows)
    requires MirrorsAll(d, course, r)
    ensures Reconciled(d, course, r) == d && Tally(d, course, r) == Summary(0, 0, 0)
  {
    UpsertOfMirror(d.courses, course, r.courses);
    UpsertOfMirror(d.blocks, course, r.blocks);
    UpsertOfMirror(d.modules, course, r.modules);
    UpsertOfMirror(d.lessons, course, r.lessons);
    UpsertOfMirror(d.exercises, course, r.exercises);
  }

  // ---- parents before children ----

  function Stage1(d: Db, course: string, r: Rows): (e: Db) { d.(courses := Upserted(d.courses, course, r.courses)) }

  function Stage2(d: Db, course: string, r: Rows): (e: Db) {
    d.(blocks := Upserted(d.blocks, course, r.blocks), modules := Upserted(d.modules, course, r.modules))
  }

  function Stage3(d: Db, course: string, r: Rows): (e: Db) { d.(lessons := Upserted(d.lessons, course, r.lessons)) }

  function Stage4(d: Db, course: string, r: Rows): (e: Db) {
    d.(exercises := Upserted(d.exercises, course, r.exercises))
  }

  lemma Stage1Rooted(d: Db, course: string, r: Rows)
    requires Rooted(d) && Closed(r, course)
    ensures Rooted(Stage1(d, course, r)) && (course, course) in Stage1(d, course, r).courses
  {
  }

  lemma Stage2Rooted(d: Db, course: string, r: Rows)
    requires Rooted(d) && Closed(r, course) && (course, course) in d.courses
    ensures Rooted(Stage2(d, course, r))
    ensures forall id :: id in r.modules ==> (course, id) in Stage2(d, course, r).modules
  {
    var e := Stage2(d, course, r);
    forall k | k in e.modules ensures (k.0, e.modules[k].attrs.blockId) in e.blocks {
      if k.0 != course || k.1 !in r.modules { assert (k.0, d.modules[k].attrs.blockId) in d.blocks; }
    }
  }

  lemma Stage3Rooted(d: Db, course: string, r: Rows)
    requires Rooted(d) && Closed(r, course) && forall id :: id in r.modules ==> (course, id) in d.modules
    ensures Rooted(Stage3(d, course, r))
    ensures forall id :: id in r.lessons ==> (course, id) in Stage3(d, course, r).lessons
  {
    var e := Stage3(d, course, r);
    forall k | k in e.lessons ensures (k.0, e.lessons[k].attrs.moduleKey) in e.modules {
      if k.0 != course || k.1 !in r.lessons { assert (k.0, d.lessons[k].attrs.moduleKey) in d.modules; }
    }
  }

  lemma Stage4Rooted(d: Db, course: string, r: Rows)
    requires Rooted(d) && Closed(r, course)
    requires forall id :: id in r.modules ==> (course, id) in d.modules
    requires forall id :: id in r.lessons ==> (course, id) in d.lessons
    ensures Rooted(Stage4(d, course, r))
  {
    var e := Stage4(d, course, r);
    forall k | k in e.exercises
      ensures (k.0, e.exercises[k].attrs.moduleKey) in e.modules && (k.0, e.exercises[k].attrs.lessonKey) in e.lessons
    {
      if k.0 != course || k.1 !in r.exercises { assert (k.0, d.exercises[k].attrs.moduleKey) in d.modules; }
    }
  }

  /** At every flush of a reconciliation, every row's parents are there. */
  lemma FlushesRooted(d: Db, course: string, r: Rows)
    requires Rooted(d) && Closed(r, course)
    ensures
      var d1 := Stage1(d, course, r);
      var d2 := Stage2(d1, course, r);
      var d3 := Stage3(d2, course, r);
      var d4 := Stage4(d3, course, r);
      Rooted(d1) && Rooted(d2) && Rooted(d3) && Rooted(d4) && d4 == Reconciled(d, course, r)
  {
    Stage1Rooted(d, course, r);
    var d1 := Stage1(d, course, r);
    Stage2Rooted(d1, course, r);
    var d2 := Stage2(d1, course, r);
    Stage3Rooted(d2, course, r);
    Stage4Rooted(Stage3(d2, course, r), course, r);
  }

  lemma {:induction false} DictFrom<V>(names: seq<string>, values: seq<V>, name: string) returns (i: nat)
    requires |names| == |values| && name in Dict(names, values)
    ensures i < |names| && names[i] == name && Dict(names, values)[name] == values[i]
  {
    var n := |names| - 1;
    if names[n] == name {
      i := n;
    } else {
      i := DictFrom(names[..n], values[..n], name);
    }
  }

  lemma {:induction false} ModuleRowsAt(blocks: seq<Block>, keyOf: map<string, string>, i: nat)
    requires i < |ModuleRows(blocks, keyOf)|
    ensures exists b :: 0 <= b < |blocks| && ModuleRows(blocks, keyOf)[i].blockId == blocks[b].id
  {
    var n := |blocks[0].modules|;
    if i < n {
      assert ModuleRows(blocks, keyOf)[i].blockId == blocks[0].id;
    } else {
      ModuleRowsAt(blocks[1..], keyOf, i - n);
      var b :| 0 <= b < |blocks[1..]| && ModuleRows(blocks[1..], keyOf)[i - n].blockId == blocks[1..][b].id;
      assert blocks[1..][b] == blocks[b + 1];
    }
  }

  lemma {:induction false} LessonRowsAt(mods: seq<ModuleAt>, i: nat)
    requires i < |LessonRows(mods)|
    ensures exists m :: 0 <= m < |mods| && LessonRows(mods)[i].moduleKey == mods[m].mod.key
  {
    var n := |mods[0].mod.lessons|;
    if i < n {
      assert LessonRows(mods)[i].moduleKey == mods[0].mod.key;
    } else {
      LessonRowsAt(mods[1..], i - n);
      var m :| 0 <= m < |mods[1..]| && LessonRows(mods[1..])[i - n].moduleKey == mods[1..][m].mod.key;
      assert mods[1..][m] == mods[m + 1];
    }
  }

  lemma {:induction false} ExerciseRowsAt(lessons: seq<LessonAt>, i: nat)
    requires i < |ExerciseRows(lessons)|
    ensures exists l ::
      0 <= l < |lessons| && ExerciseRows(lessons)[i].lessonKey == lessons[l].lesson.key
      && ExerciseRows(lessons)[i].moduleKey == lessons[l].mod.key
  {
    var n := |lessons[0].lesson.exercises|;
    if i < n {
      assert ExerciseRows(lessons)[i].lessonKey == lessons[0].lesson.key
        && ExerciseRows(lessons)[i].moduleKey == lessons[0].mod.key;
    } else {
      ExerciseRowsAt(lessons[1..], i - n);
      var l :| 0 <= l < |lessons[1..]| && ExerciseRows(lessons[1..])[i - n].lessonKey == lessons[1..][l].lesson.key
               && ExerciseRows(lessons[1..])[i - n].moduleKey == lessons[1..][l].mod.key;
      assert lessons[1..][l] == lessons[l + 1];
    }
  }

  lemma ModuleRowsClosed(c: Course, order: nat, k: string)
    requires k in RowsFor(c, order).modules
    ensures RowsFor(c, order).modules[k].blockId in RowsFor(c, order).blocks
  {
    var rows := ModuleRows(c.blocks, KeyOfModules(c));
    var i := DictFrom(ModuleKeys(Modules(c)), rows, k);
    ModuleRowsAt(c.blocks, KeyOfModules(c), i);
    var b :| 0 <= b < |c.blocks| && rows[i].blockId == c.blocks[b].id;
    assert BlockIds(c)[b] in Elements(BlockIds(c));
  }

  lemma LessonRowsClosed(c: Course, order: nat, k: string)
    requires k in RowsFor(c, order).lessons
    ensures RowsFor(c, order).lessons[k].moduleKey in RowsFor(c, order).modules
  {
    var rows := LessonRows(Modules(c));
    var i := DictFrom(LessonKeys(Lessons(c)), rows, k);
    LessonRowsAt(Modules(c), i);
    var m :| 0 <= m < |Modules(c)| && rows[i].moduleKey == Modules(c)[m].mod.key;
    assert ModuleKeys(Modules(c))[m] in Elements(ModuleKeys(Modules(c)));
  }

  lemma ExerciseRowsClosed(c: Course, order: nat, k: string)
    requires k in RowsFor(c, order).exercises
    ensures RowsFor(c, order).exercises[k].moduleKey in RowsFor(c, order).modules
    ensures RowsFor(c, order).exercises[k].lessonKey in RowsFor(c, order).lessons
  {
    var (rows, lessons) := (ExerciseRows(Lessons(c)), Lessons(c));
    var i := DictFrom(ExerciseKeys(Exercises(c)), rows, k);
    ExerciseRowsAt(lessons, i);
    var l :| 0 <= l < |lessons| && rows[i].lessonKey == lessons[l].lesson.key
      && rows[i].moduleKey == lessons[l].mod.key;
    assert LessonKeys(lessons)[l] in Elements(LessonKeys(lessons));
    var m := LessonsKnowModule(Modules(c), l);
    assert ModuleKeys(Modules(c))[m] in Elements(ModuleKeys(Modules(c)));
  }

  /** A manifest's rows name only parents the manifest itself has. */
  lemma ManifestIsClosed(c: Course, order: nat)
    ensures Closed(RowsFor(c, order), c.id)
  {
    var r := RowsFor(c, order);
    forall k | k in r.modules ensures r.modules[k].blockId in r.blocks { ModuleRowsClosed(c, order, k); }
    forall k | k in r.lessons ensures r.lessons[k].moduleKey in r.modules { LessonRowsClosed(c, order, k); }
    forall k | k in r.exercises ensures r.exercises[k].moduleKey in r.modules && r.exercises[k].lessonKey in r.lessons {
      ExerciseRowsClosed(c, order, k);
    }
  }
}
