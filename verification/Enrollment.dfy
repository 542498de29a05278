/**
 * A learner's active courses, the selected one, and the language each is read in.
 *
 * The published courses come in the order both screens list them; what makes that order alphabetical is
 * not part of this model.
 */
module Enrollment {
  import opened Text
  import opened Sequences

  datatype UserCourse = UserCourse(active: bool, selected: bool, reading: Option<string>)
  type Rows = map<string, UserCourse>

  /** The published courses in listing order, and the languages of each, its preferred one first. */
  datatype Offer = Offer(ordered: seq<string>, languages: map<string, seq<string>>)

  ghost predicate Fits(o: Offer) {
    NoDup(o.ordered) && forall i :: 0 <= i < |o.ordered| ==>
      o.ordered[i] in o.languages && o.languages[o.ordered[i]] != []
  }

  datatype Error = CourseNotFound | LanguageNotAvailable

  // ---- selecting ----

  /** Which courses of a listing are active. */
  function Among(active: set<string>): (keep: string -> bool) {
    (slug: string) => slug in active
  }

  function FirstIn(s: seq<string>, active: seq<string>): (r: Option<string>) {
    if s == [] then None else if s[0] in active then Some(s[0]) else FirstIn(s[1..], active)
  }

  /** The course after `previous` among the active ones, wrapping. */
  method FallbackSelection(orderedActive: seq<string>, previous: Option<string>, ordered: seq<string>)
    returns (r: Option<string>)
    ensures r == Fallback(orderedActive, previous, ordered)
  {
    if orderedActive == [] { return None; }
    if previous.Some? && previous.value in ordered {
      var after := ordered[IndexOf(ordered, previous.value) + 1..];
      var i := 0;
      while i < |after|
        invariant 0 <= i <= |after|
        invariant FirstIn(after, orderedActive) == FirstIn(after[i..], orderedActive)
      {
        if after[i] in orderedActive { return Some(after[i]); }
        assert after[i..][1..] == after[i + 1..];
        i := i + 1;
      }
    }
    return Some(orderedActive[0]);
  }

  function Fallback(orderedActive: seq<string>, previous: Option<string>, ordered: seq<string>): (r: Option<string>) {
    if orderedActive == [] then None
    else
      var later := if previous.Some? && previous.value in ordered
                   then FirstIn(ordered[IndexOf(ordered, previous.value) + 1..], orderedActive) else None;
      if later.Some? then later else Some(orderedActive[0])
  }

  /** The selection a save settles on. */
  function Effective(o: Offer, active: set<string>, selected: Option<string>): (r: Option<string>) {
    var orderedActive := Filter(o.ordered, Among(active));
    if selected.Some? && selected.value in orderedActive then selected else Fallback(orderedActive, selected, o.ordered)
  }

  // ---- loading ----

  function ReadingLanguage(languages: seq<string>, chosen: Option<string>, account: string): (r: string)
    requires languages != []
    ensures r in languages
    ensures chosen.Some? && chosen.value in languages ==> r == chosen.value
    ensures !(chosen.Some? && chosen.value in languages) && account in languages ==> r == account
  {
    if chosen.Some? && chosen.value in languages then chosen.value
    else if account in languages then account else languages[0]
  }

  datatype View = View(active: seq<string>, selected: Option<string>)

  function ActiveIn(rows: Rows): (r: set<string>) {
    set slug | slug in rows && rows[slug].active
  }

  /** The stored selection: the first selected row, in whatever order the rows are fetched. */
  function Stored(rows: Rows, fetched: seq<string>): (r: Option<string>) {
    if fetched == [] then None
    else if fetched[0] in rows && rows[fetched[0]].selected then Some(fetched[0])
    else Stored(rows, fetched[1..])
  }

  /** A selection no longer active or published falls back to the first active course. */
  function Loaded(o: Offer, rows: Rows, fetched: seq<string>): (v: View) {
    var active := Filter(o.ordered, Among(ActiveIn(rows)));
    var stored := Stored(rows, fetched);
    View(active, if stored.Some? && stored.value in active then stored else if active != [] then Some(active[0])
      else None)
  }

  function ReadingOf(o: Offer, rows: Rows, account: string, slug: string): (r: string)
    requires Fits(o) && slug in o.ordered
  {
    ReadingLanguage(o.languages[slug], if slug in rows then rows[slug].reading else None, account)
  }

  // ---- saving ----

  predicate Published(o: Offer, slug: string) {
    slug in o.ordered
  }

  function Checked(o: Offer, active: set<string>, reading: map<string, string>): (e: Option<Error>) {
    if exists slug :: slug in active + reading.Keys && !Published(o, slug) then Some(CourseNotFound)
    else if exists slug :: slug in reading && (slug !in o.languages || reading[slug] !in o.languages[slug])
      then Some(LanguageNotAvailable)
    else None
  }

  /** One row as saved; a course outside the catalogue keeps its `active`. */
  function SavedRow(o: Offer, row: UserCourse, slug: string, active: set<string>, effective: Option<string>,
                    reading: map<string, string>)
    : (r: UserCourse)
  {
    UserCourse(if Published(o, slug) then slug in active else row.active, effective == Some(slug),
               if slug in reading then Some(reading[slug]) else row.reading)
  }

  function RowOf(rows: Rows, slug: string): (r: UserCourse) {
    if slug in rows then rows[slug] else UserCourse(false, false, None)
  }

  function Saved(o: Offer, rows: Rows, active: set<string>, effective: Option<string>, reading: map<string, string>)
    : (t: Rows)
  {
    map slug | slug in rows.Keys + active + reading.Keys ::
      SavedRow(o, RowOf(rows, slug), slug, active, effective, reading)
  }

  /** What the database sees at a flush: never two selected rows. */
  predicate OneSelected(rows: Rows) {
    forall a, b :: a in rows && b in rows && rows[a].selected && rows[b].selected ==> a == b
  }

  function Cleared(rows: Rows, effective: Option<string>): (t: Rows) {
    map slug | slug in rows ::
      if rows[slug].selected && effective != Some(slug) then rows[slug].(selected := false) else rows[slug]
  }

  class UserCourses {
    var rows: Rows

    constructor ()
      ensures rows == map[]
    {
      rows := map[];
    }

    /** First flush: the old selection is cleared before any new one is set. */
    method ClearOld(effective: Option<string>)
      modifies this
      ensures rows == Cleared(old(rows), effective)
      ensures OneSelected(rows)
    {
      var rest := rows.Keys;
      while rest != {}
        invariant rest <= old(rows).Keys == rows.Keys
        invariant forall slug :: slug in rows ==>
          rows[slug] == if slug in rest then old(rows)[slug] else Cleared(old(rows), effective)[slug]
        decreases |rest|
      {
        var slug :| slug in rest;
        if rows[slug].selected && effective != Some(slug) { rows := rows[slug := rows[slug].(selected := false)]; }
        rest := rest - {slug};
      }
      assert rows == Cleared(old(rows), effective);
    }

    method SaveState(o: Offer, active: set<string>, selected: Option<string>, reading: map<string, string>)
      returns (error: Option<Error>, ghost flushed: Rows)
      modifies this
      ensures error == Checked(o, active, reading)
      ensures error.Some? ==> rows == old(rows)
      ensures error.None? ==> rows == Saved(o, old(rows), active, Effective(o, active, selected), reading)
      ensures OneSelected(flushed) && (error.None? ==> OneSelected(rows))
    {
      flushed := map[];
      error := Checked(o, active, reading);
      if error.Some? { return; }
      var orderedActive := Filter(o.ordered, Among(active));
      var effective := selected;
      if selected.None? || selected.value !in orderedActive {
        effective := FallbackSelection(orderedActive, selected, o.ordered);
      }
      ClearOld(effective);
      flushed := rows;
      SaveRows(o, old(rows), active, effective, reading);
    }

    method SaveRow(o: Offer, slug: string, active: set<string>, effective: Option<string>, reading: map<string, string>)
      modifies this
      ensures rows == old(rows)[slug := SavedRow(o, RowOf(old(rows), slug), slug, active, effective, reading)]
    {
      var row := RowOf(rows, slug);
      if Published(o, slug) { row := row.(active := slug in active); }
      row := row.(selected := effective == Some(slug));
      if slug in reading { row := row.(reading := Some(reading[slug])); }
      rows := rows[slug := row];
    }

    /** The rows of everything known, active or chosen, in any order. */
    method SaveEach(o: Offer, slugs: set<string>, active: set<string>, effective: Option<string>,
                    reading: map<string, string>, ghost target: Rows)
      requires rows.Keys <= slugs == target.Keys
      requires forall slug :: slug in target ==>
        target[slug] == SavedRow(o, RowOf(rows, slug), slug, active, effective, reading)
      modifies this
      ensures rows == target
    {
      ghost var cleared := rows;
      var rest := slugs;
      while rest != {}
        invariant rest <= slugs && Halfway(rows, rest, cleared, target)
        decreases |rest|
      {
        var slug :| slug in rest;
        SaveRow(o, slug, active, effective, reading);
        rest := rest - {slug};
      }
      assert rows == target;
    }

    /** Second flush. */
    method SaveRows(o: Offer, ghost before: Rows, active: set<string>, effective: Option<string>,
                    reading: map<string, string>)
      requires rows == Cleared(before, effective)
      modifies this
      ensures rows == Saved(o, before, active, effective, reading)
    {
      SaveEach(o, rows.Keys + active + reading.Keys, active, effective, reading,
               Saved(o, before, active, effective, reading));
    }
  }

  /** Rows still to do are as cleared; the others are as they should end up. */
  ghost predicate Halfway(rows: Rows, rest: set<string>, cleared: Rows, target: Rows) {
    forall slug ::
      if slug in rest then (slug in rows <==> slug in cleared) && (slug in rows ==> rows[slug] == cleared[slug])
      else (slug in rows <==> slug in target) && (slug in rows ==> rows[slug] == target[slug])
  }

  // ---- what a save promises ----

  lemma {:induction false} FirstInFilter(s: seq<string>, active: set<string>, orderedActive: seq<string>)
    requires forall x :: x in s ==> (x in orderedActive <==> x in active)
    ensures FirstIn(s, orderedActive) == if Filter(s, Among(active)) == [] then None
         else Some(Filter(s, Among(active))[0])
  {
    if s != [] { FirstInFilter(s[1..], active, orderedActive); }
  }

  lemma {:induction false} FirstInIsFirst(s: seq<string>, active: seq<string>)
    ensures FirstIn(s, active).None? <==> forall i :: 0 <= i < |s| ==> s[i] !in active
    ensures FirstIn(s, active).Some? ==>
      exists i :: 0 <= i < |s| && s[i] == FirstIn(s, active).value && s[i] in active && forall j :: 0 <= j < i ==>
        s[j] !in active
  {
    if s != [] {
      FirstInIsFirst(s[1..], active);
      if s[0] !in active && FirstIn(s, active).Some? {
        var i :| 0 <= i < |s[1..]| && s[1..][i] == FirstIn(s[1..], active).value && s[1..][i] in active
                 && forall j :: 0 <= j < i ==> s[1..][j] !in active;
        assert s[i + 1] == s[1..][i];
        forall j | 0 <= j < i + 1 ensures s[j] !in active {
          if j > 0 { assert s[j] == s[1..][j - 1]; }
        }
      }
    }
  }

  /**
   * A save is accepted exactly when every course named is published and every language chosen is one its
   * course offers; an unpublished course is reported before a language.
   */
  lemma SaveAccepts(o: Offer, active: set<string>, reading: map<string, string>)
    requires Fits(o)
    ensures Checked(o, active, reading).None? <==>
      (forall slug :: slug in active ==> slug in o.ordered)
      && (forall slug :: slug in reading ==> slug in o.ordered && reading[slug] in o.languages[slug])
    ensures Checked(o, active, reading) == Some(CourseNotFound) <==>
      exists slug :: (slug in active || slug in reading) && slug !in o.ordered
  {
    forall slug ensures slug in active + reading.Keys <==> slug in active || slug in reading {}
    forall slug ensures Published(o, slug) <==> slug in o.ordered {}
    if x :| x in active + reading.Keys && !Published(o, x) {
      assert (x in active || x in reading) && x !in o.ordered;
    }
  }

  lemma ActiveListed(o: Offer, active: set<string>)
    ensures forall x :: x in Filter(o.ordered, Among(active)) <==> x in o.ordered && x in active
  {
    FilterKeeps(o.ordered, Among(active), (a: string, b: string) => true);
  }

  /** There is a selection exactly when a course is active, and it is one of them. */
  lemma EffectiveIsActive(o: Offer, active: set<string>, selected: Option<string>)
    ensures
      var (orderedActive, e) := (Filter(o.ordered, Among(active)), Effective(o, active, selected));
      (e.None? <==> orderedActive == []) && (e.Some? ==> e.value in orderedActive)
  {
    var orderedActive := Filter(o.ordered, Among(active));
    if orderedActive != [] && selected.Some? && selected.value in o.ordered {
      FirstInIsFirst(o.ordered[IndexOf(o.ordered, selected.value) + 1..], orderedActive);
    }
  }

  lemma {:induction false} StoredIsSelected(rows: Rows, fetched: seq<string>, slug: string)
    requires slug in rows && rows[slug].selected && OneSelected(rows) && slug in fetched
    ensures Stored(rows, fetched) == Some(slug)
  {
    if !(fetched[0] in rows && rows[fetched[0]].selected) { StoredIsSelected(rows, fetched[1..], slug); }
  }

  lemma {:induction false} NothingStored(rows: Rows, fetched: seq<string>)
    requires forall slug :: slug in rows ==> !rows[slug].selected
    ensures Stored(rows, fetched) == None
  {
    if fetched != [] { NothingStored(rows, fetched[1..]); }
  }

  /** Filtering by what is asked for, or by what ends up stored, gives one list. */
  lemma {:induction false} FilterAgrees(s: seq<string>, a: set<string>, b: set<string>)
    requires forall x :: x in s ==> (x in a <==> x in b)
    ensures Filter(s, Among(a)) == Filter(s, Among(b))
  {
    if s != [] { FilterAgrees(s[1..], a, b); }
  }

  /** A saved set of active courses is exactly what was asked for, among those published. */
  lemma SavedActives(o: Offer, rows: Rows, active: set<string>, effective: Option<string>, reading: map<string, string>)
    requires Checked(o, active, reading).None?
    ensures Filter(o.ordered, Among(ActiveIn(Saved(o, rows, active, effective, reading))))
         == Filter(o.ordered, Among(active))
  {
    FilterAgrees(o.ordered, ActiveIn(Saved(o, rows, active, effective, reading)), active);
  }

  /**
   * Saving and then loading returns exactly the requested courses in listing order, and the selection the
   * save chose: the fallback of the load never fires.
   */
  lemma LoadAfterSave(o: Offer, rows: Rows, fetched: seq<string>, active: set<string>, selected: Option<string>,
                      reading: map<string, string>)
    requires Checked(o, active, reading).None?
    requires
      var saved := Saved(o, rows, active, Effective(o, active, selected), reading);
      forall slug :: slug in fetched <==> slug in saved
    ensures
      var saved := Saved(o, rows, active, Effective(o, active, selected), reading);
      Loaded(o, saved, fetched) == View(Filter(o.ordered, Among(active)), Effective(o, active, selected))
  {
    var e := Effective(o, active, selected);
    var saved := Saved(o, rows, active, e, reading);
    SavedActives(o, rows, active, e, reading);
    EffectiveIsActive(o, active, selected);
    ActiveListed(o, active);
    if e.Some? {
      assert e.value in saved && saved[e.value].selected;
      StoredIsSelected(saved, fetched, e.value);
    } else {
      NothingStored(saved, fetched);
    }
  }

  // ---- over many saves ----

  /** One request to save, with the courses published at the time. */
  datatype Save = Save(offer: Offer, active: set<string>, selected: Option<string>, reading: map<string, string>)

  function Applied(rows: Rows, q: Save): (t: Rows) {
    if Checked(q.offer, q.active, q.reading).Some? then rows
    else Saved(q.offer, rows, q.active, Effective(q.offer, q.active, q.selected), q.reading)
  }

  function After(rows: Rows, saves: seq<Save>): (t: Rows) {
    if saves == [] then rows else Applied(After(rows, saves[..|saves| - 1]), saves[|saves| - 1])
  }

  /** While a course is withdrawn, no save changes whether it is active, and none drops its row. */
  lemma {:induction false} WithdrawnKeepActive(rows: Rows, saves: seq<Save>, slug: string)
    requires slug in rows && forall i :: 0 <= i < |saves| ==> !Published(saves[i].offer, slug)
    ensures slug in After(rows, saves) && After(rows, saves)[slug].active == rows[slug].active
  {
    if saves != [] { WithdrawnKeepActive(rows, saves[..|saves| - 1], slug); }
  }

  /** So a course published again is back on the learner's list exactly if it was active when it went. */
  lemma RepublishedIsAsItWas(o: Offer, rows: Rows, saves: seq<Save>, fetched: seq<string>, slug: string)
    requires slug in rows && forall i :: 0 <= i < |saves| ==> !Published(saves[i].offer, slug)
    requires Published(o, slug)
    ensures slug in Loaded(o, After(rows, saves), fetched).active <==> rows[slug].active
  {
    WithdrawnKeepActive(rows, saves, slug);
    ActiveListed(o, ActiveIn(After(rows, saves)));
  }

  lemma {:induction false} ChoiceStays(rows: Rows, saves: seq<Save>, slug: string)
    requires slug in rows && forall i :: 0 <= i < |saves| ==> slug !in saves[i].reading
    ensures slug in After(rows, saves) && After(rows, saves)[slug].reading == rows[slug].reading
  {
    if saves != [] { ChoiceStays(rows, saves[..|saves| - 1], slug); }
  }

  /** A course is read in the language last chosen for it, for as long as the course offers that language. */
  lemma LastChoiceIsRead(o: Offer, rows: Rows, choice: Save, later: seq<Save>, account: string, slug: string)
    requires Checked(choice.offer, choice.active, choice.reading).None? && slug in choice.reading
    requires forall i :: 0 <= i < |later| ==> slug !in later[i].reading
    requires Fits(o) && slug in o.ordered && choice.reading[slug] in o.languages[slug]
    ensures ReadingOf(o, After(Applied(rows, choice), later), account, slug) == choice.reading[slug]
  {
    ChoiceStays(Applied(rows, choice), later, slug);
  }

  /** A course no language was ever chosen for is read in the account's, or else in its own preferred one. */
  lemma UnchosenReadsAccount(o: Offer, saves: seq<Save>, account: string, slug: string)
    requires Fits(o) && slug in o.ordered
    requires forall i :: 0 <= i < |saves| ==> slug !in saves[i].reading
    ensures
      ReadingOf(o, After(map[], saves), account, slug)
      == if account in o.languages[slug] then account else o.languages[slug][0]
  {
    NeverChosen(saves, slug);
  }

  lemma {:induction false} NeverChosen(saves: seq<Save>, slug: string)
    requires forall i :: 0 <= i < |saves| ==> slug !in saves[i].reading
    ensures RowOf(After(map[], saves), slug).reading == None
  {
    if saves != [] { NeverChosen(saves[..|saves| - 1], slug); }
  }

  lemma RowResaved(o: Offer, row: UserCourse, slug: string, active: set<string>, again: set<string>, e: Option<string>,
                   reading: map<string, string>)
    requires Published(o, slug) ==> (slug in again <==> slug in active)
    ensures
      var once := SavedRow(o, row, slug, active, e, reading);
      SavedRow(o, once, slug, again, e, map[]) == once
  {
  }

  lemma RowsResaved(o: Offer, rows: Rows, active: set<string>, again: set<string>, e: Option<string>,
                    reading: map<string, string>)
    requires again <= active && forall slug :: slug in active && Published(o, slug) ==> slug in again
    ensures
      var saved := Saved(o, rows, active, e, reading);
      Saved(o, saved, again, e, map[]) == saved
  {
    var saved := Saved(o, rows, active, e, reading);
    var twice := Saved(o, saved, again, e, map[]);
    assert twice.Keys == saved.Keys;
    forall slug | slug in saved ensures twice[slug] == saved[slug] {
      RowResaved(o, RowOf(rows, slug), slug, active, again, e, reading);
    }
  }

  /** The rows after loading a state and saving it straight back. */
  function Resaved(o: Offer, rows: Rows, fetched: seq<string>): (t: Rows) {
    var v := Loaded(o, rows, fetched);
    Saved(o, rows, Elements(v.active), Effective(o, Elements(v.active), v.selected), map[])
  }

  lemma ResavedIs(o: Offer, rows: Rows, fetched: seq<string>, active: set<string>, e: Option<string>)
    requires Loaded(o, rows, fetched) == View(Filter(o.ordered, Among(active)), e)
    requires e.Some? ==> e.value in Filter(o.ordered, Among(active))
    requires e.None? ==> Filter(o.ordered, Among(active)) == []
    ensures Resaved(o, rows, fetched) == Saved(o, rows, Elements(Filter(o.ordered, Among(active))), e, map[])
    ensures Checked(o, Elements(Filter(o.ordered, Among(active))), map[]).None?
  {
    ListedKeeps(o, active, e);
    ListedIsChecked(o, active);
  }

  lemma ListedKeeps(o: Offer, active: set<string>, e: Option<string>)
    requires e.Some? ==> e.value in Filter(o.ordered, Among(active))
    requires e.None? ==> Filter(o.ordered, Among(active)) == []
    ensures Effective(o, Elements(Filter(o.ordered, Among(active))), e) == e
  {
    ActiveListed(o, active);
    var again := Elements(Filter(o.ordered, Among(active)));
    FilterAgrees(o.ordered, again, active);
    KeepsItsSelection(o, again, e);
  }

  lemma ListedIsChecked(o: Offer, active: set<string>)
    ensures Checked(o, Elements(Filter(o.ordered, Among(active))), map[]).None?
  {
    ActiveListed(o, active);
  }

  /** Saving back what was just loaded changes no row. */
  lemma ResaveChangesNothing(o: Offer, rows: Rows, fetched: seq<string>, active: set<string>, selected: Option<string>,
                             reading: map<string, string>)
    requires Checked(o, active, reading).None?
    requires
      var saved := Saved(o, rows, active, Effective(o, active, selected), reading);
      forall slug :: slug in fetched <==> slug in saved
    ensures
      var saved := Saved(o, rows, active, Effective(o, active, selected), reading);
      Resaved(o, saved, fetched) == saved
  {
    var e := Effective(o, active, selected);
    LoadAfterSave(o, rows, fetched, active, selected, reading);
    EffectiveIsActive(o, active, selected);
    ResavedIs(o, Saved(o, rows, active, e, reading), fetched, active, e);
    ActiveListed(o, active);
    RowsResaved(o, rows, active, Elements(Filter(o.ordered, Among(active))), e, reading);
  }

  /** An active selection, or none where nothing is active, is kept. */
  lemma KeepsItsSelection(o: Offer, active: set<string>, e: Option<string>)
    requires e.Some? ==> e.value in Filter(o.ordered, Among(active))
    requires e.None? ==> Filter(o.ordered, Among(active)) == []
    ensures Effective(o, active, e) == e
  {
  }

  /** Positions met going on from `p`, wrapping, before `q` is reached. */
  predicate Between(p: int, i: int, q: int) {
    if p < q then p < i < q else i > p || i < q
  }

  lemma NextIsLater(o: Offer, active: set<string>, p: nat, q: nat)
    requires Fits(o) && p < |o.ordered| && q < |o.ordered|
    requires FirstIn(o.ordered[p + 1..], Filter(o.ordered, Among(active))) == Some(o.ordered[q])
    ensures p < q && forall i :: p < i < q ==> o.ordered[i] !in active
  {
    var (after, listed) := (o.ordered[p + 1..], Filter(o.ordered, Among(active)));
    ActiveListed(o, active);
    FirstInIsFirst(after, listed);
    var k :| 0 <= k < |after| && after[k] == o.ordered[q] && forall j :: 0 <= j < k ==> after[j] !in listed;
    assert after[k] == o.ordered[p + 1 + k];
    assert q == p + 1 + k;
    forall i | p < i < q ensures o.ordered[i] !in active { assert after[i - p - 1] == o.ordered[i]; }
  }

  lemma NoneLater(o: Offer, active: set<string>, p: nat)
    requires p < |o.ordered| && FirstIn(o.ordered[p + 1..], Filter(o.ordered, Among(active))).None?
    ensures forall i :: p < i < |o.ordered| ==> o.ordered[i] !in active
  {
    var after := o.ordered[p + 1..];
    ActiveListed(o, active);
    FirstInIsFirst(after, Filter(o.ordered, Among(active)));
    forall i | p < i < |o.ordered| ensures o.ordered[i] !in active { assert after[i - p - 1] == o.ordered[i]; }
  }

  lemma FallsBack(o: Offer, active: set<string>, previous: string)
    requires previous in o.ordered && previous !in active
    ensures
      var (listed, later) := (Filter(o.ordered, Among(active)),
                              FirstIn(o.ordered[IndexOf(o.ordered, previous) + 1..], Filter(o.ordered, Among(active))));
      Effective(o, active, Some(previous)) == if listed == [] then None else if later.Some? then later
        else Some(listed[0])
  {
    ActiveListed(o, active);
    assert previous !in Filter(o.ordered, Among(active));
  }

  /** A selection that is no longer active moves to its cyclic successor: no active course lies in between. */
  lemma MovesToNextActive(o: Offer, active: set<string>, previous: string, q: nat)
    requires Fits(o) && previous in o.ordered && previous !in active
    requires q < |o.ordered| && Effective(o, active, Some(previous)) == Some(o.ordered[q])
    ensures o.ordered[q] in active
    ensures forall i :: 0 <= i < |o.ordered| && Between(IndexOf(o.ordered, previous), i, q) ==> o.ordered[i] !in active
  {
    var (p, listed) := (IndexOf(o.ordered, previous), Filter(o.ordered, Among(active)));
    FallsBack(o, active, previous);
    SelectedIsActive(o, active, Some(previous), o.ordered[q]);
    if FirstIn(o.ordered[p + 1..], listed).Some? {
      NextIsLater(o, active, p, q);
    } else {
      NoneLater(o, active, p);
      FirstActive(o, active, q);
    }
  }

  lemma SelectedIsActive(o: Offer, active: set<string>, selected: Option<string>, x: string)
    requires Effective(o, active, selected) == Some(x)
    ensures x in active
  {
    EffectiveIsActive(o, active, selected);
    ActiveListed(o, active);
  }

  lemma FirstActive(o: Offer, active: set<string>, q: nat)
    requires Fits(o) && q < |o.ordered| && Filter(o.ordered, Among(active)) != []
    requires Filter(o.ordered, Among(active))[0] == o.ordered[q]
    ensures forall i :: 0 <= i < q ==> o.ordered[i] !in active
  {
    var listed := Filter(o.ordered, Among(active));
    ActiveListed(o, active);
    FirstInFilter(o.ordered, active, listed);
    FirstInIsFirst(o.ordered, listed);
    var k :| 0 <= k < |o.ordered| && o.ordered[k] == o.ordered[q] && forall j :: 0 <= j < k ==> o.ordered[j] !in listed;
    forall i | 0 <= i < q ensures o.ordered[i] !in active { assert o.ordered[i] in o.ordered; }
  }
}
