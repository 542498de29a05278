/**
 * Reading `git status --porcelain=v1 -z`: entries of two status columns, a space and a NUL-terminated
 * path, a rename or a copy followed by its second path (git-status(1), "Porcelain Format Version 1").
 */
module GitStatus {
  import opened Text
  import opened Sequences

  const STATUS_WIDTH := 2
  const NUL := '\0'

  datatype Entry = Entry(x: char, y: char, path: string, source: Option<string>)

  predicate NulFree(s: string) {
    forall i :: 0 <= i < |s| ==> s[i] != NUL
  }

  predicate Renames(x: char, y: char) {
    x == 'R' || x == 'C' || y == 'R' || y == 'C'
  }

  /** An entry git can print: paths are non-empty, and there are two exactly for renames and copies. */
  predicate WellFormed(e: Entry) {
    && e.x != NUL && e.y != NUL && e.path != "" && NulFree(e.path)
    && (e.source.Some? <==> e.x in "RC" || e.y in "RC")
    && (e.source.Some? ==> NulFree(e.source.value))
  }

  // ---- the printer ----

  function Line(e: Entry): (s: string) {
    [e.x, e.y, ' '] + e.path
  }

  function Printed(e: Entry): (s: string) {
    Line(e) + [NUL] + (if e.source.Some? then e.source.value + [NUL] else [])
  }

  function PrintAll(entries: seq<Entry>): (s: string) {
    if entries == [] then [] else Printed(entries[0]) + PrintAll(entries[1..])
  }

  function PathsOf(e: Entry): (r: seq<string>) {
    [e.path] + (if e.source.Some? then [e.source.value] else [])
  }

  function AllPaths(entries: seq<Entry>): (r: seq<string>) {
    if entries == [] then [] else PathsOf(entries[0]) + AllPaths(entries[1..])
  }

  // ---- the reader ----

  /** `text.split("\\0")`: one more field than there are separators. */
  function Split(text: string): (fields: seq<string>)
    ensures fields != []
  {
    if text == "" then [""]
    else
      var rest := Split(text[1..]);
      if text[0] == NUL then [""] + rest else [[text[0]] + rest[0]] + rest[1..]
  }

  /** What the reader makes of the fields from some index on. */
  function PathsFrom(fields: seq<string>): (r: seq<string>)
    decreases |fields|
  {
    if fields == [] then []
    else
      var entry := fields[0];
      if |entry| <= STATUS_WIDTH + 1 then PathsFrom(fields[1..])
      else if Renames(entry[0], entry[1]) && |fields| > 1
        then [entry[STATUS_WIDTH + 1..], fields[1]] + PathsFrom(fields[2..])
      else [entry[STATUS_WIDTH + 1..]] + PathsFrom(fields[1..])
  }

  function ByName(): (leq: (string, string) -> bool) {
    (a: string, b: string) => LexLeq(a, b)
  }

  /** What reading one entry leaves to be read. */
  lemma NextEntry(fields: seq<string>, index: nat, paths: seq<string>)
    requires index < |fields|
    ensures
      var (entry, all) := (fields[index], paths + PathsFrom(fields[index..]));
      if |entry| <= STATUS_WIDTH + 1 then all == paths + PathsFrom(fields[index + 1..])
      else if Renames(entry[0], entry[1]) && index + 1 < |fields| then
        all == paths + [entry[STATUS_WIDTH + 1..]] + [fields[index + 1]] + PathsFrom(fields[index + 2..])
      else all == paths + [entry[STATUS_WIDTH + 1..]] + PathsFrom(fields[index + 1..])
  {
    var (entry, rest) := (fields[index], fields[index..]);
    assert rest[0] == entry && rest[1..] == fields[index + 1..];
    if index + 1 < |fields| { assert rest[1] == fields[index + 1] && rest[2..] == fields[index + 2..]; }
    if |entry| > STATUS_WIDTH + 1 {
      var path := entry[STATUS_WIDTH + 1..];
      Associates(paths, [path], PathsFrom(fields[index + 1..]));
      if Renames(entry[0], entry[1]) && index + 1 < |fields| {
        assert [path, fields[index + 1]] == [path] + [fields[index + 1]];
      }
    }
  }

  method WorkingTreeChanges(text: string) returns (sorted: seq<string>)
    ensures sorted == Sort(PathsFrom(Split(text)), ByName())
  {
    var fields := Split(text);
    var paths: seq<string> := [];
    var index := 0;
    while index < |fields|
      invariant 0 <= index <= |fields|
      invariant paths + PathsFrom(fields[index..]) == PathsFrom(fields)
    {
      NextEntry(fields, index, paths);
      var entry := fields[index];
      index := index + 1;
      if |entry| > STATUS_WIDTH + 1 {
        var x, y, path := entry[0], entry[1], entry[STATUS_WIDTH + 1..];
        paths := paths + [path];
        if Renames(x, y) && index < |fields| {
          paths := paths + [fields[index]];
          index := index + 1;
        }
      }
    }
    assert fields[index..] == [] && paths + [] == paths;
    sorted := Sort(paths, ByName());
  }

  // ---- the reader undoes the printer ----

  lemma {:induction false} SplitField(field: string, rest: string)
    requires NulFree(field)
    ensures Split(field + [NUL] + rest) == [field] + Split(rest)
  {
    var text := field + [NUL] + rest;
    if field == "" {
      assert text == [NUL] + rest && text[1..] == rest;
    } else {
      SplitField(field[1..], rest);
      assert text[1..] == field[1..] + [NUL] + rest && text[0] == field[0];
      assert [field[0]] + field[1..] == field;
    }
  }

  lemma LineIsField(e: Entry)
    requires WellFormed(e)
    ensures NulFree(Line(e)) && |Line(e)| > STATUS_WIDTH + 1
    ensures Line(e)[0] == e.x && Line(e)[1] == e.y && Line(e)[STATUS_WIDTH + 1..] == e.path
  {
    forall i | 0 <= i < |Line(e)| ensures Line(e)[i] != NUL {
      if i >= 3 { assert Line(e)[i] == e.path[i - 3]; }
    }
  }

  lemma SplitEntry(e: Entry, rest: string)
    requires WellFormed(e)
    ensures Split(Printed(e) + rest) == [Line(e)] + (if e.source.Some? then [e.source.value] else []) + Split(rest)
  {
    LineIsField(e);
    if e.source.Some? {
      assert Printed(e) + rest == Line(e) + [NUL] + (e.source.value + [NUL] + rest);
      SplitField(Line(e), e.source.value + [NUL] + rest);
      SplitField(e.source.value, rest);
    } else {
      assert Printed(e) + rest == Line(e) + [NUL] + rest;
      SplitField(Line(e), rest);
    }
  }

  lemma ReadEntry(e: Entry, fields: seq<string>)
    requires WellFormed(e)
    ensures PathsFrom([Line(e)] + (if e.source.Some? then [e.source.value] else []) + fields)
         == PathsOf(e) + PathsFrom(fields)
  {
    LineIsField(e);
    var all := [Line(e)] + (if e.source.Some? then [e.source.value] else []) + fields;
    if e.source.Some? {
      assert all[0] == Line(e) && all[1] == e.source.value && all[2..] == fields;
    } else {
      assert all[0] == Line(e) && all[1..] == fields;
    }
  }

  lemma {:induction false} ReadsWhatIsPrinted(entries: seq<Entry>)
    requires forall i :: 0 <= i < |entries| ==> WellFormed(entries[i])
    ensures PathsFrom(Split(PrintAll(entries))) == AllPaths(entries)
  {
    if entries == [] {
      assert Split("") == [""];
    } else {
      ReadsWhatIsPrinted(entries[1..]);
      SplitEntry(entries[0], PrintAll(entries[1..]));
      ReadEntry(entries[0], Split(PrintAll(entries[1..])));
    }
  }

  lemma NamesAreOrdered()
    ensures TotalPreorder(ByName())
  {
    forall a, b ensures ByName()(a, b) || ByName()(b, a) { LexTotal(a, b); }
    forall a, b, c | ByName()(a, b) && ByName()(b, c) ensures ByName()(a, c) { LexTransitive(a, b, c); }
  }

  /**
   * Whatever git prints, the reader returns exactly the paths printed, rename and copy sources included,
   * each as often as it was printed, in order.
   */
  lemma ReaderInvertsPrinter(entries: seq<Entry>)
    requires forall i :: 0 <= i < |entries| ==> WellFormed(entries[i])
    ensures
      var sorted := Sort(PathsFrom(Split(PrintAll(entries))), ByName());
      multiset(sorted) == multiset(AllPaths(entries)) && SortedBy(sorted, ByName())
  {
    ReadsWhatIsPrinted(entries);
    SortPermutes(AllPaths(entries), ByName());
    NamesAreOrdered();
    SortSorts(AllPaths(entries), ByName());
  }
}
