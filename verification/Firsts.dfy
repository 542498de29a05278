/**
 * What both statistics documents call first: over the attempts table itself, oldest first by creation time
 * and then by id.
 */
module Firsts {
  import opened Text
  import opened Sequences
  import opened Manifest
  import opened Lanes
  import opened LaneRuns
  import opened Stats
  import opened Cohort

  /** A learner's answered practice attempts at an exercise. */
  function Tries(attempts: map<nat, Attempt>, course: string, user: nat, key: string): (r: set<nat>) {
    set i | i in attempts && attempts[i].course == course && attempts[i].user == user && attempts[i].key == key
            && attempts[i].exam.None? && attempts[i].state == Lanes.Answered
  }

  predicate IsRight(attempts: map<nat, Attempt>, i: nat) {
    i in attempts && attempts[i].isCorrect == Some(true)
  }

  function RightIn(attempts: map<nat, Attempt>, ids: set<nat>): (r: set<nat>) {
    set i | i in ids && IsRight(attempts, i)
  }

  /** Attempt `i` was created earlier, or at the same time under a smaller id. */
  predicate Before(attempts: map<nat, Attempt>, i: nat, j: nat) {
    && i in attempts && j in attempts
    && (attempts[i].createdAt < attempts[j].createdAt
        || (attempts[i].createdAt == attempts[j].createdAt && i < j))
  }

  /** `i` is the earliest of some attempts. */
  ghost predicate Earliest(attempts: map<nat, Attempt>, ids: set<nat>, i: nat) {
    i in ids && forall j :: j in ids && j != i ==> Before(attempts, i, j)
  }

  function MarkSeq(attempts: map<nat, Attempt>, ids: seq<nat>): (r: seq<bool>)
    ensures |r| == |ids|
    ensures forall k :: 0 <= k < |ids| ==> r[k] == IsRight(attempts, ids[k])
  {
    seq(|ids|, k requires 0 <= k < |ids| => IsRight(attempts, ids[k]))
  }

  function AtKey(attempts: map<nat, Attempt>, key: string): (keep: nat -> bool) {
    (i: nat) => i in attempts && attempts[i].key == key
  }

  lemma {:induction false} MarksAreMarkSeq(attempts: map<nat, Attempt>, ids: seq<nat>, key: string)
    ensures Marks(Rows(attempts, ids), OnKey(key)) == MarkSeq(attempts, Filter(ids, AtKey(attempts, key)))
  {
    if ids != [] {
      var (rest, kept) := (Rows(attempts, ids[1..]), Filter(ids[1..], AtKey(attempts, key)));
      MarksAreMarkSeq(attempts, ids[1..], key);
      if ids[0] in attempts {
        assert ([attempts[ids[0]]] + rest)[1..] == rest;
        if attempts[ids[0]].key == key {
          assert MarkSeq(attempts, [ids[0]] + kept) == [IsRight(attempts, ids[0])] + MarkSeq(attempts, kept);
        }
      } else {
        assert Rows(attempts, ids) == rest && Filter(ids, AtKey(attempts, key)) == kept;
      }
    }
  }

  /** The learner's tries at an exercise listed oldest first are the marks the documents are built from. */
  lemma TriesInOrder(attempts: map<nat, Attempt>, course: string, user: nat, key: string) returns (ids: seq<nat>)
    ensures NoDup(ids) && Elements(ids) == Tries(attempts, course, user, key)
    ensures forall i, j :: 0 <= i < j < |ids| ==> Before(attempts, ids[i], ids[j])
    ensures Marks(AnsweredRows(attempts, course, Some(user)), OnKey(key)) == MarkSeq(attempts, ids)
  {
    var all := AnsweredIds(attempts, course, Some(user));
    ids := Filter(all, AtKey(attempts, key));
    AnsweredIdsListed(attempts, course, Some(user));
    FilterKeeps(all, AtKey(attempts, key), Older(attempts));
    MarksAreMarkSeq(attempts, all, key);
    forall i ensures i in Elements(ids) <==> i in Tries(attempts, course, user, key) {
      assert i in all <==> i in CountedIds(attempts, course, Some(user));
    }
    forall i, j | 0 <= i < j < |ids| ensures Before(attempts, ids[i], ids[j]) {
      assert ids[i] in Elements(ids) && ids[j] in Elements(ids);
      assert Older(attempts)(ids[i], ids[j]) && ids[i] != ids[j];
    }
  }

  lemma {:induction false} WinsAreRight(attempts: map<nat, Attempt>, ids: seq<nat>)
    requires NoDup(ids)
    ensures Wins(MarkSeq(attempts, ids)) == |RightAmong(ids, (i: nat) => IsRight(attempts, i))|
  {
    var right := (i: nat) => IsRight(attempts, i);
    if ids == [] {
      assert RightAmong(ids, right) == {};
    } else {
      var n := |ids| - 1;
      WinsAreRight(attempts, ids[..n]);
      assert MarkSeq(attempts, ids)[..n] == MarkSeq(attempts, ids[..n]);
      assert ids == ids[..n] + [ids[n]];
      OneMoreRight(ids[..n], ids[n], right);
    }
  }

  /** In a listing oldest first, an entry is before another exactly when it is older. */
  lemma PlaceIsAge(attempts: map<nat, Attempt>, ids: seq<nat>, j: nat, k: nat)
    requires j < |ids| && k < |ids|
    requires forall j, k :: 0 <= j < k < |ids| ==> Before(attempts, ids[j], ids[k])
    ensures Before(attempts, ids[j], ids[k]) <==> j < k
  {
    if k < j { assert Before(attempts, ids[k], ids[j]); }
  }

  /** A listing oldest first has the earliest in front. */
  lemma EarliestIsFirst(attempts: map<nat, Attempt>, ids: seq<nat>, i: nat)
    requires forall j, k :: 0 <= j < k < |ids| ==> Before(attempts, ids[j], ids[k])
    requires Earliest(attempts, Elements(ids), i)
    ensures ids != [] && ids[0] == i
  {
    var k :| 0 <= k < |ids| && ids[k] == i;
    assert ids[0] in Elements(ids);
    assert k > 0 ==> Before(attempts, ids[0], ids[k]);
  }

  /** The first mark is the mark of the earliest try. */
  lemma FirstMarkOf(attempts: map<nat, Attempt>, course: string, user: nat, key: string, i: nat)
    ensures Marks(AnsweredRows(attempts, course, Some(user)), OnKey(key)) == []
       <==> Tries(attempts, course, user, key) == {}
    ensures Earliest(attempts, Tries(attempts, course, user, key), i) ==>
      var marks := Marks(AnsweredRows(attempts, course, Some(user)), OnKey(key));
      marks != [] && marks[0] == IsRight(attempts, i)
  {
    var ids := TriesInOrder(attempts, course, user, key);
    if ids != [] { assert ids[0] in Elements(ids); }
    if Earliest(attempts, Tries(attempts, course, user, key), i) { EarliestIsFirst(attempts, ids, i); }
  }

  /**
   * A learner's roll at an exercise: there is one exactly if they tried it; its first mark is that of their
   * earliest try, and it counts their tries and the right ones.
   */
  lemma RollsAreTries(attempts: map<nat, Attempt>, course: string, user: nat, rolls: map<string, Roll>, key: string)
    requires RollsFor(attempts, course, user, rolls)
    ensures key in rolls <==> Tries(attempts, course, user, key) != {}
    ensures key in rolls ==>
      && rolls[key].answered == |Tries(attempts, course, user, key)|
      && rolls[key].correct == |RightIn(attempts, Tries(attempts, course, user, key))|
      && forall i :: Earliest(attempts, Tries(attempts, course, user, key), i) ==>
           rolls[key].firstCorrect == Some(IsRight(attempts, i))
  {
    var ids := TriesInOrder(attempts, course, user, key);
    var marks := Marks(AnsweredRows(attempts, course, Some(user)), OnKey(key));
    FirstMarkOf(attempts, course, user, key, 0);
    NoDupCount(ids);
    WinsAreRight(attempts, ids);
    assert RightAmong(ids, (i: nat) => IsRight(attempts, i))
        == RightIn(attempts, Tries(attempts, course, user, key)) by {
      forall i
        ensures i in ids <==> i in Tries(attempts, course, user, key) { assert i in ids <==> i in Elements(ids); }
    }
    forall i | Earliest(attempts, Tries(attempts, course, user, key), i)
      ensures marks != [] && marks[0] == IsRight(attempts, i) {
      FirstMarkOf(attempts, course, user, key, i);
    }
  }

  /** Of a listing oldest first, those before an entry are as many as its index. */
  lemma EarlierOnes(attempts: map<nat, Attempt>, ids: seq<nat>, n: nat)
    requires NoDup(ids) && n < |ids|
    requires forall j, k :: 0 <= j < k < |ids| ==> Before(attempts, ids[j], ids[k])
    ensures |set j | j in Elements(ids) && Before(attempts, j, ids[n])| == n
  {
    var before := set j | j in Elements(ids) && Before(attempts, j, ids[n]);
    forall j ensures j in before <==> j in Elements(ids[..n]) {
      if j in before {
        var k :| 0 <= k < |ids| && ids[k] == j;
        PlaceIsAge(attempts, ids, k, n);
        assert ids[..n][k] == j;
      }
      if j in Elements(ids[..n]) {
        var k :| 0 <= k < n && ids[..n][k] == j;
        assert Before(attempts, ids[k], ids[n]);
      }
    }
    assert before == Elements(ids[..n]);
    NoDupCount(ids[..n]);
  }

  /**
   * How many tries it took: none is told while no try is right; otherwise one more than the tries before
   * the earliest right one.
   */
  lemma TriesToSuccess(attempts: map<nat, Attempt>, course: string, user: nat, rolls: map<string, Roll>, key: string,
                       i: nat)
    requires RollsFor(attempts, course, user, rolls) && key in rolls
    ensures rolls[key].attemptsToSuccess.None?
       <==> forall j :: j in Tries(attempts, course, user, key) ==> !IsRight(attempts, j)
    ensures Earliest(attempts, RightIn(attempts, Tries(attempts, course, user, key)), i) ==>
      rolls[key].attemptsToSuccess
      == Some(1 + |set j | j in Tries(attempts, course, user, key) && Before(attempts, j, i)|)
  {
    var tries := Tries(attempts, course, user, key);
    var ids := TriesInOrder(attempts, course, user, key);
    var marks := MarkSeq(attempts, ids);
    FirstWinIsEarliest(marks);
    forall j | j in tries ensures exists k :: 0 <= k < |ids| && ids[k] == j && marks[k] == IsRight(attempts, j) {
      assert j in Elements(ids);
      var k :| 0 <= k < |ids| && ids[k] == j;
    }
    forall k | 0 <= k < |ids| ensures ids[k] in tries { assert ids[k] in Elements(ids); }
    if Earliest(attempts, RightIn(attempts, tries), i) {
      WinIsEarliest(attempts, ids, i);
      EarlierOnes(attempts, ids, FirstWin(marks).value - 1);
    }
  }

  lemma WinIsEarliest(attempts: map<nat, Attempt>, ids: seq<nat>, i: nat)
    requires forall j, k :: 0 <= j < k < |ids| ==> Before(attempts, ids[j], ids[k])
    requires Earliest(attempts, RightIn(attempts, Elements(ids)), i)
    ensures FirstWin(MarkSeq(attempts, ids)).Some?
    ensures var n := FirstWin(MarkSeq(attempts, ids)).value; 1 <= n <= |ids| && ids[n - 1] == i
  {
    var marks := MarkSeq(attempts, ids);
    FirstWinIsEarliest(marks);
    var k :| 0 <= k < |ids| && ids[k] == i;
    assert marks[k];
    var n := FirstWin(marks).value;
    assert ids[n - 1] in Elements(ids) && IsRight(attempts, ids[n - 1]);
    PlaceIsAge(attempts, ids, k, n - 1);
  }

  /** The cohort's mark for a learner and an exercise is that of the same earliest try. */
  lemma SightingsAreTries(attempts: map<nat, Attempt>, course: string, seen: map<Sighting, bool>, user: nat,
                          key: string)
    requires FirstMarked(AnsweredRows(attempts, course, None), seen)
    ensures (user, key) in seen <==> Tries(attempts, course, user, key) != {}
    ensures (user, key) in seen ==>
      forall i :: Earliest(attempts, Tries(attempts, course, user, key), i) ==>
        seen[(user, key)] == IsRight(attempts, i)
  {
    LearnersMarks(attempts, course, (user, key));
    FirstMarkOf(attempts, course, user, key, 0);
    forall i | Earliest(attempts, Tries(attempts, course, user, key), i) && (user, key) in seen
      ensures seen[(user, key)] == IsRight(attempts, i)
    {
      FirstMarkOf(attempts, course, user, key, i);
    }
  }

  /** There is an earliest try wherever there is a try at all. */
  lemma EarliestExists(attempts: map<nat, Attempt>, course: string, user: nat, key: string) returns (i: nat)
    requires Tries(attempts, course, user, key) != {}
    ensures Earliest(attempts, Tries(attempts, course, user, key), i)
  {
    var ids := TriesInOrder(attempts, course, user, key);
    var x :| x in Elements(ids);
    i := ids[0];
    assert i in Elements(ids);
    forall j | j in Elements(ids) && j != i ensures Before(attempts, i, j) {
      var k :| 0 <= k < |ids| && ids[k] == j;
    }
  }
}
