/** When a report is filed, what a run takes on, what a commit leaves, and that no worker is ever stuck. */
module ReportSteps {
  import opened Text
  import opened Sequences
  import opened Reports

  /** The user's reports since midnight, UTC. */
  function Today(reports: map<nat, Report>, user: nat, now: int): (r: set<nat>) {
    set i | i in reports && reports[i].user == user && reports[i].createdAt >= now - now % 86400
  }

  /** A report is refused for an attempt already reported, or the user's eleventh of the day; else it is filed. */
  lemma FilingAccepts(s: State, id: nat, user: nat, attempt: nat, now: int)
    requires Enabled(s, File(id, user, attempt, now))
    ensures
      var (refusal, t) := (Refused(s.reports, user, attempt, now), Step(s, File(id, user, attempt, now)));
      && (refusal == Some(AlreadySent) <==> exists i :: i in s.reports && s.reports[i].attempt == attempt)
      && (refusal == Some(LimitReached) <==>
            !(exists i :: i in s.reports && s.reports[i].attempt == attempt) && |Today(s.reports, user, now)| >= 10)
      && (refusal.Some? ==> t == s)
      && (refusal.None? ==>
            t == s.(reports := s.reports[id := Report(user, attempt, now, None, 0)]))
  {
    assert Since(s.reports, user, StartOfDay(now)) == Today(s.reports, user, now) by {
      assert now / DAY * DAY == now - now % DAY;
    }
  }

  /** A worker starts with every pending report, each once, oldest first. */
  lemma WorkerStarts(s: State, w: nat)
    requires Enabled(s, Begin(w))
    ensures
      var t := Step(s, Begin(w));
      && w in t.workers && t == s.(workers := s.workers[w := t.workers[w]])
      && t.workers[w].hold == Free && t.workers[w].delivered == 0 && t.workers[w].phase == Running
      && NoDup(t.workers[w].todo)
      && (forall i :: i in t.workers[w].todo <==> i in s.reports && s.reports[i].emailedAt.None?)
    ensures
      var todo := Step(s, Begin(w)).workers[w].todo;
      forall j, k :: 0 <= j < k < |todo| ==>
        todo[j] in s.reports && todo[k] in s.reports && s.reports[todo[j]].createdAt <= s.reports[todo[k]].createdAt
  {
    SnapshotLists(s.reports);
    OldestFirst(s.reports);
  }

  lemma OldestFirst(reports: map<nat, Report>)
    ensures forall j, k :: 0 <= j < k < |Snapshot(reports)| ==>
      var (x, y) := (Snapshot(reports)[j], Snapshot(reports)[k]);
      x in reports && y in reports && reports[x].createdAt <= reports[y].createdAt
  {
    var ids := InOrder(Pending(reports));
    var age := (i: nat) => if i in reports then reports[i].createdAt else 0;
    InOrderMembers(Pending(reports));
    forall j, k | 0 <= j < k < |Snapshot(reports)|
      ensures Snapshot(reports)[j] in reports && Snapshot(reports)[k] in reports
      ensures reports[Snapshot(reports)[j]].createdAt <= reports[Snapshot(reports)[k]].createdAt
    {
      SortedByRank(ids, Oldest(reports), age, j, k);
    }
  }

  /** The row is there, not mailed, and in nobody's hands. */
  predicate Untaken(s: State, id: nat) {
    && id in s.reports && s.reports[id].emailedAt.None?
    && forall u :: u in s.workers && s.workers[u].hold != Free ==> s.workers[u].hold.id != id
  }

  /**
   * A running worker always has its next step: at a row it takes it or, where the row is gone, mailed or
   * somebody's, passes on; with a lock it hears the server, either way; then it commits; at the end it returns.
   */
  lemma NeverStuck(s: State, w: nat, now: int)
    requires Inv(s) && w in s.workers && s.workers[w].phase == Running
    ensures
      var me := s.workers[w];
      match me.hold
      case Free =>
        if me.todo == [] then Enabled(s, Finish(w))
        else (Enabled(s, Lock(w)) <==> Untaken(s, me.todo[0])) && (Enabled(s, Skip(w)) <==> !Untaken(s, me.todo[0]))
      case Locked(_) => Enabled(s, Deliver(w, true)) && Enabled(s, Deliver(w, false))
      case Heard(_, _) => Enabled(s, Commit(w, now))
  {
    assert HoldsPending(s, w);
    if s.workers[w].hold == Free && s.workers[w].todo != [] {
      var id := s.workers[w].todo[0];
      if IsLocked(s.workers, id) { var u :| u in s.workers && Holds(s.workers[u], id); }
      if u :| u in s.workers && s.workers[u].hold != Free && s.workers[u].hold.id == id {
        assert Holds(s.workers[u], id);
      }
    }
  }

  /** A commit counts the try, stamps the row if the server took it, and frees it; the worker moves on. */
  lemma CommitStamps(s: State, w: nat, now: int)
    requires Enabled(s, Commit(w, now))
    ensures
      var (me, t) := (s.workers[w], Step(s, Commit(w, now)));
      var (id, accepted) := (me.hold.id, me.hold.accepted);
      && t.reports.Keys == s.reports.Keys && (forall i :: i in s.reports && i != id ==> t.reports[i] == s.reports[i])
      && t.reports[id].attempts == s.reports[id].attempts + 1
      && t.reports[id].emailedAt == (if accepted then Some(now) else s.reports[id].emailedAt)
      && t.reports[id].user == s.reports[id].user && t.reports[id].attempt == s.reports[id].attempt
      && t.reports[id].createdAt == s.reports[id].createdAt
      && t.workers[w] == Worker(me.todo[1..], Free, me.delivered + (if accepted then 1 else 0), Running)
      && (forall u :: u in s.workers && u != w ==> u in t.workers && t.workers[u] == s.workers[u])
      && t.log == s.log && t.lost == s.lost
  {
  }
}
