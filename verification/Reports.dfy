/**
 * Question reports: filed under two limits, then mailed by any number of concurrent workers over one
 * table with row locks that are skipped rather than waited for.
 */
module Reports {
  import opened Text
  import opened Sequences

  const DAILY_LIMIT := 10
  const DAY := 86400

  datatype Report = Report(user: nat, attempt: nat, createdAt: int, emailedAt: Option<int>, attempts: nat)

  /** What a worker's transaction has: nothing, a locked row, or a locked row and the server's answer. */
  datatype Hold = Free | Locked(id: nat) | Heard(id: nat, accepted: bool)
  datatype Phase = Running | Returned | Dead
  datatype Worker = Worker(todo: seq<nat>, hold: Hold, delivered: nat, phase: Phase)

  /**
   * The table, the workers, every answer the mail server has given, and the answers that died with a
   * worker before they were committed.
   */
  datatype State = State(reports: map<nat, Report>, workers: map<nat, Worker>, log: multiset<(nat, bool)>,
                         lost: multiset<(nat, bool)>)

  datatype Event =
    | File(id: nat, user: nat, attempt: nat, now: int)
    | Begin(worker: nat)
    | Skip(worker: nat)
    | Lock(worker: nat)
    | Deliver(worker: nat, accepted: bool)
    | Commit(worker: nat, now: int)
    | Finish(worker: nat)
    | Crash(worker: nat)

  // ---- filing ----

  function StartOfDay(now: int): (t: int) {
    now / DAY * DAY
  }

  function Since(reports: map<nat, Report>, user: nat, start: int): (r: set<nat>)
    ensures r <= reports.Keys
  {
    set i | i in reports && reports[i].user == user && reports[i].createdAt >= start
  }

  predicate Reported(reports: map<nat, Report>, attempt: nat) {
    exists i :: i in reports && reports[i].attempt == attempt
  }

  datatype Refusal = AlreadySent | LimitReached

  function Refused(reports: map<nat, Report>, user: nat, attempt: nat, now: int): (r: Option<Refusal>) {
    if Reported(reports, attempt) then Some(AlreadySent)
    else if |Since(reports, user, StartOfDay(now))| >= DAILY_LIMIT then Some(LimitReached)
    else None
  }

  function Filed(reports: map<nat, Report>, id: nat, user: nat, attempt: nat, now: int): (r: map<nat, Report>) {
    if Refused(reports, user, attempt, now).Some? then reports
    else reports[id := Report(user, attempt, now, None, 0)]
  }

  // ---- delivering ----

  function Pending(reports: map<nat, Report>): (r: set<nat>)
    ensures r <= reports.Keys
  {
    set i | i in reports && reports[i].emailedAt.None?
  }

  function Oldest(reports: map<nat, Report>): (leq: (nat, nat) -> bool) {
    (i: nat, j: nat) => i in reports && j in reports ==> reports[i].createdAt <= reports[j].createdAt
  }

  /** The ids a worker starts with: everything pending when it looks, oldest first. */
  function Snapshot(reports: map<nat, Report>): (r: seq<nat>) {
    Sort(InOrder(Pending(reports)), Oldest(reports))
  }

  predicate Holds(w: Worker, id: nat) {
    w.hold != Free && w.hold.id == id
  }

  predicate IsLocked(workers: map<nat, Worker>, id: nat) {
    exists w :: w in workers && Holds(workers[w], id)
  }

  predicate Working(s: State, w: nat) {
    w in s.workers && s.workers[w].phase == Running
  }

  predicate AtRow(s: State, w: nat) {
    Working(s, w) && s.workers[w].hold == Free && s.workers[w].todo != []
  }

  /** The row a worker comes to next can be taken: it is there, still pending, and nobody has it. */
  predicate Takeable(s: State, id: nat) {
    id in s.reports && s.reports[id].emailedAt.None? && !IsLocked(s.workers, id)
  }

  predicate Enabled(s: State, e: Event) {
    match e
    case File(id, _, _, _) => id !in s.reports
    case Begin(w) => w !in s.workers
    case Skip(w) => AtRow(s, w) && !Takeable(s, s.workers[w].todo[0])
    case Lock(w) => AtRow(s, w) && Takeable(s, s.workers[w].todo[0])
    case Deliver(w, _) => Working(s, w) && s.workers[w].hold.Locked?
    case Commit(w, _) => Working(s, w) && s.workers[w].hold.Heard? && s.workers[w].hold.id in s.reports
      && s.workers[w].todo != []
    case Finish(w) => Working(s, w) && s.workers[w].hold == Free && s.workers[w].todo == []
    case Crash(w) => Working(s, w)
  }

  /** The row as committed: one more try, and the time it was mailed if the server took it. */
  function Stamped(r: Report, accepted: bool, now: int): (t: Report) {
    r.(attempts := r.attempts + 1, emailedAt := if accepted then Some(now) else r.emailedAt)
  }

  function Step(s: State, e: Event): (t: State)
    requires Enabled(s, e)
  {
    match e
    case File(id, user, attempt, now) => s.(reports := Filed(s.reports, id, user, attempt, now))
    case Begin(w) => s.(workers := s.workers[w := Worker(Snapshot(s.reports), Free, 0, Running)])
    case Skip(w) => s.(workers := s.workers[w := s.workers[w].(todo := s.workers[w].todo[1..])])
    case Lock(w) => s.(workers := s.workers[w := s.workers[w].(hold := Locked(s.workers[w].todo[0]))])
    case Deliver(w, accepted) =>
      var id := s.workers[w].hold.id;
      s.(workers := s.workers[w := s.workers[w].(hold := Heard(id, accepted))], log := s.log + multiset{(id, accepted)})
    case Commit(w, now) =>
      var (me, h) := (s.workers[w], s.workers[w].hold);
      s.(reports := s.reports[h.id := Stamped(s.reports[h.id], h.accepted, now)],
         workers := s.workers[w := Worker(me.todo[1..], Free, me.delivered + (if h.accepted then 1 else 0), Running)])
    case Finish(w) => s.(workers := s.workers[w := s.workers[w].(phase := Returned)])
    case Crash(w) =>
      var h := s.workers[w].hold;
      s.(workers := s.workers[w := s.workers[w].(phase := Dead, hold := Free)],
         lost := if h.Heard? then s.lost + multiset{(h.id, h.accepted)} else s.lost)
  }

  ghost predicate Legal(s: State, events: seq<Event>)
    decreases |events|, 0
  {
    events == [] || (Legal(s, events[..|events| - 1]) && Enabled(Run(s, events[..|events| - 1]), events[|events| - 1]))
  }

  ghost function Run(s: State, events: seq<Event>): (t: State)
    requires Legal(s, events)
    decreases |events|, 1
  {
    if events == [] then s else Step(Run(s, events[..|events| - 1]), events[|events| - 1])
  }

  // ---- what every interleaving keeps ----

  /** Some worker has heard this answer for this row and not committed it yet. */
  predicate InFlight(workers: map<nat, Worker>, id: nat, accepted: bool) {
    exists w :: w in workers && workers[w].hold == Heard(id, accepted)
  }

  function Flight(workers: map<nat, Worker>, id: nat, accepted: bool): (n: nat) {
    if InFlight(workers, id, accepted) then 1 else 0
  }

  ghost predicate LocksExclusive(workers: map<nat, Worker>) {
    forall v, w ::
      (v in workers && w in workers && workers[v].hold != Free && workers[w].hold != Free
       && workers[v].hold.id == workers[w].hold.id) ==> v == w
  }

  /** A worker with a lock is running, has the row it is at, and the row is still pending. */
  ghost predicate HoldsPending(s: State, w: nat)
    requires w in s.workers
  {
    var me := s.workers[w];
    me.hold != Free ==>
      me.phase == Running && me.todo != [] && me.todo[0] == me.hold.id && me.hold.id in s.reports
        && s.reports[me.hold.id].emailedAt.None?
  }

  /** Every answer the server gave is in a committed row, in flight, or lost with a worker. */
  ghost predicate Accounted(s: State, id: nat)
    requires id in s.reports
  {
    && s.log[(id, true)]
      == (if s.reports[id].emailedAt.Some? then 1 else 0) + Flight(s.workers, id, true) + s.lost[(id, true)]
    && s.log[(id, true)] + s.log[(id, false)]
       == s.reports[id].attempts + Flight(s.workers, id, true) + Flight(s.workers, id, false)
          + s.lost[(id, true)] + s.lost[(id, false)]
  }

  function Mailed(reports: map<nat, Report>): (r: set<nat>)
    ensures r <= reports.Keys
  {
    set i | i in reports && reports[i].emailedAt.Some?
  }

  /** A value for each of a set of workers, added up. */
  function Total(ids: set<nat>, f: nat -> int): (n: int)
    decreases |ids|
  {
    if ids == {} then 0 else f(Least(ids)) + Total(ids - {Least(ids)}, f)
  }

  function Credit(workers: map<nat, Worker>): (f: nat -> int) {
    w => if w in workers then workers[w].delivered else 0
  }

  ghost predicate AllHoldPending(s: State) {
    forall w :: w in s.workers ==> HoldsPending(s, w)
  }

  ghost predicate AllAccounted(s: State) {
    forall id :: id in s.reports ==> Accounted(s, id)
  }

  /** The server has only heard of reports that were filed. */
  ghost predicate LogKnown(s: State) {
    forall id, ok :: (id, ok) in s.log || (id, ok) in s.lost ==> id in s.reports
  }

  ghost predicate Credited(s: State) {
    Total(s.workers.Keys, Credit(s.workers)) == |Mailed(s.reports)|
  }

  ghost predicate Inv(s: State) {
    LocksExclusive(s.workers) && AllHoldPending(s) && AllAccounted(s) && LogKnown(s) && Credited(s)
  }

  lemma {:induction false} TotalSplit(ids: set<nat>, x: nat, f: nat -> int)
    requires x in ids
    ensures Total(ids, f) == f(x) + Total(ids - {x}, f)
    decreases |ids|
  {
    var y := Least(ids);
    if y != x {
      TotalSplit(ids - {y}, x, f);
      assert ids - {y} - {x} == ids - {x} - {y};
      var rest := ids - {x};
      assert y in rest && forall z :: z in rest ==> y <= z;
      assert Least(rest) == y;
    }
  }

  lemma {:induction false} TotalSame(ids: set<nat>, f: nat -> int, g: nat -> int)
    requires forall x :: x in ids ==> f(x) == g(x)
    ensures Total(ids, f) == Total(ids, g)
    decreases |ids|
  {
    if ids != {} { TotalSame(ids - {Least(ids)}, f, g); }
  }

  /** Changing one worker changes the total credit by that worker's change. */
  lemma CreditChange(workers: map<nat, Worker>, w: nat, me: Worker)
    ensures Total(workers[w := me].Keys, Credit(workers[w := me]))
      == Total(workers.Keys, Credit(workers)) + me.delivered - Credit(workers)(w)
  {
    var (more, rest) := (workers[w := me], workers.Keys - {w});
    assert more.Keys - {w} == rest;
    TotalSplit(more.Keys, w, Credit(more));
    TotalSame(rest, Credit(more), Credit(workers));
    if w in workers {
      TotalSplit(workers.Keys, w, Credit(workers));
    } else {
      assert rest == workers.Keys;
    }
  }

  /** Flights change only for the row the changed worker held or holds. */
  lemma FlightElsewhere(workers: map<nat, Worker>, w: nat, me: Worker, id: nat, ok: bool)
    requires me.hold != Heard(id, ok) && (w in workers ==> workers[w].hold != Heard(id, ok))
    ensures InFlight(workers[w := me], id, ok) == InFlight(workers, id, ok)
  {
    var more := workers[w := me];
    if InFlight(workers, id, ok) {
      var v :| v in workers && workers[v].hold == Heard(id, ok);
      assert more[v].hold == Heard(id, ok);
    }
    if InFlight(more, id, ok) {
      var v :| v in more && more[v].hold == Heard(id, ok);
      assert workers[v].hold == Heard(id, ok);
    }
  }

  /** A worker that neither held nor takes an answer leaves every row's account as it was. */
  lemma QuietStep(s: State, w: nat, me: Worker)
    requires AllAccounted(s) && !me.hold.Heard? && (w in s.workers ==> !s.workers[w].hold.Heard?)
    ensures AllAccounted(s.(workers := s.workers[w := me]))
  {
    forall id | id in s.reports ensures Accounted(s.(workers := s.workers[w := me]), id) {
      assert Accounted(s, id);
      FlightElsewhere(s.workers, w, me, id, true);
      FlightElsewhere(s.workers, w, me, id, false);
    }
  }

  lemma QuietKeepsLocks(s: State, w: nat, me: Worker)
    requires LocksExclusive(s.workers)
    requires me.hold == Free || (me.hold.Locked? && !IsLocked(s.workers, me.hold.id))
         || (w in s.workers && s.workers[w].hold != Free && s.workers[w].hold.id == me.hold.id)
    ensures LocksExclusive(s.workers[w := me])
  {
    var t := s.workers[w := me];
    forall u, v | u in t && v in t && t[u].hold != Free && t[v].hold != Free && t[u].hold.id == t[v].hold.id
      ensures u == v
    {
      assert u != w ==> Holds(s.workers[u], t[u].hold.id);
      assert v != w ==> Holds(s.workers[v], t[v].hold.id);
    }
  }

  lemma QuietKeepsHolds(s: State, w: nat, me: Worker)
    requires AllHoldPending(s)
    requires me.hold == Free
         || (Takeable(s, me.hold.id) && me.phase == Running && me.todo != [] && me.todo[0] == me.hold.id)
    ensures AllHoldPending(s.(workers := s.workers[w := me]))
  {
    var t := s.(workers := s.workers[w := me]);
    forall v | v in t.workers ensures HoldsPending(t, v) {
      assert v in s.workers ==> HoldsPending(s, v);
    }
  }

  lemma QuietKeepsInv(s: State, w: nat, me: Worker)
    requires Inv(s) && !me.hold.Heard? && (w in s.workers ==> !s.workers[w].hold.Heard?)
    requires me.delivered == Credit(s.workers)(w)
    requires me.hold.Locked? ==>
      Takeable(s, me.hold.id) && me.phase == Running && me.todo != [] && me.todo[0] == me.hold.id
    ensures Inv(s.(workers := s.workers[w := me]))
  {
    QuietStep(s, w, me);
    QuietKeepsLocks(s, w, me);
    QuietKeepsHolds(s, w, me);
    CreditChange(s.workers, w, me);
  }

  // ---- one event at a time ----

  lemma FileKeepsInv(s: State, id: nat, user: nat, attempt: nat, now: int)
    requires Inv(s) && id !in s.reports
    ensures Inv(s.(reports := Filed(s.reports, id, user, attempt, now)))
  {
    var t := s.(reports := Filed(s.reports, id, user, attempt, now));
    forall w | w in t.workers ensures HoldsPending(t, w) {
      assert HoldsPending(s, w);
    }
    forall i | i in t.reports ensures Accounted(t, i) {
      if i in s.reports {
        assert Accounted(s, i);
      } else {
        assert (i, true) !in s.log && (i, false) !in s.log && (i, true) !in s.lost && (i, false) !in s.lost;
        forall w | w in s.workers ensures s.workers[w].hold != Heard(i, true) && s.workers[w].hold != Heard(i, false) {
          assert HoldsPending(s, w);
        }
      }
    }
    assert Mailed(t.reports) == Mailed(s.reports);
  }

  lemma DeliverAccounts(s: State, w: nat, accepted: bool)
    requires Inv(s) && Enabled(s, Deliver(w, accepted))
    ensures AllAccounted(Step(s, Deliver(w, accepted)))
  {
    var (t, id) := (Step(s, Deliver(w, accepted)), s.workers[w].hold.id);
    forall i | i in t.reports ensures Accounted(t, i) {
      assert Accounted(s, i);
      HeardByHolder(s, w, id, i, accepted);
    }
  }

  lemma DeliverKeepsHolds(s: State, w: nat, accepted: bool)
    requires AllHoldPending(s) && LogKnown(s) && Enabled(s, Deliver(w, accepted))
    ensures AllHoldPending(Step(s, Deliver(w, accepted))) && LogKnown(Step(s, Deliver(w, accepted)))
  {
    var t := Step(s, Deliver(w, accepted));
    assert HoldsPending(s, w);
    forall v | v in t.workers ensures HoldsPending(t, v) {
      assert HoldsPending(s, v);
    }
  }

  lemma DeliverKeepsInv(s: State, w: nat, accepted: bool)
    requires Inv(s) && Enabled(s, Deliver(w, accepted))
    ensures Inv(Step(s, Deliver(w, accepted)))
  {
    var me := Step(s, Deliver(w, accepted)).workers[w];
    DeliverAccounts(s, w, accepted);
    DeliverKeepsHolds(s, w, accepted);
    QuietKeepsLocks(s, w, me);
    CreditChange(s.workers, w, me);
  }

  /** The answer just heard is the only one in flight for its row; other rows' flights are unchanged. */
  lemma HeardByHolder(s: State, w: nat, id: nat, i: nat, accepted: bool)
    requires LocksExclusive(s.workers) && w in s.workers && s.workers[w].hold == Locked(id)
    ensures
      var t := s.workers[w := s.workers[w].(hold := Heard(id, accepted))];
      forall ok :: Flight(t, i, ok) == Flight(s.workers, i, ok) + (if i == id && ok == accepted then 1 else 0)
  {
    var me := s.workers[w].(hold := Heard(id, accepted));
    var t := s.workers[w := me];
    forall ok ensures Flight(t, i, ok) == Flight(s.workers, i, ok) + (if i == id && ok == accepted then 1 else 0) {
      if i == id && ok == accepted {
        assert t[w].hold == Heard(i, ok);
        forall v | v in s.workers ensures s.workers[v].hold != Heard(i, ok) {}
      } else {
        FlightElsewhere(s.workers, w, me, i, ok);
      }
    }
  }

  /** Letting go of an answer: its row has none in flight any more. */
  lemma HolderLetsGo(workers: map<nat, Worker>, w: nat, me: Worker, i: nat)
    requires LocksExclusive(workers) && w in workers && workers[w].hold.Heard? && me.hold == Free
    ensures
      var h := workers[w].hold;
      forall ok ::
        Flight(workers[w := me], i, ok) == Flight(workers, i, ok) - (if i == h.id && ok == h.accepted then 1 else 0)
  {
    var (h, t) := (workers[w].hold, workers[w := me]);
    forall ok ensures Flight(t, i, ok) == Flight(workers, i, ok) - (if i == h.id && ok == h.accepted then 1 else 0) {
      if i == h.id && ok == h.accepted {
        assert workers[w].hold == Heard(i, ok);
        forall v | v in t ensures t[v].hold != Heard(i, ok) {}
      } else {
        FlightElsewhere(workers, w, me, i, ok);
      }
    }
  }

  lemma CommitAccounts(s: State, w: nat, now: int)
    requires Inv(s) && Enabled(s, Commit(w, now))
    ensures AllAccounted(Step(s, Commit(w, now)))
  {
    var t := Step(s, Commit(w, now));
    assert HoldsPending(s, w);
    forall i | i in t.reports ensures Accounted(t, i) {
      assert Accounted(s, i);
      HolderLetsGo(s.workers, w, t.workers[w], i);
    }
  }

  lemma CommitKeepsHolds(s: State, w: nat, now: int)
    requires LocksExclusive(s.workers) && AllHoldPending(s) && Enabled(s, Commit(w, now))
    ensures AllHoldPending(Step(s, Commit(w, now)))
  {
    var (t, h) := (Step(s, Commit(w, now)), s.workers[w].hold);
    forall v | v in t.workers ensures HoldsPending(t, v) {
      assert HoldsPending(s, v);
      assert v != w && s.workers[v].hold != Free ==> s.workers[v].hold.id != h.id;
    }
  }

  lemma MailedMore(reports: map<nat, Report>, id: nat, accepted: bool, now: int)
    requires id in reports && reports[id].emailedAt.None?
    ensures |Mailed(reports[id := Stamped(reports[id], accepted, now)])|
         == |Mailed(reports)| + (if accepted then 1 else 0)
  {
    var t := reports[id := Stamped(reports[id], accepted, now)];
    assert Mailed(t) == if accepted then Mailed(reports) + {id} else Mailed(reports);
  }

  lemma CommitCredits(s: State, w: nat, now: int)
    requires AllHoldPending(s) && Credited(s) && Enabled(s, Commit(w, now))
    ensures Credited(Step(s, Commit(w, now)))
  {
    var (t, h) := (Step(s, Commit(w, now)), s.workers[w].hold);
    assert HoldsPending(s, w);
    CreditChange(s.workers, w, t.workers[w]);
    MailedMore(s.reports, h.id, h.accepted, now);
  }

  lemma CommitKeepsInv(s: State, w: nat, now: int)
    requires Inv(s) && Enabled(s, Commit(w, now))
    ensures Inv(Step(s, Commit(w, now)))
  {
    CommitAccounts(s, w, now);
    CommitKeepsHolds(s, w, now);
    CommitCredits(s, w, now);
    QuietKeepsLocks(s, w, Step(s, Commit(w, now)).workers[w]);
  }

  lemma CrashAccounts(s: State, w: nat)
    requires Inv(s) && Enabled(s, Crash(w)) && s.workers[w].hold.Heard?
    ensures AllAccounted(Step(s, Crash(w)))
  {
    var t := Step(s, Crash(w));
    forall i | i in t.reports ensures Accounted(t, i) {
      assert Accounted(s, i);
      HolderLetsGo(s.workers, w, t.workers[w], i);
    }
  }

  lemma CrashIsKnown(s: State, w: nat)
    requires AllHoldPending(s) && LogKnown(s) && Enabled(s, Crash(w))
    ensures LogKnown(Step(s, Crash(w)))
  {
    assert HoldsPending(s, w);
  }

  lemma CrashKeepsInv(s: State, w: nat)
    requires Inv(s) && Enabled(s, Crash(w)) && s.workers[w].hold.Heard?
    ensures Inv(Step(s, Crash(w)))
  {
    CrashAccounts(s, w);
    CrashIsKnown(s, w);
    CrashFreesOnly(s, w);
    CreditChange(s.workers, w, s.workers[w].(phase := Dead, hold := Free));
  }

  /** A crash frees the worker's row, and leaves every other hold as it was. */
  lemma CrashFreesOnly(s: State, w: nat)
    requires LocksExclusive(s.workers) && AllHoldPending(s) && Enabled(s, Crash(w))
    ensures LocksExclusive(Step(s, Crash(w)).workers) && AllHoldPending(Step(s, Crash(w)))
  {
    var t := Step(s, Crash(w));
    QuietKeepsLocks(s, w, t.workers[w]);
    forall v | v in t.workers ensures HoldsPending(t, v) {
      assert HoldsPending(s, v);
    }
  }

  /** Every event, of any worker, keeps the books. */
  lemma StepKeepsInv(s: State, e: Event)
    requires Inv(s) && Enabled(s, e)
    ensures Inv(Step(s, e))
  {
    match e {
      case File(id, user, attempt, now) => FileKeepsInv(s, id, user, attempt, now);
      case Begin(w) => QuietKeepsInv(s, w, Worker(Snapshot(s.reports), Free, 0, Running));
      case Skip(w) => QuietKeepsInv(s, w, s.workers[w].(todo := s.workers[w].todo[1..]));
      case Lock(w) => QuietKeepsInv(s, w, s.workers[w].(hold := Locked(s.workers[w].todo[0])));
      case Deliver(w, accepted) => DeliverKeepsInv(s, w, accepted);
      case Commit(w, now) => CommitKeepsInv(s, w, now);
      case Finish(w) => QuietKeepsInv(s, w, s.workers[w].(phase := Returned));
      case Crash(w) =>
        if s.workers[w].hold.Heard? { CrashKeepsInv(s, w); }
        else { QuietKeepsInv(s, w, s.workers[w].(phase := Dead, hold := Free)); }
    }
  }

  lemma {:induction false} RunKeepsInv(s: State, events: seq<Event>)
    requires Inv(s) && Legal(s, events)
    ensures Inv(Run(s, events))
    decreases |events|
  {
    if events != [] {
      RunKeepsInv(s, events[..|events| - 1]);
      StepKeepsInv(Run(s, events[..|events| - 1]), events[|events| - 1]);
    }
  }

  /** The empty table, before anyone filed or mailed anything. */
  function Empty(): (s: State) { State(map[], map[], multiset{}, multiset{}) }

  lemma EmptyIsConsistent()
    ensures Inv(Empty())
  {
    assert Mailed(Empty().reports) == {};
  }

  // ---- what that means for a report ----

  predicate Unlocked(s: State, id: nat) {
    !IsLocked(s.workers, id)
  }

  lemma UnlockedHasNoFlight(s: State, id: nat)
    requires Unlocked(s, id)
    ensures Flight(s.workers, id, true) == 0 && Flight(s.workers, id, false) == 0
  {
    forall w | w in s.workers ensures s.workers[w].hold != Heard(id, true) && s.workers[w].hold != Heard(id, false) {
      assert !Holds(s.workers[w], id);
    }
  }

  /**
   * Under every interleaving, with no acceptance lost to a crash: each report is accepted at most once; a
   * report nobody is at is stamped exactly when it was accepted, and pending exactly when it was not; and
   * its tries are the deliveries tried.
   */
  lemma DeliveredAtMostOnce(events: seq<Event>, id: nat)
    requires Legal(Empty(), events) && id in Run(Empty(), events).reports
    requires
      var t := Run(Empty(), events);
      (id, true) !in t.lost && (id, false) !in t.lost
    ensures
      var t := Run(Empty(), events);
      && t.log[(id, true)] <= 1
      && (Unlocked(t, id) ==> (t.reports[id].emailedAt.Some? <==> t.log[(id, true)] == 1))
      && (Unlocked(t, id) ==> t.reports[id].attempts == t.log[(id, true)] + t.log[(id, false)])
  {
    EmptyIsConsistent();
    RunKeepsInv(Empty(), events);
    var t := Run(Empty(), events);
    assert Accounted(t, id);
    if t.reports[id].emailedAt.Some? {
      forall w | w in t.workers ensures t.workers[w].hold != Heard(id, true) {
        assert HoldsPending(t, w);
      }
    }
    if Unlocked(t, id) { UnlockedHasNoFlight(t, id); }
  }

  /** In general, the server accepts a report once for its stamp or its flight, and once more per acceptance lost. */
  lemma AcceptancesCounted(events: seq<Event>, id: nat)
    requires Legal(Empty(), events) && id in Run(Empty(), events).reports
    ensures
      var t := Run(Empty(), events);
      && t.lost[(id, true)] <= t.log[(id, true)] <= t.lost[(id, true)] + 1
      && (Unlocked(t, id) ==> (t.reports[id].emailedAt.Some? <==> t.log[(id, true)] == t.lost[(id, true)] + 1))
  {
    EmptyIsConsistent();
    RunKeepsInv(Empty(), events);
    var t := Run(Empty(), events);
    assert Accounted(t, id);
    if t.reports[id].emailedAt.Some? {
      forall w | w in t.workers ensures t.workers[w].hold != Heard(id, true) {
        assert HoldsPending(t, w);
      }
    }
    if Unlocked(t, id) { UnlockedHasNoFlight(t, id); }
  }

  /** What the workers delivered, returned or not, is the number of mailed reports. */
  lemma ReturnsAddUp(events: seq<Event>)
    requires Legal(Empty(), events)
    ensures
      var t := Run(Empty(), events);
      Total(t.workers.Keys, Credit(t.workers)) == |Mailed(t.reports)|
  {
    EmptyIsConsistent();
    RunKeepsInv(Empty(), events);
  }

  lemma OneMoreEvent(s: State, events: seq<Event>, e: Event)
    requires Legal(s, events) && Enabled(Run(s, events), e)
    ensures Legal(s, events + [e]) && Run(s, events + [e]) == Step(Run(s, events), e)
  {
    assert (events + [e])[..|events|] == events;
  }

  /** A worker that dies between the server's answer and its commit: another at the same row mails it again. */
  lemma MailedAgain(s: State, v: nat, w: nat, id: nat)
    requires v != w && AtRow(s, v) && AtRow(s, w) && s.workers[v].todo[0] == s.workers[w].todo[0] == id
    requires Takeable(s, id)
    ensures
      var events := [Lock(v), Deliver(v, true), Crash(v), Lock(w), Deliver(w, true)];
      Legal(s, events) && Run(s, events).log[(id, true)] == s.log[(id, true)] + 2
  {
    OneMoreEvent(s, [], Lock(v));
    var a := [Lock(v)];
    OneMoreEvent(s, a, Deliver(v, true));
    a := a + [Deliver(v, true)];
    OneMoreEvent(s, a, Crash(v));
    a := a + [Crash(v)];
    var t := Run(s, a);
    forall u | u in t.workers ensures !Holds(t.workers[u], id) {
      assert u != v ==> t.workers[u] == s.workers[u];
    }
    OneMoreEvent(s, a, Lock(w));
    a := a + [Lock(w)];
    OneMoreEvent(s, a, Deliver(w, true));
    assert a + [Deliver(w, true)] == [Lock(v), Deliver(v, true), Crash(v), Lock(w), Deliver(w, true)];
  }

  /** One report filed, two workers started: both come to it. */
  function TwoAtOne(): (events: seq<Event>) {
    [File(0, 7, 8, 0), Begin(0), Begin(1)]
  }

  lemma TwoReachOne()
    ensures Legal(Empty(), TwoAtOne())
    ensures
      var s := Run(Empty(), TwoAtOne());
      && s.log == multiset{} && Takeable(s, 0)
      && AtRow(s, 0) && AtRow(s, 1) && s.workers[0].todo[0] == s.workers[1].todo[0] == 0
  {
    OneMoreEvent(Empty(), [], File(0, 7, 8, 0));
    var filed := Run(Empty(), [File(0, 7, 8, 0)]);
    assert Since(map[], 7, 0) == {};
    assert filed.reports == map[0 := Report(7, 8, 0, None, 0)];
    OnePending(filed.reports);
    OneMoreEvent(Empty(), [File(0, 7, 8, 0)], Begin(0));
    OneMoreEvent(Empty(), [File(0, 7, 8, 0), Begin(0)], Begin(1));
    assert [File(0, 7, 8, 0), Begin(0)] + [Begin(1)] == TwoAtOne();
  }

  lemma OnePending(reports: map<nat, Report>)
    requires Pending(reports) == {0}
    ensures Snapshot(reports) == [0]
  {
    InOrderMembers({0});
    SortPermutes(InOrder({0}), Oldest(reports));
    assert Snapshot(reports)[0] in Snapshot(reports);
  }

  /** So a crash between acceptance and commit can mail one report twice: a run from the empty table does. */
  lemma CrashMailsTwice() returns (events: seq<Event>)
    ensures Legal(Empty(), events) && Run(Empty(), events).log[(0, true)] == 2
  {
    TwoReachOne();
    var crash := [Lock(0), Deliver(0, true), Crash(0), Lock(1), Deliver(1, true)];
    MailedAgain(Run(Empty(), TwoAtOne()), 0, 1, 0);
    RunsJoin(Empty(), TwoAtOne(), crash);
    events := TwoAtOne() + crash;
  }

  // ---- limits on filing ----

  function OnDay(reports: map<nat, Report>, user: nat, day: int): (r: set<nat>)
    ensures r <= reports.Keys
  {
    set i | i in reports && reports[i].user == user && StartOfDay(reports[i].createdAt) == day
  }

  ghost predicate WithinLimits(reports: map<nat, Report>) {
    && (forall i, j :: i in reports && j in reports && reports[i].attempt == reports[j].attempt ==> i == j)
    && (forall user, day :: |OnDay(reports, user, day)| <= DAILY_LIMIT)
  }

  lemma DayBounds(t: int)
    ensures StartOfDay(t) <= t
  {
  }

  lemma FilingKeepsDay(reports: map<nat, Report>, id: nat, user: nat, attempt: nat, now: int, u: nat, day: int)
    requires |OnDay(reports, u, day)| <= DAILY_LIMIT && id !in reports && Refused(reports, user, attempt, now).None?
    ensures |OnDay(Filed(reports, id, user, attempt, now), u, day)| <= DAILY_LIMIT
  {
    var t := Filed(reports, id, user, attempt, now);
    if u == user && day == StartOfDay(now) {
      assert OnDay(t, u, day) == OnDay(reports, u, day) + {id};
      forall i | i in OnDay(reports, u, day) ensures i in Since(reports, u, day) {
        DayBounds(reports[i].createdAt);
      }
      SubsetSize(OnDay(reports, u, day), Since(reports, u, day));
    } else {
      assert OnDay(t, u, day) == OnDay(reports, u, day);
    }
  }

  lemma FilingKeepsLimits(reports: map<nat, Report>, id: nat, user: nat, attempt: nat, now: int)
    requires WithinLimits(reports) && id !in reports
    ensures WithinLimits(Filed(reports, id, user, attempt, now))
  {
    if Refused(reports, user, attempt, now).None? {
      var t := Filed(reports, id, user, attempt, now);
      forall u, day ensures |OnDay(t, u, day)| <= DAILY_LIMIT {
        FilingKeepsDay(reports, id, user, attempt, now, u, day);
      }
    }
  }

  lemma CommitKeepsLimits(reports: map<nat, Report>, id: nat, accepted: bool, now: int)
    requires WithinLimits(reports) && id in reports
    ensures WithinLimits(reports[id := Stamped(reports[id], accepted, now)])
  {
    var t := reports[id := Stamped(reports[id], accepted, now)];
    forall user, day ensures |OnDay(t, user, day)| <= DAILY_LIMIT {
      assert OnDay(t, user, day) == OnDay(reports, user, day);
    }
  }

  /** Over every run, no attempt is reported twice and nobody files more than ten reports in a day. */
  lemma {:induction false} LimitsHold(events: seq<Event>)
    requires Legal(Empty(), events)
    ensures WithinLimits(Run(Empty(), events).reports)
    decreases |events|
  {
    if events == [] {
      forall user, day ensures |OnDay(map[], user, day)| <= DAILY_LIMIT {
        assert OnDay(map[], user, day) == {};
      }
    } else {
      var (before, e) := (events[..|events| - 1], events[|events| - 1]);
      LimitsHold(before);
      var s := Run(Empty(), before);
      match e {
        case File(id, user, attempt, now) => FilingKeepsLimits(s.reports, id, user, attempt, now);
        case Commit(w, now) => CommitKeepsLimits(s.reports, s.workers[w].hold.id, s.workers[w].hold.accepted, now);
        case _ =>
      }
    }
  }

  // ---- one worker on its own ----

  lemma SnapshotLists(reports: map<nat, Report>)
    ensures NoDup(Snapshot(reports)) && forall i :: i in Snapshot(reports) <==> i in Pending(reports)
  {
    var ids := InOrder(Pending(reports));
    InOrderMembers(Pending(reports));
    forall i, j | 0 <= i < j < |ids| ensures ids[i] != ids[j] {
      InOrderSorted(Pending(reports), i, j);
    }
    SortPermutes(ids, Oldest(reports));
    PermutationKeepsNoDup(ids, Snapshot(reports));
  }

  /** A worker and nobody else, with so many rows to go. */
  function Alone(reports: map<nat, Report>, me: nat, todo: seq<nat>, delivered: nat, log: multiset<(nat, bool)>)
    : (s: State)
  {
    State(reports, map[me := Worker(todo, Free, delivered, Running)], log, multiset{})
  }

  /** Taking one row from lock to commit is three events of the protocol. */
  lemma RowInThreeEvents(reports: map<nat, Report>, me: nat, todo: seq<nat>, delivered: nat, log: multiset<(nat, bool)>,
                         ok: bool, now: int)
    requires todo != [] && todo[0] in reports && reports[todo[0]].emailedAt.None?
    ensures
      var (s, id) := (Alone(reports, me, todo, delivered, log), todo[0]);
      var events := [Lock(me), Deliver(me, ok), Commit(me, now)];
      Legal(s, events) && Run(s, events)
        == Alone(reports[id := Stamped(reports[id], ok, now)], me, todo[1..], delivered + (if ok then 1 else 0),
                 log + multiset{(id, ok)})
  {
    var s := Alone(reports, me, todo, delivered, log);
    OneMoreEvent(s, [], Lock(me));
    OneMoreEvent(s, [Lock(me)], Deliver(me, ok));
    assert [Lock(me)] + [Deliver(me, ok)] == [Lock(me), Deliver(me, ok)];
    OneMoreEvent(s, [Lock(me), Deliver(me, ok)], Commit(me, now));
    assert [Lock(me), Deliver(me, ok)] + [Commit(me, now)] == [Lock(me), Deliver(me, ok), Commit(me, now)];
    var t := Run(s, [Lock(me), Deliver(me, ok), Commit(me, now)]);
    assert t.workers == map[me := Worker(todo[1..], Free, delivered + (if ok then 1 else 0), Running)];
  }

  lemma {:induction false} RunsJoin(s: State, a: seq<Event>, b: seq<Event>)
    requires Legal(s, a) && Legal(Run(s, a), b)
    ensures Legal(s, a + b) && Run(s, a + b) == Run(Run(s, a), b)
    decreases |b|
  {
    if b == [] {
      assert a + b == a;
    } else {
      var n := |b| - 1;
      RunsJoin(s, a, b[..n]);
      Associates(a, b[..n], [b[n]]);
      assert b == b[..n] + [b[n]];
      OneMoreEvent(s, a + b[..n], b[n]);
    }
  }

  /** These events, from the start, leave one worker with these rows to go. */
  ghost predicate GotTo(start: State, events: seq<Event>, reports: map<nat, Report>, me: nat, todo: seq<nat>,
                        delivered: nat,
                        log: multiset<(nat, bool)>)
  {
    Legal(start, events) && Run(start, events) == Alone(reports, me, todo, delivered, log)
  }

  function RowEvents(me: nat, ok: bool, now: int): (events: seq<Event>) {
    [Lock(me), Deliver(me, ok), Commit(me, now)]
  }

  lemma OneMoreRow(start: State, events: seq<Event>, reports: map<nat, Report>, me: nat, todo: seq<nat>, delivered: nat,
                   log: multiset<(nat, bool)>, ok: bool, now: int)
    requires GotTo(start, events, reports, me, todo, delivered, log)
    requires todo != [] && todo[0] in reports && reports[todo[0]].emailedAt.None?
    ensures GotTo(start, events + RowEvents(me, ok, now), reports[todo[0] := Stamped(reports[todo[0]], ok, now)], me,
                  todo[1..],
                  delivered + (if ok then 1 else 0), log + multiset{(todo[0], ok)})
  {
    RowInThreeEvents(reports, me, todo, delivered, log, ok, now);
    RunsJoin(start, events, RowEvents(me, ok, now));
  }

  /** The table once the rows in `done` have been tried. */
  function Tried(reports: map<nat, Report>, done: seq<nat>, answers: nat -> bool, now: int): (r: map<nat, Report>) {
    map i | i in reports :: if i in done then Stamped(reports[i], answers(i), now) else reports[i]
  }

  lemma TriedMore(reports: map<nat, Report>, todo: seq<nat>, i: nat, answers: nat -> bool, now: int)
    requires NoDup(todo) && i < |todo| && todo[i] in reports
    ensures todo[i] in Tried(reports, todo[..i], answers, now)
    ensures Tried(reports, todo[..i], answers, now)[todo[i]] == reports[todo[i]]
    ensures Tried(reports, todo[..i + 1], answers, now)
      == Tried(reports, todo[..i], answers, now)[todo[i] := Stamped(reports[todo[i]], answers(todo[i]), now)]
  {
    assert todo[..i + 1] == todo[..i] + [todo[i]];
    assert todo[i] !in todo[..i];
  }

  lemma NextTodo(todo: seq<nat>, i: nat)
    requires i < |todo|
    ensures todo[i..] != [] && todo[i..][0] == todo[i] && todo[i..][1..] == todo[i + 1..]
  {
  }

  class Outbox {
    var reports: map<nat, Report>

    constructor ()
      ensures reports == map[]
    {
      reports := map[];
    }

    method FileReport(id: nat, user: nat, attempt: nat, now: int) returns (refusal: Option<Refusal>)
      requires id !in reports
      modifies this
      ensures refusal == Refused(old(reports), user, attempt, now)
      ensures reports == Filed(old(reports), id, user, attempt, now)
    {
      refusal := Refused(reports, user, attempt, now);
      if refusal.None? { reports := reports[id := Report(user, attempt, now, None, 0)]; }
    }

    method Stamp(id: nat, accepted: bool, now: int)
      requires id in reports
      modifies this
      ensures reports == old(reports)[id := Stamped(old(reports)[id], accepted, now)]
    {
      var report := reports[id];
      report := report.(attempts := report.attempts + 1);
      if accepted { report := report.(emailedAt := Some(now)); }
      reports := reports[id := report];
    }

    /** One row: locked, mailed, stamped, committed. */
    method MailRow(accepted: bool, now: int, me: nat, todo: seq<nat>, before: nat, ghost start: State,
                   ghost past: seq<Event>, ghost heard: multiset<(nat, bool)>)
      returns (delivered: nat, ghost events: seq<Event>, ghost log: multiset<(nat, bool)>)
      requires todo != [] && todo[0] in reports && reports[todo[0]].emailedAt.None?
      requires GotTo(start, past, reports, me, todo, before, heard)
      modifies this
      ensures reports == old(reports)[todo[0] := Stamped(old(reports)[todo[0]], accepted, now)]
      ensures GotTo(start, events, reports, me, todo[1..], delivered, log)
    {
      OneMoreRow(start, past, reports, me, todo, before, heard, accepted, now);
      events, log := past + RowEvents(me, accepted, now), heard + multiset{(todo[0], accepted)};
      Stamp(todo[0], accepted, now);
      delivered := if accepted then before + 1 else before;
    }

    /**
     * One run with nobody else about: every pending report is tried once, those the server takes are
     * stamped, and the run is one of the protocol's.
     */
    method DeliverPending(enabled: bool, answers: nat -> bool, now: int, me: nat)
      returns (delivered: nat, ghost events: seq<Event>, ghost log: multiset<(nat, bool)>)
      modifies this
      ensures !enabled ==> delivered == 0 && reports == old(reports)
      ensures enabled ==> reports == Tried(old(reports), Snapshot(old(reports)), answers, now)
      ensures enabled ==>
        GotTo(Alone(old(reports), me, Snapshot(old(reports)), 0, multiset{}), events, reports, me, [], delivered, log)
    {
      delivered, events, log := 0, [], multiset{};
      if !enabled { return; }
      var pending := Snapshot(reports);
      SnapshotLists(reports);
      ghost var start := Alone(reports, me, pending, 0, multiset{});
      var i := 0;
      while i < |pending|
        invariant 0 <= i <= |pending|
        invariant reports == Tried(old(reports), pending[..i], answers, now)
        invariant GotTo(start, events, reports, me, pending[i..], delivered, log)
      {
        assert pending[i] in Pending(old(reports));
        TriedMore(old(reports), pending, i, answers, now);
        NextTodo(pending, i);
        delivered, events, log := MailRow(answers(pending[i]), now, me, pending[i..], delivered, start, events, log);
        i := i + 1;
      }
      assert pending[..i] == pending && pending[i..] == [];
    }
  }

  /** Running alone, the number returned is the number newly mailed, and every pending report was tried. */
  lemma RunAloneDelivers(reports: map<nat, Report>, answers: nat -> bool, now: int)
    ensures
      var after := Tried(reports, Snapshot(reports), answers, now);
      && Mailed(after) == Mailed(reports) + (set i | i in Pending(reports) && answers(i))
      && (forall i :: i in Pending(reports) ==> after[i].attempts == reports[i].attempts + 1)
      && (forall i :: i in Mailed(reports) ==> after[i] == reports[i])
  {
    SnapshotLists(reports);
  }
}
