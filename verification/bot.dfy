/** One instance's task for one user, and the nightly cleanup (src/bot/scheduler.py). */
module Bot {
  import opened Wrappers
  import opened IssueState
  import opened Processor
  import opened UserHistory
  import opened Scheduler

  /** Where the work for one user meets an exception: in the lease statement or its
      commit, before the state is loaded, or when the changes are saved. */
  datatype Trouble = NoTrouble | AtLease | AtStart | AtSave

  /** The progress of a cycle over the fetched issues. */
  function Cycle(rows: Table, user: int, log: seq<Send>, visits: seq<Visit>): Progress {
    AdvanceAll(Progress(LoadMem(rows, user), {}, log), visits)
  }

  lemma NothingToWrite(rows: Table, user: int, mem: Mem)
    ensures Upserted(rows, user, {}, mem) == rows
  {
    SameTable(rows, Upserted(rows, user, {}, mem));
  }

  class Instance {
    const id: int
    var lastCheck: map<int, int>
    var errors: nat
    var log: seq<Send>

    constructor (id: int)
      ensures this.id == id && lastCheck == map[] && errors == 0 && log == []
    {
      this.id := id;
      lastCheck, errors, log := map[], 0, [];
    }

    /** Lease, process, commit or roll back. An exception anywhere rolls back what
        is not committed and is counted; what has been sent stays sent. A failed
        fetch (`fetched` is None) is no exception: the cycle ends with nothing to
        save. */
    method ProcessUser(db: StateTables, user: int, until: int, now: int,
                       fetched: Option<seq<Visit>>, trouble: Trouble, finished: int)
      returns (acquired: bool)
      modifies this, db
      ensures acquired <==> trouble != AtLease && Grantable(old(db.leases), user, id, now)
      ensures db.leases == if acquired then old(db.leases)[user := Lease(id, until)] else old(db.leases)
      ensures var p := Cycle(old(db.rows), user, old(log), fetched.GetOr([]));
              var worked := acquired && fetched.Some? && trouble != AtStart;
              && log == (if worked then p.out else old(log))
              && db.rows == if worked && trouble == NoTrouble
                            then Upserted(old(db.rows), user, p.dirty, p.mem) else old(db.rows)
      ensures lastCheck == if acquired && trouble == NoTrouble then old(lastCheck)[user := finished] else old(lastCheck)
      ensures errors == old(errors) + if trouble == AtLease || (acquired && trouble != NoTrouble) then 1 else 0
    {
      hide Upserted, LoadMem, AdvanceAll;
      if trouble == AtLease {
        errors := errors + 1;
        return false;
      }
      acquired := db.TryAcquireUserLease(user, id, until, now);
      if !acquired { return; }
      if trouble == AtStart {
        errors := errors + 1;
        return;
      }
      var committed := db.rows;
      if fetched.Some? {
        RunCycle(db, user, fetched.value);
      }
      if trouble == AtSave {
        db.rows := committed;
        errors := errors + 1;
        return;
      }
      lastCheck := lastCheck[user := finished];
    }

    /** Load, examine every issue, write the rows that changed. */
    method RunCycle(db: StateTables, user: int, visits: seq<Visit>)
      modifies this`log, db`rows
      ensures var p := Cycle(old(db.rows), user, old(log), visits);
              log == p.out && db.rows == Upserted(old(db.rows), user, p.dirty, p.mem)
    {
      hide Upserted, LoadMem, AdvanceAll;
      var mem := db.LoadUserIssueState(user);
      var cycle := new UserCycle(mem, log);
      cycle.ProcessAll(visits);
      log := cycle.outbox;
      var changed, dicts := cycle.Changed(), cycle.Dicts();
      if changed != {} {
        db.UpsertUserIssueState(user, changed, dicts);
      } else {
        NothingToWrite(db.rows, user, dicts);
      }
    }

    /** Users whose open issues cannot be fetched are left alone, and so is one whose
        rows cannot be deleted; when the commit raises, all rows stay. */
    method CleanupStateFiles(db: StateTables, sweeps: seq<UserSweep>, commitRaises: bool) returns (done: bool)
      modifies db
      ensures done == !commitRaises
      ensures db.leases == old(db.leases)
      ensures db.rows == if commitRaises then old(db.rows) else CleanedUp(old(db.rows), sweeps)
    {
      var committed := db.rows;
      for i := 0 to |sweeps|
        invariant db.leases == old(db.leases)
        invariant db.rows == CleanedUp(old(db.rows), sweeps[..i])
      {
        assert sweeps[..i + 1][..i] == sweeps[..i];
        if sweeps[i].open.None? { continue; }
        if !sweeps[i].raises {
          var _ := db.DeleteStateRowsNotInOpen(sweeps[i].user, sweeps[i].open.value);
        }
      }
      assert sweeps[..|sweeps|] == sweeps;
      if commitRaises {
        db.rows := committed;
        return false;
      }
      return true;
    }
  }

  /** One user's turn in the cleanup: the open issues fetched, if they could be, and
      whether the deletion raises. */
  datatype UserSweep = UserSweep(user: int, open: Option<set<int>>, raises: bool)

  function CleanedUp(rows: Table, sweeps: seq<UserSweep>): Table {
    if sweeps == [] then rows
    else
      var n := |sweeps| - 1;
      var earlier := CleanedUp(rows, sweeps[..n]);
      if sweeps[n].open.Some? && !sweeps[n].raises then Kept(earlier, sweeps[n].user, sweeps[n].open.value) else earlier
  }

  /** A row survives the cleanup exactly when no sweep of its user that goes through misses its issue. */
  lemma {:induction false} CleanupKeepsOpen(rows: Table, sweeps: seq<UserSweep>, user: int, issue: int)
    ensures RowOf(CleanedUp(rows, sweeps), user, issue)
         == if exists a :: a in sweeps && a.user == user && a.open.Some? && !a.raises && issue !in a.open.value
            then None else RowOf(rows, user, issue)
  {
    if sweeps != [] {
      var n := |sweeps| - 1;
      CleanupKeepsOpen(rows, sweeps[..n], user, issue);
      assert sweeps == sweeps[..n] + [sweeps[n]];
      assert forall a :: a in sweeps <==> a in sweeps[..n] || a == sweeps[n];
    }
  }

  // ---- the method's cycle is one cycle of the single bot ----

  function CycleActs(now: Stamp, visits: seq<Visit>): seq<Act> {
    if visits == [] then [Open(now)]
    else CycleActs(now, visits[..|visits| - 1]) + [Examine(visits[|visits| - 1])]
  }

  lemma {:induction false} CycleIsSerial(d: Desk, now: Stamp, visits: seq<Visit>)
    requires d.mem.None? && d.now.at <= now.at
    requires forall v <- visits :: v.now == now
    ensures var acts := CycleActs(now, visits);
            var p := AdvanceAll(Progress(LoadRows(d.rows), {}, d.log), visits);
            && ProperRun(d, acts)
            && DoAll(d, acts) == Desk(d.rows, Some(p.mem), p.dirty, p.out, now)
  {
    hide Advance;
    if visits == [] {
      assert [Open(now)][..0] == [];
    } else {
      var n := |visits| - 1;
      assert visits[n] in visits && forall v <- visits[..n] :: v in visits;
      CycleIsSerial(d, now, visits[..n]);
      DoSnoc(d, CycleActs(now, visits[..n]), Examine(visits[n]));
    }
  }

  /** The rows a cycle of `ProcessUser` leaves are those the single bot's cycle
      saves, and its log is the single bot's log. */
  lemma ProcessUserIsSerial(rows: Table, user: int, log: seq<Send>, before: Stamp, now: Stamp, visits: seq<Visit>)
    requires before.at <= now.at
    requires forall v <- visits :: v.now == now
    ensures var p := Cycle(rows, user, log, visits);
            var d := Desk(UserRows(rows, user), None, {}, log, before);
            var acts := CycleActs(now, visits) + [Save];
            && ProperRun(d, acts)
            && DoAll(d, acts).rows == UserRows(Upserted(rows, user, p.dirty, p.mem), user)
            && DoAll(d, acts).log == p.out
  {
    hide *;
    var d := Desk(UserRows(rows, user), None, {}, log, before);
    var b := CycleEnd(rows, user, log, before, now, visits);
    DoSnoc(d, CycleActs(now, visits), Save);
    SaveSaves(b);
    SavedIsUpserted(rows, user, b.dirty, b.mem.value);
  }

  /** The single bot's desk at the end of the cycle. */
  lemma CycleEnd(rows: Table, user: int, log: seq<Send>, before: Stamp, now: Stamp, visits: seq<Visit>)
    returns (b: Desk)
    requires before.at <= now.at
    requires forall v <- visits :: v.now == now
    ensures var p := Cycle(rows, user, log, visits);
            var d := Desk(UserRows(rows, user), None, {}, log, before);
            && ProperRun(d, CycleActs(now, visits))
            && b == DoAll(d, CycleActs(now, visits))
            && b == Desk(UserRows(rows, user), Some(p.mem), p.dirty, p.out, now)
  {
    hide AdvanceAll, LoadRows, UserRows, DoAll, ProperRun, CycleActs;
    var d := Desk(UserRows(rows, user), None, {}, log, before);
    CycleIsSerial(d, now, visits);
    b := DoAll(d, CycleActs(now, visits));
  }

  lemma SaveSaves(b: Desk)
    requires b.mem.Some?
    ensures Proper(b, Save) && Do(b, Save).rows == Saved(b.rows, b.dirty, b.mem.value) && Do(b, Save).log == b.log
  {
  }

  lemma SavedIsUpserted(rows: Table, user: int, dirty: set<int>, mem: Mem)
    ensures Saved(UserRows(rows, user), dirty, mem) == UserRows(Upserted(rows, user, dirty, mem), user)
  {
    hide Stored;
    SameMap(Saved(UserRows(rows, user), dirty, mem), UserRows(Upserted(rows, user, dirty, mem), user));
  }

  // ---- the method's call is a run of the system ----

  function Processings(i: int, u: int, visits: seq<Visit>): seq<Event> {
    if visits == [] then []
    else Processings(i, u, visits[..|visits| - 1]) + [Process(i, u, visits[|visits| - 1])]
  }

  /** A system in which the instance is at work for the user. */
  predicate AtWork(s: System, i: int, u: int, p: Progress, now: Stamp) {
    && (i, u) in s.tasks && s.tasks[(i, u)].Working?
    && s.tasks[(i, u)].mem == p.mem && s.tasks[(i, u)].dirty == p.dirty && s.tasks[(i, u)].now == now
    && LogOf(s, u) == p.out
  }

  lemma OneProcessing(s: System, i: int, u: int, p: Progress, v: Visit)
    requires AtWork(s, i, u, p, v.now)
    ensures var e := Process(i, u, v);
            && Enabled(s, e)
            && AtWork(Next(s, e), i, u, Advance(p, v), v.now)
            && Next(s, e).leases == s.leases && Next(s, e).rows == s.rows && Next(s, e).clock == s.clock
            && Next(s, e).tasks - {(i, u)} == s.tasks - {(i, u)}
  {
    hide Advance;
  }

  lemma {:induction false} WorkIsRun(s: System, i: int, u: int, p: Progress, now: Stamp, visits: seq<Visit>)
    requires AtWork(s, i, u, p, now) && forall v <- visits :: v.now == now
    ensures var run := Processings(i, u, visits);
            && Valid(s, run)
            && AtWork(After(s, run), i, u, AdvanceAll(p, visits), now)
            && After(s, run).leases == s.leases && After(s, run).rows == s.rows && After(s, run).clock == s.clock
            && After(s, run).tasks - {(i, u)} == s.tasks - {(i, u)}
  {
    hide Enabled, Next, AtWork, Advance;
    if visits != [] {
      var n := |visits| - 1;
      var run := Processings(i, u, visits[..n]);
      assert visits[n] in visits && forall v <- visits[..n] :: v in visits;
      WorkIsRun(s, i, u, p, now, visits[..n]);
      OneProcessing(After(s, run), i, u, AdvanceAll(p, visits[..n]), visits[n]);
      OneEvent(After(s, run), Process(i, u, visits[n]));
      ValidJoin(s, run, [Process(i, u, visits[n])]);
    }
  }

  /** Load, examine, and end the cycle. */
  function CycleEvents(i: int, u: int, loaded: int, zone: int, visits: seq<Visit>, saved: bool): seq<Event> {
    [Tick(loaded), LoadState(i, u, zone)] + Processings(i, u, visits) + [if saved then Finish(i, u) else Fail(i, u)]
  }

  /** The transactions of one call, from its launch. */
  function CallEvents(i: int, u: int, now: int, loaded: int, zone: int,
                      fetched: Option<seq<Visit>>, trouble: Trouble, granted: bool): seq<Event> {
    [Launch(i, u), Tick(now)]
    + if trouble == AtLease then [Fail(i, u)]
      else [Acquire(i, u)]
           + if !granted then []
             else if trouble == AtStart then [Fail(i, u)]
             else if fetched.None? then [if trouble == NoTrouble then Finish(i, u) else Fail(i, u)]
             else CycleEvents(i, u, loaded, zone, fetched.value, trouble == NoTrouble)
  }

  lemma TwoEvents(s: System, e: Event, f: Event)
    requires Enabled(s, e) && Enabled(Next(s, e), f)
    ensures Valid(s, [e, f]) && After(s, [e, f]) == Next(Next(s, e), f)
  {
    hide Enabled, Next;
    OneEvent(s, e);
    OneEvent(Next(s, e), f);
    ValidJoin(s, [e], [f]);
    assert [e] + [f] == [e, f];
  }

  lemma LoadIsWork(s: System, i: int, u: int, loaded: int, zone: int)
    requires (i, u) in s.tasks && s.tasks[(i, u)].Holding? && s.clock <= loaded
    ensures Valid(s, [Tick(loaded), LoadState(i, u, zone)])
    ensures var r := After(s, [Tick(loaded), LoadState(i, u, zone)]);
            && AtWork(r, i, u, Progress(LoadMem(s.rows, u), {}, LogOf(s, u)), Stamp(loaded, zone))
            && r.leases == s.leases && r.rows == s.rows && r.tasks - {(i, u)} == s.tasks - {(i, u)}
  {
    hide LoadMem;
    TwoEvents(s, Tick(loaded), LoadState(i, u, zone));
  }

  lemma EndIsEnd(s: System, i: int, u: int, p: Progress, now: Stamp, saved: bool)
    requires AtWork(s, i, u, p, now)
    ensures var e := if saved then Finish(i, u) else Fail(i, u);
            && Valid(s, [e]) && LogOf(After(s, [e]), u) == p.out
            && After(s, [e]).rows == (if saved then Upserted(s.rows, u, p.dirty, p.mem) else s.rows)
            && After(s, [e]).leases == s.leases && After(s, [e]).tasks == s.tasks - {(i, u)}
  {
    hide Upserted;
    OneEvent(s, if saved then Finish(i, u) else Fail(i, u));
  }

  lemma CycleIsRun(s: System, i: int, u: int, loaded: int, zone: int, visits: seq<Visit>, saved: bool)
    requires (i, u) in s.tasks && s.tasks[(i, u)].Holding? && s.clock <= loaded
    requires forall v <- visits :: v.now == Stamp(loaded, zone)
    ensures var run := CycleEvents(i, u, loaded, zone, visits, saved);
            var p := Cycle(s.rows, u, LogOf(s, u), visits);
            && Valid(s, run) && LogOf(After(s, run), u) == p.out
            && After(s, run).rows == (if saved then Upserted(s.rows, u, p.dirty, p.mem) else s.rows)
            && After(s, run).leases == s.leases && After(s, run).tasks == s.tasks - {(i, u)}
  {
    hide AtWork, Upserted, LoadMem, AdvanceAll, Processings, Valid, After;
    var open, work := [Tick(loaded), LoadState(i, u, zone)], Processings(i, u, visits);
    var end := [if saved then Finish(i, u) else Fail(i, u)];
    var p := Progress(LoadMem(s.rows, u), {}, LogOf(s, u));
    LoadIsWork(s, i, u, loaded, zone);
    WorkIsRun(After(s, open), i, u, p, Stamp(loaded, zone), visits);
    ValidJoin(s, open, work);
    EndIsEnd(After(s, open + work), i, u, AdvanceAll(p, visits), Stamp(loaded, zone), saved);
    ValidJoin(s, open + work, end);
    SameWithout(After(s, open + work).tasks, s.tasks, (i, u));
  }

  lemma SameWithout(a: map<(int, int), Task>, b: map<(int, int), Task>, k: (int, int))
    requires a - {k} == b - {k}
    ensures forall j | j != k :: (j in a <==> j in b) && (j in a ==> a[j] == b[j])
  {
    forall j | j != k
      ensures (j in a <==> j in b) && (j in a ==> a[j] == b[j])
    {
      assert j in a - {k} <==> j in b - {k};
      assert j in a - {k} ==> (a - {k})[j] == (b - {k})[j];
    }
  }

  /** Launch, wait, ask for the lease. */
  lemma LaunchAndAsk(s: System, i: int, u: int, now: int)
    requires i in s.ttls && (i, u) !in s.tasks && s.clock <= now
    ensures Valid(s, [Launch(i, u), Tick(now)])
    ensures var w := After(s, [Launch(i, u), Tick(now)]);
            && w == s.(tasks := s.tasks[(i, u) := Waiting(s.clock + s.ttls[i])], clock := now)
            && Valid(w, [Fail(i, u)]) && After(w, [Fail(i, u)]) == s.(clock := now)
            && Valid(w, [Acquire(i, u)])
            && (if Grantable(s.leases, u, i, now) then After(w, [Acquire(i, u)]) == Granted(w, i, u)
                else After(w, [Acquire(i, u)]) == s.(clock := now))
  {
    hide Enabled, Next, After, Valid, Granted, Grantable;
    var w := s.(tasks := s.tasks[(i, u) := Waiting(s.clock + s.ttls[i])], clock := now);
    Launched(s, i, u, now);
    TwoEvents(s, Launch(i, u), Tick(now));
    Asked(s, w, i, u);
    OneEvent(w, Fail(i, u));
    OneEvent(w, Acquire(i, u));
  }

  lemma Launched(s: System, i: int, u: int, now: int)
    requires i in s.ttls && (i, u) !in s.tasks && s.clock <= now
    ensures Enabled(s, Launch(i, u)) && Enabled(Next(s, Launch(i, u)), Tick(now))
    ensures Next(Next(s, Launch(i, u)), Tick(now))
         == s.(tasks := s.tasks[(i, u) := Waiting(s.clock + s.ttls[i])], clock := now)
  {
  }

  lemma Asked(s: System, w: System, i: int, u: int)
    requires i in s.ttls && (i, u) !in s.tasks
    requires w == s.(tasks := s.tasks[(i, u) := Waiting(s.clock + s.ttls[i])], clock := w.clock)
    ensures Enabled(w, Fail(i, u)) && Next(w, Fail(i, u)) == s.(clock := w.clock)
    ensures Enabled(w, Acquire(i, u))
    ensures Next(w, Acquire(i, u))
         == if Grantable(s.leases, u, i, w.clock) then Granted(w, i, u) else s.(clock := w.clock)
  {
    hide Granted, Grantable;
    assert w.tasks - {(i, u)} == s.tasks;
  }

  /** The end of a call that never loaded the state. */
  lemma HoldAndEnd(s: System, i: int, u: int, e: Event)
    requires (i, u) in s.tasks && s.tasks[(i, u)].Holding? && (e == Finish(i, u) || e == Fail(i, u))
    ensures Valid(s, [e]) && After(s, [e]) == s.(tasks := s.tasks - {(i, u)})
  {
    OneEvent(s, e);
  }

  /** Every call of `ProcessUser` is a run of the system: the same lease, the same
      rows, the same messages, and afterwards nobody is at work who was not before. */
  lemma CallIsRun(s: System, i: int, u: int, now: int, loaded: int, zone: int,
                  fetched: Option<seq<Visit>>, trouble: Trouble)
    requires i in s.ttls && (i, u) !in s.tasks && s.clock <= now <= loaded
    requires fetched.Some? ==> forall v <- fetched.value :: v.now == Stamp(loaded, zone)
    ensures var granted := Grantable(s.leases, u, i, now);
            var run := CallEvents(i, u, now, loaded, zone, fetched, trouble, granted);
            var acquired := trouble != AtLease && granted;
            var worked := acquired && fetched.Some? && trouble != AtStart;
            var p := Cycle(s.rows, u, LogOf(s, u), fetched.GetOr([]));
            && Valid(s, run)
            && var r := After(s, run);
            && r.leases == (if acquired then s.leases[u := Lease(i, s.clock + s.ttls[i])] else s.leases)
            && LogOf(r, u) == (if worked then p.out else LogOf(s, u))
            && r.rows == (if worked && trouble == NoTrouble then Upserted(s.rows, u, p.dirty, p.mem) else s.rows)
            && r.tasks == s.tasks
  {
    hide Upserted, Cycle, Valid, After, Processings;
    var start := [Launch(i, u), Tick(now)];
    LaunchAndAsk(s, i, u, now);
    var w := After(s, start);
    if trouble == AtLease {
      ValidJoin(s, start, [Fail(i, u)]);
    } else if !Grantable(s.leases, u, i, now) {
      ValidJoin(s, start, [Acquire(i, u)]);
      assert [Acquire(i, u)] + [] == [Acquire(i, u)];
    } else {
      var g := Granted(w, i, u);
      var rest := if trouble == AtStart then [Fail(i, u)]
                  else if fetched.None? then [if trouble == NoTrouble then Finish(i, u) else Fail(i, u)]
                  else CycleEvents(i, u, loaded, zone, fetched.value, trouble == NoTrouble);
      if trouble == AtStart || fetched.None? {
        HoldAndEnd(g, i, u, rest[0]);
      } else {
        CycleIsRun(g, i, u, loaded, zone, fetched.value, trouble == NoTrouble);
      }
      assert g.tasks - {(i, u)} == s.tasks;
      ValidJoin(w, [Acquire(i, u)], rest);
      ValidJoin(s, start, [Acquire(i, u)] + rest);
    }
  }
}
