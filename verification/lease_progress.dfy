/** When a lease is to be had: nobody keeps a user for longer than its term
    (src/bot/scheduler.py, src/database/state_repo.py). */
module LeaseProgress {
  import opened Wrappers
  import opened IssueState
  import opened Processor
  import opened Scheduler

  /** The user is held by another owner whose term has not run out. */
  predicate HeldByAnother(s: System, who: int, user: int) {
    user in s.leases && s.leases[user].owner != who && s.clock <= s.leases[user].until
  }

  /** Whoever asks for a user is refused if and only if another owner's term has not
      run out; a refused instance stops there and nothing else changes, otherwise the
      lease is the asker's, with the term fixed at its launch, and it holds it. */
  lemma AcquireExactly(s: System, who: int, user: int)
    requires Enabled(s, Acquire(who, user))
    ensures var r, until := Next(s, Acquire(who, user)), s.tasks[(who, user)].until;
            if HeldByAnother(s, who, user) then r == s.(tasks := s.tasks - {(who, user)})
            else
              && r.leases == s.leases[user := Lease(who, until)]
              && r.tasks == s.tasks[(who, user) := Holding(until, s.clock)]
              && r.rows == s.rows && r.logs == s.logs && r.clock == s.clock && r.ttls == s.ttls
  {
  }

  // ---- the term of a task ----

  /** Event k of the run launches this work, and no later one does. */
  predicate LaunchedAt(run: seq<Event>, k: nat, who: int, user: int) {
    k < |run| && run[k] == Launch(who, user) && forall j | k < j < |run| :: run[j] != Launch(who, user)
  }

  lemma TaskStep(s: System, e: Event, who: int, user: int)
    requires Enabled(s, e) && (who, user) in Next(s, e).tasks
    ensures Next(s, e).ttls == s.ttls
    ensures var r := Next(s, e);
            if e == Launch(who, user) then who in s.ttls && r.tasks[(who, user)].until == s.clock + s.ttls[who]
            else (who, user) in s.tasks && r.tasks[(who, user)].until == s.tasks[(who, user)].until
  {
    hide Advance, LoadMem, Upserted, Kept;
  }

  lemma TermsKept(s: System, e: Event)
    requires Enabled(s, e)
    ensures Next(s, e).ttls == s.ttls
  {
    hide Advance, LoadMem, Upserted, Kept;
  }

  lemma {:induction false} TermsStay(s: System, run: seq<Event>)
    requires Valid(s, run)
    ensures After(s, run).ttls == s.ttls
  {
    hide Next, Enabled;
    if run != [] {
      TermsStay(s, run[..|run| - 1]);
      TermsKept(After(s, run[..|run| - 1]), run[|run| - 1]);
    }
  }

  /** A task's term ends the instance's own time after its launch, however long it waited since. */
  lemma {:induction false} TermFixedAtLaunch(s: System, run: seq<Event>, who: int, user: int) returns (k: nat)
    requires Initial(s) && Valid(s, run) && (who, user) in After(s, run).tasks
    ensures LaunchedAt(run, k, who, user) && Valid(s, run[..k]) && who in s.ttls
    ensures After(s, run).tasks[(who, user)].until == After(s, run[..k]).clock + s.ttls[who]
  {
    hide Next, Enabled;
    if run == [] {
      NoTasks(s);
    }
    var n := |run| - 1;
    var b := After(s, run[..n]);
    TaskStep(b, run[n], who, user);
    TermsStay(s, run[..n]);
    if run[n] == Launch(who, user) {
      k := n;
    } else {
      k := TermFixedAtLaunch(s, run[..n], who, user);
      assert run[..n][..k] == run[..k];
    }
  }

  lemma NoTasks(s: System)
    requires Initial(s)
    ensures s.tasks == map[]
  {
  }

  // ---- a lease nobody renews ----

  predicate NobodyAsks(run: seq<Event>, user: int) {
    forall e | e in run && e.Acquire? :: e.user != user
  }

  lemma LeaseKept(s: System, e: Event, user: int)
    requires Enabled(s, e) && (e.Acquire? ==> e.user != user)
    ensures Get(Next(s, e).leases, user) == Get(s.leases, user)
  {
    hide Advance, LoadMem, Upserted, Kept;
  }

  lemma {:induction false} LeaseStays(s: System, run: seq<Event>, user: int)
    requires Valid(s, run) && NobodyAsks(run, user)
    ensures Get(After(s, run).leases, user) == Get(s.leases, user)
  {
    hide Next, Enabled;
    if run != [] {
      var n := |run| - 1;
      assert run[n] in run && forall e :: e in run[..n] ==> e in run;
      LeaseStays(s, run[..n], user);
      LeaseKept(After(s, run[..n]), run[n], user);
    }
  }

  /** From no reachable state does a lease last longer than its owner's term. */
  lemma LeaseRunsOut(s: System, past: seq<Event>, user: int)
    requires Initial(s) && Valid(s, past) && user in After(s, past).leases
    ensures var a := After(s, past);
            a.leases[user].owner in a.ttls && a.leases[user].until <= a.clock + a.ttls[a.leases[user].owner]
  {
    hide Valid, After;
    LeasesAlwaysSound(s, past);
    assert GrantsSound(After(s, past), user);
  }

  /** From any reachable state: once more than the owner's term has passed in which
      nobody asked for the user, the first instance that asks is granted the lease. */
  lemma AbandonedLeaseIsTaken(s: System, past: seq<Event>, since: seq<Event>, who: int, user: int)
    requires Initial(s) && Valid(s, past) && Valid(After(s, past), since) && NobodyAsks(since, user)
    requires var a, b := After(s, past), After(After(s, past), since);
             && Enabled(b, Acquire(who, user))
             && (user in a.leases && a.leases[user].owner in a.ttls ==>
                   b.clock > a.clock + a.ttls[a.leases[user].owner])
    ensures var b := After(After(s, past), since);
            var r := Next(b, Acquire(who, user));
            && user in r.leases && r.leases[user] == Lease(who, b.tasks[(who, user)].until)
            && (who, user) in r.tasks && r.tasks[(who, user)] == Holding(b.tasks[(who, user)].until, b.clock)
  {
    hide Next, Valid, After, Enabled;
    var a := After(s, past);
    if user in a.leases { LeaseRunsOut(s, past, user); }
    LeaseStays(a, since, user);
    AcquireExactly(After(a, since), who, user);
  }

  /** So an instance that has no task for the user gets it by waiting that long and launching one. */
  lemma WaitingIsEnough(s: System, past: seq<Event>, who: int, user: int, time: int)
    requires Initial(s) && Valid(s, past)
    requires var a := After(s, past);
             && who in a.ttls && (who, user) !in a.tasks && a.clock <= time
             && (user in a.leases && a.leases[user].owner in a.ttls ==> a.clock + a.ttls[a.leases[user].owner] < time)
    ensures var a, since := After(s, past), [Tick(time), Launch(who, user), Acquire(who, user)];
            && Valid(a, since)
            && user in After(a, since).leases && After(a, since).leases[user] == Lease(who, time + a.ttls[who])
            && (who, user) in After(a, since).tasks
            && After(a, since).tasks[(who, user)] == Holding(time + a.ttls[who], time)
  {
    hide Valid, After;
    var a := After(s, past);
    var begun := [Tick(time), Launch(who, user)];
    LaunchedThen(a, who, user, time);
    AbandonedLeaseIsTaken(s, past, begun, who, user);
    ValidJoin(a, begun, [Acquire(who, user)]);
    OneEvent(After(a, begun), Acquire(who, user));
    assert begun + [Acquire(who, user)] == [Tick(time), Launch(who, user), Acquire(who, user)];
  }

  lemma LaunchedThen(a: System, who: int, user: int, time: int)
    requires who in a.ttls && (who, user) !in a.tasks && a.clock <= time
    ensures var begun := [Tick(time), Launch(who, user)];
            && Valid(a, begun) && NobodyAsks(begun, user)
            && After(a, begun).clock == time && After(a, begun).leases == a.leases
            && Enabled(After(a, begun), Acquire(who, user))
            && After(a, begun).tasks[(who, user)].until == time + a.ttls[who]
  {
    hide Valid, After;
    OneEvent(a, Tick(time));
    ValidJoin(a, [Tick(time)], [Launch(who, user)]);
    OneEvent(After(a, [Tick(time)]), Launch(who, user));
    assert [Tick(time)] + [Launch(who, user)] == [Tick(time), Launch(who, user)];
  }
}
