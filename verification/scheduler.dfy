/** Any number of bot instances share the tables; a lease per user keeps them
    apart (src/bot/scheduler.py, src/database/state_repo.py). The system is a
    state machine whose steps are the transactions of the program. */
module Scheduler {
  import opened Wrappers
  import opened IssueState
  import opened Processor
  import opened UserHistory

  /** An instance at work for one user: waiting for its turn with the lease
      term already fixed, holding the lease, or at work with the state loaded. */
  datatype Task =
    | Waiting(until: int)
    | Holding(until: int, granted: int)
    | Working(until: int, granted: int, mem: Mem, dirty: set<int>, now: Stamp)

  datatype Grant = Grant(owner: int, at: int, until: int)

  /** `ttls` gives each instance's lease term; `logs` and `grants` record, per
      user, every attempt to send and every lease granted. */
  datatype System = System(
    ttls: map<int, nat>, clock: int, leases: map<int, Lease>, rows: Table, tasks: map<(int, int), Task>,
    logs: map<int, seq<Send>>, grants: map<int, seq<Grant>>)

  datatype Event =
    | Tick(time: int)
    | Launch(who: int, user: int)
    | Acquire(who: int, user: int)
    | LoadState(who: int, user: int, zone: int)
    | Process(who: int, user: int, visit: Visit)
    | Finish(who: int, user: int)
    | Fail(who: int, user: int)
    | Cleanup(user: int, open: set<int>)

  function LogOf(s: System, user: int): seq<Send> {
    if user in s.logs then s.logs[user] else []
  }

  function GrantsOf(s: System, user: int): seq<Grant> {
    if user in s.grants then s.grants[user] else []
  }

  /** An instance has one task per user at a time; the clock does not run back. */
  predicate Enabled(s: System, e: Event) {
    match e
    case Tick(time) => s.clock <= time
    case Launch(i, u) => i in s.ttls && (i, u) !in s.tasks
    case Acquire(i, u) => (i, u) in s.tasks && s.tasks[(i, u)].Waiting?
    case LoadState(i, u, _) => (i, u) in s.tasks && s.tasks[(i, u)].Holding?
    case Process(i, u, v) => (i, u) in s.tasks && s.tasks[(i, u)].Working? && v.now == s.tasks[(i, u)].now
    case Finish(i, u) => (i, u) in s.tasks && !s.tasks[(i, u)].Waiting?
    case Fail(i, u) => (i, u) in s.tasks
    case Cleanup(_, _) => true
  }

  function Granted(s: System, i: int, u: int): System
    requires (i, u) in s.tasks
  {
    var until := s.tasks[(i, u)].until;
    s.(leases := s.leases[u := Lease(i, until)],
       tasks := s.tasks[(i, u) := Holding(until, s.clock)],
       grants := s.grants[u := GrantsOf(s, u) + [Grant(i, s.clock, until)]])
  }

  function Next(s: System, e: Event): System
    requires Enabled(s, e)
  {
    match e
    case Tick(time) => s.(clock := time)
    case Launch(i, u) => s.(tasks := s.tasks[(i, u) := Waiting(s.clock + s.ttls[i])])
    case Acquire(i, u) =>
      if Grantable(s.leases, u, i, s.clock) then Granted(s, i, u) else s.(tasks := s.tasks - {(i, u)})
    case LoadState(i, u, zone) =>
      var t := s.tasks[(i, u)];
      s.(tasks := s.tasks[(i, u) :=
           Working(t.until, t.granted, LoadMem(s.rows, u), {}, Stamp(s.clock, zone))])
    case Process(i, u, v) =>
      var t := s.tasks[(i, u)];
      var p := Advance(Progress(t.mem, t.dirty, LogOf(s, u)), v);
      s.(tasks := s.tasks[(i, u) := t.(mem := p.mem, dirty := p.dirty)], logs := s.logs[u := p.out])
    case Finish(i, u) =>
      var t := s.tasks[(i, u)];
      s.(rows := if t.Working? then Upserted(s.rows, u, t.dirty, t.mem) else s.rows,
         tasks := s.tasks - {(i, u)})
    case Fail(i, u) => s.(tasks := s.tasks - {(i, u)})
    case Cleanup(u, open) => s.(rows := Kept(s.rows, u, open))
  }

  predicate Valid(s: System, run: seq<Event>)
    decreases |run|, 0
  {
    run == [] || (Valid(s, run[..|run| - 1]) && Enabled(After(s, run[..|run| - 1]), run[|run| - 1]))
  }

  function After(s: System, run: seq<Event>): System
    requires Valid(s, run)
    decreases |run|, 1
  {
    if run == [] then s else Next(After(s, run[..|run| - 1]), run[|run| - 1])
  }

  lemma {:induction false} ValidJoin(s: System, a: seq<Event>, b: seq<Event>)
    ensures Valid(s, a + b) <==> Valid(s, a) && Valid(After(s, a), b)
    ensures Valid(s, a + b) ==> After(s, a + b) == After(After(s, a), b)
  {
    hide Next, Enabled;
    if b == [] {
      assert a + b == a;
    } else {
      assert (a + b)[..|a + b| - 1] == a + b[..|b| - 1];
      ValidJoin(s, a, b[..|b| - 1]);
    }
  }

  lemma OneEvent(s: System, e: Event)
    ensures Valid(s, [e]) <==> Enabled(s, e)
    ensures Valid(s, [e]) ==> After(s, [e]) == Next(s, e)
  {
    hide Next, Enabled;
    assert [e][..0] == [];
  }

  predicate Initial(s: System) {
    s.leases == map[] && s.tasks == map[] && s.logs == map[] && s.grants == map[]
  }

  // ---- leases ----

  /** A lease in force is exactly what the table says. */
  predicate TasksSound(s: System) {
    forall k | k in s.tasks ::
      k.0 in s.ttls &&
      match s.tasks[k]
      case Waiting(until) =>
        until <= s.clock + s.ttls[k.0]
        && forall g | g in GrantsOf(s, k.1) && g.owner == k.0 :: g.until <= until
      case _ =>
        && s.tasks[k].granted <= s.clock
        && (s.tasks[k].until >= s.clock ==>
          k.1 in s.leases && s.leases[k.1] == Lease(k.0, s.tasks[k].until))
  }

  /** A granted term has run out, or the table still names its owner with a term at least as long. */
  predicate GrantsSound(s: System, u: int) {
    && (forall g | g in GrantsOf(s, u) ::
          && g.owner in s.ttls && g.until <= s.clock + s.ttls[g.owner]
          && u in s.leases
          && (g.until < s.clock || (s.leases[u].owner == g.owner && g.until <= s.leases[u].until)))
    && (u in s.leases ==>
          exists g :: g in GrantsOf(s, u) && g.owner == s.leases[u].owner && g.until == s.leases[u].until)
  }

  /** Terms granted to different instances do not overlap: the earlier has run
      out before the later is granted. */
  predicate Disjoint(grants: seq<Grant>) {
    forall a, b | 0 <= a < b < |grants| && grants[a].owner != grants[b].owner ::
      grants[a].until < grants[b].at
  }

  ghost predicate LeasesSound(s: System) {
    TasksSound(s) && forall u :: GrantsSound(s, u) && Disjoint(GrantsOf(s, u))
  }

  lemma AcquireSound(s: System, i: int, u: int)
    requires LeasesSound(s) && Enabled(s, Acquire(i, u)) && Grantable(s.leases, u, i, s.clock)
    ensures LeasesSound(Granted(s, i, u))
  {
    hide TasksSound, GrantsSound, Disjoint, Granted, Grantable;
    GrantTasks(s, i, u);
    forall w
      ensures GrantsSound(Granted(s, i, u), w) && Disjoint(GrantsOf(Granted(s, i, u), w))
    {
      if w == u { GrantKeeps(s, i, u); } else { GrantElsewhere(s, i, u, w); }
    }
  }

  lemma GrantTasks(s: System, i: int, u: int)
    requires TasksSound(s) && Enabled(s, Acquire(i, u)) && Grantable(s.leases, u, i, s.clock)
    ensures TasksSound(Granted(s, i, u))
  {
  }

  lemma GrantElsewhere(s: System, i: int, u: int, w: int)
    requires w != u && (i, u) in s.tasks && GrantsSound(s, w) && Disjoint(GrantsOf(s, w))
    ensures GrantsSound(Granted(s, i, u), w) && Disjoint(GrantsOf(Granted(s, i, u), w))
  {
    assert GrantsOf(Granted(s, i, u), w) == GrantsOf(s, w);
  }

  lemma GrantKeeps(s: System, i: int, u: int)
    requires TasksSound(s) && GrantsSound(s, u) && Disjoint(GrantsOf(s, u))
    requires Enabled(s, Acquire(i, u)) && Grantable(s.leases, u, i, s.clock)
    ensures GrantsSound(Granted(s, i, u), u) && Disjoint(GrantsOf(Granted(s, i, u), u))
  {
    var until := s.tasks[(i, u)].until;
    var added := Grant(i, s.clock, until);
    var r := Granted(s, i, u);
    assert GrantsOf(r, u) == GrantsOf(s, u) + [added] && added in GrantsOf(r, u);
    assert forall a | 0 <= a < |GrantsOf(s, u)| :: GrantsOf(s, u)[a] in GrantsOf(s, u);
  }

  /** The event grants a lease. */
  predicate IsGrant(s: System, e: Event) {
    e.Acquire? && Grantable(s.leases, e.user, e.who, s.clock)
  }

  lemma OtherTasks(s: System, e: Event)
    requires LeasesSound(s) && Enabled(s, e) && !IsGrant(s, e)
    ensures TasksSound(Next(s, e))
  {
    hide Advance, LoadMem, Upserted, Kept, Disjoint;
    assert forall u :: GrantsOf(Next(s, e), u) == GrantsOf(s, u);
    if e.Launch? { assert GrantsSound(s, e.user); }
  }

  lemma OtherGrants(s: System, e: Event, u: int)
    requires GrantsSound(s, u) && Disjoint(GrantsOf(s, u)) && Enabled(s, e) && !IsGrant(s, e)
    ensures GrantsSound(Next(s, e), u) && Disjoint(GrantsOf(Next(s, e), u))
  {
    hide Advance, LoadMem, Upserted, Kept, Disjoint;
    assert GrantsOf(Next(s, e), u) == GrantsOf(s, u);
  }

  lemma LeaseStep(s: System, e: Event)
    requires LeasesSound(s) && Enabled(s, e)
    ensures LeasesSound(Next(s, e))
  {
    hide Advance, LoadMem, Upserted, Kept, TasksSound, GrantsSound, Disjoint;
    if IsGrant(s, e) {
      AcquireSound(s, e.who, e.user);
    } else {
      OtherTasks(s, e);
      forall u
        ensures GrantsSound(Next(s, e), u) && Disjoint(GrantsOf(Next(s, e), u))
      {
        OtherGrants(s, e, u);
      }
    }
  }

  lemma {:induction false} LeasesStaySound(s: System, run: seq<Event>)
    requires LeasesSound(s) && Valid(s, run)
    ensures LeasesSound(After(s, run))
  {
    hide LeasesSound, Next;
    if run != [] {
      LeasesStaySound(s, run[..|run| - 1]);
      LeaseStep(After(s, run[..|run| - 1]), run[|run| - 1]);
    }
  }

  lemma {:induction false} LeasesAlwaysSound(s: System, run: seq<Event>)
    requires Initial(s) && Valid(s, run)
    ensures LeasesSound(After(s, run))
  {
    hide LeasesSound, Next;
    InitiallySound(s);
    LeasesStaySound(s, run);
  }

  lemma InitiallySound(s: System)
    requires Initial(s)
    ensures LeasesSound(s)
  {
  }

  /** In every reachable state: the terms [grant, until] granted for one user to
      different instances are pairwise disjoint, however long a task waited for
      its turn after its term had been fixed. */
  lemma GrantedTermsDisjoint(s: System, run: seq<Event>, user: int)
    requires Initial(s) && Valid(s, run)
    ensures Disjoint(GrantsOf(After(s, run), user))
  {
    LeasesAlwaysSound(s, run);
  }

  /** If no task waits longer than its term, a user's recorded term never gets shorter. */
  lemma TermNeverShortens(s: System, run: seq<Event>, e: Event, user: int)
    requires Initial(s) && Valid(s, run) && Enabled(After(s, run), e)
    requires user in After(s, run).leases
    requires e.Acquire? ==> After(s, run).tasks[(e.who, e.user)].until >= After(s, run).clock
    ensures var a, b := After(s, run), Next(After(s, run), e);
            user in b.leases && a.leases[user].until <= b.leases[user].until
  {
    LeasesAlwaysSound(s, run);
    var a := After(s, run);
    assert GrantsSound(a, user);
  }

  // ---- the interleaved run against a serial one ----

  /** Whoever holds the user's lease ends before the term is over. */
  predicate Punctual(s: System, user: int) {
    forall k | k in s.tasks && k.1 == user && !s.tasks[k].Waiting? :: s.clock <= s.tasks[k].until
  }

  /** All along the run every holder of the user's lease is within its term. */
  predicate Prompt(s: System, run: seq<Event>, user: int)
    requires Valid(s, run)
  {
    Punctual(After(s, run), user) && (run != [] ==> Prompt(s, run[..|run| - 1], user))
  }

  /** What an event is to the user's own history. */
  function ActOf(s: System, e: Event, user: int): Option<Act>
    requires Enabled(s, e)
  {
    match e
    case LoadState(i, u, zone) => if u == user then Some(Open(Stamp(s.clock, zone))) else None
    case Process(i, u, v) => if u == user then Some(Examine(v)) else None
    case Finish(i, u) => if u == user && s.tasks[(i, u)].Working? then Some(Save) else None
    case Fail(i, u) => if u == user && s.tasks[(i, u)].Working? then Some(Drop) else None
    case Cleanup(u, open) => if u == user then Some(Sweep(open)) else None
    case _ => None
  }

  function ActsOf(s: System, run: seq<Event>, user: int): seq<Act>
    requires Valid(s, run)
  {
    if run == [] then []
    else
      var n := |run| - 1;
      var a := ActOf(After(s, run[..n]), run[n], user);
      ActsOf(s, run[..n], user) + if a.Some? then [a.value] else []
  }

  /** The grant time of each cycle of the user that loaded its state, in order. */
  function CycleGrants(s: System, run: seq<Event>, user: int): seq<int>
    requires Valid(s, run)
  {
    if run == [] then []
    else
      var n := |run| - 1;
      var b := After(s, run[..n]);
      CycleGrants(s, run[..n], user)
      + if run[n].LoadState? && run[n].user == user then [b.tasks[(run[n].who, user)].granted] else []
  }

  predicate Nondecreasing(times: seq<int>, bound: int) {
    && (forall a, b | 0 <= a < b < |times| :: times[a] <= times[b])
    && (forall t <- times :: t <= bound)
  }

  function DeskAt(s: System, user: int): Desk {
    Desk(UserRows(s.rows, user), None, {}, LogOf(s, user), Stamp(s.clock, 0))
  }

  predicate WorksFor(s: System, user: int, k: (int, int)) {
    k in s.tasks && k.1 == user && s.tasks[k].Working?
  }

  /** The system, seen by one user, is in the state of a single bot's history. */
  ghost predicate Simulates(s: System, user: int, d: Desk) {
    && d.rows == UserRows(s.rows, user)
    && d.log == LogOf(s, user)
    && d.now.at <= s.clock
    && (d.mem.None? ==> forall k :: !WorksFor(s, user, k))
    && (d.mem.Some? ==> exists k :: WorksFor(s, user, k))
    && (forall k | WorksFor(s, user, k) ::
          s.tasks[k].mem == d.mem.GetOr(s.tasks[k].mem) && s.tasks[k].dirty == d.dirty && s.tasks[k].now == d.now)
  }

  /** A state that can be reached, with nobody at work for the user. */
  ghost predicate Ready(s: System, user: int) {
    LeasesSound(s) && forall k :: !WorksFor(s, user, k)
  }

  lemma ReadyAfter(s: System, past: seq<Event>, user: int)
    requires Initial(s) && Valid(s, past) && forall k :: !WorksFor(After(s, past), user, k)
    ensures Ready(After(s, past), user)
  {
    hide LeasesSound, WorksFor;
    LeasesAlwaysSound(s, past);
  }

  /** A punctual holder is alone. */
  lemma OneHolder(s: System, j: (int, int), k: (int, int))
    requires TasksSound(s) && Punctual(s, j.1)
    requires j in s.tasks && k in s.tasks && j.1 == k.1
    requires !s.tasks[j].Waiting? && !s.tasks[k].Waiting?
    ensures j == k
  {
  }

  /** While holders are punctual, no two instances hold one user's lease. */
  lemma MutualExclusion(s: System, run: seq<Event>, i: int, j: int, user: int)
    requires Initial(s) && Valid(s, run) && Punctual(After(s, run), user)
    requires (i, user) in After(s, run).tasks && !After(s, run).tasks[(i, user)].Waiting?
    requires (j, user) in After(s, run).tasks && !After(s, run).tasks[(j, user)].Waiting?
    ensures i == j
  {
    LeasesAlwaysSound(s, run);
    OneHolder(After(s, run), (i, user), (j, user));
  }

  lemma FinishRows(s: System, i: int, u: int, user: int)
    requires (i, u) in s.tasks && s.tasks[(i, u)].Working?
    ensures var t := s.tasks[(i, u)];
            UserRows(Upserted(s.rows, u, t.dirty, t.mem), user)
              == (if u == user then Saved(UserRows(s.rows, user), t.dirty, t.mem) else UserRows(s.rows, user))
  {
    var t := s.tasks[(i, u)];
    SameMap(UserRows(Upserted(s.rows, u, t.dirty, t.mem), user),
            if u == user then Saved(UserRows(s.rows, user), t.dirty, t.mem) else UserRows(s.rows, user));
  }

  lemma CleanupRows(rows: Table, u: int, open: set<int>, user: int)
    ensures UserRows(Kept(rows, u, open), user)
         == if u == user then Swept(UserRows(rows, user), open) else UserRows(rows, user)
  {
    SameMap(UserRows(Kept(rows, u, open), user),
            if u == user then Swept(UserRows(rows, user), open) else UserRows(rows, user));
  }

  lemma LoadSimulates(s: System, i: int, u: int, zone: int, d: Desk)
    requires TasksSound(s) && Punctual(s, u) && Enabled(s, LoadState(i, u, zone)) && Simulates(s, u, d)
    ensures var a := Open(Stamp(s.clock, zone));
            Proper(d, a) && Simulates(Next(s, LoadState(i, u, zone)), u, Do(d, a))
  {
    hide UserRows, LoadRows;
    OnlyOne(s, (i, u));
    var r := Next(s, LoadState(i, u, zone));
    assert WorksFor(r, u, (i, u));
    assert forall k :: WorksFor(r, u, k) ==> k == (i, u) || WorksFor(s, u, k);
  }

  lemma ProcessSimulates(s: System, i: int, u: int, v: Visit, d: Desk)
    requires TasksSound(s) && Punctual(s, u) && Enabled(s, Process(i, u, v)) && Simulates(s, u, d)
    ensures Proper(d, Examine(v)) && Simulates(Next(s, Process(i, u, v)), u, Do(d, Examine(v)))
  {
    hide UserRows, Advance;
    OnlyOne(s, (i, u));
    var r := Next(s, Process(i, u, v));
    assert WorksFor(s, u, (i, u)) && WorksFor(r, u, (i, u));
    assert forall k :: WorksFor(r, u, k) ==> WorksFor(s, u, k);
  }

  /** A finished or failed task of the user, at work or not. */
  lemma EndSimulates(s: System, e: Event, d: Desk)
    requires TasksSound(s) && Enabled(s, e)
    requires e.Finish? || (e.Fail? && s.tasks[(e.who, e.user)].Working?)
    requires Punctual(s, e.user) && Simulates(s, e.user, d)
    ensures match ActOf(s, e, e.user)
            case Some(a) => Proper(d, a) && Simulates(Next(s, e), e.user, Do(d, a))
            case None => Simulates(Next(s, e), e.user, d)
  {
    hide UserRows, Saved, Upserted;
    var k := (e.who, e.user);
    OnlyOne(s, k);
    if s.tasks[k].Working? {
      assert WorksFor(s, e.user, k);
      FinishRows(s, e.who, e.user, e.user);
    }
    assert forall j :: !WorksFor(Next(s, e), k.1, j);
  }

  /** An event that leaves the user's rows, log and loaded cycles alone. */
  lemma OtherSimulates(s: System, e: Event, user: int, d: Desk)
    requires Enabled(s, e) && Simulates(s, user, d)
    requires LogOf(Next(s, e), user) == LogOf(s, user) && UserRows(Next(s, e).rows, user) == UserRows(s.rows, user)
    requires forall k :: WorksFor(Next(s, e), user, k) ==> WorksFor(s, user, k)
    requires forall k | WorksFor(s, user, k) ::
               WorksFor(Next(s, e), user, k) && Next(s, e).tasks[k] == s.tasks[k]
    ensures Simulates(Next(s, e), user, d)
  {
    hide UserRows, Advance;
  }

  lemma ForeignSimulates(s: System, e: Event, user: int, d: Desk)
    requires Enabled(s, e) && Simulates(s, user, d) && ActOf(s, e, user).None?
    requires e.Tick? || e.Launch? || e.Acquire? || e.user != user || (e.Fail? && !s.tasks[(e.who, user)].Working?)
    ensures Simulates(Next(s, e), user, d)
  {
    hide UserRows, Advance, LoadRows, Kept, Upserted, Saved, Swept, Simulates;
    if e.Finish? && s.tasks[(e.who, e.user)].Working? { FinishRows(s, e.who, e.user, user); }
    if e.Cleanup? { CleanupRows(s.rows, e.user, e.open, user); }
    OtherSimulates(s, e, user, d);
  }

  lemma StepSimulates(s: System, e: Event, user: int, d: Desk)
    requires LeasesSound(s) && Punctual(s, user) && Enabled(s, e)
    requires Simulates(s, user, d)
    ensures match ActOf(s, e, user)
            case Some(a) => Proper(d, a) && Simulates(Next(s, e), user, Do(d, a))
            case None => Simulates(Next(s, e), user, d)
  {
    hide Next, Do, TasksSound, Simulates;
    if e.Tick? || e.Launch? || e.Acquire? || e.user != user
       || (e.Fail? && !s.tasks[(e.who, user)].Working?) {
      ForeignSimulates(s, e, user, d);
    } else {
      match e
      case LoadState(i, u, zone) => LoadSimulates(s, i, u, zone, d);
      case Process(i, u, v) => ProcessSimulates(s, i, u, v, d);
      case Cleanup(u, open) => SweepSimulates(s, u, open, d);
      case Finish(_, _) => EndSimulates(s, e, d);
      case Fail(_, _) => EndSimulates(s, e, d);
    }
  }

  lemma SweepSimulates(s: System, u: int, open: set<int>, d: Desk)
    requires Simulates(s, u, d)
    ensures Proper(d, Sweep(open)) && Simulates(Next(s, Cleanup(u, open)), u, Do(d, Sweep(open)))
  {
    hide UserRows, Kept, Swept;
    CleanupRows(s.rows, u, open, u);
    var r := Next(s, Cleanup(u, open));
    assert forall k :: WorksFor(r, u, k) <==> WorksFor(s, u, k);
  }

  lemma OnlyOne(s: System, j: (int, int))
    requires TasksSound(s) && Punctual(s, j.1) && j in s.tasks && !s.tasks[j].Waiting?
    ensures forall k :: WorksFor(s, j.1, k) ==> k == j
  {
    forall k | WorksFor(s, j.1, k)
      ensures k == j
    {
      OneHolder(s, j, k);
    }
  }

  /** Single-bot history, lease soundness and order of grants, for one more event. */
  lemma {:induction false} SerialInvariant(s: System, run: seq<Event>, user: int)
    requires Ready(s, user) && Valid(s, run) && Prompt(s, run, user)
    ensures ProperRun(DeskAt(s, user), ActsOf(s, run, user))
    ensures Simulates(After(s, run), user, DoAll(DeskAt(s, user), ActsOf(s, run, user)))
  {
    hide Simulates, Next, ActOf, Proper, Do, Punctual, Enabled;
    var d := DeskAt(s, user);
    if run == [] {
      StartSimulates(s, user);
    } else {
      var n := |run| - 1;
      SerialInvariant(s, run[..n], user);
      LeasesStaySound(s, run[..n]);
      var b, acts := After(s, run[..n]), ActsOf(s, run[..n], user);
      StepSimulates(b, run[n], user, DoAll(d, acts));
      var a := ActOf(b, run[n], user);
      if a.Some? {
        DoSnoc(d, acts, a.value);
      } else {
        assert ActsOf(s, run, user) == acts;
      }
    }
  }

  lemma StartSimulates(s: System, user: int)
    requires Ready(s, user)
    ensures Simulates(s, user, DeskAt(s, user))
  {
  }

  /** From any reachable state in which nobody is at work for the user, when every
      cycle of the user ends within its lease term, whatever those of others do:
      however the instances and the cleanups interleave, the user's log and rows
      are those of a single bot going through that user's cycles one after the
      other, with the cleanups falling where they fell in the run. */
  lemma SerialRefinement(s: System, run: seq<Event>, user: int)
    requires Ready(s, user) && Valid(s, run) && Prompt(s, run, user)
    ensures ProperRun(DeskAt(s, user), ActsOf(s, run, user))
    ensures var d := DoAll(DeskAt(s, user), ActsOf(s, run, user));
            LogOf(After(s, run), user) == d.log && UserRows(After(s, run).rows, user) == d.rows
  {
    hide UserRows, Advance;
    SerialInvariant(s, run, user);
  }

  // ---- the serial order is the order of the grants ----

  /** The loads so far came in the order of their grants, and no holder was granted before them. */
  predicate GrantOrder(times: seq<int>, s: System, user: int) {
    && Nondecreasing(times, s.clock)
    && (forall k | k in s.tasks && k.1 == user && !s.tasks[k].Waiting? ::
          s.tasks[k].granted <= s.clock && Nondecreasing(times, s.tasks[k].granted))
  }

  lemma NondecreasingSnoc(times: seq<int>, g: int, bound: int)
    requires Nondecreasing(times, g) && g <= bound
    ensures Nondecreasing(times + [g], g) && Nondecreasing(times + [g], bound)
  {
    assert forall a | 0 <= a < |times| :: times[a] in times;
  }

  lemma GrantOrderStep(times: seq<int>, s: System, e: Event, user: int)
    requires TasksSound(s) && Punctual(s, user) && Enabled(s, e) && GrantOrder(times, s, user)
    ensures GrantOrder(
              times + if e.LoadState? && e.user == user then [s.tasks[(e.who, user)].granted] else [],
              Next(s, e), user)
  {
    hide Advance, LoadMem, Upserted, Kept;
    var r := Next(s, e);
    if e.LoadState? && e.user == user {
      HoldersUnique(s, (e.who, user));
      var g := s.tasks[(e.who, user)].granted;
      assert forall k | k in r.tasks && k.1 == user && !r.tasks[k].Waiting? :: k == (e.who, user);
      NondecreasingSnoc(times, g, s.clock);
    } else {
      assert times + [] == times;
    }
  }

  /** The single bot goes through a user's cycles in the order in which their leases were granted. */
  lemma {:induction false} CyclesFollowGrants(s: System, run: seq<Event>, user: int)
    requires Ready(s, user) && Valid(s, run) && Prompt(s, run, user)
    ensures GrantOrder(CycleGrants(s, run, user), After(s, run), user)
  {
    hide GrantOrder, Next, Enabled, Punctual;
    if run == [] {
      StartOrdered(s, user);
    } else {
      var n := |run| - 1;
      CyclesFollowGrants(s, run[..n], user);
      LeasesStaySound(s, run[..n]);
      GrantOrderStep(CycleGrants(s, run[..n], user), After(s, run[..n]), run[n], user);
    }
  }

  lemma StartOrdered(s: System, user: int)
    requires TasksSound(s)
    ensures GrantOrder([], s, user)
  {
  }

  lemma HoldersUnique(s: System, j: (int, int))
    requires TasksSound(s) && Punctual(s, j.1) && j in s.tasks && !s.tasks[j].Waiting?
    ensures forall k | k in s.tasks && k.1 == j.1 && !s.tasks[k].Waiting? :: k == j
  {
    forall k | k in s.tasks && k.1 == j.1 && !s.tasks[k].Waiting?
      ensures k == j
    {
      OneHolder(s, j, k);
    }
  }

  // ---- different users do not get in each other's way ----

  function TaskOf(s: System, i: int, u: int): Option<Task> {
    if (i, u) in s.tasks then Some(s.tasks[(i, u)]) else None
  }

  function LeaseOf(s: System, u: int): Option<Lease> {
    if u in s.leases then Some(s.leases[u]) else None
  }

  /** The systems agree on everything that concerns one user. */
  ghost predicate SamePart(a: System, b: System, u: int) {
    && LeaseOf(a, u) == LeaseOf(b, u)
    && (u in a.logs <==> u in b.logs) && LogOf(a, u) == LogOf(b, u)
    && (u in a.grants <==> u in b.grants) && GrantsOf(a, u) == GrantsOf(b, u)
    && (forall i :: RowOf(a.rows, u, i) == RowOf(b.rows, u, i))
    && (forall i :: TaskOf(a, i, u) == TaskOf(b, i, u))
  }

  ghost predicate SameRest(a: System, b: System) {
    a.ttls == b.ttls && a.clock == b.clock
  }

  /** A system is its clock, its terms and its parts. */
  lemma SameSystem(a: System, b: System)
    requires SameRest(a, b) && forall u :: SamePart(a, b, u)
    ensures a == b
  {
    forall u: int, i: int
      ensures RowOf(a.rows, u, i) == RowOf(b.rows, u, i) && TaskOf(a, i, u) == TaskOf(b, i, u)
    {
      assert SamePart(a, b, u);
    }
    SameTable(a.rows, b.rows);
    forall k: (int, int)
      ensures k in a.tasks <==> k in b.tasks
      ensures k in a.tasks && k in b.tasks ==> a.tasks[k] == b.tasks[k]
    {
      assert TaskOf(a, k.0, k.1) == TaskOf(b, k.0, k.1);
    }
    forall u
      ensures u in a.leases <==> u in b.leases
      ensures u in a.leases && u in b.leases ==> a.leases[u] == b.leases[u]
      ensures u in a.logs <==> u in b.logs
      ensures u in a.logs && u in b.logs ==> a.logs[u] == b.logs[u]
      ensures u in a.grants <==> u in b.grants
      ensures u in a.grants && u in b.grants ==> a.grants[u] == b.grants[u]
    {
      assert SamePart(a, b, u);
      assert LeaseOf(a, u) == LeaseOf(b, u) && LogOf(a, u) == LogOf(b, u) && GrantsOf(a, u) == GrantsOf(b, u);
    }
    assert a.tasks == b.tasks;
    assert a.leases == b.leases;
    assert a.logs == b.logs;
    assert a.grants == b.grants;
  }

  /** A step touches its own user's part only. */
  lemma StepIsLocal(s: System, e: Event, user: int)
    requires Enabled(s, e) && !e.Tick? && user != e.user
    ensures SameRest(Next(s, e), s) && SamePart(Next(s, e), s, user)
  {
    hide Next, Enabled, SamePart, SameRest, Granted;
    if e.Acquire? {
      AcquireIs(s, e.who, e.user);
      if Grantable(s.leases, e.user, e.who, s.clock) {
        GrantIsLocal(s, e.who, e.user, user);
      } else {
        DroppedIsLocal(s, e.who, e.user, user);
      }
    } else {
      OtherIsLocal(s, e, user);
    }
  }

  lemma GrantIsLocal(s: System, i: int, u: int, user: int)
    requires (i, u) in s.tasks && user != u
    ensures SameRest(Granted(s, i, u), s) && SamePart(Granted(s, i, u), s, user)
  {
  }

  lemma DroppedIsLocal(s: System, i: int, u: int, user: int)
    requires user != u
    ensures var r := s.(tasks := s.tasks - {(i, u)}); SameRest(r, s) && SamePart(r, s, user)
  {
  }

  lemma OtherIsLocal(s: System, e: Event, user: int)
    requires Enabled(s, e) && !e.Tick? && !e.Acquire? && user != e.user
    ensures SameRest(Next(s, e), s) && SamePart(Next(s, e), s, user)
  {
    hide Advance, LoadMem, Stored, Upserted, Kept, Granted, Grantable;
  }

  lemma LoadSame(a: Table, b: Table, u: int)
    requires forall i :: RowOf(a, u, i) == RowOf(b, u, i)
    ensures LoadMem(a, u) == LoadMem(b, u)
  {
    SameMap(UserRows(a, u), UserRows(b, u));
  }

  /** Where a step's instance stands after the step. */
  function TaskAfter(s: System, e: Event): Option<Task>
    requires Enabled(s, e) && !e.Tick? && !e.Cleanup?
  {
    match e
    case Launch(i, u) => Some(Waiting(s.clock + s.ttls[i]))
    case Acquire(i, u) =>
      if Grantable(s.leases, u, i, s.clock) then Some(Holding(s.tasks[(i, u)].until, s.clock)) else None
    case LoadState(i, u, zone) =>
      var t := s.tasks[(i, u)];
      Some(Working(t.until, t.granted, LoadMem(s.rows, u), {}, Stamp(s.clock, zone)))
    case Process(i, u, v) =>
      var t := s.tasks[(i, u)];
      var p := Advance(Progress(t.mem, t.dirty, LogOf(s, u)), v);
      Some(t.(mem := p.mem, dirty := p.dirty))
    case Finish(_, _) => None
    case Fail(_, _) => None
  }

  lemma TaskStep(s: System, e: Event, j: int)
    requires Enabled(s, e) && !e.Tick?
    ensures TaskOf(Next(s, e), j, e.user)
         == if !e.Cleanup? && j == e.who then TaskAfter(s, e) else TaskOf(s, j, e.user)
  {
    hide Advance, LoadMem, Grantable;
  }

  lemma RowStep(s: System, s': System, e: Event, j: int)
    requires Enabled(s, e) && Enabled(s', e) && !e.Tick?
    requires SamePart(s, s', e.user)
    ensures RowOf(Next(s, e).rows, e.user, j) == RowOf(Next(s', e).rows, e.user, j)
  {
    hide Advance, LoadMem, Grantable, Stored;
    assert RowOf(s.rows, e.user, j) == RowOf(s'.rows, e.user, j);
    if e.Finish? {
      assert TaskOf(s, e.who, e.user) == TaskOf(s', e.who, e.user);
    }
  }

  lemma SameEnabled(s: System, s': System, e: Event)
    requires Enabled(s, e) && !e.Tick? && SameRest(s, s') && SamePart(s, s', e.user)
    ensures Enabled(s', e)
  {
    if !e.Cleanup? {
      assert TaskOf(s, e.who, e.user) == TaskOf(s', e.who, e.user);
    }
    assert LeaseOf(s, e.user) == LeaseOf(s', e.user);
  }

  lemma SameTaskAfter(s: System, s': System, e: Event)
    requires Enabled(s, e) && Enabled(s', e) && !e.Tick? && !e.Cleanup?
    requires SameRest(s, s') && SamePart(s, s', e.user)
    ensures TaskAfter(s, e) == TaskAfter(s', e)
  {
    hide Advance, LoadMem, Stored;
    LoadSame(s.rows, s'.rows, e.user);
    assert TaskOf(s, e.who, e.user) == TaskOf(s', e.who, e.user);
    assert LeaseOf(s, e.user) == LeaseOf(s', e.user);
  }

  /** What a step does to its user's part depends on nothing but that part. */
  lemma StepIsDetermined(s: System, s': System, e: Event)
    requires Enabled(s, e) && !e.Tick?
    requires SameRest(s, s') && SamePart(s, s', e.user)
    ensures Enabled(s', e) && SamePart(Next(s, e), Next(s', e), e.user)
  {
    SameEnabled(s, s', e);
    var r, r' := Next(s, e), Next(s', e);
    forall j
      ensures TaskOf(r, j, e.user) == TaskOf(r', j, e.user)
      ensures RowOf(r.rows, e.user, j) == RowOf(r'.rows, e.user, j)
    {
      hide Next, Enabled;
      TaskStep(s, e, j);
      TaskStep(s', e, j);
      RowStep(s, s', e, j);
      if !e.Cleanup? { SameTaskAfter(s, s', e); }
      assert TaskOf(s, j, e.user) == TaskOf(s', j, e.user);
    }
    SameRecords(s, s', e);
  }

  lemma SameRecords(s: System, s': System, e: Event)
    requires Enabled(s, e) && Enabled(s', e) && !e.Tick?
    requires SameRest(s, s') && SamePart(s, s', e.user)
    ensures var r, r', u := Next(s, e), Next(s', e), e.user;
            && LeaseOf(r, u) == LeaseOf(r', u)
            && (u in r.logs <==> u in r'.logs) && LogOf(r, u) == LogOf(r', u)
            && (u in r.grants <==> u in r'.grants) && GrantsOf(r, u) == GrantsOf(r', u)
  {
    hide Advance, LoadMem, Stored, Upserted, Kept, RowOf;
    if e.Acquire? {
      assert TaskOf(s, e.who, e.user) == TaskOf(s', e.who, e.user);
      SameAcquire(s, s', e.who, e.user);
    } else if e.Process? {
      assert TaskOf(s, e.who, e.user) == TaskOf(s', e.who, e.user);
    } else {
      RecordsKept(s, e);
      RecordsKept(s', e);
    }
  }

  lemma SameAcquire(s: System, s': System, i: int, u: int)
    requires Enabled(s, Acquire(i, u)) && Enabled(s', Acquire(i, u))
    requires SameRest(s, s') && TaskOf(s, i, u) == TaskOf(s', i, u) && LeaseOf(s, u) == LeaseOf(s', u)
    requires (u in s.grants <==> u in s'.grants) && GrantsOf(s, u) == GrantsOf(s', u)
    ensures var r, r' := Next(s, Acquire(i, u)), Next(s', Acquire(i, u));
            && LeaseOf(r, u) == LeaseOf(r', u) && r.logs == s.logs && r'.logs == s'.logs
            && (u in r.grants <==> u in r'.grants) && GrantsOf(r, u) == GrantsOf(r', u)
  {
    hide Next, Enabled, Granted;
    AcquireIs(s, i, u);
    AcquireIs(s', i, u);
    assert Grantable(s.leases, u, i, s.clock) == Grantable(s'.leases, u, i, s'.clock);
    if Grantable(s.leases, u, i, s.clock) {
      GrantedIs(s, i, u);
      GrantedIs(s', i, u);
    }
  }

  lemma AcquireIs(s: System, i: int, u: int)
    requires Enabled(s, Acquire(i, u))
    ensures (i, u) in s.tasks
    ensures Next(s, Acquire(i, u))
         == if Grantable(s.leases, u, i, s.clock) then Granted(s, i, u) else s.(tasks := s.tasks - {(i, u)})
  {
    hide Granted, Grantable;
  }

  lemma GrantedIs(s: System, i: int, u: int)
    requires (i, u) in s.tasks
    ensures var r, until := Granted(s, i, u), s.tasks[(i, u)].until;
            && LeaseOf(r, u) == Some(Lease(i, until)) && r.logs == s.logs
            && u in r.grants && GrantsOf(r, u) == GrantsOf(s, u) + [Grant(i, s.clock, until)]
  {
  }

  lemma RecordsKept(s: System, e: Event)
    requires Enabled(s, e) && !e.Acquire? && !e.Process?
    ensures Next(s, e).leases == s.leases && Next(s, e).logs == s.logs && Next(s, e).grants == s.grants
  {
    hide LoadMem, Upserted, Kept;
  }

  lemma ExchangedPart(s: System, a: Event, b: Event, u: int)
    requires !a.Tick? && !b.Tick? && a.user != b.user
    requires Enabled(s, a) && Enabled(s, b) && Enabled(Next(s, a), b) && Enabled(Next(s, b), a)
    ensures SamePart(Next(Next(s, a), b), Next(Next(s, b), a), u)
  {
    hide Enabled, Next;
    if u != b.user {
      StepIsLocal(Next(s, a), b, u);
      if u != a.user {
        StepIsLocal(s, a, u);
        StepIsLocal(s, b, u);
        StepIsLocal(Next(s, b), a, u);
      } else {
        StepIsLocal(s, b, u);
        StepIsDetermined(s, Next(s, b), a);
      }
    } else {
      StepIsLocal(Next(s, b), a, u);
      StepIsLocal(s, a, u);
      StepIsDetermined(s, Next(s, a), b);
    }
  }

  /** Steps for different users can be exchanged: the same state results. */
  lemma UsersCommute(s: System, a: Event, b: Event)
    requires !a.Tick? && !b.Tick? && a.user != b.user
    requires Enabled(s, a) && Enabled(s, b)
    ensures Enabled(Next(s, a), b) && Enabled(Next(s, b), a)
    ensures Next(Next(s, a), b) == Next(Next(s, b), a)
  {
    hide Enabled, Next, SamePart;
    StepIsLocal(s, a, b.user);
    StepIsLocal(s, b, a.user);
    StepIsLocal(Next(s, a), b, a.user) by { StepEnabled(s, a, b); }
    StepIsLocal(Next(s, b), a, b.user) by { StepEnabled(s, b, a); }
    StepEnabled(s, a, b);
    StepEnabled(s, b, a);
    forall u
      ensures SamePart(Next(Next(s, a), b), Next(Next(s, b), a), u)
    {
      ExchangedPart(s, a, b, u);
    }
    SameSystem(Next(Next(s, a), b), Next(Next(s, b), a));
  }

  lemma StepEnabled(s: System, a: Event, b: Event)
    requires !a.Tick? && !b.Tick? && a.user != b.user
    requires Enabled(s, a) && Enabled(s, b)
    ensures Enabled(Next(s, a), b)
  {
    hide Enabled, Next;
    StepIsLocal(s, a, b.user);
    StepIsDetermined(s, Next(s, a), b);
  }

  /** What the user sees of a run: the time that passes and its own events. */
  function View(run: seq<Event>, user: int): seq<Event> {
    if run == [] then []
    else
      var e := run[|run| - 1];
      View(run[..|run| - 1], user) + if e.Tick? || e.user == user then [e] else []
  }

  lemma TickSame(a: System, b: System, time: int, user: int)
    requires Enabled(a, Tick(time)) && SameRest(a, b) && SamePart(a, b, user)
    ensures Enabled(b, Tick(time))
    ensures SameRest(Next(a, Tick(time)), Next(b, Tick(time)))
    ensures SamePart(Next(a, Tick(time)), Next(b, Tick(time)), user)
  {
    var r, r' := Next(a, Tick(time)), Next(b, Tick(time));
    forall j
      ensures RowOf(r.rows, user, j) == RowOf(r'.rows, user, j) && TaskOf(r, j, user) == TaskOf(r', j, user)
    {
      assert RowOf(a.rows, user, j) == RowOf(b.rows, user, j) && TaskOf(a, j, user) == TaskOf(b, j, user);
    }
  }

  lemma SamePartVia(a: System, b: System, c: System, user: int)
    requires SamePart(a, b, user) && SamePart(b, c, user)
    ensures SamePart(a, c, user) && SamePart(b, a, user)
  {
    forall j
      ensures RowOf(a.rows, user, j) == RowOf(c.rows, user, j) && TaskOf(a, j, user) == TaskOf(c, j, user)
    {
      assert RowOf(a.rows, user, j) == RowOf(b.rows, user, j) && TaskOf(a, j, user) == TaskOf(b, j, user);
    }
  }

  /** The user's part of the system comes from the user's view of the run. */
  lemma {:induction false} ViewDecides(s: System, run: seq<Event>, user: int)
    requires Valid(s, run)
    ensures Valid(s, View(run, user))
    ensures var a, b := After(s, run), After(s, View(run, user)); SameRest(a, b) && SamePart(a, b, user)
  {
    hide Next, Enabled, SamePart, SameRest;
    if run == [] {
      SameAsItself(s, user);
    } else {
      var n := |run| - 1;
      ViewDecides(s, run[..n], user);
      var a, b, e := After(s, run[..n]), After(s, View(run[..n], user)), run[n];
      if e.Tick? {
        TickSame(a, b, e.time, user);
        ValidJoin(s, View(run[..n], user), [e]);
        OneEvent(b, e);
      } else if e.user == user {
        StepIsDetermined(a, b, e);
        RestStays(a, e);
        RestStays(b, e);
        ValidJoin(s, View(run[..n], user), [e]);
        OneEvent(b, e);
        SameRestVia(Next(a, e), a, b);
        SameRestVia(Next(a, e), b, Next(b, e));
      } else {
        StepIsLocal(a, e, user);
        SamePartVia(Next(a, e), a, b, user);
        SameRestVia(Next(a, e), a, b);
        assert View(run, user) == View(run[..n], user);
      }
    }
  }

  lemma SameAsItself(s: System, user: int)
    ensures SameRest(s, s) && SamePart(s, s, user)
  {
  }

  lemma SameRestVia(a: System, b: System, c: System)
    requires SameRest(a, b) && SameRest(b, c)
    ensures SameRest(a, c)
  {
  }

  lemma RestStays(s: System, e: Event)
    requires Enabled(s, e) && !e.Tick?
    ensures SameRest(Next(s, e), s) && SameRest(s, Next(s, e))
  {
    hide Advance, LoadMem, Upserted, Kept, Grantable;
  }

  /** Cycles of different users commute: two runs that every user sees alike, in
      whatever order the users' events fall between one another, lead to the same
      whole system. */
  lemma CyclesCommute(s: System, run: seq<Event>, other: seq<Event>)
    requires Valid(s, run) && Valid(s, other)
    requires forall user :: View(run, user) == View(other, user)
    ensures After(s, run) == After(s, other)
  {
    hide Next, Enabled, SamePart, SameRest, View, Valid, After;
    forall user
      ensures SamePart(After(s, run), After(s, other), user)
    {
      SameForUser(s, run, other, user);
    }
    SameForUser(s, run, other, 0);
    SameSystem(After(s, run), After(s, other));
  }

  lemma SameForUser(s: System, run: seq<Event>, other: seq<Event>, user: int)
    requires Valid(s, run) && Valid(s, other) && View(run, user) == View(other, user)
    ensures SamePart(After(s, run), After(s, other), user) && SameRest(After(s, run), After(s, other))
  {
    hide Next, Enabled, SamePart, SameRest, View, Valid, After;
    ViewDecides(s, run, user);
    ViewDecides(s, other, user);
    var a, b, v := After(s, run), After(s, other), After(s, View(run, user));
    SameAsItself(v, user);
    SamePartVia(b, v, v, user);
    SamePartVia(a, v, b, user);
    RestBack(b, v);
    SameRestVia(a, v, b);
  }

  lemma RestBack(a: System, b: System)
    requires SameRest(a, b)
    ensures SameRest(b, a)
  {
  }

  // ---- cleanup takes no lease ----

  /** A cleanup under a loaded cycle. It makes a difference to what the cycle's save
      leaves exactly when it removes a row that the save does not write; and it
      leaves what a cleanup after the save would leave exactly when the issue is
      still open or the save does not write it. */
  lemma CleanupAgainstSave(s: System, i: int, u: int, open: set<int>, issue: int)
    requires (i, u) in s.tasks && s.tasks[(i, u)].Working?
    ensures var undisturbed := Next(s, Finish(i, u));
            var swept := Next(Next(s, Cleanup(u, open)), Finish(i, u));
            var after := Next(Next(s, Finish(i, u)), Cleanup(u, open));
            var written := issue in s.tasks[(i, u)].dirty;
            && ((RowOf(swept.rows, u, issue) == RowOf(undisturbed.rows, u, issue))
                <==> (issue in open || written || RowOf(s.rows, u, issue).None?))
            && ((RowOf(swept.rows, u, issue) == RowOf(after.rows, u, issue))
                <==> (issue in open || !written))
  {
  }
}
