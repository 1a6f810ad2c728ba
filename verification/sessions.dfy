/** Sessions of the admin panel: login, requests with sliding expiry, logout,
    password resets (src/admin/middleware.py, src/admin/routes/auth.py,
    src/admin/routes/app_users.py). A login and a reset take several statements
    with others in between: a login reads the user's version and commits its
    session later; a reset checks its token, reads the user's version, writes and
    deletes the user's sessions, and commits. */
module Sessions {
  import opened Wrappers

  datatype Session = Session(user: int, expiresAt: int, version: int)

  datatype ResetToken = ResetToken(user: int, expiresAt: int, usedAt: Option<int>)

  /** A reset in progress, by token or (None) by an administrator. `read` is the
      version it has read; `doomed` are the sessions its DELETE has seen, which
      go when it commits. */
  datatype Change = Change(user: int, token: Option<int>, at: int, read: Option<int>, doomed: Option<set<int>>)

  /** `pending` are logins whose password has been checked and whose session is
      not committed yet; `issued` are all the session tokens drawn so far,
      `attempts` all the resets begun. */
  datatype State = State(
    ttl: int, idle: int, clock: int, users: map<int, int>, issued: set<int>,
    pending: map<int, Session>, sessions: map<int, Session>, resets: map<int, ResetToken>,
    attempts: set<int>, changes: map<int, Change>)

  /** Where a request can fail on the way. */
  datatype Fault = NoFault | BeforeCommit | AfterCommit

  datatype Event =
    | Setup(now: int, user: int)
    | CheckPassword(now: int, user: int, token: int)
    | OpenSession(now: int, token: int)
    | AbandonLogin(now: int, token: int)
    | Request(now: int, token: int, fault: Fault)
    | Logout(now: int, token: int)
    | IssueReset(now: int, reset: int, user: int, expiresAt: int)
    | CheckToken(now: int, id: int, reset: int)
    | ReadUser(now: int, id: int, policyOk: bool)
    | BeginAdminReset(now: int, id: int, user: int, byAdmin: bool, policyOk: bool)
    | Purge(now: int, id: int)
    | CommitReset(now: int, id: int)
    | AbandonReset(now: int, id: int)

  /** A reset that has written but not committed is deleting the session: whoever
      writes to its row waits. */
  predicate Held(s: State, token: int) {
    exists id :: id in s.changes && s.changes[id].doomed.Some? && token in s.changes[id].doomed.value
  }

  /** A reset that has written but not committed holds the user's row. */
  predicate Locked(s: State, user: int) {
    exists id :: id in s.changes && s.changes[id].doomed.Some? && s.changes[id].user == user
  }

  /** Tokens and ids are drawn fresh; the clock does not run back. */
  predicate Enabled(s: State, e: Event) {
    s.clock <= e.now &&
    match e
    case Setup(_, u) => u !in s.users
    case CheckPassword(_, u, t) => u in s.users && t !in s.issued
    case OpenSession(_, t) => t in s.pending
    case AbandonLogin(_, t) => t in s.pending
    case Request(_, t, _) => !Held(s, t)
    case Logout(_, t) => !Held(s, t)
    case IssueReset(_, r, _, _) => r !in s.resets
    case CheckToken(_, id, _) => id !in s.attempts
    case ReadUser(_, id, _) => id in s.changes && s.changes[id].read.None?
    case BeginAdminReset(_, id, _, _, _) => id !in s.attempts
    case Purge(_, id) =>
      id in s.changes && s.changes[id].read.Some? && s.changes[id].doomed.None? && !Locked(s, s.changes[id].user)
    case CommitReset(_, id) => id in s.changes && s.changes[id].read.Some? && s.changes[id].doomed.Some?
    case AbandonReset(_, id) => id in s.changes
  }

  /** The session is of its user's current version. */
  predicate Current(a: State, x: Session) {
    x.user in a.users && x.version == a.users[x.user]
  }

  predicate Authentic(s: State, token: int, now: int) {
    token in s.sessions && s.sessions[token].expiresAt > now && Current(s, s.sessions[token])
  }

  predicate Accepts(s: State, e: Event) {
    e.Request? && Authentic(s, e.token, e.now) && e.fault.NoFault?
  }

  /** The request is accepted, or fails only after its session was extended. */
  predicate Extends(s: State, e: Event) {
    e.Request? && Authentic(s, e.token, e.now) && !e.fault.BeforeCommit?
  }

  predicate Redeemable(s: State, reset: int, now: int) {
    && reset in s.resets
    && s.resets[reset].usedAt.None?
    && s.resets[reset].expiresAt > now
  }

  /** The user whose reset takes effect, if the event is the commit of one. */
  function ResetOf(s: State, e: Event): Option<int>
    requires Enabled(s, e)
  {
    if e.CommitReset? then Some(s.changes[e.id].user) else None
  }

  /** `(version or 1) + 1` */
  function Bumped(version: int): int {
    (if version == 0 then 1 else version) + 1
  }

  function SessionsOf(sessions: map<int, Session>, user: int): set<int> {
    set t | t in sessions && sessions[t].user == user
  }

  /** The commit of a reset: whatever the version has become since it was read, it
      is overwritten. */
  function Committed(s: State, id: int): State
    requires id in s.changes && s.changes[id].read.Some? && s.changes[id].doomed.Some?
  {
    var c := s.changes[id];
    s.(users := s.users[c.user := Bumped(c.read.value)],
       sessions := s.sessions - c.doomed.value,
       resets := if c.token.Some? && c.token.value in s.resets
                 then s.resets[c.token.value := s.resets[c.token.value].(usedAt := Some(c.at))] else s.resets,
       changes := s.changes - {id})
  }

  function Apply(s: State, e: Event): State
    requires Enabled(s, e)
  {
    match e
    case Setup(_, u) => s.(users := s.users[u := 1])
    case CheckPassword(now, u, t) =>
      s.(pending := s.pending[t := Session(u, now + s.ttl, s.users[u])], issued := s.issued + {t})
    case OpenSession(_, t) => s.(sessions := s.sessions[t := s.pending[t]], pending := s.pending - {t})
    case AbandonLogin(_, t) => s.(pending := s.pending - {t})
    case Request(now, t, _) =>
      if Extends(s, e) then s.(sessions := s.sessions[t := s.sessions[t].(expiresAt := now + s.idle)]) else s
    case Logout(_, t) => s.(sessions := s.sessions - {t})
    case IssueReset(_, r, u, expires) => s.(resets := s.resets[r := ResetToken(u, expires, None)])
    case CheckToken(now, id, r) =>
      s.(attempts := s.attempts + {id},
         changes := if Redeemable(s, r, now) then s.changes[id := Change(s.resets[r].user, Some(r), now, None, None)]
                    else s.changes)
    case ReadUser(_, id, policyOk) =>
      var c := s.changes[id];
      s.(changes := if c.user in s.users && policyOk then s.changes[id := c.(read := Some(s.users[c.user]))]
                    else s.changes - {id})
    case BeginAdminReset(now, id, u, byAdmin, policyOk) =>
      s.(attempts := s.attempts + {id},
         changes := if byAdmin && u in s.users && policyOk
                    then s.changes[id := Change(u, None, now, Some(s.users[u]), None)] else s.changes)
    case Purge(_, id) =>
      var c := s.changes[id];
      s.(changes := s.changes[id := c.(doomed := Some(SessionsOf(s.sessions, c.user)))])
    case CommitReset(_, id) => Committed(s, id)
    case AbandonReset(_, id) => s.(changes := s.changes - {id})
  }

  function Next(s: State, e: Event): State
    requires Enabled(s, e)
  {
    Apply(s, e).(clock := e.now)
  }

  predicate Valid(s: State, run: seq<Event>)
    decreases |run|, 0
  {
    run == [] || (Valid(s, run[..|run| - 1]) && Enabled(After(s, run[..|run| - 1]), run[|run| - 1]))
  }

  function After(s: State, run: seq<Event>): State
    requires Valid(s, run)
    decreases |run|, 1
  {
    if run == [] then s else Next(After(s, run[..|run| - 1]), run[|run| - 1])
  }

  predicate Initial(s: State) {
    && s.users == map[] && s.issued == {} && s.pending == map[] && s.sessions == map[]
    && s.resets == map[] && s.attempts == {} && s.changes == map[]
  }

  lemma AfterSnoc(s: State, run: seq<Event>, e: Event)
    ensures Valid(s, run + [e]) <==> Valid(s, run) && Enabled(After(s, run), e)
    ensures Valid(s, run + [e]) ==> After(s, run + [e]) == Next(After(s, run), e)
  {
    assert (run + [e])[..|run|] == run;
  }

  lemma {:induction false} ValidPrefix(s: State, run: seq<Event>, k: nat)
    requires Valid(s, run) && k <= |run|
    ensures Valid(s, run[..k])
  {
    if k < |run| {
      ValidPrefix(s, run[..|run| - 1], k);
      assert run[..|run| - 1][..k] == run[..k];
    } else {
      assert run[..k] == run;
    }
  }

  lemma {:induction false} ValidJoin(s: State, a: seq<Event>, b: seq<Event>)
    ensures Valid(s, a + b) <==> Valid(s, a) && Valid(After(s, a), b)
    ensures Valid(s, a + b) ==> After(s, a + b) == After(After(s, a), b)
  {
    hide Next, Enabled;
    if b == [] {
      assert a + b == a;
    } else {
      assert (a + b)[..|a + b| - 1] == a + b[..|b| - 1];
      ValidJoin(s, a, b[..|b| - 1]);
    }
  }

  // ---- what every run keeps ----

  predicate Tracked(s: State) {
    && (forall t | t in s.sessions :: t in s.issued && t !in s.pending && s.sessions[t].user in s.users)
    && (forall t | t in s.pending :: t in s.issued && s.pending[t].user in s.users)
    && (forall id | id in s.changes :: id in s.attempts)
    && (forall id | id in s.changes && s.changes[id].read.Some? :: s.changes[id].user in s.users)
    && (forall id | id in s.changes && s.changes[id].doomed.Some? ::
          s.changes[id].read.Some? && s.changes[id].doomed.value <= SessionsOf(s.sessions, s.changes[id].user))
    && (forall i, j | i in s.changes && j in s.changes && s.changes[i].doomed.Some? && s.changes[j].doomed.Some?
                      && s.changes[i].user == s.changes[j].user :: i == j)
  }

  lemma StepTracked(s: State, e: Event)
    requires Tracked(s) && Enabled(s, e)
    ensures Tracked(Next(s, e))
  {
    hide Redeemable, Bumped;
  }

  lemma {:induction false} AlwaysTracked(s: State, run: seq<Event>)
    requires Initial(s) && Valid(s, run)
    ensures Tracked(After(s, run))
  {
    hide Next, Enabled;
    if run == [] {
      InitiallyTracked(s);
    } else {
      AlwaysTracked(s, run[..|run| - 1]);
      StepTracked(After(s, run[..|run| - 1]), run[|run| - 1]);
    }
  }

  lemma InitiallyTracked(s: State)
    requires Initial(s)
    ensures Tracked(s)
  {
  }

  // ---- sliding expiry ----

  /** When the session was last extended, and when it was last served. */
  function LastExtended(s: State, run: seq<Event>, token: int): Option<int>
    requires Valid(s, run)
  {
    if run == [] then None
    else
      var n := |run| - 1;
      var e := run[n];
      if Extends(After(s, run[..n]), e) && e.token == token then Some(e.now)
      else LastExtended(s, run[..n], token)
  }

  function LastServed(s: State, run: seq<Event>, token: int): Option<int>
    requires Valid(s, run)
  {
    if run == [] then None
    else
      var n := |run| - 1;
      var e := run[n];
      if Accepts(After(s, run[..n]), e) && e.token == token then Some(e.now)
      else LastServed(s, run[..n], token)
  }

  /** When the login behind the token had its password checked. */
  function LoginTime(run: seq<Event>, token: int): Option<int> {
    if run == [] then None
    else
      var e := run[|run| - 1];
      if e.CheckPassword? && e.token == token then Some(e.now) else LoginTime(run[..|run| - 1], token)
  }

  /** A session runs out `idle` after its last extension, `ttl` after its login if it has none. */
  predicate Timed(a: State, extended: Option<int>, login: Option<int>, token: int) {
    && (token !in a.issued ==> extended.None? && login.None?)
    && (token in a.pending ==> extended.None? && login == Some(a.pending[token].expiresAt - a.ttl))
    && (token in a.sessions ==>
          a.sessions[token].expiresAt ==
          match extended
          case Some(at) => at + a.idle
          case None => login.GetOr(a.sessions[token].expiresAt - a.ttl) + a.ttl)
    && (token in a.sessions ==> login.Some?)
  }

  lemma TimedStep(a: State, e: Event, token: int, extended: Option<int>, login: Option<int>)
    requires Tracked(a) && Enabled(a, e) && Timed(a, extended, login, token)
    ensures Timed(Next(a, e),
                  if Extends(a, e) && e.token == token then Some(e.now) else extended,
                  if e.CheckPassword? && e.token == token then Some(e.now) else login, token)
  {
    hide Redeemable, Bumped;
    match e
    case OpenSession(_, _) =>
    case Request(_, _, _) =>
    case CommitReset(_, _) =>
    case _ =>
  }

  lemma {:induction false} AlwaysTimed(s: State, run: seq<Event>, token: int)
    requires Initial(s) && Valid(s, run)
    ensures Timed(After(s, run), LastExtended(s, run, token), LoginTime(run, token), token)
  {
    hide Next, Enabled, Extends, Timed;
    if run == [] {
      TimedAtFirst(s, token);
    } else {
      var n := |run| - 1;
      AlwaysTimed(s, run[..n], token);
      AlwaysTracked(s, run[..n]);
      TimedStep(After(s, run[..n]), run[n], token, LastExtended(s, run[..n], token), LoginTime(run[..n], token));
    }
  }

  lemma TimedAtFirst(s: State, token: int)
    requires Initial(s)
    ensures Timed(s, None, None, token)
  {
  }

  predicate NoLateFault(run: seq<Event>, token: int) {
    forall e | e in run && e.Request? && e.token == token :: !e.fault.AfterCommit?
  }

  lemma {:induction false} ServedIsExtended(s: State, run: seq<Event>, token: int)
    requires Valid(s, run) && NoLateFault(run, token)
    ensures LastServed(s, run, token) == LastExtended(s, run, token)
  {
    hide Next, Enabled, Authentic;
    if run != [] {
      assert run[|run| - 1] in run;
      ServedIsExtended(s, run[..|run| - 1], token);
    }
  }

  /** An accepted request comes less than the idle timeout after the session's
      last extension; the first one less than the session term after the login. */
  lemma AcceptedInTime(s: State, run: seq<Event>, request: Event)
    requires Initial(s) && Valid(s, run) && Accepts(After(s, run), request)
    ensures match LastExtended(s, run, request.token)
            case Some(at) => request.now < at + After(s, run).idle
            case None => LoginTime(run, request.token).Some?
                         && request.now < LoginTime(run, request.token).value + After(s, run).ttl
  {
    AlwaysTimed(s, run, request.token);
  }

  /** If no request failed after its commit, the last extension is the last accepted request. */
  lemma AcceptedSoonAfterAccepted(s: State, run: seq<Event>, request: Event)
    requires Initial(s) && Valid(s, run) && Accepts(After(s, run), request)
    requires NoLateFault(run, request.token) && LastServed(s, run, request.token).Some?
    ensures request.now < LastServed(s, run, request.token).value + After(s, run).idle
  {
    AcceptedInTime(s, run, request);
    ServedIsExtended(s, run, request.token);
  }

  // ---- logging out ----

  predicate Dead(s: State, token: int) {
    token in s.issued && token !in s.pending && token !in s.sessions
  }

  lemma DeadStep(s: State, e: Event, token: int)
    requires Dead(s, token) && Enabled(s, e)
    ensures Dead(Next(s, e), token)
  {
  }

  /** A session that was open is never accepted again after its logout. */
  lemma {:induction false} LoggedOutForGood(s: State, later: seq<Event>, token: int, now: int)
    requires Tracked(s) && token in s.sessions && s.clock <= now && !Held(s, token)
    requires Valid(Next(s, Logout(now, token)), later)
    ensures Dead(After(Next(s, Logout(now, token)), later), token)
    ensures forall request: Event | request.Request? && request.token == token ::
              !Accepts(After(Next(s, Logout(now, token)), later), request)
  {
    var out := Next(s, Logout(now, token));
    if later != [] {
      LoggedOutForGood(s, later[..|later| - 1], token, now);
      DeadStep(After(out, later[..|later| - 1]), later[|later| - 1], token);
    }
  }

  // ---- how many resets stand one upon another ----

  /** Where the version for this reset was read: the length of the run before that. */
  function ReadPoint(run: seq<Event>, id: int): (k: nat)
    ensures k <= |run|
    ensures k == |run| ==> run == []
  {
    if run == [] then 0
    else
      var n := |run| - 1;
      if (run[n].ReadUser? || run[n].BeginAdminReset?) && run[n].id == id then n else ReadPoint(run[..n], id)
  }

  /** The height of a user's pile of resets: a reset that commits stands upon those
      that had committed when it read the version, and upon no other. */
  function Level(s: State, run: seq<Event>, user: int): (l: nat)
    requires Valid(s, run)
    ensures l >= 1
    decreases |run|
  {
    if run == [] then 1
    else
      var n := |run| - 1;
      if ResetOf(After(s, run[..n]), run[n]) == Some(user) then
        var k := ReadPoint(run[..n], run[n].id);
        ValidPrefix(s, run[..n], k);
        1 + Level(s, run[..n][..k], user)
      else Level(s, run[..n], user)
  }

  /** A reset in progress has read the level of its read point. */
  ghost predicate ReadsLevel(s: State, run: seq<Event>, id: int)
    requires Valid(s, run)
  {
    var a := After(s, run);
    id in a.changes && a.changes[id].read.Some? ==>
      (ValidPrefix(s, run, ReadPoint(run, id));
       a.changes[id].read.value == Level(s, run[..ReadPoint(run, id)], a.changes[id].user))
  }

  ghost predicate IsLevel(s: State, run: seq<Event>, user: int)
    requires Valid(s, run)
  {
    var a := After(s, run);
    if user in a.users then a.users[user] == Level(s, run, user) else Level(s, run, user) == 1
  }

  lemma UsersStep(a: State, e: Event, user: int)
    requires Tracked(a) && Enabled(a, e)
    ensures user in a.users ==> user in Next(a, e).users
    ensures ResetOf(a, e) == Some(user) ==>
      user in a.users && Next(a, e).users[user] == Bumped(a.changes[e.id].read.value)
    ensures ResetOf(a, e) != Some(user) && user in a.users ==> Next(a, e).users[user] == a.users[user]
    ensures user !in a.users && user in Next(a, e).users ==> Next(a, e).users[user] == 1
  {
    hide Redeemable, Bumped, Extends;
  }

  lemma ChangesStep(a: State, e: Event, id: int)
    requires Tracked(a) && Enabled(a, e) && id in Next(a, e).changes && Next(a, e).changes[id].read.Some?
    ensures var c := Next(a, e).changes[id];
            if (e.ReadUser? || e.BeginAdminReset?) && e.id == id
            then c.user in a.users && c.read == Some(a.users[c.user])
            else id in a.changes && a.changes[id].read == c.read && a.changes[id].user == c.user
  {
    hide Redeemable, Bumped, Extends;
  }

  lemma {:induction false} VersionIsLevel(s: State, run: seq<Event>, user: int)
    requires Initial(s) && Valid(s, run)
    ensures IsLevel(s, run, user)
    decreases |run|, 1
  {
    hide Next, Enabled, Level;
    if run == [] {
      FirstLevel(s, user);
    } else {
      var n := |run| - 1;
      var a, e := After(s, run[..n]), run[n];
      AlwaysTracked(s, run[..n]);
      VersionIsLevel(s, run[..n], user);
      UsersStep(a, e, user);
      LevelStep(s, run, user);
      if ResetOf(a, e) == Some(user) {
        ReadIsLevel(s, run[..n], e.id);
        CommitsRead(a, e);
      }
    }
  }

  lemma CommitsRead(a: State, e: Event)
    requires Enabled(a, e) && e.CommitReset?
    ensures e.id in a.changes && a.changes[e.id].read.Some?
  {
  }

  lemma FirstLevel(s: State, user: int)
    requires Initial(s)
    ensures IsLevel(s, [], user)
  {
  }

  lemma LevelStep(s: State, run: seq<Event>, user: int)
    requires Valid(s, run) && run != []
    ensures var n := |run| - 1;
            if ResetOf(After(s, run[..n]), run[n]) == Some(user) then
              var k := ReadPoint(run[..n], run[n].id);
              Valid(s, run[..n][..k]) && Level(s, run, user) == 1 + Level(s, run[..n][..k], user)
            else Level(s, run, user) == Level(s, run[..n], user)
  {
    hide Next, Enabled;
    var n := |run| - 1;
    if ResetOf(After(s, run[..n]), run[n]) == Some(user) {
      ValidPrefix(s, run[..n], ReadPoint(run[..n], run[n].id));
    }
  }

  lemma {:induction false} ReadIsLevel(s: State, run: seq<Event>, id: int)
    requires Initial(s) && Valid(s, run)
    ensures ReadsLevel(s, run, id)
    decreases |run|, 0
  {
    hide Next, Enabled, Level;
    if run != [] {
      var n := |run| - 1;
      var a, e, b := After(s, run[..n]), run[n], After(s, run);
      AlwaysTracked(s, run[..n]);
      ReadIsLevel(s, run[..n], id);
      if id in b.changes && b.changes[id].read.Some? {
        ChangesStep(a, e, id);
        ValidPrefix(s, run, ReadPoint(run, id));
        if (e.ReadUser? || e.BeginAdminReset?) && e.id == id {
          VersionIsLevel(s, run[..n], b.changes[id].user);
        } else {
          assert run[..n][..ReadPoint(run[..n], id)] == run[..ReadPoint(run, id)];
        }
      }
    } else {
      NothingRead(s, id);
    }
  }

  lemma NothingRead(s: State, id: int)
    requires Initial(s)
    ensures ReadsLevel(s, [], id)
  {
  }

  // ---- exactly which requests are accepted ----

  /** What has happened to a token: whose login it is and at which level of that
      user's resets, and whether its session is open. */
  datatype Standing = Standing(user: Option<int>, level: int, open: bool)

  function StandingOf(s: State, run: seq<Event>, token: int): Standing
    requires Valid(s, run)
  {
    if run == [] then Standing(None, 0, false)
    else
      var n := |run| - 1;
      var st := StandingOf(s, run[..n], token);
      var e := run[n];
      if e.CheckPassword? && e.token == token then Standing(Some(e.user), Level(s, run[..n], e.user), false)
      else st.(open := Opened(st.open, e, Deletes(After(s, run[..n]), e, token), token))
  }

  /** A session opens with the commit of its login; it closes at its logout and with
      the commit of a reset whose DELETE saw it. */
  predicate Opened(open: bool, e: Event, deleted: bool, token: int) {
    match e
    case OpenSession(_, t) => open || t == token
    case Logout(_, t) => open && t != token
    case _ => open && !deleted
  }

  predicate Deletes(a: State, e: Event, token: int)
    requires Enabled(a, e)
  {
    e.CommitReset? && token in a.changes[e.id].doomed.value
  }

  /** The tables say of a token what its history says. */
  predicate Mirrors(a: State, st: Standing, token: int) {
    && (token in a.issued <==> st.user.Some?)
    && (token in a.pending ==>
          !st.open && Some(a.pending[token].user) == st.user && a.pending[token].version == st.level)
    && (token in a.sessions ==> Some(a.sessions[token].user) == st.user && a.sessions[token].version == st.level)
    && (st.open <==> token in a.sessions)
  }

  lemma MirrorsStep(a: State, e: Event, st: Standing, token: int)
    requires Tracked(a) && Enabled(a, e) && Mirrors(a, st, token)
    ensures var st' := if e.CheckPassword? && e.token == token then Standing(Some(e.user), a.users[e.user], false)
                       else st.(open := Opened(st.open, e, Deletes(a, e, token), token));
            Mirrors(Next(a, e), st', token)
  {
    hide Redeemable, Bumped;
    match e
    case OpenSession(_, _) =>
    case Request(_, _, _) =>
    case CommitReset(_, _) =>
    case _ =>
  }

  lemma {:induction false} HistoryMirrored(s: State, run: seq<Event>, token: int)
    requires Initial(s) && Valid(s, run)
    ensures Mirrors(After(s, run), StandingOf(s, run, token), token)
  {
    hide Next, Enabled, Mirrors, Level, Deletes, Opened;
    if run == [] {
      MirroredAtFirst(s, token);
    } else {
      var n := |run| - 1;
      HistoryMirrored(s, run[..n], token);
      AlwaysTracked(s, run[..n]);
      MirrorsStep(After(s, run[..n]), run[n], StandingOf(s, run[..n], token), token);
      if run[n].CheckPassword? {
        VersionIsLevel(s, run[..n], run[n].user);
        KnownUser(After(s, run[..n]), run[n]);
      }
    }
  }

  lemma KnownUser(a: State, e: Event)
    requires Enabled(a, e) && e.CheckPassword?
    ensures e.user in a.users
  {
  }

  lemma MirroredAtFirst(s: State, token: int)
    requires Initial(s)
    ensures Mirrors(s, Standing(None, 0, false), token)
  {
  }

  /** The moment a session runs out, told from its history alone. */
  function Deadline(s: State, run: seq<Event>, token: int): int
    requires Valid(s, run)
  {
    match LastExtended(s, run, token)
    case Some(at) => at + After(s, run).idle
    case None => LoginTime(run, token).GetOr(0) + After(s, run).ttl
  }

  /** Open, and as many resets stand one upon another as at its login. */
  predicate Alive(s: State, run: seq<Event>, token: int)
    requires Valid(s, run)
  {
    var st := StandingOf(s, run, token);
    st.open && st.user.Some? && st.level == Level(s, run, st.user.value)
  }

  lemma AliveIsCurrent(s: State, run: seq<Event>, token: int)
    requires Initial(s) && Valid(s, run)
    ensures var a := After(s, run); Alive(s, run, token) <==> token in a.sessions && Current(a, a.sessions[token])
  {
    hide Next, Enabled, Level, StandingOf;
    HistoryMirrored(s, run, token);
    AlwaysTracked(s, run);
    var st := StandingOf(s, run, token);
    if st.user.Some? { VersionIsLevel(s, run, st.user.value); }
  }

  /** A request that nothing hinders is accepted exactly when its session has been
      opened and neither logged out nor deleted by a reset, as many resets of its
      user stand one upon another as at its login, and its time has not run out. */
  lemma AcceptedExactly(s: State, run: seq<Event>, request: Event)
    requires Initial(s) && Valid(s, run) && request.Request? && request.fault == NoFault
    ensures Accepts(After(s, run), request)
       <==> Alive(s, run, request.token) && request.now < Deadline(s, run, request.token)
  {
    hide Next, Enabled, Level, StandingOf, Alive;
    AliveIsCurrent(s, run, request.token);
    AlwaysTimed(s, run, request.token);
  }

  // ---- how long after the last accepted request ----

  /** A request can still be accepted at or after `from`. */
  ghost predicate AcceptableFrom(s: State, run: seq<Event>, token: int, from: int)
    requires Valid(s, run)
  {
    exists now: int :: from <= now && After(s, run).clock <= now && Accepts(After(s, run), Request(now, token, NoFault))
  }

  lemma AcceptableExactly(s: State, run: seq<Event>, token: int, from: int)
    requires Initial(s) && Valid(s, run)
    ensures AcceptableFrom(s, run, token, from)
       <==> Alive(s, run, token) && from < Deadline(s, run, token) && After(s, run).clock < Deadline(s, run, token)
  {
    hide Next, Enabled, Alive, Deadline, Accepts;
    var clock := After(s, run).clock;
    forall now: int
      ensures Accepts(After(s, run), Request(now, token, NoFault))
         <==> Alive(s, run, token) && now < Deadline(s, run, token)
    {
      AcceptedExactly(s, run, Request(now, token, NoFault));
    }
    var now := if from < clock then clock else from;
    assert Accepts(After(s, run), Request(now, token, NoFault)) ==> AcceptableFrom(s, run, token, from);
  }

  lemma {:induction false} ServedWasExtended(s: State, run: seq<Event>, token: int)
    requires Valid(s, run) && LastServed(s, run, token).Some?
    ensures LastExtended(s, run, token).Some?
  {
    hide Next, Enabled, Authentic;
    var e := run[|run| - 1];
    if !(Accepts(After(s, run[..|run| - 1]), e) && e.token == token) {
      ServedWasExtended(s, run[..|run| - 1], token);
    }
  }

  /** A request can be accepted `idle` or more after the last accepted one if and only
      if the session has been extended later than that, by a request that failed
      after its commit, and is alive and not run out. */
  lemma IdleExceededExactly(s: State, run: seq<Event>, token: int)
    requires Initial(s) && Valid(s, run) && LastServed(s, run, token).Some?
    ensures LastExtended(s, run, token).Some?
    ensures var served, extended := LastServed(s, run, token).value, LastExtended(s, run, token).value;
            AcceptableFrom(s, run, token, served + After(s, run).idle)
            <==> Alive(s, run, token) && served < extended && After(s, run).clock < extended + After(s, run).idle
  {
    hide Next, Enabled, Alive, AcceptableFrom;
    ServedWasExtended(s, run, token);
    AcceptableExactly(s, run, token, LastServed(s, run, token).value + After(s, run).idle);
  }

  /** The first accepted request can come `ttl` or more after the login if and only if
      such a request has moved the deadline beyond that, and the session is alive
      and not run out. */
  lemma TermExceededExactly(s: State, run: seq<Event>, token: int)
    requires Initial(s) && Valid(s, run) && LastServed(s, run, token).None? && LoginTime(run, token).Some?
    ensures var limit := LoginTime(run, token).value + After(s, run).ttl;
            AcceptableFrom(s, run, token, limit)
            <==> Alive(s, run, token) && limit < Deadline(s, run, token)
                 && After(s, run).clock < Deadline(s, run, token)
  {
    AcceptableExactly(s, run, token, LoginTime(run, token).value + After(s, run).ttl);
  }

  // ---- a request that fails after its commit ----

  const FRESH := State(10, 5, 0, map[], {}, map[], map[], map[], {}, map[])

  /** Served at 1, extended at 5 by a request that fails after its commit, served again at 8. */
  const LATE_FAULT := [Setup(0, 1), CheckPassword(0, 1, 7), OpenSession(0, 7),
                       Request(1, 7, NoFault), Request(5, 7, AfterCommit)]

  lemma FiveEvents(s: State, a: Event, b: Event, c: Event, d: Event, e: Event)
    requires Enabled(s, a) && Enabled(Next(s, a), b) && Enabled(Next(Next(s, a), b), c)
    requires Enabled(Next(Next(Next(s, a), b), c), d) && Enabled(Next(Next(Next(Next(s, a), b), c), d), e)
    ensures Valid(s, [a, b, c, d, e]) && After(s, [a, b, c, d, e]) == Next(Next(Next(Next(Next(s, a), b), c), d), e)
    ensures Valid(s, [a, b, c, d]) && After(s, [a, b, c, d]) == Next(Next(Next(Next(s, a), b), c), d)
    ensures Valid(s, [a, b, c]) && After(s, [a, b, c]) == Next(Next(Next(s, a), b), c)
  {
    hide Next, Enabled;
    assert Valid(s, []) && After(s, []) == s;
    AfterSnoc(s, [], a);
    assert [] + [a] == [a];
    AfterSnoc(s, [a], b);
    assert [a] + [b] == [a, b];
    AfterSnoc(s, [a, b], c);
    assert [a, b] + [c] == [a, b, c];
    AfterSnoc(s, [a, b, c], d);
    assert [a, b, c] + [d] == [a, b, c, d];
    AfterSnoc(s, [a, b, c, d], e);
    assert [a, b, c, d] + [e] == [a, b, c, d, e];
  }

  /** The idle timeout does not count from the last accepted request. */
  lemma LateFaultExtends()
    ensures Initial(FRESH) && Valid(FRESH, LATE_FAULT)
    ensures LastServed(FRESH, LATE_FAULT, 7) == Some(1)
    ensures Accepts(After(FRESH, LATE_FAULT), Request(8, 7, NoFault)) && 8 >= 1 + FRESH.idle
  {
    var s0 := FRESH;
    var s1 := Next(s0, Setup(0, 1));
    var s2 := Next(s1, CheckPassword(0, 1, 7));
    var s3 := Next(s2, OpenSession(0, 7));
    var s4 := Next(s3, Request(1, 7, NoFault));
    var s5 := Next(s4, Request(5, 7, AfterCommit));
    assert s4.sessions == map[7 := Session(1, 6, 1)] && s5.sessions == map[7 := Session(1, 10, 1)];
    FiveEvents(s0, Setup(0, 1), CheckPassword(0, 1, 7), OpenSession(0, 7),
               Request(1, 7, NoFault), Request(5, 7, AfterCommit));
    assert LATE_FAULT[..4] == [Setup(0, 1), CheckPassword(0, 1, 7), OpenSession(0, 7), Request(1, 7, NoFault)];
    assert LATE_FAULT[..4][..3] == [Setup(0, 1), CheckPassword(0, 1, 7), OpenSession(0, 7)];
  }

  // ---- the panel itself ----

  class Panel {
    const ttl: int
    const idle: int
    var users: map<int, int>
    var sessions: map<int, Session>
    var pending: map<int, Session>
    var resets: map<int, ResetToken>
    var changes: map<int, Change>
    ghost var issued: set<int>
    ghost var attempts: set<int>
    ghost var clock: int

    ghost function View(): State
      reads this
    {
      State(ttl, idle, clock, users, issued, pending, sessions, resets, attempts, changes)
    }

    constructor (ttl: int, idle: int, now: int)
      ensures View() == State(ttl, idle, now, map[], {}, map[], map[], map[], {}, map[])
    {
      this.ttl, this.idle := ttl, idle;
      users, sessions, pending, resets, changes := map[], map[], map[], map[], map[];
      issued, attempts, clock := {}, {}, now;
    }

    /** The first half of a login: the password has been verified, the session is built. */
    method LoginPost(user: int, token: int, now: int)
      requires Enabled(View(), CheckPassword(now, user, token))
      modifies this
      ensures View() == Next(old(View()), CheckPassword(now, user, token))
    {
      pending := pending[token := Session(user, now + ttl, users[user])];
      issued, clock := issued + {token}, now;
    }

    /** The second half: the session row is committed, or the request dies first. */
    method LoginCommit(token: int, now: int, committed: bool)
      requires Enabled(View(), OpenSession(now, token))
      modifies this
      ensures View() == Next(old(View()), if committed then OpenSession(now, token) else AbandonLogin(now, token))
    {
      if committed {
        sessions := sessions[token := pending[token]];
      }
      pending := pending - {token};
      clock := now;
    }

    method Dispatch(token: int, now: int, fault: Fault) returns (accepted: bool)
      requires Enabled(View(), Request(now, token, fault))
      modifies this
      ensures View() == Next(old(View()), Request(now, token, fault))
      ensures accepted == Accepts(old(View()), Request(now, token, fault))
    {
      clock := now;
      if token !in sessions || sessions[token].expiresAt <= now { return false; }
      var session := sessions[token];
      if session.user !in users { return false; }
      if session.version != users[session.user] { return false; }
      if fault == BeforeCommit { return false; }
      sessions := sessions[token := session.(expiresAt := now + idle)];
      return fault == NoFault;
    }

    method LogOut(token: int, now: int)
      requires Enabled(View(), Logout(now, token))
      modifies this
      ensures View() == Next(old(View()), Logout(now, token))
    {
      sessions := sessions - {token};
      clock := now;
    }

    /** A reset by token, first statement: an unused, unexpired token lets it go on. */
    method ResetPasswordPost(id: int, reset: int, now: int) returns (goesOn: bool)
      requires Enabled(View(), CheckToken(now, id, reset))
      modifies this
      ensures View() == Next(old(View()), CheckToken(now, id, reset))
      ensures goesOn == (reset in old(resets) && old(resets)[reset].usedAt.None? && now < old(resets)[reset].expiresAt)
    {
      attempts, clock := attempts + {id}, now;
      if reset !in resets || resets[reset].usedAt.Some? || resets[reset].expiresAt <= now { return false; }
      changes := changes[id := Change(resets[reset].user, Some(reset), now, None, None)];
      return true;
    }

    /** Second statement: the user and its version are read, the new password is judged. */
    method ResetPasswordUser(id: int, now: int, policyOk: bool) returns (goesOn: bool)
      requires Enabled(View(), ReadUser(now, id, policyOk))
      modifies this
      ensures View() == Next(old(View()), ReadUser(now, id, policyOk))
      ensures goesOn == (old(changes)[id].user in old(users) && policyOk)
    {
      clock := now;
      var change := changes[id];
      if change.user !in users || !policyOk {
        changes := changes - {id};
        return false;
      }
      changes := changes[id := change.(read := Some(users[change.user]))];
      return true;
    }

    /** A reset by an administrator, up to and including the read of the user. */
    method AppUserResetPasswordAdmin(id: int, user: int, now: int, byAdmin: bool, policyOk: bool) returns (goesOn: bool)
      requires Enabled(View(), BeginAdminReset(now, id, user, byAdmin, policyOk))
      modifies this
      ensures View() == Next(old(View()), BeginAdminReset(now, id, user, byAdmin, policyOk))
      ensures goesOn == (byAdmin && user in old(users) && policyOk)
    {
      attempts, clock := attempts + {id}, now;
      if !byAdmin { return false; }
      if user !in users { return false; }
      if !policyOk { return false; }
      changes := changes[id := Change(user, None, now, Some(users[user]), None)];
      return true;
    }

    /** The writes and the DELETE of either reset, not committed yet. */
    method DeleteSessions(id: int, now: int)
      requires Enabled(View(), Purge(now, id))
      modifies this
      ensures View() == Next(old(View()), Purge(now, id))
    {
      clock := now;
      var change := changes[id];
      changes := changes[id := change.(doomed := Some(set t | t in sessions && sessions[t].user == change.user))];
    }

    /** The commit of either reset, or its end without one. */
    method ResetCommit(id: int, now: int, committed: bool)
      requires Enabled(View(), CommitReset(now, id))
      modifies this
      ensures View() == Next(old(View()), if committed then CommitReset(now, id) else AbandonReset(now, id))
    {
      clock := now;
      var change := changes[id];
      changes := changes - {id};
      if !committed { return; }
      users := users[change.user := (if change.read.value == 0 then 1 else change.read.value) + 1];
      sessions := sessions - change.doomed.value;
      if change.token.Some? && change.token.value in resets {
        resets := resets[change.token.value := resets[change.token.value].(usedAt := Some(change.at))];
      }
    }

    /** A reset that does not get as far as its DELETE. */
    method ResetFails(id: int, now: int)
      requires Enabled(View(), AbandonReset(now, id))
      modifies this
      ensures View() == Next(old(View()), AbandonReset(now, id))
    {
      changes := changes - {id};
      clock := now;
    }
  }
}
