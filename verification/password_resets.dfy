/** What overlapping password resets can and cannot do: a reset checks its token,
    reads the user's version, deletes the sessions and commits, and nothing keeps
    another from doing the same in between (src/admin/routes/auth.py,
    src/admin/routes/app_users.py). */
module PasswordResets {
  import opened Wrappers
  import opened Sessions

  /** The state before the k-th event. */
  function StateAt(s: State, run: seq<Event>, k: nat): State
    requires Valid(s, run) && k <= |run|
  {
    ValidPrefix(s, run, k);
    After(s, run[..k])
  }

  lemma StepAt(s: State, run: seq<Event>, k: nat)
    requires Valid(s, run) && k < |run|
    ensures Enabled(StateAt(s, run, k), run[k])
    ensures StateAt(s, run, k + 1) == Next(StateAt(s, run, k), run[k])
  {
    hide Enabled, Next;
    ValidPrefix(s, run, k + 1);
    assert run[..k + 1][..k] == run[..k];
  }

  lemma StateAtPrefix(s: State, run: seq<Event>, n: nat, k: nat)
    requires Valid(s, run) && k <= n <= |run|
    ensures Valid(s, run[..n]) && StateAt(s, run[..n], k) == StateAt(s, run, k)
  {
    ValidPrefix(s, run, n);
    assert run[..n][..k] == run[..k];
  }

  lemma TrackedAt(s: State, run: seq<Event>, k: nat)
    requires Initial(s) && Valid(s, run) && k <= |run|
    ensures Tracked(StateAt(s, run, k))
  {
    hide Tracked;
    ValidPrefix(s, run, k);
    AlwaysTracked(s, run[..k]);
  }

  // ---- how often a token takes effect ----

  /** The k-th event is the commit of a reset with the token. */
  predicate TakesEffect(s: State, run: seq<Event>, k: nat, reset: int)
    requires Valid(s, run)
  {
    && k < |run| && run[k].CommitReset?
    && run[k].id in StateAt(s, run, k).changes && StateAt(s, run, k).changes[run[k].id].token == Some(reset)
  }

  function Redemptions(s: State, run: seq<Event>, reset: int): nat
    requires Valid(s, run)
  {
    if run == [] then 0
    else
      Redemptions(s, run[..|run| - 1], reset) + if TakesEffect(s, run, |run| - 1, reset) then 1 else 0
  }

  predicate Spent(s: State, reset: int) {
    reset in s.resets && s.resets[reset].usedAt.Some?
  }

  /** A redemption that commits had its token checked before another redemption of
      the same token committed. */
  ghost predicate Overlapping(s: State, run: seq<Event>, reset: int)
    requires Valid(s, run)
  {
    exists i: nat, j: nat, k: nat ::
      && i < j < k && TakesEffect(s, run, j, reset) && TakesEffect(s, run, k, reset)
      && run[i].CheckToken? && run[i].reset == reset && run[i].id == run[k].id
  }

  predicate TokensKnown(s: State) {
    forall id | id in s.changes && s.changes[id].token.Some? :: s.changes[id].token.value in s.resets
  }

  lemma TokensStep(s: State, e: Event)
    requires TokensKnown(s) && Enabled(s, e)
    ensures TokensKnown(Next(s, e))
  {
  }

  lemma {:induction false} TokensAlwaysKnown(s: State, run: seq<Event>, k: nat)
    requires Initial(s) && Valid(s, run) && k <= |run|
    ensures TokensKnown(StateAt(s, run, k))
  {
    hide Next, Enabled, TokensKnown;
    if k == 0 {
      NoTokens(s, run);
    } else {
      TokensAlwaysKnown(s, run, k - 1);
      StepAt(s, run, k - 1);
      TokensStep(StateAt(s, run, k - 1), run[k - 1]);
    }
  }

  lemma NoTokens(s: State, run: seq<Event>)
    requires Initial(s) && Valid(s, run)
    ensures StateAt(s, run, 0) == s && TokensKnown(s)
  {
  }

  lemma SpentStep(s: State, e: Event, reset: int)
    requires TokensKnown(s) && Enabled(s, e)
    ensures Spent(Next(s, e), reset)
       <==> Spent(s, reset) || (e.CommitReset? && s.changes[e.id].token == Some(reset))
  {
  }

  lemma {:induction false} SpentExactly(s: State, run: seq<Event>, k: nat, reset: int)
    requires Initial(s) && Valid(s, run) && k <= |run|
    ensures Spent(StateAt(s, run, k), reset) <==> exists j: nat :: j < k && TakesEffect(s, run, j, reset)
  {
    hide Next, Enabled, Spent;
    if k == 0 {
      NothingSpent(s, run, reset);
    } else {
      SpentExactly(s, run, k - 1, reset);
      StepAt(s, run, k - 1);
      TokensAlwaysKnown(s, run, k - 1);
      SpentStep(StateAt(s, run, k - 1), run[k - 1], reset);
      if run[k - 1].CommitReset? {
        CommitEnabled(StateAt(s, run, k - 1), run[k - 1]);
        assert TakesEffect(s, run, k - 1, reset)
          <==> StateAt(s, run, k - 1).changes[run[k - 1].id].token == Some(reset);
      }
    }
  }

  lemma NothingSpent(s: State, run: seq<Event>, reset: int)
    requires Initial(s) && Valid(s, run)
    ensures !Spent(StateAt(s, run, 0), reset)
  {
  }

  lemma CommitEnabled(s: State, e: Event)
    requires Enabled(s, e) && e.CommitReset?
    ensures e.id in s.changes
  {
  }

  lemma TokenStep(s: State, e: Event, id: int, reset: int)
    requires Enabled(s, e) && id in Next(s, e).changes && Next(s, e).changes[id].token == Some(reset)
    ensures (id in s.changes && s.changes[id].token == Some(reset))
         || (e.CheckToken? && e.id == id && e.reset == reset && !Spent(s, reset))
  {
  }

  /** A redemption in progress was begun while its token was unused. */
  lemma {:induction false} BegunUnspent(s: State, run: seq<Event>, k: nat, id: int, reset: int) returns (i: nat)
    requires Initial(s) && Valid(s, run) && k <= |run|
    requires id in StateAt(s, run, k).changes && StateAt(s, run, k).changes[id].token == Some(reset)
    ensures i < k && run[i].CheckToken? && run[i].reset == reset && run[i].id == id
    ensures !Spent(StateAt(s, run, i), reset)
  {
    hide Next, Enabled, Spent;
    i := 0;
    if k == 0 {
      NoChanges(s, run);
    } else {
      StepAt(s, run, k - 1);
      TokenStep(StateAt(s, run, k - 1), run[k - 1], id, reset);
      var b := StateAt(s, run, k - 1);
      if id in b.changes && b.changes[id].token == Some(reset) {
        i := BegunUnspent(s, run, k - 1, id, reset);
      } else {
        i := k - 1;
      }
    }
  }

  lemma NoChanges(s: State, run: seq<Event>)
    requires Initial(s) && Valid(s, run)
    ensures StateAt(s, run, 0).changes == map[]
  {
  }

  lemma {:induction false} RedemptionsCount(s: State, run: seq<Event>, reset: int)
    requires Valid(s, run)
    ensures Redemptions(s, run, reset) >= 1 <==> exists j: nat :: TakesEffect(s, run, j, reset)
    ensures Redemptions(s, run, reset) >= 2
       <==> exists j: nat, k: nat :: j < k && TakesEffect(s, run, j, reset) && TakesEffect(s, run, k, reset)
  {
    hide Next, Enabled;
    if run != [] {
      var n := |run| - 1;
      ValidPrefix(s, run, n);
      RedemptionsCount(s, run[..n], reset);
      forall j: nat | j < n
        ensures TakesEffect(s, run[..n], j, reset) <==> TakesEffect(s, run, j, reset)
      {
        StateAtPrefix(s, run, n, j);
      }
    }
  }

  /** Over every run a token takes effect at most once if and only if no redemption
      that commits had its token checked before another redemption of the same
      token committed; and it is marked used exactly when it has taken effect. */
  lemma ResetTokenWorksOnce(s: State, run: seq<Event>, reset: int)
    requires Initial(s) && Valid(s, run)
    ensures Redemptions(s, run, reset) <= 1 <==> !Overlapping(s, run, reset)
    ensures Redemptions(s, run, reset) >= 1 <==> Spent(After(s, run), reset)
  {
    hide Next, Enabled, Spent, Redemptions;
    RedemptionsCount(s, run, reset);
    SpentExactly(s, run, |run|, reset);
    assert run[..|run|] == run;
    if Redemptions(s, run, reset) >= 2 {
      var j: nat, k: nat :| j < k && TakesEffect(s, run, j, reset) && TakesEffect(s, run, k, reset);
      var i := BegunUnspent(s, run, k, run[k].id, reset);
      SpentExactly(s, run, i, reset);
      assert i <= j;
      assert Overlapping(s, run, reset);
    }
  }

  // ---- resets that overtake one another ----

  /** The k-th event is the commit of a reset of the user. */
  predicate Commits(s: State, run: seq<Event>, k: nat, user: int)
    requires Valid(s, run)
  {
    && k < |run| && run[k].CommitReset?
    && run[k].id in StateAt(s, run, k).changes && StateAt(s, run, k).changes[run[k].id].user == user
  }

  /** Between the moment this reset read the user's version and its commit, another
      reset of the user committed. */
  ghost predicate Overtaken(s: State, run: seq<Event>, k: nat, user: int)
    requires Valid(s, run)
  {
    && Commits(s, run, k, user)
    && exists j: nat :: ReadPoint(run[..k], run[k].id) <= j < k && Commits(s, run, j, user)
  }

  ghost predicate NoneOvertaken(s: State, run: seq<Event>, user: int)
    requires Valid(s, run)
  {
    forall k: nat | k < |run| :: !Overtaken(s, run, k, user)
  }

  function CommitCount(s: State, run: seq<Event>, user: int): nat
    requires Valid(s, run)
  {
    if run == [] then 0
    else CommitCount(s, run[..|run| - 1], user) + if Commits(s, run, |run| - 1, user) then 1 else 0
  }

  function LevelAt(s: State, run: seq<Event>, k: nat, user: int): nat
    requires Valid(s, run) && k <= |run|
  {
    ValidPrefix(s, run, k);
    Level(s, run[..k], user)
  }

  function CountAt(s: State, run: seq<Event>, k: nat, user: int): nat
    requires Valid(s, run) && k <= |run|
  {
    ValidPrefix(s, run, k);
    CommitCount(s, run[..k], user)
  }

  lemma CountStep(s: State, run: seq<Event>, k: nat, user: int)
    requires Valid(s, run) && k < |run|
    ensures CountAt(s, run, k + 1, user) == CountAt(s, run, k, user) + if Commits(s, run, k, user) then 1 else 0
  {
    hide Next, Enabled;
    ValidPrefix(s, run, k + 1);
    assert run[..k + 1][..k] == run[..k];
  }

  lemma {:induction false} CountGrows(s: State, run: seq<Event>, j: nat, k: nat, user: int)
    requires Valid(s, run) && j <= k <= |run|
    ensures CountAt(s, run, j, user) <= CountAt(s, run, k, user)
    ensures CountAt(s, run, j, user) < CountAt(s, run, k, user)
       <==> exists i: nat :: j <= i < k && Commits(s, run, i, user)
  {
    hide Next, Enabled, CountAt, Commits;
    if j < k {
      CountGrows(s, run, j, k - 1, user);
      CountStep(s, run, k - 1, user);
    }
  }

  lemma LevelAtStep(s: State, run: seq<Event>, k: nat, user: int)
    requires Valid(s, run) && k < |run|
    ensures if Commits(s, run, k, user) then
              LevelAt(s, run, k + 1, user) == 1 + LevelAt(s, run, ReadPoint(run[..k], run[k].id), user)
            else LevelAt(s, run, k + 1, user) == LevelAt(s, run, k, user)
  {
    hide Next, Enabled, Level;
    ValidPrefix(s, run, k + 1);
    StepAt(s, run, k);
    assert run[..k + 1][..k] == run[..k];
    LevelStep(s, run[..k + 1], user);
    CommitsIsReset(s, run, k, user);
    if Commits(s, run, k, user) {
      var r := ReadPoint(run[..k], run[k].id);
      assert run[..k][..r] == run[..r];
    }
  }

  lemma CommitsIsReset(s: State, run: seq<Event>, k: nat, user: int)
    requires Valid(s, run) && k < |run| && Enabled(StateAt(s, run, k), run[k])
    ensures Commits(s, run, k, user) <==> ResetOf(StateAt(s, run, k), run[k]) == Some(user)
  {
  }

  /** As long as none overtakes another, the pile of resets is as high as there are commits. */
  lemma {:induction false} LevelCounts(s: State, run: seq<Event>, k: nat, user: int)
    requires Valid(s, run) && k <= |run| && forall j: nat | j < k :: !Overtaken(s, run, j, user)
    ensures LevelAt(s, run, k, user) == 1 + CountAt(s, run, k, user)
    decreases k
  {
    hide Next, Enabled, StateAt, CountAt, LevelAt;
    if k == 0 {
      NoLevels(s, run, user);
    } else {
      LevelAtStep(s, run, k - 1, user);
      CountStep(s, run, k - 1, user);
      LevelCounts(s, run, k - 1, user);
      if Commits(s, run, k - 1, user) {
        var r := ReadPoint(run[..k - 1], run[k - 1].id);
        LevelCounts(s, run, r, user);
        CountGrows(s, run, r, k - 1, user);
        assert !Overtaken(s, run, k - 1, user);
        assert forall j: nat | r <= j < k - 1 :: !Commits(s, run, j, user);
      }
    }
  }

  lemma NoLevels(s: State, run: seq<Event>, user: int)
    requires Valid(s, run)
    ensures LevelAt(s, run, 0, user) == 1 && CountAt(s, run, 0, user) == 0
  {
  }

  /** A login knows the level at which its password was checked. */
  lemma {:induction false} LoginLevel(s: State, run: seq<Event>, token: int) returns (p: nat)
    requires Valid(s, run) && StandingOf(s, run, token).user.Some?
    ensures var st := StandingOf(s, run, token);
            && p < |run| && run[p].CheckPassword? && run[p].token == token && run[p].user == st.user.value
            && st.level == LevelAt(s, run, p, st.user.value)
  {
    hide Next, Enabled, Level;
    var n := |run| - 1;
    if run[n].CheckPassword? && run[n].token == token {
      p := n;
    } else {
      p := LoginLevel(s, run[..n], token);
      ValidPrefix(s, run, n);
      assert run[..n][..p] == run[..p];
    }
  }

  lemma IssuedStep(s: State, e: Event)
    requires Enabled(s, e)
    ensures s.issued <= Next(s, e).issued
    ensures e.CheckPassword? ==> e.token !in s.issued && e.token in Next(s, e).issued
  {
  }

  lemma {:induction false} IssuedGrows(s: State, run: seq<Event>, j: nat, k: nat)
    requires Valid(s, run) && j <= k <= |run|
    ensures StateAt(s, run, j).issued <= StateAt(s, run, k).issued
  {
    hide Next, Enabled;
    if j < k {
      IssuedGrows(s, run, j, k - 1);
      StepAt(s, run, k - 1);
      IssuedStep(StateAt(s, run, k - 1), run[k - 1]);
    }
  }

  /** Where no reset of the user is overtaken by another between its read and its
      commit: a login begun before a reset's commit, whenever its session is
      committed, is never accepted after it. */
  lemma ResetEndsSessions(s: State, run: seq<Event>, user: int, k: nat, request: Event)
    requires Initial(s) && Valid(s, run) && NoneOvertaken(s, run, user) && Commits(s, run, k, user)
    requires request.Request? && request.token in StateAt(s, run, k).issued
    requires StandingOf(s, run, request.token).user == Some(user)
    ensures !Accepts(After(s, run), request)
  {
    hide Next, Enabled, Alive, Level, StandingOf, Commits, LevelAt, CountAt;
    if Accepts(After(s, run), request) {
      AliveIsCurrent(s, run, request.token);
      AliveMeans(s, run, request.token, user);
      var p := LoginLevel(s, run, request.token);
      StepAt(s, run, p);
      IssuedStep(StateAt(s, run, p), run[p]);
      if k < p {
        IssuedGrows(s, run, k, p);
        assert false;
      }
      RaisedBy(s, run, p, k, user);
    }
  }

  lemma AliveMeans(s: State, run: seq<Event>, token: int, user: int)
    requires Valid(s, run) && Alive(s, run, token) && StandingOf(s, run, token).user == Some(user)
    ensures StandingOf(s, run, token).level == LevelAt(s, run, |run|, user)
  {
    hide Next, Enabled, Level, StandingOf;
    assert run[..|run|] == run;
  }

  lemma RaisedBy(s: State, run: seq<Event>, p: nat, k: nat, user: int)
    requires Valid(s, run) && NoneOvertaken(s, run, user) && p <= k && Commits(s, run, k, user)
    ensures k < |run| && LevelAt(s, run, p, user) < LevelAt(s, run, |run|, user)
  {
    hide Next, Enabled, LevelAt, CountAt, Overtaken;
    LevelCounts(s, run, p, user);
    LevelCounts(s, run, |run|, user);
    CountGrows(s, run, p, |run|, user);
  }

  // ---- a login put in between ----

  /** The run with one more login: its password checked after p events, its session
      committed after q. */
  function WithLogin(s: State, run: seq<Event>, p: nat, q: nat, user: int, token: int): seq<Event>
    requires Valid(s, run) && p <= q <= |run|
  {
    run[..p] + [CheckPassword(StateAt(s, run, p).clock, user, token)] + run[p..q]
    + [OpenSession(StateAt(s, run, q).clock, token)]
  }

  function Beside(a: State, token: int, x: Session): State {
    a.(pending := a.pending[token := x], issued := a.issued + {token})
  }

  lemma StepBeside(a: State, e: Event, token: int, x: Session)
    requires Tracked(a) && Enabled(a, e) && token !in Next(a, e).issued
    ensures Enabled(Beside(a, token, x), e)
    ensures Next(Beside(a, token, x), e) == Beside(Next(a, e), token, x)
  {
    hide Redeemable, Bumped, Committed;
    if e.CheckPassword? {
      PendingCommutes(a.pending, token, x, e.token, Session(e.user, e.now + a.ttl, a.users[e.user]));
      assert a.issued + {e.token} + {token} == a.issued + {token} + {e.token};
    } else if e.OpenSession? || e.AbandonLogin? {
      assert token != e.token;
      assert a.pending[token := x] - {e.token} == (a.pending - {e.token})[token := x];
    } else {
      OtherBeside(a, e, token, x);
    }
  }

  lemma PendingCommutes(pending: map<int, Session>, t: int, x: Session, u: int, y: Session)
    ensures t != u ==> pending[t := x][u := y] == pending[u := y][t := x]
  {
  }

  lemma OtherBeside(a: State, e: Event, token: int, x: Session)
    requires Enabled(a, e) && !e.CheckPassword? && !e.OpenSession? && !e.AbandonLogin?
    ensures Enabled(Beside(a, token, x), e)
    ensures Next(Beside(a, token, x), e) == Beside(Next(a, e), token, x)
  {
    hide Bumped;
    match e
    case Request(_, _, _) =>
    case CheckToken(_, _, _) =>
    case CommitReset(_, _) =>
    case _ =>
  }

  lemma {:induction false} RunBeside(s: State, run: seq<Event>, p: nat, q: nat, user: int, token: int)
    requires Initial(s) && Valid(s, run) && p <= q <= |run|
    requires user in StateAt(s, run, p).users && token !in StateAt(s, run, q).issued
    ensures var a := StateAt(s, run, p);
            var r := run[..p] + [CheckPassword(a.clock, user, token)] + run[p..q];
            && Valid(s, r)
            && After(s, r) == Beside(StateAt(s, run, q), token, Session(user, a.clock + s.ttl, a.users[user]))
  {
    hide Next, Enabled, Beside;
    var a := StateAt(s, run, p);
    var check := CheckPassword(a.clock, user, token);
    var x := Session(user, a.clock + s.ttl, a.users[user]);
    if p == q {
      assert run[..p] + [check] + run[p..q] == run[..p] + [check];
      ValidPrefix(s, run, p);
      TermsStay(s, run[..p]);
      CheckBeside(a, user, token);
      AfterSnoc(s, run[..p], check);
    } else {
      var b := StateAt(s, run, q - 1);
      IssuedGrows(s, run, q - 1, q);
      RunBeside(s, run, p, q - 1, user, token);
      StepAt(s, run, q - 1);
      TrackedAt(s, run, q - 1);
      StepBeside(b, run[q - 1], token, x);
      var r := run[..p] + [check] + run[p..q - 1];
      assert run[..p] + [check] + run[p..q] == r + [run[q - 1]];
      AfterSnoc(s, r, run[q - 1]);
    }
  }

  lemma {:induction false} TermsStay(s: State, run: seq<Event>)
    requires Valid(s, run)
    ensures After(s, run).ttl == s.ttl
  {
    hide Enabled;
    if run != [] { TermsStay(s, run[..|run| - 1]); }
  }

  lemma CheckBeside(a: State, user: int, token: int)
    requires user in a.users && token !in a.issued
    ensures var check := CheckPassword(a.clock, user, token);
            Enabled(a, check)
            && Next(a, check) == Beside(a, token, Session(user, a.clock + a.ttl, a.users[user]))
  {
  }

  /** After the run with the login in it, the session is open, and of the current version or not. */
  lemma LoginInBetween(s: State, run: seq<Event>, p: nat, q: nat, user: int, token: int)
    requires Initial(s) && Valid(s, run) && p <= q <= |run|
    requires user in StateAt(s, run, p).users && token !in After(s, run).issued
    ensures Valid(s, WithLogin(s, run, p, q, user, token))
    ensures var a := After(s, WithLogin(s, run, p, q, user, token));
            && token in a.sessions && a.sessions[token].user == user
            && (Current(a, a.sessions[token]) <==> LevelAt(s, run, p, user) == LevelAt(s, run, q, user))
  {
    hide Next, Enabled, Level;
    assert run[..|run|] == run;
    IssuedGrows(s, run, q, |run|);
    RunBeside(s, run, p, q, user, token);
    var a, b := StateAt(s, run, p), StateAt(s, run, q);
    var x := Session(user, a.clock + s.ttl, a.users[user]);
    var r := run[..p] + [CheckPassword(a.clock, user, token)] + run[p..q];
    OpenBeside(b, token, x);
    AfterSnoc(s, r, OpenSession(b.clock, token));
    ValidPrefix(s, run, p);
    ValidPrefix(s, run, q);
    VersionIsLevel(s, run[..p], user);
    VersionIsLevel(s, run[..q], user);
    UsersGrow(s, run, p, q, user);
  }

  lemma OpenBeside(b: State, token: int, x: Session)
    ensures var d := Beside(b, token, x);
            var open := OpenSession(b.clock, token);
            && Enabled(d, open) && Next(d, open).users == b.users
            && token in Next(d, open).sessions && Next(d, open).sessions[token] == x
  {
  }

  lemma {:induction false} UsersGrow(s: State, run: seq<Event>, p: nat, q: nat, user: int)
    requires Initial(s) && Valid(s, run) && p <= q <= |run| && user in StateAt(s, run, p).users
    ensures user in StateAt(s, run, q).users
  {
    hide Next, Enabled;
    if p < q {
      UsersGrow(s, run, p, q - 1, user);
      StepAt(s, run, q - 1);
      TrackedAt(s, run, q - 1);
      UsersStep(StateAt(s, run, q - 1), run[q - 1], user);
    }
  }

  // ---- exactly when logins end with a reset ----

  /** A login begun before a reset's commit is good after it: with this login in it,
      the run ends with its session open and of the current version. */
  ghost predicate LoginOutlives(s: State, run: seq<Event>, p: nat, q: nat, user: int, token: int)
    requires Valid(s, run) && p <= q <= |run|
  {
    && user in StateAt(s, run, p).users && token !in After(s, run).issued
    && (exists k: nat :: p <= k < q && Commits(s, run, k, user))
    && Valid(s, WithLogin(s, run, p, q, user, token))
    && var a := After(s, WithLogin(s, run, p, q, user, token));
       token in a.sessions && Current(a, a.sessions[token])
  }

  lemma {:induction false} Bound(xs: set<int>) returns (m: int)
    ensures forall x <- xs :: x <= m
  {
    m := 0;
    if |xs| > 0 {
      var x := Element(xs);
      var n := Bound(xs - {x});
      m := if n < x then x else n;
      assert forall y <- xs :: y == x || y in xs - {x};
    }
  }

  lemma {:induction false} FirstCommit(s: State, run: seq<Event>, r: nat, k: nat, user: int) returns (j: nat)
    requires Valid(s, run) && r <= k <= |run|
    requires exists i: nat :: r <= i < k && Commits(s, run, i, user)
    ensures r <= j < k && Commits(s, run, j, user)
    ensures CountAt(s, run, j, user) == CountAt(s, run, r, user)
  {
    hide Next, Enabled, CountAt, Commits;
    CountGrows(s, run, r, k, user);
    if CountAt(s, run, k - 1, user) == CountAt(s, run, r, user) {
      CountStep(s, run, k - 1, user);
      j := k - 1;
    } else {
      CountGrows(s, run, r, k - 1, user);
      j := FirstCommit(s, run, r, k - 1, user);
    }
  }

  lemma {:induction false} FirstOvertaken(s: State, run: seq<Event>, n: nat, user: int) returns (k: nat)
    requires Valid(s, run) && n <= |run| && exists j: nat :: j < n && Overtaken(s, run, j, user)
    ensures k < n && Overtaken(s, run, k, user) && forall j: nat | j < k :: !Overtaken(s, run, j, user)
  {
    hide Next, Enabled, Overtaken;
    if exists j: nat :: j < n - 1 && Overtaken(s, run, j, user) {
      k := FirstOvertaken(s, run, n - 1, user);
    } else {
      k := n - 1;
    }
  }

  /** A reset that is overtaken brings back a level the user has had before its commit. */
  lemma LevelComesBack(s: State, run: seq<Event>, k: nat, user: int) returns (p: nat)
    requires Valid(s, run) && k < |run| && Overtaken(s, run, k, user)
    requires forall j: nat | j < k :: !Overtaken(s, run, j, user)
    ensures 0 < p <= k && Commits(s, run, p - 1, user) && LevelAt(s, run, p, user) == LevelAt(s, run, k + 1, user)
  {
    hide Next, Enabled, CountAt, LevelAt, StateAt;
    var r := ReadPoint(run[..k], run[k].id);
    var j := FirstCommit(s, run, r, k, user);
    p := j + 1;
    LevelAtStep(s, run, k, user);
    CountStep(s, run, j, user);
    LevelCounts(s, run, p, user);
    LevelCounts(s, run, r, user);
  }

  /** No login begun before the commit of a reset of the user can be good after it,
      whenever it is begun and opened, if and only if no reset of the user is
      overtaken by another between its read and its commit. */
  lemma LoginsEndExactly(s: State, run: seq<Event>, user: int)
    requires Initial(s) && Valid(s, run)
    ensures NoneOvertaken(s, run, user)
       <==> forall p: nat, q: nat, token: int | p <= q <= |run| :: !LoginOutlives(s, run, p, q, user, token)
  {
    hide Next, Enabled, Overtaken, LevelAt, CountAt, StateAt, WithLogin;
    if NoneOvertaken(s, run, user) {
      forall p: nat, q: nat, token: int | p <= q <= |run|
        ensures !LoginOutlives(s, run, p, q, user, token)
      {
        if LoginOutlives(s, run, p, q, user, token) {
          LoginInBetween(s, run, p, q, user, token);
          LevelCounts(s, run, p, user);
          LevelCounts(s, run, q, user);
          CountGrows(s, run, p, q, user);
        }
      }
    } else {
      var k := FirstOvertaken(s, run, |run|, user);
      var p := LevelComesBack(s, run, k, user);
      var m := Bound(After(s, run).issued);
      assert m + 1 !in After(s, run).issued;
      CommitterKnown(s, run, p - 1, user);
      OvertakenCommits(s, run, k, user);
      LoginInBetween(s, run, p, k + 1, user, m + 1);
      assert LoginOutlives(s, run, p, k + 1, user, m + 1);
    }
  }

  lemma OvertakenCommits(s: State, run: seq<Event>, k: nat, user: int)
    requires Valid(s, run) && Overtaken(s, run, k, user)
    ensures k < |run| && Commits(s, run, k, user)
  {
  }

  lemma CommitterKnown(s: State, run: seq<Event>, k: nat, user: int)
    requires Initial(s) && Valid(s, run) && Commits(s, run, k, user)
    ensures k < |run| && user in StateAt(s, run, k + 1).users
  {
    hide Next, Enabled;
    StepAt(s, run, k);
    TrackedAt(s, run, k);
    CommitsIsReset(s, run, k, user);
    UsersStep(StateAt(s, run, k), run[k], user);
  }

  // ---- two overlapping redemptions, two overlapping resets ----

  /** The run goes through these states. */
  ghost predicate GoesThrough(run: seq<Event>, states: seq<State>) {
    && |states| == |run| + 1
    && forall k | 0 <= k < |run| :: Enabled(states[k], run[k]) && states[k + 1] == Next(states[k], run[k])
  }

  lemma {:induction false} ThroughIsRun(run: seq<Event>, states: seq<State>, k: nat)
    requires GoesThrough(run, states) && k <= |run|
    ensures Valid(states[0], run[..k]) && After(states[0], run[..k]) == states[k]
  {
    hide Next, Enabled;
    if k > 0 {
      ThroughIsRun(run, states, k - 1);
      AfterSnoc(states[0], run[..k - 1], run[k - 1]);
      assert run[..k] == run[..k - 1] + [run[k - 1]];
    }
  }

  lemma ThroughStates(run: seq<Event>, states: seq<State>)
    requires |states| == |run| + 1 && GoesThrough(run, states)
    ensures Valid(states[0], run) && After(states[0], run) == states[|run|]
    ensures forall k: nat | k <= |run| :: StateAt(states[0], run, k) == states[k]
  {
    hide Next, Enabled, GoesThrough;
    forall k: nat | k <= |run|
      ensures Valid(states[0], run[..k]) && After(states[0], run[..k]) == states[k]
    {
      ThroughIsRun(run, states, k);
    }
    assert run[..|run|] == run;
  }

  lemma NobodyLoggedIn()
    ensures SessionsOf(map[], 1) == {}
  {
  }

  /** A redemption just begun, and an administrator's reset that has read version 1. */
  const FIRST := Change(1, Some(9), 1, None, None)
  const OURS := Change(1, None, 0, Some(1), None)

  /** Two requests with one token: both check it, then both go through. */
  const TWO_REDEMPTIONS := [
    Setup(0, 1), IssueReset(0, 9, 1, 100), CheckToken(1, 1, 9), CheckToken(1, 2, 9),
    ReadUser(1, 1, true), Purge(2, 1), CommitReset(2, 1), ReadUser(3, 2, true),
    Purge(3, 2), CommitReset(3, 2)]

  const R0 := FRESH
  const R1 := FRESH.(users := map[1 := 1])
  const R2 := R1.(resets := map[9 := ResetToken(1, 100, None)])
  const R3 := R2.(clock := 1, attempts := {1}, changes := map[1 := FIRST])
  const R4 := R3.(attempts := {1, 2}, changes := map[1 := FIRST, 2 := FIRST])
  const R5 := R4.(changes := map[1 := FIRST.(read := Some(1)), 2 := FIRST])
  const R6 := R5.(clock := 2, changes := map[1 := FIRST.(read := Some(1), doomed := Some({})), 2 := FIRST])
  const R7 := R6.(users := map[1 := 2], resets := map[9 := ResetToken(1, 100, Some(1))], changes := map[2 := FIRST])
  const R8 := R7.(clock := 3, changes := map[2 := FIRST.(read := Some(2))])
  const R9 := R8.(changes := map[2 := FIRST.(read := Some(2), doomed := Some({}))])
  const R10 := R9.(users := map[1 := 3], changes := map[])

  const TWO_REDEMPTIONS_STATES := [R0, R1, R2, R3, R4, R5, R6, R7, R8, R9, R10]

  lemma RedeemSteps0()
    ensures Enabled(R0, Setup(0, 1)) && Next(R0, Setup(0, 1)) == R1
    ensures Enabled(R1, IssueReset(0, 9, 1, 100)) && Next(R1, IssueReset(0, 9, 1, 100)) == R2
  {
  }

  lemma RedeemSteps1()
    ensures Enabled(R2, CheckToken(1, 1, 9)) && Next(R2, CheckToken(1, 1, 9)) == R3
    ensures Enabled(R3, CheckToken(1, 2, 9)) && Next(R3, CheckToken(1, 2, 9)) == R4
  {
  }

  lemma RedeemSteps2()
    ensures Enabled(R4, ReadUser(1, 1, true)) && Next(R4, ReadUser(1, 1, true)) == R5
    ensures Enabled(R5, Purge(2, 1)) && Next(R5, Purge(2, 1)) == R6
  {
    NobodyLoggedIn();
  }

  lemma RedeemSteps3()
    ensures Enabled(R6, CommitReset(2, 1)) && Next(R6, CommitReset(2, 1)) == R7
    ensures Enabled(R7, ReadUser(3, 2, true)) && Next(R7, ReadUser(3, 2, true)) == R8
  {
  }

  lemma RedeemSteps4()
    ensures Enabled(R8, Purge(3, 2)) && Next(R8, Purge(3, 2)) == R9
    ensures Enabled(R9, CommitReset(3, 2)) && Next(R9, CommitReset(3, 2)) == R10
  {
    NobodyLoggedIn();
  }

  lemma RedeemThrough()
    ensures |TWO_REDEMPTIONS_STATES| == |TWO_REDEMPTIONS| + 1 && GoesThrough(TWO_REDEMPTIONS, TWO_REDEMPTIONS_STATES)
  {
    hide Next, Enabled;
    RedeemSteps0();
    RedeemSteps1();
    RedeemSteps2();
    RedeemSteps3();
    RedeemSteps4();
  }

  /** A token can take effect twice. */
  lemma TokenTakesEffectTwice()
    ensures Initial(FRESH) && Valid(FRESH, TWO_REDEMPTIONS)
    ensures Redemptions(FRESH, TWO_REDEMPTIONS, 9) >= 2
  {
    hide Next, Enabled, Valid, After, GoesThrough;
    RedeemThrough();
    ThroughStates(TWO_REDEMPTIONS, TWO_REDEMPTIONS_STATES);
    assert TakesEffect(FRESH, TWO_REDEMPTIONS, 6, 9) && TakesEffect(FRESH, TWO_REDEMPTIONS, 9, 9);
    RedemptionsCount(FRESH, TWO_REDEMPTIONS, 9);
  }

  /** Two administrators reset one user's password; in between the user logs in. */
  const TWO_RESETS := [
    Setup(0, 1), BeginAdminReset(0, 1, 1, true, true), BeginAdminReset(0, 2, 1, true, true), Purge(1, 1),
    CommitReset(1, 1), CheckPassword(2, 1, 7), Purge(3, 2), CommitReset(3, 2),
    OpenSession(3, 7)]

  const A0 := FRESH
  const A1 := FRESH.(users := map[1 := 1])
  const A2 := A1.(attempts := {1}, changes := map[1 := OURS])
  const A3 := A2.(attempts := {1, 2}, changes := map[1 := OURS, 2 := OURS])
  const A4 := A3.(clock := 1, changes := map[1 := OURS.(doomed := Some({})), 2 := OURS])
  const A5 := A4.(users := map[1 := 2], changes := map[2 := OURS])
  const A6 := A5.(clock := 2, pending := map[7 := Session(1, 12, 2)], issued := {7})
  const A7 := A6.(clock := 3, changes := map[2 := OURS.(doomed := Some({}))])
  const A8 := A7.(changes := map[])
  const A9 := A8.(pending := map[], sessions := map[7 := Session(1, 12, 2)])

  const TWO_RESETS_STATES := [A0, A1, A2, A3, A4, A5, A6, A7, A8, A9]

  lemma ResetSteps0()
    ensures Enabled(A0, Setup(0, 1)) && Next(A0, Setup(0, 1)) == A1
    ensures Enabled(A1, BeginAdminReset(0, 1, 1, true, true)) && Next(A1, BeginAdminReset(0, 1, 1, true, true)) == A2
  {
  }

  lemma ResetSteps1()
    ensures Enabled(A2, BeginAdminReset(0, 2, 1, true, true)) && Next(A2, BeginAdminReset(0, 2, 1, true, true)) == A3
    ensures Enabled(A3, Purge(1, 1)) && Next(A3, Purge(1, 1)) == A4
  {
    NobodyLoggedIn();
  }

  lemma ResetSteps2()
    ensures Enabled(A4, CommitReset(1, 1)) && Next(A4, CommitReset(1, 1)) == A5
    ensures Enabled(A5, CheckPassword(2, 1, 7)) && Next(A5, CheckPassword(2, 1, 7)) == A6
  {
  }

  lemma ResetSteps3()
    ensures Enabled(A6, Purge(3, 2)) && Next(A6, Purge(3, 2)) == A7
    ensures Enabled(A7, CommitReset(3, 2)) && Next(A7, CommitReset(3, 2)) == A8
  {
    NobodyLoggedIn();
  }

  lemma ResetSteps4()
    ensures Enabled(A8, OpenSession(3, 7)) && Next(A8, OpenSession(3, 7)) == A9
  {
  }

  lemma ResetThrough()
    ensures |TWO_RESETS_STATES| == |TWO_RESETS| + 1 && GoesThrough(TWO_RESETS, TWO_RESETS_STATES)
  {
    hide Next, Enabled;
    ResetSteps0();
    ResetSteps1();
    ResetSteps2();
    ResetSteps3();
    ResetSteps4();
  }

  /** A login begun before a reset's commit can be accepted after it. */
  lemma LoginOutlivesReset()
    ensures Initial(FRESH) && Valid(FRESH, TWO_RESETS) && Commits(FRESH, TWO_RESETS, 7, 1)
    ensures 7 in StateAt(FRESH, TWO_RESETS, 7).issued
    ensures Accepts(After(FRESH, TWO_RESETS), Request(4, 7, NoFault))
  {
    hide Next, Enabled, Valid, After, GoesThrough;
    ResetThrough();
    ThroughStates(TWO_RESETS, TWO_RESETS_STATES);
    assert StateAt(FRESH, TWO_RESETS, 7) == TWO_RESETS_STATES[7] == A7;
  }
}
