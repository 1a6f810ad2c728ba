/** Which password resets go through, and which sessions they delete
    (src/admin/routes/auth.py, src/admin/routes/app_users.py). */
module ResetRules {
  import opened Wrappers
  import opened Sessions
  import opened PasswordResets

  // ---- tokens as they were issued ----

  /** The h-th event issues the token. */
  predicate Issues(run: seq<Event>, h: nat, reset: int) {
    h < |run| && run[h].IssueReset? && run[h].reset == reset
  }

  lemma TokensKept(s: State, e: Event, reset: int)
    requires TokensKnown(s) && Enabled(s, e)
    ensures reset in s.resets ==>
      && reset in Next(s, e).resets
      && Next(s, e).resets[reset] == s.resets[reset].(usedAt := Next(s, e).resets[reset].usedAt)
    ensures e.IssueReset? && e.reset == reset ==>
      && reset !in s.resets && reset in Next(s, e).resets
      && Next(s, e).resets[reset] == ResetToken(e.user, e.expiresAt, None)
    ensures reset in Next(s, e).resets && !(e.IssueReset? && e.reset == reset) ==> reset in s.resets
  {
  }

  /** A token in the table was issued by exactly one event, with the user and the expiry it has. */
  lemma {:induction false} TokensAreIssued(s: State, run: seq<Event>, k: nat, reset: int)
    requires Initial(s) && Valid(s, run) && k <= |run|
    ensures reset in StateAt(s, run, k).resets <==> exists h: nat :: h < k && Issues(run, h, reset)
    ensures forall h: nat | h < k && Issues(run, h, reset) ::
              reset in StateAt(s, run, k).resets
              && StateAt(s, run, k).resets[reset].user == run[h].user
              && StateAt(s, run, k).resets[reset].expiresAt == run[h].expiresAt
  {
    hide Next, Enabled, TokensKnown;
    if k == 0 {
      NoTokensYet(s, run);
    } else {
      TokensAreIssued(s, run, k - 1, reset);
      TokensAlwaysKnown(s, run, k - 1);
      StepAt(s, run, k - 1);
      TokensKept(StateAt(s, run, k - 1), run[k - 1], reset);
      assert Issues(run, k - 1, reset) <==> run[k - 1].IssueReset? && run[k - 1].reset == reset;
    }
  }

  lemma NoTokensYet(s: State, run: seq<Event>)
    requires Initial(s) && Valid(s, run)
    ensures StateAt(s, run, 0).resets == map[]
  {
  }

  // ---- a token is checked ----

  /** The token was issued to run out later than `now`. */
  ghost predicate GoodUntilAfter(run: seq<Event>, reset: int, now: int) {
    exists h: nat :: Issues(run, h, reset) && now < run[h].expiresAt
  }

  /** No reset with the token has committed yet. */
  ghost predicate NeverTookEffect(s: State, run: seq<Event>, reset: int)
    requires Valid(s, run)
  {
    forall m: nat :: !TakesEffect(s, run, m, reset)
  }

  lemma CheckStep(a: State, check: Event)
    requires Tracked(a) && Enabled(a, check) && check.CheckToken?
    ensures var t, r := check.reset, Next(a, check).changes;
            if t in a.resets && a.resets[t].usedAt.None? && check.now < a.resets[t].expiresAt
            then r == a.changes[check.id := Change(a.resets[t].user, Some(t), check.now, None, None)]
            else r == a.changes && check.id !in r
  {
  }

  /** After every run: checking a token puts a reset in progress, for the user it was
      issued to, if and only if the token was issued, runs out later, and no reset with
      it has committed. */
  lemma TokenLetsInExactly(s: State, run: seq<Event>, check: Event)
    requires Initial(s) && Valid(s, run) && check.CheckToken? && Enabled(After(s, run), check)
    ensures var r := Next(After(s, run), check);
            && (check.id in r.changes
                <==> GoodUntilAfter(run, check.reset, check.now) && NeverTookEffect(s, run, check.reset))
            && forall h: nat | check.id in r.changes && Issues(run, h, check.reset) ::
                 r.changes[check.id] == Change(run[h].user, Some(check.reset), check.now, None, None)
  {
    hide Next, Enabled, Valid, After;
    var n := |run|;
    assert run[..n] == run;
    AlwaysTracked(s, run);
    CheckStep(After(s, run), check);
    TokensAreIssued(s, run, n, check.reset);
    SpentExactly(s, run, n, check.reset);
  }

  // ---- who may begin a reset ----

  lemma BeginStep(s: State, e: Event, id: int)
    requires Enabled(s, e) && id in Next(s, e).changes
    ensures var c := Next(s, e).changes[id];
            || (id in s.changes && s.changes[id].user == c.user && s.changes[id].token == c.token)
            || (e.CheckToken? && e.id == id && c.token == Some(e.reset)
                && e.reset in s.resets && c.user == s.resets[e.reset].user
                && s.resets[e.reset].usedAt.None? && e.now < s.resets[e.reset].expiresAt)
            || (e.BeginAdminReset? && e.id == id && e.byAdmin && e.policyOk && c.token.None? && c.user == e.user)
  {
  }

  /** The i-th event checks the token for this reset. */
  predicate Checks(run: seq<Event>, i: nat, id: int, reset: int) {
    i < |run| && run[i].CheckToken? && run[i].id == id && run[i].reset == reset
  }

  /** A reset in progress by token began with a check of it, before the expiry it was
      issued with, and before any reset with it committed. */
  lemma {:induction false} BegunInTime(s: State, run: seq<Event>, k: nat, id: int, reset: int) returns (h: nat, i: nat)
    requires Initial(s) && Valid(s, run) && k <= |run|
    requires id in StateAt(s, run, k).changes && StateAt(s, run, k).changes[id].token == Some(reset)
    ensures h < i < k && Issues(run, h, reset) && Checks(run, i, id, reset) && run[i].now < run[h].expiresAt
    ensures StateAt(s, run, k).changes[id].user == run[h].user
    ensures forall m: nat | m < i :: !TakesEffect(s, run, m, reset)
  {
    hide Next, Enabled, TakesEffect;
    h, i := 0, 0;
    if k == 0 {
      NoChanges(s, run);
    } else {
      var b := StateAt(s, run, k - 1);
      StepAt(s, run, k - 1);
      BeginStep(b, run[k - 1], id);
      if id in b.changes && b.changes[id].token == Some(reset)
         && b.changes[id].user == StateAt(s, run, k).changes[id].user
      {
        h, i := BegunInTime(s, run, k - 1, id, reset);
      } else {
        i := k - 1;
        TokensAreIssued(s, run, i, reset);
        SpentExactly(s, run, i, reset);
        h :| h < i && Issues(run, h, reset);
      }
    }
  }

  // ---- who may finish it ----

  lemma ReadStep(s: State, e: Event, id: int)
    requires Enabled(s, e) && id in Next(s, e).changes && Next(s, e).changes[id].read.Some?
    ensures || (id in s.changes && s.changes[id].read.Some?)
            || (e.ReadUser? && e.id == id && e.policyOk)
            || (e.BeginAdminReset? && e.id == id && e.byAdmin && e.policyOk)
  {
  }

  /** The j-th event lets this reset go on: a good password, by token or by an administrator. */
  predicate Approves(run: seq<Event>, j: nat, id: int) {
    && j < |run|
    && ((run[j].ReadUser? && run[j].id == id && run[j].policyOk)
        || (run[j].BeginAdminReset? && run[j].id == id && run[j].byAdmin && run[j].policyOk))
  }

  lemma {:induction false} ReadIsApproved(s: State, run: seq<Event>, k: nat, id: int) returns (j: nat)
    requires Initial(s) && Valid(s, run) && k <= |run|
    requires id in StateAt(s, run, k).changes && StateAt(s, run, k).changes[id].read.Some?
    ensures j < k && Approves(run, j, id)
  {
    hide Next, Enabled;
    j := 0;
    if k == 0 {
      NoChanges(s, run);
    } else {
      StepAt(s, run, k - 1);
      ReadStep(StateAt(s, run, k - 1), run[k - 1], id);
      var b := StateAt(s, run, k - 1);
      if id in b.changes && b.changes[id].read.Some? {
        j := ReadIsApproved(s, run, k - 1, id);
      } else {
        j := k - 1;
      }
    }
  }

  lemma {:induction false} BegunByAdmin(s: State, run: seq<Event>, k: nat, id: int) returns (i: nat)
    requires Initial(s) && Valid(s, run) && k <= |run|
    requires id in StateAt(s, run, k).changes && StateAt(s, run, k).changes[id].token.None?
    ensures i < k && run[i].BeginAdminReset? && run[i].id == id && run[i].byAdmin && run[i].policyOk
    ensures run[i].user == StateAt(s, run, k).changes[id].user
  {
    hide Next, Enabled;
    i := 0;
    if k == 0 {
      NoChanges(s, run);
    } else {
      StepAt(s, run, k - 1);
      var b := StateAt(s, run, k - 1);
      BeginStep(b, run[k - 1], id);
      if id in b.changes && b.changes[id].token.None?
         && b.changes[id].user == StateAt(s, run, k).changes[id].user
      {
        i := BegunByAdmin(s, run, k - 1, id);
      } else {
        i := k - 1;
      }
    }
  }

  lemma CommitReady(s: State, e: Event)
    requires Enabled(s, e) && e.CommitReset?
    ensures e.id in s.changes && s.changes[e.id].read.Some? && s.changes[e.id].doomed.Some?
  {
  }

  /** Over every run, a reset that commits with a token had the token checked strictly
      before the expiry it was issued with and before any reset with it committed, is
      of the user it was issued to, and had a good password. */
  lemma RedeemedInTime(s: State, run: seq<Event>, k: nat, reset: int) returns (h: nat, i: nat, j: nat)
    requires Initial(s) && Valid(s, run) && TakesEffect(s, run, k, reset)
    ensures h < i < k && Issues(run, h, reset) && Checks(run, i, run[k].id, reset) && run[i].now < run[h].expiresAt
    ensures forall m: nat | m < i :: !TakesEffect(s, run, m, reset)
    ensures Commits(s, run, k, run[h].user)
    ensures j < k && Approves(run, j, run[k].id)
  {
    hide Next, Enabled;
    StepAt(s, run, k);
    CommitReady(StateAt(s, run, k), run[k]);
    h, i := BegunInTime(s, run, k, run[k].id, reset);
    j := ReadIsApproved(s, run, k, run[k].id);
  }

  /** A reset that commits without a token was begun by an administrator, for that user and with a good password. */
  lemma OrByAdmin(s: State, run: seq<Event>, k: nat, user: int) returns (i: nat)
    requires Initial(s) && Valid(s, run) && Commits(s, run, k, user)
    requires StateAt(s, run, k).changes[run[k].id].token.None?
    ensures i < k && run[i] == BeginAdminReset(run[i].now, run[k].id, user, true, true)
  {
    hide Next, Enabled;
    i := BegunByAdmin(s, run, k, run[k].id);
  }

  // ---- which sessions go ----

  /** The p-th event is this reset's DELETE. */
  predicate Purges(run: seq<Event>, p: nat, id: int) {
    p < |run| && run[p].Purge? && run[p].id == id
  }

  lemma DoomStep(s: State, e: Event, id: int)
    requires Enabled(s, e) && id in Next(s, e).changes && Next(s, e).changes[id].doomed.Some?
    ensures var c := Next(s, e).changes[id];
            || (e.Purge? && e.id == id
                && c.doomed.value == (set t | t in s.sessions && s.sessions[t].user == c.user))
            || (id in s.changes && s.changes[id].doomed == c.doomed && s.changes[id].user == c.user)
  {
  }

  /** What a reset's commit deletes are exactly the user's sessions that were committed when its DELETE ran. */
  lemma {:induction false} DoomedExactly(s: State, run: seq<Event>, k: nat, id: int) returns (p: nat)
    requires Initial(s) && Valid(s, run) && k <= |run|
    requires id in StateAt(s, run, k).changes && StateAt(s, run, k).changes[id].doomed.Some?
    ensures p < k && Purges(run, p, id)
    ensures var a, c := StateAt(s, run, p), StateAt(s, run, k).changes[id];
            c.doomed.value == (set t | t in a.sessions && a.sessions[t].user == c.user)
  {
    hide Next, Enabled;
    p := 0;
    if k == 0 {
      NoChanges(s, run);
    } else {
      StepAt(s, run, k - 1);
      DoomStep(StateAt(s, run, k - 1), run[k - 1], id);
      if run[k - 1].Purge? && run[k - 1].id == id {
        p := k - 1;
        DoomedNow(StateAt(s, run, p), run[p]);
      } else {
        p := DoomedExactly(s, run, k - 1, id);
      }
    }
  }

  lemma DoomedNow(s: State, e: Event)
    requires Enabled(s, e) && e.Purge?
    ensures var c := Next(s, e).changes[e.id];
            c.doomed == Some(set t | t in s.sessions && s.sessions[t].user == c.user)
  {
  }

  lemma CommitDeletes(s: State, e: Event, token: int)
    requires Tracked(s) && Enabled(s, e) && e.CommitReset? && token in s.changes[e.id].doomed.value
    ensures Dead(Next(s, e), token)
  {
  }

  lemma {:induction false} DeadStays(s: State, run: seq<Event>, j: nat, k: nat, token: int)
    requires Valid(s, run) && j <= k <= |run| && Dead(StateAt(s, run, j), token)
    ensures Dead(StateAt(s, run, k), token)
  {
    hide Next, Enabled, Dead;
    if j < k {
      DeadStays(s, run, j, k - 1, token);
      StepAt(s, run, k - 1);
      DeadStep(StateAt(s, run, k - 1), run[k - 1], token);
    }
  }

  lemma DeadIsRefused(a: State, request: Event)
    requires request.Request? && Dead(a, request.token)
    ensures !Accepts(a, request)
  {
  }

  /** Whether or not resets overtake one another: a session of the user that was open
      when a reset's DELETE ran is never accepted after that reset's commit. */
  lemma DeletedForGood(s: State, run: seq<Event>, p: nat, k: nat, user: int, request: Event)
    requires Initial(s) && Valid(s, run) && p < k && Commits(s, run, k, user) && Purges(run, p, run[k].id)
    requires request.Request?
    requires var a := StateAt(s, run, p);
             request.token in a.sessions && a.sessions[request.token].user == user
    ensures !Accepts(After(s, run), request)
  {
    hide Next, Enabled, Dead, Accepts, Tracked;
    var b, id := StateAt(s, run, k), run[k].id;
    StepAt(s, run, k);
    CommitReady(b, run[k]);
    var q := DoomedExactly(s, run, k, id);
    OnePurge(s, run, p, q, id);
    TrackedAt(s, run, k);
    CommitDeletes(b, run[k], request.token);
    DeadStays(s, run, k + 1, |run|, request.token);
    assert run[..|run|] == run;
    DeadIsRefused(After(s, run), request);
  }

  /** After its DELETE a reset is past it, or gone. */
  lemma PurgedStep(s: State, e: Event, id: int)
    requires Tracked(s) && Enabled(s, e) && id in s.attempts
    requires id in s.changes ==> s.changes[id].doomed.Some?
    ensures !(e.Purge? && e.id == id) && id in Next(s, e).attempts
    ensures id in Next(s, e).changes ==> Next(s, e).changes[id].doomed.Some?
  {
  }

  lemma AfterPurge(s: State, e: Event)
    requires Tracked(s) && Enabled(s, e) && e.Purge?
    ensures e.id in Next(s, e).attempts && e.id in Next(s, e).changes && Next(s, e).changes[e.id].doomed.Some?
  {
  }

  lemma {:induction false} NoPurgeAgain(s: State, run: seq<Event>, p: nat, q: nat, id: int)
    requires Initial(s) && Valid(s, run) && p < q <= |run| && Purges(run, p, id)
    ensures q < |run| ==> !Purges(run, q, id)
    ensures var b := StateAt(s, run, q);
            id in b.attempts && (id in b.changes ==> b.changes[id].doomed.Some?)
  {
    hide Next, Enabled, Tracked;
    StepAt(s, run, q - 1);
    TrackedAt(s, run, q - 1);
    if q == p + 1 {
      AfterPurge(StateAt(s, run, p), run[p]);
    } else {
      NoPurgeAgain(s, run, p, q - 1, id);
      PurgedStep(StateAt(s, run, q - 1), run[q - 1], id);
    }
    if q < |run| {
      StepAt(s, run, q);
      TrackedAt(s, run, q);
      PurgedStep(StateAt(s, run, q), run[q], id);
    }
  }

  /** A reset deletes once. */
  lemma OnePurge(s: State, run: seq<Event>, p: nat, q: nat, id: int)
    requires Initial(s) && Valid(s, run) && Purges(run, p, id) && Purges(run, q, id)
    ensures p == q
  {
    if p < q { NoPurgeAgain(s, run, p, q, id); }
    if q < p { NoPurgeAgain(s, run, q, p, id); }
  }
}
