/** The theorems about single issues, carried over to any number of instances:
    every stretch of every run of the system whose cycles end within their lease
    terms, such as the stretch between two cleanups that close the issue. */
module Engine {
  import opened Wrappers
  import opened Routing
  import opened IssueState
  import opened Processor
  import opened IssueHistory
  import opened UserHistory
  import opened StatusChain
  import opened Timers
  import opened JournalCover
  import opened RoomBounds
  import opened Scheduler

  /** The issue before the run, and what the run does to it. */
  function CellBefore(s: System, user: int, issue: int): Cell {
    CellOf(DeskAt(s, user), issue)
  }

  function Moves(s: System, run: seq<Event>, user: int, issue: int): seq<Move>
    requires Valid(s, run)
  {
    MovesOf(ActsOf(s, run, user), issue)
  }

  function Messages(s: System, run: seq<Event>, user: int, issue: int): seq<Send>
    requires Valid(s, run)
  {
    LogFor(LogOf(After(s, run), user), issue)
  }

  /** The system's log and row of an issue are those of the issue's own history. */
  lemma IssueLivesAlone(s: System, run: seq<Event>, user: int, issue: int)
    requires Ready(s, user) && Valid(s, run) && Prompt(s, run, user)
    ensures var c, ms := CellBefore(s, user, issue), Moves(s, run, user, issue);
            && c.cur.None? && c.row == RowOf(s.rows, user, issue) && LegalRun(c, ms)
            && Run(c, ms).log == Messages(s, run, user, issue)
            && Run(c, ms).row == RowOf(After(s, run).rows, user, issue)
  {
    hide Do, Next, Step;
    SerialRefinement(s, run, user);
    EachIssueAlone(DeskAt(s, user), ActsOf(s, run, user), issue);
  }

  // ---- any stretch of a run ----

  lemma {:induction false} PromptPrefix(s: System, a: seq<Event>, b: seq<Event>, user: int)
    requires Valid(s, a + b) && Valid(s, a) && Prompt(s, a + b, user)
    ensures Prompt(s, a, user)
  {
    hide Next, Enabled, Punctual;
    if b == [] {
      assert a + b == a;
    } else {
      assert (a + b)[..|a + b| - 1] == a + b[..|b| - 1];
      PromptPrefix(s, a, b[..|b| - 1], user);
    }
  }

  lemma {:induction false} MovesJoin(s: System, a: seq<Event>, b: seq<Event>, user: int, issue: int)
    requires Valid(s, a + b) && Valid(s, a) && Valid(After(s, a), b)
    ensures Moves(s, a + b, user, issue) == Moves(s, a, user, issue) + Moves(After(s, a), b, user, issue)
  {
    hide Next, Enabled, MoveBy, Moves;
    if b == [] {
      assert a + b == a;
      NoMoves(After(s, a), user, issue);
      assert Moves(s, a, user, issue) + [] == Moves(s, a, user, issue);
    } else {
      var n := |b| - 1;
      assert (a + b)[..|a + b| - 1] == a + b[..n];
      ValidJoin(s, a, b[..n]);
      MovesJoin(s, a, b[..n], user, issue);
      MovesSnoc(s, a + b, user, issue);
      MovesSnoc(After(s, a), b, user, issue);
    }
  }

  /** The issue as it stands after a run, messages counted from there. */
  function Standing(s: System, run: seq<Event>, user: int, issue: int): Cell
    requires Ready(s, user) && Valid(s, run) && Prompt(s, run, user)
  {
    IssueLivesAlone(s, run, user, issue);
    CountedFrom(Run(CellBefore(s, user, issue), Moves(s, run, user, issue)))
  }

  /** The messages about the issue sent since `before`. */
  function MessagesSince(s: System, before: seq<Event>, since: seq<Event>, user: int, issue: int): seq<Send>
    requires Valid(s, before + since)
  {
    ValidJoin(s, before, since);
    var all, earlier := Messages(s, before + since, user, issue), Messages(s, before, user, issue);
    if |earlier| <= |all| then all[|earlier|..] else []
  }

  /** The messages and the row of a stretch are those of the issue's own history
      from where it stood. */
  lemma StretchLivesAlone(s: System, before: seq<Event>, since: seq<Event>, user: int, issue: int)
    requires Ready(s, user) && Valid(s, before + since) && Prompt(s, before + since, user)
    ensures Valid(s, before) && Prompt(s, before, user) && Valid(After(s, before), since)
    ensures var c, ms := Standing(s, before, user, issue), Moves(After(s, before), since, user, issue);
            && FromHere(c) && LegalRun(c, ms)
            && Messages(s, before + since, user, issue) == Messages(s, before, user, issue) + Run(c, ms).log
            && MessagesSince(s, before, since, user, issue) == Run(c, ms).log
            && Run(c, ms).row == RowOf(After(s, before + since).rows, user, issue)
  {
    hide After, Valid, Run, LegalRun, Moves, CellBefore, Messages, RowOf, FromHere, Tame;
    ValidJoin(s, before, since);
    PromptPrefix(s, before, since, user);
    MovesJoin(s, before, since, user, issue);
    IssueLivesAlone(s, before, user, issue);
    IssueLivesAlone(s, before + since, user, issue);
    StartsTame(s, user, issue);
    AnyPoint(CellBefore(s, user, issue), Moves(s, before, user, issue), Moves(After(s, before), since, user, issue));
  }

  lemma StartsTame(s: System, user: int, issue: int)
    ensures Tame(CellBefore(s, user, issue))
  {
  }

  /** The event behind a move. */
  predicate Behind(e: Event, user: int, issue: int, m: Move) {
    match m
    case Begin(now) => e.LoadState? && e.user == user && e.zone == now.zone
    case See(v) => e.Process? && e.user == user && e.visit == v && v.issue.id == issue
    case Commit => e.Finish? && e.user == user
    case Abort => e.Fail? && e.user == user
    case Remove => e.Cleanup? && e.user == user && issue !in e.open
  }

  /** The move an event makes, if it concerns the issue. */
  function MoveBy(s: System, e: Event, user: int, issue: int): Option<Move>
    requires Enabled(s, e)
  {
    var a := ActOf(s, e, user);
    if a.Some? then MoveOf(a.value, issue) else None
  }

  lemma MovesSnoc(s: System, run: seq<Event>, user: int, issue: int)
    requires Valid(s, run) && run != []
    ensures var n := |run| - 1;
            var m := MoveBy(After(s, run[..n]), run[n], user, issue);
            Moves(s, run, user, issue)
              == Moves(s, run[..n], user, issue) + if m.Some? then [m.value] else []
  {
    hide Next, Enabled, ActOf;
    var n := |run| - 1;
    var acts := ActsOf(s, run[..n], user);
    var a := ActOf(After(s, run[..n]), run[n], user);
    if a.Some? {
      assert (acts + [a.value])[..|acts|] == acts;
    } else {
      assert acts + [] == acts;
    }
  }

  lemma {:induction false} EveryMoveHasEvent(s: System, run: seq<Event>, user: int, issue: int, m: Move)
    requires Valid(s, run) && m in Moves(s, run, user, issue)
    ensures exists e :: e in run && Behind(e, user, issue, m)
  {
    hide Next, Moves;
    NoMoves(s, user, issue);
    if run != [] {
      var n := |run| - 1;
      MovesSnoc(s, run, user, issue);
      if m in Moves(s, run[..n], user, issue) {
        EveryMoveHasEvent(s, run[..n], user, issue, m);
        var e :| e in run[..n] && Behind(e, user, issue, m);
        assert e in run;
      } else {
        assert MoveBy(After(s, run[..n]), run[n], user, issue) == Some(m);
        assert run[n] in run && Behind(run[n], user, issue, m);
      }
    }
  }

  lemma NoMoves(s: System, user: int, issue: int)
    ensures Moves(s, [], user, issue) == []
  {
  }

  /** No cycle of the user failed; no cleanup removed the issue's row. */
  predicate NoFailure(run: seq<Event>, user: int) {
    forall e | e in run && e.Fail? :: e.user != user
  }

  predicate NoRemoval(run: seq<Event>, user: int, issue: int) {
    forall e | e in run && e.Cleanup? && e.user == user :: issue in e.open
  }

  lemma NoAbort(s: System, run: seq<Event>, user: int, issue: int)
    requires Valid(s, run) && NoFailure(run, user)
    ensures Abort !in Moves(s, run, user, issue)
  {
    if Abort in Moves(s, run, user, issue) {
      EveryMoveHasEvent(s, run, user, issue, Abort);
    }
  }

  lemma NoRemove(s: System, run: seq<Event>, user: int, issue: int)
    requires Valid(s, run) && NoRemoval(run, user, issue)
    ensures Remove !in Moves(s, run, user, issue)
  {
    if Remove in Moves(s, run, user, issue) {
      EveryMoveHasEvent(s, run, user, issue, Remove);
    }
  }

  /** The user stays subscribed to this kind of message, at every visit to the issue. */
  predicate Wanted(run: seq<Event>, user: int, issue: int, kind: Kind) {
    forall e | e in run && e.Process? && e.user == user && e.visit.issue.id == issue ::
      kind in e.visit.policy.wants
  }

  /** The reminder interval is the same at every visit to the issue. */
  predicate Paced(run: seq<Event>, user: int, issue: int, gap: int) {
    forall e | e in run && e.Process? && e.user == user && e.visit.issue.id == issue ::
      e.visit.reminderAfter == gap
  }

  lemma WantedMoves(s: System, run: seq<Event>, user: int, issue: int, kind: Kind)
    requires Valid(s, run) && Wanted(run, user, issue, kind)
    ensures Subscribed(Moves(s, run, user, issue), kind)
  {
    forall m | m in Moves(s, run, user, issue) && m.See?
      ensures kind in m.visit.policy.wants
    {
      EveryMoveHasEvent(s, run, user, issue, m);
    }
  }

  /** Every walk over a set of rooms meets each room once. */
  predicate RoomsWalked(run: seq<Event>, user: int, issue: int) {
    forall e | e in run && e.Process? && e.user == user && e.visit.issue.id == issue ::
      NoRepeats(e.visit.members) && NoRepeats(e.visit.extras)
  }

  /** Reminders keep their distance across instances, removals and changes of status. */
  lemma EngineReminders(s: System, before: seq<Event>, since: seq<Event>, user: int, issue: int, gap: int)
    requires Ready(s, user) && Valid(s, before + since) && Prompt(s, before + since, user)
    requires NoFailure(since, user) && Paced(since, user, issue, gap)
    ensures Spaced(Of(MessagesSince(s, before, since, user, issue), KReminder), gap)
  {
    hide Standing, Run, LegalRun, Moves, Messages, Spaced;
    StretchLivesAlone(s, before, since, user, issue);
    var a := After(s, before);
    NoAbort(a, since, user, issue);
    forall m | m in Moves(a, since, user, issue) && m.See?
      ensures m.visit.reminderAfter == gap
    {
      EveryMoveHasEvent(a, since, user, issue, m);
    }
    RemindersAreSpaced(Standing(s, before, user, issue), Moves(a, since, user, issue), gap);
  }

  /** While no cleanup removes the issue, instances together treat it as unknown at
      most once more often than it was spoiled; so they send at most that many
      first messages about answers and reopenings, and at most three times as
      many announcements to any one room. */
  lemma EngineFirstSight(s: System, before: seq<Event>, since: seq<Event>, user: int, issue: int, room: string)
    requires Ready(s, user) && Valid(s, before + since) && Prompt(s, before + since, user)
    requires NoRemoval(since, user, issue)
    ensures Valid(s, before) && Prompt(s, before, user) && Valid(After(s, before), since)
    ensures var c, ms := Standing(s, before, user, issue), Moves(After(s, before), since, user, issue);
            var log := MessagesSince(s, before, since, user, issue);
            && LegalRun(c, ms)
            && Count(c, ms).fired <= 1 + Count(c, ms).spoiled
            && |Of(log, KInfo)| + |Of(log, KReopened)| <= 1 + Count(c, ms).spoiled
            && (RoomsWalked(since, user, issue) ==> To(log, room) <= 3 * (1 + Count(c, ms).spoiled))
  {
    hide Standing, Run, LegalRun, Moves, Messages, Count, Of, To, NoRepeats;
    StretchLivesAlone(s, before, since, user, issue);
    var a := After(s, before);
    var c, ms := Standing(s, before, user, issue), Moves(a, since, user, issue);
    NoRemove(a, since, user, issue);
    FirstSightAtMostOnce(c, ms);
    ToldAtMostFired(c, ms);
    if RoomsWalked(since, user, issue) {
      forall m | m in ms && m.See?
        ensures NoRepeats(m.visit.members) && NoRepeats(m.visit.extras)
      {
        EveryMoveHasEvent(a, since, user, issue, m);
      }
      AnnouncedAtMostFired(c, ms, room);
    }
  }

  /** The status messages of all instances form one path, from the status the
      issue had, or under which it became known. */
  lemma EngineStatusChain(s: System, before: seq<Event>, since: seq<Event>, user: int, issue: int)
    requires Ready(s, user) && Valid(s, before + since) && Prompt(s, before + since, user)
    requires NoFailure(since, user) && NoRemoval(since, user, issue) && Wanted(since, user, issue, KStatusChange)
    ensures Valid(s, before) && Prompt(s, before, user) && Valid(After(s, before), since)
    ensures var c, ms := Standing(s, before, user, issue), Moves(After(s, before), since, user, issue);
            && LegalRun(c, ms)
            && Told(Of(MessagesSince(s, before, since, user, issue), KStatusChange),
                    FirstSeen(c, ms), InForce(Run(c, ms)))
  {
    hide Standing, Run, LegalRun, Moves, Messages, FirstSeen, Told;
    StretchLivesAlone(s, before, since, user, issue);
    var a := After(s, before);
    NoAbort(a, since, user, issue);
    NoRemove(a, since, user, issue);
    WantedMoves(a, since, user, issue, KStatusChange);
    StatusChainTelescopes(Standing(s, before, user, issue), Moves(a, since, user, issue));
  }

  /** No journal id stored before the run is negative. */
  predicate NaturalIds(s: System, user: int, issue: int) {
    Natural(CellBefore(s, user, issue))
  }

  /** The journal messages of all instances cover the journal exactly, from the id
      stored or, for an issue not followed yet, from the first id taken in. */
  lemma EngineJournals(s: System, before: seq<Event>, since: seq<Event>, user: int, issue: int)
    requires Ready(s, user) && Valid(s, before + since) && Prompt(s, before + since, user) && NaturalIds(s, user, issue)
    requires NoFailure(since, user) && NoRemoval(since, user, issue) && Wanted(since, user, issue, KUpdated)
    requires Valid(s, before) && Valid(After(s, before), since)
    requires Growing(Moves(After(s, before), since, user, issue))
    ensures Prompt(s, before, user)
    ensures var c, ms := Standing(s, before, user, issue), Moves(After(s, before), since, user, issue);
            && LegalRun(c, ms)
            && Reports(Baseline(c, ms), InForce(Run(c, ms)).journal,
                       Of(MessagesSince(s, before, since, user, issue), KUpdated), Latest(ms))
            && ReportedExactly(c, ms)
  {
    hide Run, LegalRun, Moves, Messages, Baseline, Reports, Natural, Growing, CellBefore;
    StretchLivesAlone(s, before, since, user, issue);
    var a := After(s, before);
    NoAbort(a, since, user, issue);
    NoRemove(a, since, user, issue);
    WantedMoves(a, since, user, issue, KUpdated);
    IssueLivesAlone(s, before, user, issue);
    AlwaysNatural(CellBefore(s, user, issue), Moves(s, before, user, issue));
    NaturalFromHere(Run(CellBefore(s, user, issue), Moves(s, before, user, issue)));
    JournalExactlyCovered(Standing(s, before, user, issue), Moves(a, since, user, issue));
    JournalReportedExactly(Standing(s, before, user, issue), Moves(a, since, user, issue));
  }

  lemma NaturalFromHere(c: Cell)
    requires Natural(c)
    ensures Natural(CountedFrom(c))
  {
  }

  /** Overdue notices of all instances, whose clocks show the same zone. */
  lemma EngineOverdue(s: System, before: seq<Event>, since: seq<Event>, user: int, issue: int, zone: int)
    requires Ready(s, user) && Valid(s, before + since) && Prompt(s, before + since, user)
    requires NoFailure(since, user) && NoRemoval(since, user, issue)
    requires forall e | e in before + since && e.LoadState? && e.user == user :: e.zone == zone
    ensures OncePerDay(Of(MessagesSince(s, before, since, user, issue), KOverdue), zone, zone)
  {
    hide Run, LegalRun, Moves, Messages, OncePerDay, CellBefore, Zoned;
    StretchLivesAlone(s, before, since, user, issue);
    var a := After(s, before);
    NoAbort(a, since, user, issue);
    NoRemove(a, since, user, issue);
    ZoneOfMoves(s, before, user, issue, zone);
    ZoneOfMoves(a, since, user, issue, zone);
    IssueLivesAlone(s, before, user, issue);
    StartsZoned(s, user, issue, zone);
    AlwaysZoned(CellBefore(s, user, issue), Moves(s, before, user, issue), zone);
    ZonedFromHere(Run(CellBefore(s, user, issue), Moves(s, before, user, issue)), zone);
    OverdueOncePerDay(Standing(s, before, user, issue), Moves(a, since, user, issue), zone);
  }

  lemma ZoneOfMoves(s: System, run: seq<Event>, user: int, issue: int, zone: int)
    requires Valid(s, run) && forall e | e in run && e.LoadState? && e.user == user :: e.zone == zone
    ensures InZone(Moves(s, run, user, issue), zone)
  {
    forall m | m in Moves(s, run, user, issue) && m.Begin?
      ensures m.now.zone == zone
    {
      EveryMoveHasEvent(s, run, user, issue, m);
    }
  }

  lemma StartsZoned(s: System, user: int, issue: int, zone: int)
    ensures Zoned(CellBefore(s, user, issue), zone)
  {
  }

  lemma ZonedFromHere(c: Cell, zone: int)
    requires Zoned(c, zone)
    ensures Zoned(CountedFrom(c), zone)
  {
  }
}
