/** How often an issue's reminder and its overdue notice can repeat. */
module Timers {
  import opened Wrappers
  import opened Routing
  import opened IssueState
  import opened Processor
  import opened IssueHistory

  /** Any two of the messages are at least `gap` apart. */
  predicate Spaced(msgs: seq<Send>, gap: int) {
    forall a, b | 0 <= a < b < |msgs| :: msgs[b].at - msgs[a].at >= gap
  }

  predicate AllBy(msgs: seq<Send>, at: int) {
    forall s <- msgs :: s.at <= at
  }

  // ---- reminders ----

  /** The instant from which the next reminder of an entry is counted. */
  function ReminderBase(e: Entry): Option<int> {
    if e.reminder.Some? then Some(e.reminder.value.at)
    else if e.sent.Some? then Some(e.sent.value.notifiedAt.at) else None
  }

  /** One visit: either no reminder and the base does not move back, or one
      reminder, due by the base, which becomes the new base. */
  lemma VisitReminder(t: Turn, v: Visit)
    ensures var r := VisitTurn(t, v);
            var before, after := Of(t.out, KReminder), Of(r.out, KReminder);
            || (after == before && r.e.reminder == t.e.reminder
                && (t.e.sent.Some? ==> ReminderBase(r.e) == ReminderBase(t.e))
                && (t.e.sent.None? && t.e.reminder.None? ==>
                      r.e.sent.None? || ReminderBase(r.e) == Some(v.now.at)))
            || (after == before + [Send(v.issue.id, v.policy.room, KReminder, Timer, v.now.at)]
                && r.e.reminder == Some(v.now) && t.e.sent.Some?
                && v.now.at - ReminderBase(t.e).value >= v.reminderAfter)
  {
    var t1 := StatusTurn(t, v);
    var t2 := BranchTurn(t1, v);
    var t3 := OverdueTurn(t2, v);
    var changed := DetectStatusChange(t.e.sent, v.issue.status).Some?;
    StatusFrame(t, v);
    BranchFrame(t1, v);
    OverdueFrame(t2, v);
    JournalFrame(t3, v, changed);
    StatusOf(t, v, KReminder);
    BranchReminder(t1, v);
    OverdueOf(t2, v, KReminder);
    JournalOf(t3, v, changed, KReminder);
  }

  lemma BranchReminder(t: Turn, v: Visit)
    ensures var r := BranchTurn(t, v);
            var before, after := Of(t.out, KReminder), Of(r.out, KReminder);
            || (after == before && r.e.reminder == t.e.reminder)
            || (after == before + [Send(v.issue.id, v.policy.room, KReminder, Timer, v.now.at)]
                && r.e.reminder == Some(v.now) && t.e.sent.Some?
                && v.now.at - ReminderBase(t.e).value >= v.reminderAfter)
  {
    var t1, stage := Risk(t), StageOf(v.issue.status);
    if t1.e.sent.None? {
      UnknownFrame(t1, v, stage);
      UnknownOf(t1, v, stage, KReminder);
    } else if stage == Answered {
      EmitOf(Risk(t1), v, v.policy.room, KReminder, Timer, KReminder);
    } else {
      RepeatFrame(t1, v);
      RepeatOf(t1, v, KReminder);
    }
  }

  /** Undisturbed, a visit sends a reminder exactly when the issue is known, its status
      is "information provided", the user wants reminders, and the time since the last
      reminder, or since the first notice, has reached the interval. */
  lemma ReminderExactlyWhenDue(t: Turn, v: Visit)
    requires t.left.None? && !t.raised
    ensures var due := t.e.sent.Some? && v.issue.status == STATUS_INFO_PROVIDED && KReminder in v.policy.wants
                       && v.now.at - ReminderBase(t.e).value >= v.reminderAfter;
            Of(VisitTurn(t, v).out, KReminder)
              == Of(t.out, KReminder)
                 + if due then [Send(v.issue.id, v.policy.room, KReminder, Timer, v.now.at)] else []
  {
    var t1 := StatusTurn(t, v);
    var t2 := BranchTurn(t1, v);
    var t3 := OverdueTurn(t2, v);
    StatusFrame(t, v);
    StatusOf(t, v, KReminder);
    BranchReminderDue(t1, v);
    OverdueOf(t2, v, KReminder);
    JournalOf(t3, v, DetectStatusChange(t.e.sent, v.issue.status).Some?, KReminder);
  }

  lemma BranchReminderDue(t: Turn, v: Visit)
    requires t.left.None? && !t.raised
    ensures var due := t.e.sent.Some? && v.issue.status == STATUS_INFO_PROVIDED && KReminder in v.policy.wants
                       && v.now.at - ReminderBase(t.e).value >= v.reminderAfter;
            Of(BranchTurn(t, v).out, KReminder)
              == Of(t.out, KReminder)
                 + if due then [Send(v.issue.id, v.policy.room, KReminder, Timer, v.now.at)] else []
  {
    hide Of, AnnounceTurn;
    var stage := StageOf(v.issue.status);
    if t.e.sent.None? {
      UnknownOf(t, v, stage, KReminder);
    } else if stage == Answered {
      EmitOf(t, v, v.policy.room, KReminder, Timer, KReminder);
    } else {
      RepeatOf(t, v, KReminder);
    }
  }

  predicate RemindsAfter(ms: seq<Move>, gap: int) {
    forall m | m in ms && m.See? :: m.visit.reminderAfter == gap
  }

  /** Reminders so far are spaced, and none is later than the base for the next one. */
  predicate ReminderSound(msgs: seq<Send>, e: Entry, now: int, gap: int) {
    && Spaced(msgs, gap)
    && AllBy(msgs, now)
    && (ReminderBase(e).Some? ==> AllBy(msgs, ReminderBase(e).value))
  }

  lemma ReminderStep(t: Turn, v: Visit)
    requires ReminderSound(Of(t.out, KReminder), t.e, v.now.at, v.reminderAfter)
    ensures ReminderSound(Of(VisitTurn(t, v).out, KReminder), VisitTurn(t, v).e, v.now.at, v.reminderAfter)
  {
    hide VisitTurn;
    VisitReminder(t, v);
  }

  lemma ReminderSee(c: Cell, v: Visit)
    requires Legal(c, See(v)) && ReminderSound(Of(c.log, KReminder), InForce(c), c.now.at, v.reminderAfter)
    ensures var d := Step(c, See(v));
            ReminderSound(Of(d.log, KReminder), InForce(d), d.now.at, v.reminderAfter)
  {
    hide VisitTurn, ReminderSound;
    ReminderStep(Turn(c.cur.value, c.log, c.dirty, v.limit, false), v);
  }

  /** A removed row takes the base with it; the next one is later than every reminder sent. */
  lemma ReminderRest(c: Cell, m: Move, gap: int)
    requires Legal(c, m) && !m.See? && !m.Abort? && Tame(c)
    requires ReminderSound(Of(c.log, KReminder), InForce(c), c.now.at, gap)
    ensures var d := Step(c, m); ReminderSound(Of(d.log, KReminder), InForce(d), d.now.at, gap)
  {
    hide Of, Spaced;
  }

  lemma {:induction false} ReminderInvariant(c: Cell, ms: seq<Move>, gap: int)
    requires FromHere(c) && LegalRun(c, ms) && Abort !in ms && RemindsAfter(ms, gap)
    ensures var d := Run(c, ms);
            ReminderSound(Of(d.log, KReminder), InForce(d), d.now.at, gap)
  {
    hide Step, Legal, ReminderSound;
    if ms == [] {
      NoReminders(c, gap);
    } else {
      var n := |ms| - 1;
      assert ms[n] in ms && forall m :: m in ms[..n] ==> m in ms;
      ReminderInvariant(c, ms[..n], gap);
      AlwaysTame(c, ms[..n]);
      if ms[n].See? {
        ReminderSee(Run(c, ms[..n]), ms[n].visit);
      } else {
        ReminderRest(Run(c, ms[..n]), ms[n], gap);
      }
    }
  }

  lemma NoReminders(c: Cell, gap: int)
    requires c.log == []
    ensures ReminderSound(Of(c.log, KReminder), InForce(c), c.now.at, gap)
  {
  }

  /** In every stretch of a history without rollbacks, with removals of the row
      at any time, under a cycle in progress too, and changes of status in any
      order, two reminders are at least the configured time apart. */
  lemma RemindersAreSpaced(c: Cell, ms: seq<Move>, gap: int)
    requires FromHere(c) && LegalRun(c, ms) && Abort !in ms && RemindsAfter(ms, gap)
    ensures Spaced(Of(Run(c, ms).log, KReminder), gap)
  {
    ReminderInvariant(c, ms, gap);
  }

  function Within(msgs: seq<Send>, lo: int, hi: int): (r: seq<Send>)
    ensures forall s <- r :: s in msgs && lo <= s.at <= hi
  {
    if msgs == [] then []
    else
      var n := |msgs| - 1;
      Within(msgs[..n], lo, hi) + if lo <= msgs[n].at <= hi then [msgs[n]] else []
  }

  lemma {:induction false} WithinSpaced(msgs: seq<Send>, gap: int, lo: int, hi: int)
    requires Spaced(msgs, gap)
    ensures Spaced(Within(msgs, lo, hi), gap)
    ensures Within(msgs, lo, hi) != [] ==> Within(msgs, lo, hi)[0] in msgs
  {
    if msgs != [] {
      var n := |msgs| - 1;
      WithinSpaced(msgs[..n], gap, lo, hi);
      forall a | 0 <= a < |Within(msgs[..n], lo, hi)|
        ensures msgs[n].at - Within(msgs[..n], lo, hi)[a].at >= gap
      {
        var s := Within(msgs[..n], lo, hi)[a];
        assert s in msgs[..n];
        var k :| 0 <= k < n && msgs[k] == s;
      }
    }
  }

  lemma {:induction false} SpacedSpan(msgs: seq<Send>, gap: int)
    requires Spaced(msgs, gap) && msgs != []
    ensures msgs[|msgs| - 1].at - msgs[0].at >= (|msgs| - 1) * gap
  {
    if |msgs| > 1 {
      SpacedSpan(msgs[..|msgs| - 1], gap);
    }
  }

  /** So in any interval of time at most its length over the gap, plus one, are sent. */
  lemma SpacedCount(msgs: seq<Send>, gap: int, lo: int, hi: int)
    requires Spaced(msgs, gap) && gap > 0 && lo <= hi
    ensures |Within(msgs, lo, hi)| <= (hi - lo) / gap + 1
  {
    WithinSpaced(msgs, gap, lo, hi);
    var w := Within(msgs, lo, hi);
    if w != [] {
      SpacedSpan(w, gap);
      assert w[0] in w && w[|w| - 1] in w;
      DivideBound(|w| - 1, gap, hi - lo);
    }
  }

  lemma DivideBound(k: int, gap: int, span: int)
    requires gap > 0 && k * gap <= span
    ensures k <= span / gap
  {
    var q := span / gap;
    Monotone(q + 1, k, gap);
    assert span == q * gap + span % gap;
    assert (q + 1) * gap == q * gap + gap;
  }

  lemma Monotone(a: int, b: int, gap: int)
    requires gap > 0
    ensures a <= b ==> a * gap <= b * gap
  {
    assert b * gap - a * gap == (b - a) * gap;
  }

  // ---- overdue notices ----

  lemma VisitOverdue(t: Turn, v: Visit)
    ensures var r := VisitTurn(t, v);
            var before, after := Of(t.out, KOverdue), Of(r.out, KOverdue);
            || (after == before && r.e.overdue == t.e.overdue)
            || (after == before + [Send(v.issue.id, v.policy.room, KOverdue, Timer, v.now.at)]
                && r.e.overdue == Some(v.now)
                && (t.e.overdue.Some? ==> DateOf(t.e.overdue.value) < DateOf(v.now)))
  {
    var t1 := StatusTurn(t, v);
    var t2 := BranchTurn(t1, v);
    var t3 := OverdueTurn(t2, v);
    var changed := DetectStatusChange(t.e.sent, v.issue.status).Some?;
    StatusFrame(t, v);
    BranchFrame(t1, v);
    JournalFrame(t3, v, changed);
    StatusOf(t, v, KOverdue);
    BranchOf(t1, v, KOverdue);
    OverdueMessage(t2, v);
    JournalOf(t3, v, changed, KOverdue);
  }

  lemma OverdueMessage(t: Turn, v: Visit)
    ensures var r := OverdueTurn(t, v);
            var before, after := Of(t.out, KOverdue), Of(r.out, KOverdue);
            || (after == before && r.e.overdue == t.e.overdue)
            || (after == before + [Send(v.issue.id, v.policy.room, KOverdue, Timer, v.now.at)]
                && r.e.overdue == Some(v.now)
                && (t.e.overdue.Some? ==> DateOf(t.e.overdue.value) < DateOf(v.now)))
  {
    EmitOf(Risk(Risk(t)), v, v.policy.room, KOverdue, Timer, KOverdue);
  }

  /** Undisturbed, a visit sends an overdue notice exactly when the due day has
      passed, the user wants such notices, and none was recorded on this day. */
  lemma OverdueExactlyWhenDue(t: Turn, v: Visit)
    requires t.left.None? && !t.raised
    ensures var due := v.issue.due.Some? && v.issue.due.value < DateOf(v.now) && KOverdue in v.policy.wants
                       && (t.e.overdue.Some? ==> DateOf(t.e.overdue.value) < DateOf(v.now));
            Of(VisitTurn(t, v).out, KOverdue)
              == Of(t.out, KOverdue)
                 + if due then [Send(v.issue.id, v.policy.room, KOverdue, Timer, v.now.at)] else []
  {
    hide BranchTurn, StatusTurn, JournalTurn, DateOf, StageOf;
    var t1 := StatusTurn(t, v);
    var t2 := BranchTurn(t1, v);
    var t3 := OverdueTurn(t2, v);
    StatusFrame(t, v);
    BranchFrame(t1, v);
    CalmSoFar(t, v);
    StatusOf(t, v, KOverdue);
    BranchOf(t1, v, KOverdue);
    EmitOf(t2, v, v.policy.room, KOverdue, Timer, KOverdue);
    JournalOf(t3, v, DetectStatusChange(t.e.sent, v.issue.status).Some?, KOverdue);
  }

  lemma CalmSoFar(t: Turn, v: Visit)
    requires t.left.None? && !t.raised
    ensures var r := BranchTurn(StatusTurn(t, v), v); r.left.None? && !r.raised
  {
  }

  /** The bot's own clock shows `zone` microseconds more than UTC. */
  predicate InZone(ms: seq<Move>, zone: int) {
    forall m | m in ms && m.Begin? :: m.now.zone == zone
  }

  function LocalDay(at: int, zone: int): int {
    DateOf(Stamp(at, zone))
  }

  /** Of two messages on one local day the earlier falls into the first `ahead` microseconds of the day. */
  predicate OncePerDay(msgs: seq<Send>, zone: int, ahead: int) {
    forall a, b | 0 <= a < b < |msgs| && LocalDay(msgs[a].at, zone) == LocalDay(msgs[b].at, zone) ::
      (msgs[a].at + zone) % DAY < ahead
  }

  /** Read in UTC or in the bot's zone, a stamp of an earlier day excludes an
      earlier message from the new message's day, but for the first `zone` microseconds. */
  lemma EarlierMessage(at: int, stamp: Stamp, now: Stamp)
    requires at <= stamp.at
    requires stamp.zone == 0 || stamp.zone == now.zone
    requires DateOf(stamp) < DateOf(now)
    requires LocalDay(at, now.zone) == DateOf(now)
    ensures (at + now.zone) % DAY < now.zone
  {
    var day := DateOf(now);
    assert at + now.zone == day * DAY + (at + now.zone) % DAY;
    assert stamp.at + stamp.zone < day * DAY;
  }

  lemma OverdueStep(msgs: seq<Send>, last: Option<Stamp>, v: Visit)
    requires OncePerDay(msgs, v.now.zone, v.now.zone)
    requires last.Some? ==>
      AllBy(msgs, last.value.at) && (last.value.zone == 0 || last.value.zone == v.now.zone)
    requires msgs != [] ==> last.Some?
    ensures (last.Some? ==> DateOf(last.value) < DateOf(v.now)) ==>
      OncePerDay(msgs + [Send(v.issue.id, v.policy.room, KOverdue, Timer, v.now.at)], v.now.zone, v.now.zone)
  {
    if last.Some? && DateOf(last.value) < DateOf(v.now) {
      forall a | 0 <= a < |msgs| && LocalDay(msgs[a].at, v.now.zone) == LocalDay(v.now.at, v.now.zone)
        ensures (msgs[a].at + v.now.zone) % DAY < v.now.zone
      {
        EarlierMessage(msgs[a].at, last.value, v.now);
      }
    }
  }

  /** The last notice's stamp is kept, later than every notice, and readable in UTC or in the bot's zone. */
  predicate OverdueSound(msgs: seq<Send>, last: Option<Stamp>, now: int, zone: int) {
    && OncePerDay(msgs, zone, zone)
    && AllBy(msgs, now)
    && (msgs != [] ==> last.Some?)
    && (last.Some? ==> AllBy(msgs, last.value.at) && (last.value.zone == 0 || last.value.zone == zone))
  }

  lemma OverdueKept(t: Turn, v: Visit)
    requires OverdueSound(Of(t.out, KOverdue), t.e.overdue, v.now.at, v.now.zone)
    ensures OverdueSound(Of(VisitTurn(t, v).out, KOverdue), VisitTurn(t, v).e.overdue, v.now.at, v.now.zone)
  {
    hide VisitTurn;
    VisitOverdue(t, v);
    OverdueStep(Of(t.out, KOverdue), t.e.overdue, v);
  }

  /** The cycle in progress shows the bot's zone, and the last notice is readable in UTC or in it. */
  predicate Zoned(c: Cell, zone: int) {
    && (c.cur.Some? ==> c.now.zone == zone)
    && (InForce(c).overdue.Some? ==>
          InForce(c).overdue.value.zone == 0 || InForce(c).overdue.value.zone == zone)
  }

  lemma {:induction false} AlwaysZoned(c: Cell, ms: seq<Move>, zone: int)
    requires LegalRun(c, ms) && InZone(ms, zone) && Zoned(c, zone)
    ensures Zoned(Run(c, ms), zone)
  {
    hide VisitTurn;
    if ms != [] {
      var n := |ms| - 1;
      assert ms[n] in ms && forall m :: m in ms[..n] ==> m in ms;
      AlwaysZoned(c, ms[..n], zone);
      if ms[n].See? {
        var b := Run(c, ms[..n]);
        VisitOverdue(Turn(b.cur.value, b.log, b.dirty, ms[n].visit.limit, false), ms[n].visit);
      }
    }
  }

  /** While memory and row differ with nothing to write, no notice has been counted. */
  predicate OverdueKnown(c: Cell, zone: int) {
    && OverdueSound(Of(c.log, KOverdue), InForce(c).overdue, c.now.at, zone)
    && (Astray(c) ==> Of(c.log, KOverdue) == [])
  }

  lemma OverdueSee(c: Cell, v: Visit, zone: int)
    requires Legal(c, See(v)) && Zoned(c, zone) && OverdueKnown(c, zone)
    ensures OverdueKnown(Step(c, See(v)), zone)
  {
    hide VisitTurn, Of, OverdueSound;
    var t := Turn(c.cur.value, c.log, c.dirty, v.limit, false);
    OverdueKept(t, v);
    NoticeIsDirty(t, v);
  }

  lemma NoticeIsDirty(t: Turn, v: Visit)
    ensures var r := VisitTurn(t, v); !r.dirty ==> Of(r.out, KOverdue) == Of(t.out, KOverdue)
  {
    hide VisitTurn;
    VisitOverdue(t, v);
  }

  lemma OverdueRest(c: Cell, m: Move, zone: int)
    requires Legal(c, m) && (m.Begin? || m.Commit?) && Tame(c) && OverdueKnown(c, zone)
    ensures OverdueKnown(Step(c, m), zone)
  {
    hide Of, OncePerDay;
  }

  lemma {:induction false} OverdueInvariant(c: Cell, ms: seq<Move>, zone: int)
    requires FromHere(c) && Zoned(c, zone) && LegalRun(c, ms)
    requires Abort !in ms && Remove !in ms && InZone(ms, zone)
    ensures OverdueKnown(Run(c, ms), zone)
  {
    hide Step, Legal, OverdueKnown, Zoned;
    if ms == [] {
      NoNotices(c, zone);
    } else {
      var n := |ms| - 1;
      assert ms[n] in ms && forall m :: m in ms[..n] ==> m in ms;
      OverdueInvariant(c, ms[..n], zone);
      AlwaysTame(c, ms[..n]);
      AlwaysZoned(c, ms[..n], zone);
      if ms[n].See? {
        OverdueSee(Run(c, ms[..n]), ms[n].visit, zone);
      } else {
        OverdueRest(Run(c, ms[..n]), ms[n], zone);
      }
    }
  }

  lemma NoNotices(c: Cell, zone: int)
    requires c.log == [] && Zoned(c, zone)
    ensures OverdueKnown(c, zone)
  {
  }

  /** In any stretch of a history without removals of the row and rollbacks, the
      overdue notice is sent at most once per local day, except that a notice
      sent within the first `zone` microseconds of a day, while UTC still has the
      day before, may be followed by another on that day. */
  lemma OverdueOncePerDay(c: Cell, ms: seq<Move>, zone: int)
    requires FromHere(c) && Zoned(c, zone) && LegalRun(c, ms)
    requires Abort !in ms && Remove !in ms && InZone(ms, zone)
    ensures var msgs := Of(Run(c, ms).log, KOverdue);
            && OncePerDay(msgs, zone, zone)
            && (zone <= 0 ==>
                  forall a, b | 0 <= a < b < |msgs| ::
                    LocalDay(msgs[a].at, zone) != LocalDay(msgs[b].at, zone))
  {
    OverdueInvariant(c, ms, zone);
  }

  // ---- exactly when a day gets a second notice ----

  /** Read in UTC, a notice of this local day belongs to an earlier day exactly
      when it was sent in the part of the day for which UTC still has the day before. */
  lemma RereadDay(at: int, now: Stamp)
    requires now.zone < DAY && LocalDay(at, now.zone) == DateOf(now)
    ensures DateOf(Stamp(at, 0)) < DateOf(now) <==> (at + now.zone) % DAY < now.zone
  {
    var local := at + now.zone;
    assert local == DateOf(now) * DAY + local % DAY;
    if local % DAY < now.zone {
      assert at < DateOf(now) * DAY;
    } else {
      assert at >= DateOf(now) * DAY;
    }
  }

  /** A reloaded notice of this local day is repeated on the same day if and only
      if it was sent within the day's first `zone` microseconds. */
  lemma RepeatedOnItsDay(t: Turn, v: Visit, at: int)
    requires t.left.None? && !t.raised && v.now.zone < DAY
    requires t.e.overdue == Some(Stamp(at, 0)) && LocalDay(at, v.now.zone) == DateOf(v.now)
    requires v.issue.due.Some? && v.issue.due.value < DateOf(v.now) && KOverdue in v.policy.wants
    ensures Of(VisitTurn(t, v).out, KOverdue)
         == Of(t.out, KOverdue)
            + if (at + v.now.zone) % DAY < v.now.zone
              then [Send(v.issue.id, v.policy.room, KOverdue, Timer, v.now.at)] else []
  {
    hide VisitTurn, DateOf;
    OverdueExactlyWhenDue(t, v);
    RereadDay(at, v.now);
  }

  // ---- a day with two notices ----

  const HOUR := 3600 * SECOND

  /** Three hours ahead of UTC: at half past midnight and at noon of the day after the due day. */
  const ZONE := 3 * HOUR
  const MIDNIGHT := Stamp(DAY - 2 * HOUR - HOUR / 2, ZONE)
  const NOON := Stamp(DAY + 9 * HOUR, ZONE)

  function LateVisit(now: Stamp): Visit {
    Visit(Issue(1, "", None, Some(0), None), Policy("room", {KOverdue}, "", false), [], [], 0, 0, now, None)
  }

  const UNKNOWN := Cell(None, None, false, [], Stamp(0, 0))

  /** Two committed cycles with one visit each. */
  const TWO_CYCLES := [Begin(MIDNIGHT), See(LateVisit(MIDNIGHT)), Commit,
                       Begin(NOON), See(LateVisit(NOON)), Commit]

  lemma OneCycle(c: Cell, v: Visit)
    requires c.cur.None? && c.now.at <= v.now.at && v.limit.None?
    requires v.issue.due.Some? && v.issue.due.value < DateOf(v.now) && KOverdue in v.policy.wants
    requires Loaded(c.row).overdue.Some? ==> DateOf(Loaded(c.row).overdue.value) < DateOf(v.now)
    ensures var ms := [Begin(v.now), See(v), Commit];
            && LegalRun(c, ms)
            && Run(c, ms).cur.None? && Run(c, ms).now == v.now
            && Of(Run(c, ms).log, KOverdue)
               == Of(c.log, KOverdue) + [Send(v.issue.id, v.policy.room, KOverdue, Timer, v.now.at)]
            && Loaded(Run(c, ms).row).overdue == Some(Stamp(v.now.at, 0))
  {
    hide VisitTurn, DateOf, Of, Legal, LegalRun, Run;
    var t := Turn(Loaded(c.row), c.log, false, None, false);
    OverdueExactlyWhenDue(t, v);
    VisitOverdue(t, v);
    var b := c.(cur := Some(Loaded(c.row)), dirty := false, now := v.now);
    ThreeMoves(c, Begin(v.now), See(v), Commit) by {
      LegalMoves(c, b, v);
    }
    LegalMoves(c, b, v);
    NoticeIsDirty(t, v);
  }

  lemma LegalMoves(c: Cell, b: Cell, v: Visit)
    requires c.cur.None? && c.now.at <= v.now.at
    requires b == c.(cur := Some(Loaded(c.row)), dirty := false, now := v.now)
    ensures Legal(c, Begin(v.now)) && Step(c, Begin(v.now)) == b
    ensures Legal(b, See(v)) && Legal(Step(b, See(v)), Commit)
  {
    hide VisitTurn;
  }

  lemma ThreeMoves(c: Cell, x: Move, y: Move, z: Move)
    requires Legal(c, x) && Legal(Step(c, x), y) && Legal(Step(Step(c, x), y), z)
    ensures LegalRun(c, [x, y, z]) && Run(c, [x, y, z]) == Step(Step(Step(c, x), y), z)
  {
    hide Legal, Step;
    assert LegalRun(c, []) && Run(c, []) == c;
    RunSnoc(c, [], x);
    assert [] + [x] == [x];
    RunSnoc(c, [x], y);
    assert [x] + [y] == [x, y];
    RunSnoc(c, [x, y], z);
    assert [x, y] + [z] == [x, y, z];
  }

  lemma SameDay()
    ensures DateOf(MIDNIGHT) == DateOf(NOON) == 1 && DateOf(Stamp(MIDNIGHT.at, 0)) == 0
    ensures 0 <= MIDNIGHT.at < NOON.at
  {
  }

  lemma TwoCycles(c: Cell, v: Visit, w: Visit)
    requires c.cur.None? && c.now.at <= v.now.at <= w.now.at && v.limit.None? && w.limit.None?
    requires v.issue.due.Some? && v.issue.due.value < DateOf(v.now) && KOverdue in v.policy.wants
    requires w.issue.due.Some? && w.issue.due.value < DateOf(w.now) && KOverdue in w.policy.wants
    requires Loaded(c.row).overdue.None? && DateOf(Stamp(v.now.at, 0)) < DateOf(w.now)
    ensures var ms := [Begin(v.now), See(v), Commit] + [Begin(w.now), See(w), Commit];
            && LegalRun(c, ms)
            && Of(Run(c, ms).log, KOverdue)
               == Of(c.log, KOverdue) + [Send(v.issue.id, v.policy.room, KOverdue, Timer, v.now.at),
                                         Send(w.issue.id, w.policy.room, KOverdue, Timer, w.now.at)]
  {
    hide VisitTurn, Step, Legal, LegalRun, Run, DateOf, Of;
    var first := [Begin(v.now), See(v), Commit];
    OneCycle(c, v);
    OneCycle(Run(c, first), w);
    RunJoin(c, first, [Begin(w.now), See(w), Commit]);
  }

  /** Not at most once per local day: a notice at half past midnight is followed
      by one at noon, both regular and committed. */
  lemma TwiceOnOneDay()
    ensures Fresh(UNKNOWN) && LegalRun(UNKNOWN, TWO_CYCLES) && InZone(TWO_CYCLES, ZONE)
    ensures var msgs := Of(Run(UNKNOWN, TWO_CYCLES).log, KOverdue);
            && |msgs| == 2 && msgs[0].at < msgs[1].at
            && LocalDay(msgs[0].at, ZONE) == LocalDay(msgs[1].at, ZONE)
  {
    hide VisitTurn, Step, Legal, LegalRun, Run, DateOf;
    SameDay();
    assert TWO_CYCLES == [Begin(MIDNIGHT), See(LateVisit(MIDNIGHT)), Commit]
                         + [Begin(NOON), See(LateVisit(NOON)), Commit];
    TwoCycles(UNKNOWN, LateVisit(MIDNIGHT), LateVisit(NOON));
  }
}
