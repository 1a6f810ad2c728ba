/** What a visit does that depends on the issue and not on timers: status
    messages, first-sight messages, journal messages, and the stored status and
    journal id. Reminders, overdue notices and group repeats are timers. */
module CoreEffects {
  import opened Wrappers
  import opened Routing
  import opened IssueState
  import opened Processor
  import opened IssueHistory

  /** The part of an entry that depends on the issue and not on timers. */
  datatype Core = Core(sent: Option<(string, int)>, journal: Option<int>)

  function CoreOf(e: Entry): Core {
    Core(if e.sent.Some? then Some((e.sent.value.status, e.sent.value.notifiedAt.at)) else None, e.journal)
  }

  predicate IsCore(s: Send) {
    s.cause.FirstSight? || s.cause.Change? || s.cause.Digest?
  }

  function CoreLog(log: seq<Send>): seq<Send> {
    if log == [] then []
    else
      var n := |log| - 1;
      CoreLog(log[..n]) + if IsCore(log[n]) then [log[n]] else []
  }

  lemma {:induction false} CoreLogJoin(a: seq<Send>, b: seq<Send>)
    ensures CoreLog(a + b) == CoreLog(a) + CoreLog(b)
  {
    if b == [] {
      assert a + b == a;
    } else {
      var n := |b| - 1;
      CoreLogJoin(a, b[..n]);
      assert (a + b)[..|a + b| - 1] == a + b[..n];
    }
  }

  lemma {:induction false} CoreLogAll(log: seq<Send>)
    requires forall s <- log :: IsCore(s)
    ensures CoreLog(log) == log
  {
    if log != [] {
      var n := |log| - 1;
      assert log[n] in log && forall s <- log[..n] :: s in log;
      CoreLogAll(log[..n]);
      assert log == log[..n] + [log[n]];
    }
  }

  // ---- the effect of an undisturbed visit on the core, in closed form ----

  function StatusBefore(k: Core, status: string): Option<string> {
    if k.sent.Some? && k.sent.value.0 != "" && k.sent.value.0 != status then Some(k.sent.value.0) else None
  }

  function CoreAfter(k: Core, v: Visit): Core {
    var max := MaxJournal(v.issue.journals);
    Core(
      if k.sent.None? then Some((v.issue.status, v.now.at))
      else if StatusBefore(k, v.issue.status).Some? then Some((v.issue.status, k.sent.value.1))
      else k.sent,
      if max > k.journal.GetOr(0) then Some(max) else k.journal)
  }

  function ToUser(v: Visit, kind: Kind, cause: Cause): seq<Send> {
    if kind in v.policy.wants then [Send(v.issue.id, v.policy.room, kind, cause, v.now.at)] else []
  }

  function StatusSends(k: Core, v: Visit): seq<Send> {
    var before := StatusBefore(k, v.issue.status);
    if before.Some? then ToUser(v, KStatusChange, Change(before.value, v.issue.status)) else []
  }

  function FirstSends(v: Visit, stage: Stage): seq<Send> {
    match stage
    case Arrived => if KNew in v.policy.wants then Announcements(v, AnnouncedRooms(v)) else []
    case Answered => ToUser(v, KInfo, FirstSight)
    case Reopened => ToUser(v, KReopened, FirstSight)
    case Other => []
  }

  function JournalSends(k: Core, v: Visit): seq<Send> {
    if k.journal.None? then []
    else
      var ids := DescribedIds(NewJournals(v.issue.journals, k.journal.value),
                              StatusBefore(k, v.issue.status).Some?);
      if ids == [] then [] else ToUser(v, KUpdated, Digest(ids))
  }

  function CoreSends(k: Core, v: Visit): seq<Send> {
    StatusSends(k, v)
    + (if k.sent.None? then FirstSends(v, StageOf(v.issue.status)) else [])
    + JournalSends(k, v)
  }

  predicate Calm(t: Turn) {
    !t.raised && t.left.None?
  }

  lemma StatusCore(t: Turn, v: Visit)
    requires Calm(t)
    ensures var r := StatusTurn(t, v);
            && Calm(r) && r.e.sent.Some? == t.e.sent.Some?
            && CoreOf(r.e)
               == (if t.e.sent.Some? then CoreAfter(CoreOf(t.e), v) else CoreOf(t.e)).(journal := t.e.journal)
            && CoreLog(r.out) == CoreLog(t.out) + StatusSends(CoreOf(t.e), v)
  {
    var more := StatusSends(CoreOf(t.e), v);
    assert StatusTurn(t, v).out == t.out + more;
    CoreLogJoin(t.out, more);
    CoreLogAll(more);
  }

  lemma KnownCore(t: Turn, v: Visit, stage: Stage)
    requires Calm(t) && t.e.sent.Some?
    ensures var r := KnownTurn(t, v, stage);
            && Calm(r) && r.e.sent.Some? && CoreOf(r.e) == CoreOf(t.e) && CoreLog(r.out) == CoreLog(t.out)
  {
    KnownFrame(t, v, stage);
    CoreLogJoin(t.out, [Send(v.issue.id, v.policy.groupRoom, KNew, GroupRepeat, v.now.at)]);
    CoreLogJoin(t.out, [Send(v.issue.id, v.policy.room, KReminder, Timer, v.now.at)]);
    RepeatCalm(t, v);
    ReminderCalm(t, v);
  }

  lemma RepeatCalm(t: Turn, v: Visit)
    requires Calm(t) && t.e.sent.Some?
    ensures var r := RepeatTurn(t, v);
            && Calm(r)
            && (r.out == t.out || r.out == t.out + [Send(v.issue.id, v.policy.groupRoom, KNew, GroupRepeat, v.now.at)])
  {
  }

  lemma ReminderCalm(t: Turn, v: Visit)
    requires Calm(t) && t.e.sent.Some?
    ensures var r := ReminderTurn(t, v);
            && Calm(r)
            && (r.out == t.out || r.out == t.out + [Send(v.issue.id, v.policy.room, KReminder, Timer, v.now.at)])
  {
  }

  lemma UnknownCore(t: Turn, v: Visit, stage: Stage)
    requires Calm(t)
    ensures var r := UnknownTurn(t, v, stage);
            && Calm(r)
            && CoreOf(r.e) == Core(Some((v.issue.status, v.now.at)), t.e.journal)
            && CoreLog(r.out) == CoreLog(t.out) + FirstSends(v, stage)
  {
    var more := FirstSends(v, stage);
    if stage == Arrived && KNew in v.policy.wants {
      SpreadAppends(t, v, Without(v.members, v.policy.room), WantingGroup(v.policy));
    }
    UnknownCalm(t, v, stage);
    CoreLogJoin(t.out, more);
    CoreLogAll(more);
  }

  lemma UnknownCalm(t: Turn, v: Visit, stage: Stage)
    requires Calm(t)
    requires stage == Arrived && KNew in v.policy.wants ==>
      AnnounceTurn(t, v).out == t.out + Announcements(v, AnnouncedRooms(v))
    ensures var r := UnknownTurn(t, v, stage);
            && Calm(r) && r.out == t.out + FirstSends(v, stage)
            && CoreOf(r.e) == Core(Some((v.issue.status, v.now.at)), t.e.journal)
  {
  }

  lemma OverdueCore(t: Turn, v: Visit)
    requires Calm(t)
    ensures var r := OverdueTurn(t, v);
            Calm(r) && r.e.sent == t.e.sent && r.e.journal == t.e.journal && CoreLog(r.out) == CoreLog(t.out)
  {
    CoreLogJoin(t.out, [Send(v.issue.id, v.policy.room, KOverdue, Timer, v.now.at)]);
  }

  lemma JournalCore(t: Turn, v: Visit, changed: bool)
    requires Calm(t) && t.e.sent.Some?
    ensures var r := JournalTurn(t, v, changed);
            var ids := if t.e.journal.None? then []
                       else DescribedIds(NewJournals(v.issue.journals, t.e.journal.value), changed);
            var more := if ids == [] then [] else ToUser(v, KUpdated, Digest(ids));
            && Calm(r) && r.e.sent == t.e.sent
            && r.e.journal == CoreAfter(CoreOf(t.e), v).journal
            && CoreLog(r.out) == CoreLog(t.out) + more
  {
    var ids := if t.e.journal.None? then []
               else DescribedIds(NewJournals(v.issue.journals, t.e.journal.value), changed);
    var more := if ids == [] then [] else ToUser(v, KUpdated, Digest(ids));
    CoreLogJoin(t.out, more);
    CoreLogAll(more);
    JournalCalm(t, v, changed, ids, more);
  }

  lemma JournalCalm(t: Turn, v: Visit, changed: bool, ids: seq<int>, more: seq<Send>)
    requires Calm(t) && t.e.sent.Some?
    requires ids == if t.e.journal.None? then []
                    else DescribedIds(NewJournals(v.issue.journals, t.e.journal.value), changed)
    requires more == if ids == [] then [] else ToUser(v, KUpdated, Digest(ids))
    ensures var r := JournalTurn(t, v, changed);
            && Calm(r) && r.out == t.out + more && r.e.sent == t.e.sent
            && r.e.journal == CoreAfter(CoreOf(t.e), v).journal
  {
  }

  lemma BranchCore(t: Turn, v: Visit)
    requires Calm(t)
    ensures var r := BranchTurn(t, v);
            var first := if t.e.sent.None? then FirstSends(v, StageOf(v.issue.status)) else [];
            && Calm(r) && r.e.sent.Some?
            && CoreOf(r.e) == (if t.e.sent.Some? then CoreOf(t.e)
                               else Core(Some((v.issue.status, v.now.at)), t.e.journal))
            && CoreLog(r.out) == CoreLog(t.out) + first
  {
    var stage := StageOf(v.issue.status);
    if t.e.sent.Some? { KnownCore(t, v, stage); } else { UnknownCore(t, v, stage); }
    assert CoreLog(t.out) + [] == CoreLog(t.out);
  }

  /** Everything but the journal. */
  lemma EarlyCore(t: Turn, v: Visit)
    requires Calm(t)
    ensures var r := OverdueTurn(BranchTurn(StatusTurn(t, v), v), v);
            var first := if t.e.sent.None? then FirstSends(v, StageOf(v.issue.status)) else [];
            && Calm(r) && r.e.sent.Some?
            && CoreOf(r.e) == CoreAfter(CoreOf(t.e), v).(journal := t.e.journal)
            && CoreLog(r.out) == CoreLog(t.out) + (StatusSends(CoreOf(t.e), v) + first)
  {
    hide StatusTurn, BranchTurn, OverdueTurn, CoreLog, StatusSends, FirstSends;
    var first := if t.e.sent.None? then FirstSends(v, StageOf(v.issue.status)) else [];
    StatusCore(t, v);
    BranchCore(StatusTurn(t, v), v);
    OverdueCore(BranchTurn(StatusTurn(t, v), v), v);
    Joined(CoreLog(t.out), StatusSends(CoreOf(t.e), v), first, []);
  }

  lemma Joined(a: seq<Send>, b: seq<Send>, c: seq<Send>, d: seq<Send>)
    ensures a + (b + c + d) == ((a + b) + c) + d
    ensures a + (b + c) == (a + b) + c
    ensures (a + b) + [] == a + b
  {
  }

  /** The closed form is what an undisturbed visit does. */
  lemma VisitCore(t: Turn, v: Visit)
    requires Calm(t)
    ensures var r := VisitTurn(t, v);
            && CoreOf(r.e) == CoreAfter(CoreOf(t.e), v)
            && CoreLog(r.out) == CoreLog(t.out) + CoreSends(CoreOf(t.e), v)
  {
    hide StatusTurn, BranchTurn, OverdueTurn, JournalTurn, CoreLog, StatusSends, FirstSends;
    EarlyCore(t, v);
    var t3 := OverdueTurn(BranchTurn(StatusTurn(t, v), v), v);
    var changed := DetectStatusChange(t.e.sent, v.issue.status).Some?;
    assert changed == StatusBefore(CoreOf(t.e), v.issue.status).Some?;
    JournalCore(t3, v, changed);
    assert VisitTurn(t, v) == JournalTurn(t3, v, changed);
    assert CoreLog(JournalTurn(t3, v, changed).out) == CoreLog(t3.out) + JournalSends(CoreOf(t.e), v);
    var first := if t.e.sent.None? then FirstSends(v, StageOf(v.issue.status)) else [];
    Joined(CoreLog(t.out), StatusSends(CoreOf(t.e), v), first, JournalSends(CoreOf(t.e), v));
  }

  // ---- what makes a visit superfluous ----

  /** What a poll compares: the status and the journal. */
  datatype Snap = Snap(status: string, journals: Option<seq<Journal>>)

  function SnapOf(v: Visit): Snap {
    Snap(v.issue.status, v.issue.journals)
  }

  /** Nothing about this snapshot is news. */
  predicate Settled(k: Core, s: Snap) {
    && k.sent.Some? && StatusBefore(k, s.status).None?
    && MaxJournal(s.journals) <= k.journal.GetOr(0)
    && (k.journal.Some? ==> NewJournals(s.journals, k.journal.value) == [])
  }

  lemma SettledIsQuiet(k: Core, v: Visit)
    requires Settled(k, SnapOf(v))
    ensures CoreAfter(k, v) == k && CoreSends(k, v) == []
  {
  }

  lemma VisitSettles(k: Core, v: Visit)
    ensures Settled(CoreAfter(k, v), SnapOf(v))
  {
    NoneNewer(v.issue.journals, CoreAfter(k, v).journal.GetOr(0));
  }

  lemma NoneNewer(js: Option<seq<Journal>>, last: int)
    requires MaxJournal(js) <= last
    ensures NewJournals(js, last) == []
  {
    if js.Some? {
      forall j | j in js.value
        ensures j.id <= last
      {
        var k :| 0 <= k < |js.value| && js.value[k] == j;
      }
      NoneAbove(js.value, last);
    }
  }

  lemma {:induction false} NoneAbove(js: seq<Journal>, last: int)
    requires forall j <- js :: j.id <= last
    ensures Newer(js, last) == []
  {
    if js != [] {
      NoneAbove(js[1..], last);
    }
  }

  // ---- a visit that did not raise did what an undisturbed one does ----

  function Free(t: Turn): Turn {
    t.(left := None)
  }

  lemma EmitFree(t: Turn, v: Visit, room: string, kind: Kind, cause: Cause)
    ensures var r := Emit(t, v, room, kind, cause); !r.raised ==> Free(r) == Emit(Free(t), v, room, kind, cause)
  {
  }

  lemma {:induction false} EmitAllFree(t: Turn, v: Visit, rooms: seq<string>)
    ensures var r := EmitAll(t, v, rooms, KNew); !r.raised ==> Free(r) == EmitAll(Free(t), v, rooms, KNew)
  {
    if rooms != [] {
      var n := |rooms| - 1;
      EmitAllFree(t, v, rooms[..n]);
      EmitFree(EmitAll(t, v, rooms[..n], KNew), v, rooms[n], KNew, FirstSight);
    }
  }

  lemma FinishFree(t: Turn, v: Visit, group: Option<string>)
    ensures var r := FinishTurn(t, v, group); !r.raised ==> Free(r) == FinishTurn(Free(t), v, group)
  {
    hide EmitAll;
    var t1 := Risk(t);
    var t2 := if group.Some? then Emit(t1, v, group.value, KNew, FirstSight) else t1;
    EmitAllFree(Risk(t2), v, v.extras);
  }

  lemma SpreadFree(t: Turn, v: Visit, others: seq<string>, group: Option<string>)
    ensures var r := SpreadTurn(t, v, others, group); !r.raised ==> Free(r) == SpreadTurn(Free(t), v, others, group)
  {
    hide EmitAll, FinishTurn;
    var t1 := Emit(t, v, v.policy.room, KNew, FirstSight);
    EmitAllFree(Risk(t1), v, others);
    FinishFree(EmitAll(Risk(t1), v, others, KNew), v, group);
  }

  lemma StatusFree(t: Turn, v: Visit)
    ensures var r := StatusTurn(t, v); !r.raised ==> Free(r) == StatusTurn(Free(t), v)
  {
  }

  lemma UnknownFree(t: Turn, v: Visit, stage: Stage)
    ensures var r := UnknownTurn(t, v, stage); !r.raised ==> Free(r) == UnknownTurn(Free(t), v, stage)
  {
    hide SpreadTurn;
    SpreadFree(t, v, Without(v.members, v.policy.room), WantingGroup(v.policy));
  }

  lemma BranchFree(t: Turn, v: Visit)
    ensures var r := BranchTurn(t, v); !r.raised ==> Free(r) == BranchTurn(Free(t), v)
  {
    hide UnknownTurn;
    var t1, stage := Risk(t), StageOf(v.issue.status);
    if t1.e.sent.None? { UnknownFree(t1, v, stage); }
  }

  lemma OverdueFree(t: Turn, v: Visit)
    ensures var r := OverdueTurn(t, v); !r.raised ==> Free(r) == OverdueTurn(Free(t), v)
  {
  }

  lemma JournalFree(t: Turn, v: Visit, changed: bool)
    ensures var r := JournalTurn(t, v, changed); !r.raised ==> Free(r) == JournalTurn(Free(t), v, changed)
  {
    hide DescribedIds, NewJournals, MaxJournal;
  }

  lemma VisitFree(t: Turn, v: Visit)
    ensures var r := VisitTurn(t, v); !r.raised ==> Free(r) == VisitTurn(Free(t), v)
  {
    hide StatusTurn, BranchTurn, OverdueTurn, JournalTurn;
    var t1 := StatusTurn(t, v);
    var t2 := BranchTurn(t1, v);
    var t3 := OverdueTurn(t2, v);
    StatusFree(t, v);
    BranchFree(t1, v);
    OverdueFree(t2, v);
    JournalFree(t3, v, DetectStatusChange(t.e.sent, v.issue.status).Some?);
    RaisedStays(t, v);
  }

  lemma RaisedStays(t: Turn, v: Visit)
    ensures var t1 := StatusTurn(t, v);
            var t2 := BranchTurn(t1, v);
            var t3 := OverdueTurn(t2, v);
            && (t.raised ==> t1.raised) && (t1.raised ==> t2.raised)
            && (t2.raised ==> t3.raised) && (t3.raised ==> VisitTurn(t, v).raised)
  {
  }

  lemma DoneIsCore(t: Turn, v: Visit)
    requires !t.raised && !VisitTurn(t, v).raised
    ensures var r := VisitTurn(t, v);
            && CoreOf(r.e) == CoreAfter(CoreOf(t.e), v)
            && CoreLog(r.out) == CoreLog(t.out) + CoreSends(CoreOf(t.e), v)
  {
    hide VisitTurn, CoreAfter, CoreSends;
    VisitFree(t, v);
    VisitCore(Free(t), v);
  }

  // ---- a visit that raised did its early part only ----

  /** The part before the timers: the status, and the first sight of an unknown issue. */
  function Early(t: Turn, v: Visit): Turn {
    var t1 := StatusTurn(t, v);
    if t1.e.sent.Some? then t1 else BranchTurn(t1, v)
  }

  lemma CoreLogSnoc(log: seq<Send>, s: Send)
    ensures CoreLog(log + [s]) == CoreLog(log) + if IsCore(s) then [s] else []
  {
    assert (log + [s])[..|log|] == log;
  }

  lemma KnownQuiet(t: Turn, v: Visit, stage: Stage)
    requires t.e.sent.Some?
    ensures var r := KnownTurn(t, v, stage); CoreOf(r.e) == CoreOf(t.e) && CoreLog(r.out) == CoreLog(t.out)
  {
    KnownFrame(t, v, stage);
    CoreLogSnoc(t.out, Send(v.issue.id, v.policy.groupRoom, KNew, GroupRepeat, v.now.at));
    CoreLogSnoc(t.out, Send(v.issue.id, v.policy.room, KReminder, Timer, v.now.at));
    KnownAppends(t, v, stage);
  }

  lemma KnownAppends(t: Turn, v: Visit, stage: Stage)
    requires t.e.sent.Some?
    ensures var out := KnownTurn(t, v, stage).out;
            || out == t.out
            || out == t.out + [Send(v.issue.id, v.policy.groupRoom, KNew, GroupRepeat, v.now.at)]
            || out == t.out + [Send(v.issue.id, v.policy.room, KReminder, Timer, v.now.at)]
  {
  }

  lemma OverdueQuiet(t: Turn, v: Visit)
    ensures var r := OverdueTurn(t, v); CoreOf(r.e) == CoreOf(t.e) && CoreLog(r.out) == CoreLog(t.out)
  {
    CoreLogSnoc(t.out, Send(v.issue.id, v.policy.room, KOverdue, Timer, v.now.at));
  }

  lemma JournalCutShort(t: Turn, v: Visit, changed: bool)
    ensures var r := JournalTurn(t, v, changed); r.raised ==> r.e == t.e && r.out == t.out
  {
    hide DescribedIds, NewJournals, MaxJournal;
  }

  lemma CutShortIsEarly(t: Turn, v: Visit)
    requires VisitTurn(t, v).raised
    ensures var r := VisitTurn(t, v);
            CoreOf(r.e) == CoreOf(Early(t, v).e) && CoreLog(r.out) == CoreLog(Early(t, v).out)
  {
    hide StatusTurn, KnownTurn, UnknownTurn, OverdueTurn, JournalTurn;
    var t1 := StatusTurn(t, v);
    var t2 := BranchTurn(t1, v);
    if t1.e.sent.Some? { KnownQuiet(Risk(t1), v, StageOf(v.issue.status)); }
    OverdueQuiet(t2, v);
    JournalCutShort(OverdueTurn(t2, v), v, DetectStatusChange(t.e.sent, v.issue.status).Some?);
  }

  /** The early part, when the visit did not raise. */
  lemma EarlyOfDone(t: Turn, v: Visit)
    requires !t.raised && !VisitTurn(t, v).raised
    ensures var k, r := CoreOf(t.e), VisitTurn(t, v);
            && CoreOf(Early(t, v).e) == CoreAfter(k, v).(journal := k.journal)
            && CoreLog(r.out) == CoreLog(Early(t, v).out) + JournalSends(k, v)
  {
    hide StatusTurn, BranchTurn, OverdueTurn, JournalTurn, CoreLog, FirstSends, StatusSends, JournalSends;
    var t1 := StatusTurn(t, v);
    RaisedStays(t, v);
    StatusFree(t, v);
    StatusCore(Free(t), v);
    DoneIsCore(t, v);
    if t1.e.sent.None? {
      BranchFree(t1, v);
      BranchCore(Free(t1), v);
    }
    assert CoreSends(CoreOf(t.e), v)
        == StatusSends(CoreOf(t.e), v) + (if t.e.sent.None? then FirstSends(v, StageOf(v.issue.status)) else [])
           + JournalSends(CoreOf(t.e), v);
    Joined(CoreLog(t.out), StatusSends(CoreOf(t.e), v),
           if t.e.sent.None? then FirstSends(v, StageOf(v.issue.status)) else [], JournalSends(CoreOf(t.e), v));
  }

  // ---- the early part depends on the core only ----

  /** The same core, the same messages of the core, the same exception to come. */
  predicate Like(a: Turn, b: Turn) {
    a.raised == b.raised && a.left == b.left && CoreOf(a.e) == CoreOf(b.e) && CoreLog(a.out) == CoreLog(b.out)
  }

  lemma EmitLike(a: Turn, b: Turn, v: Visit, room: string, kind: Kind, cause: Cause)
    requires Like(a, b)
    ensures Like(Emit(a, v, room, kind, cause), Emit(b, v, room, kind, cause))
  {
    hide CoreLog;
    CoreLogSnoc(a.out, Send(v.issue.id, room, kind, cause, v.now.at));
    CoreLogSnoc(b.out, Send(v.issue.id, room, kind, cause, v.now.at));
  }

  lemma {:induction false} EmitAllLike(a: Turn, b: Turn, v: Visit, rooms: seq<string>)
    requires Like(a, b)
    ensures Like(EmitAll(a, v, rooms, KNew), EmitAll(b, v, rooms, KNew))
  {
    hide Like;
    if rooms != [] {
      var n := |rooms| - 1;
      EmitAllLike(a, b, v, rooms[..n]);
      EmitLike(EmitAll(a, v, rooms[..n], KNew), EmitAll(b, v, rooms[..n], KNew), v, rooms[n], KNew, FirstSight);
    }
  }

  lemma RiskLike(a: Turn, b: Turn)
    requires Like(a, b)
    ensures Like(Risk(a), Risk(b))
  {
  }

  lemma FinishLike(a: Turn, b: Turn, v: Visit, group: Option<string>)
    requires Like(a, b)
    ensures Like(FinishTurn(a, v, group), FinishTurn(b, v, group))
  {
    hide Like, EmitAll, Emit, Risk;
    RiskLike(a, b);
    var a1, b1 := Risk(a), Risk(b);
    if group.Some? { EmitLike(a1, b1, v, group.value, KNew, FirstSight); }
    var a2 := if group.Some? then Emit(a1, v, group.value, KNew, FirstSight) else a1;
    var b2 := if group.Some? then Emit(b1, v, group.value, KNew, FirstSight) else b1;
    RiskLike(a2, b2);
    EmitAllLike(Risk(a2), Risk(b2), v, v.extras);
  }

  lemma SpreadLike(a: Turn, b: Turn, v: Visit, others: seq<string>, group: Option<string>)
    requires Like(a, b)
    ensures Like(SpreadTurn(a, v, others, group), SpreadTurn(b, v, others, group))
  {
    hide Like, EmitAll, Emit, Risk, FinishTurn;
    EmitLike(a, b, v, v.policy.room, KNew, FirstSight);
    var a1 := Emit(a, v, v.policy.room, KNew, FirstSight);
    var b1 := Emit(b, v, v.policy.room, KNew, FirstSight);
    RiskLike(a1, b1);
    EmitAllLike(Risk(a1), Risk(b1), v, others);
    FinishLike(EmitAll(Risk(a1), v, others, KNew), EmitAll(Risk(b1), v, others, KNew), v, group);
  }

  lemma RememberLike(a: Turn, b: Turn, v: Visit, groupAt: Option<Stamp>)
    requires Like(a, b)
    ensures Like(Remember(a, v, groupAt), Remember(b, v, groupAt))
  {
    hide CoreLog;
  }

  lemma UnknownLike(a: Turn, b: Turn, v: Visit, stage: Stage)
    requires Like(a, b)
    ensures Like(UnknownTurn(a, v, stage), UnknownTurn(b, v, stage))
  {
    hide Like, Emit, SpreadTurn, Remember;
    SpreadLike(a, b, v, Without(v.members, v.policy.room), WantingGroup(v.policy));
    EmitLike(a, b, v, v.policy.room, KInfo, FirstSight);
    EmitLike(a, b, v, v.policy.room, KReopened, FirstSight);
    match stage
    case Arrived => RememberLike(AnnounceTurn(a, v), AnnounceTurn(b, v), v, Some(v.now));
    case Answered => RememberLike(TellTurn(a, v, KInfo), TellTurn(b, v, KInfo), v, None);
    case Reopened => RememberLike(TellTurn(a, v, KReopened), TellTurn(b, v, KReopened), v, None);
    case Other => RememberLike(a, b, v, None);
  }

  lemma StatusLike(a: Turn, b: Turn, v: Visit)
    requires Like(a, b)
    ensures Like(StatusTurn(a, v), StatusTurn(b, v))
  {
    hide CoreLog, Emit, Risk;
    RiskLike(a, b);
    var before := DetectStatusChange(a.e.sent, v.issue.status);
    if before.Some? {
      EmitLike(Risk(a), Risk(b), v, v.policy.room, KStatusChange, Change(before.value, v.issue.status));
    }
  }

  lemma EarlyLike(a: Turn, b: Turn, v: Visit)
    requires Like(a, b)
    ensures Like(Early(a, v), Early(b, v))
  {
    hide CoreLog, StatusTurn, UnknownTurn;
    StatusLike(a, b, v);
    var a1, b1 := StatusTurn(a, v), StatusTurn(b, v);
    if a1.e.sent.None? {
      RiskLike(a1, b1);
      UnknownLike(Risk(a1), Risk(b1), v, StageOf(v.issue.status));
    }
  }

  // ---- two visits alike but for the timers ----

  /** The journal has something to be taken in. */
  predicate News(k: Core, v: Visit) {
    MaxJournal(v.issue.journals) > k.journal.GetOr(0)
  }

  /** Two visits with the same core and the same exception to come, in which the
      timers may differ, have the same effect on the core unless one is cut short
      by them, the other is not, and there is news in the journal. */
  lemma VisitsPart(a: Turn, b: Turn, v: Visit)
    requires Like(a, b) && !a.raised
    ensures var x, y := VisitTurn(a, v), VisitTurn(b, v);
            (CoreOf(x.e) == CoreOf(y.e) && CoreLog(x.out) == CoreLog(y.out))
            <==> (x.raised == y.raised || !News(CoreOf(a.e), v))
  {
    hide VisitTurn, CoreLog, CoreSends, Early;
    var x, y := VisitTurn(a, v), VisitTurn(b, v);
    EarlyLike(a, b, v);
    if x.raised { CutShortIsEarly(a, v); } else { DoneIsCore(a, v); }
    if y.raised { CutShortIsEarly(b, v); } else { DoneIsCore(b, v); }
    if x.raised && !y.raised {
      EarlyOfDone(b, v);
      NoNewsNoSends(CoreOf(b.e), v);
    }
    if !x.raised && y.raised {
      EarlyOfDone(a, v);
      NoNewsNoSends(CoreOf(a.e), v);
    }
  }

  lemma NoNewsNoSends(k: Core, v: Visit)
    ensures !News(k, v) ==> JournalSends(k, v) == []
    ensures forall log: seq<Send> :: log + [] == log
  {
    if !News(k, v) {
      NoneNewer(v.issue.journals, k.journal.GetOr(0));
    }
  }

  /** A visit to a settled issue changes nothing of the core, cut short or not. */
  lemma SettledVisit(t: Turn, v: Visit)
    requires !t.raised && Settled(CoreOf(t.e), SnapOf(v))
    ensures var r := VisitTurn(t, v); CoreOf(r.e) == CoreOf(t.e) && CoreLog(r.out) == CoreLog(t.out)
  {
    hide VisitTurn, CoreLog;
    SettledIsQuiet(CoreOf(t.e), v);
    if VisitTurn(t, v).raised {
      CutShortIsEarly(t, v);
      SettledStatus(t, v);
    } else {
      DoneIsCore(t, v);
      NoNewsNoSends(CoreOf(t.e), v);
    }
  }

  lemma SettledStatus(t: Turn, v: Visit)
    requires Settled(CoreOf(t.e), SnapOf(v))
    ensures Early(t, v).e == t.e && Early(t, v).out == t.out
  {
    hide BranchTurn;
  }
}
