/** The life of one issue of one user under a single bot: cycles that load the
    row, examine the issue, then commit or roll back, and the nightly removal of
    the row. Every theorem here speaks of all such histories. */
module IssueHistory {
  import opened Wrappers
  import opened Routing
  import opened IssueState
  import opened Processor
  import opened VisitMessages

  /** `cur` and `dirty` belong to the cycle in progress; `log` holds every attempt to send. */
  datatype Cell = Cell(row: Option<Row>, cur: Option<Entry>, dirty: bool, log: seq<Send>, now: Stamp)

  datatype Move = Begin(now: Stamp) | See(visit: Visit) | Commit | Abort | Remove

  /** Cycles do not overlap and the clock never runs back; the row may be removed
      at any time, under a cycle in progress too. */
  predicate Legal(c: Cell, m: Move) {
    match m
    case Begin(now) => c.cur.None? && c.now.at <= now.at
    case See(v) => c.cur.Some? && v.now == c.now
    case Commit => c.cur.Some?
    case Abort => c.cur.Some?
    case Remove => true
  }

  function SeeTurn(c: Cell, v: Visit): Turn
    requires c.cur.Some?
  {
    VisitTurn(Turn(c.cur.value, c.log, c.dirty, v.limit, false), v)
  }

  function Step(c: Cell, m: Move): Cell
    requires Legal(c, m)
  {
    match m
    case Begin(now) => c.(cur := Some(Loaded(c.row)), dirty := false, now := now)
    case See(v) => var t := SeeTurn(c, v); c.(cur := Some(t.e), dirty := t.dirty, log := t.out)
    case Commit => c.(row := if c.dirty then Some(Stored(c.cur.value)) else c.row, cur := None)
    case Abort => c.(cur := None)
    case Remove => c.(row := None)
  }

  predicate LegalRun(c: Cell, ms: seq<Move>)
    decreases |ms|, 0
  {
    ms == [] || (LegalRun(c, ms[..|ms| - 1]) && Legal(Run(c, ms[..|ms| - 1]), ms[|ms| - 1]))
  }

  function Run(c: Cell, ms: seq<Move>): Cell
    requires LegalRun(c, ms)
    decreases |ms|, 1
  {
    if ms == [] then c else Step(Run(c, ms[..|ms| - 1]), ms[|ms| - 1])
  }

  lemma RunSnoc(c: Cell, ms: seq<Move>, m: Move)
    ensures LegalRun(c, ms + [m]) <==> LegalRun(c, ms) && Legal(Run(c, ms), m)
    ensures LegalRun(c, ms + [m]) ==> Run(c, ms + [m]) == Step(Run(c, ms), m)
  {
    assert (ms + [m])[..|ms|] == ms;
  }

  lemma {:induction false} RunJoin(c: Cell, a: seq<Move>, b: seq<Move>)
    ensures LegalRun(c, a + b) <==> LegalRun(c, a) && LegalRun(Run(c, a), b)
    ensures LegalRun(c, a + b) ==> Run(c, a + b) == Run(Run(c, a), b)
  {
    if b == [] {
      assert a + b == a;
    } else {
      var n := |b| - 1;
      assert (a + b)[..|a + b| - 1] == a + b[..n];
      RunJoin(c, a, b[..n]);
    }
  }

  /** Before the first cycle: nothing is in progress and nothing has been sent. */
  predicate Fresh(c: Cell) {
    c.cur.None? && c.log == []
  }

  /** The entry in force: that of the cycle in progress, else what the next cycle will load. */
  function InForce(c: Cell): Entry {
    if c.cur.Some? then c.cur.value else Loaded(c.row)
  }

  // ---- selections from the log ----

  function Of(log: seq<Send>, kind: Kind): (r: seq<Send>)
    ensures forall s <- r :: s.kind == kind && s in log
  {
    if log == [] then []
    else
      var n := |log| - 1;
      Of(log[..n], kind) + if log[n].kind == kind then [log[n]] else []
  }

  lemma OfSnoc(log: seq<Send>, s: Send, kind: Kind)
    ensures Of(log + [s], kind) == Of(log, kind) + if s.kind == kind then [s] else []
  {
    assert (log + [s])[..|log|] == log;
  }

  /** The message a turn adds, if it adds one of this kind. */
  lemma EmitOf(t: Turn, v: Visit, room: string, kind: Kind, cause: Cause, k: Kind)
    ensures var r := Emit(t, v, room, kind, cause);
            Of(r.out, k) == Of(t.out, k)
              + if !r.raised && kind == k then [Send(v.issue.id, room, kind, cause, v.now.at)] else []
  {
    OfSnoc(t.out, Send(v.issue.id, room, kind, cause, v.now.at), k);
  }

  lemma {:induction false} EmitAllOf(t: Turn, v: Visit, rooms: seq<string>, k: Kind)
    requires k != KNew
    ensures Of(EmitAll(t, v, rooms, KNew).out, k) == Of(t.out, k)
  {
    if rooms != [] {
      var n := |rooms| - 1;
      EmitAllOf(t, v, rooms[..n], k);
      EmitOf(EmitAll(t, v, rooms[..n], KNew), v, rooms[n], KNew, FirstSight, k);
    }
  }

  lemma AnnounceOf(t: Turn, v: Visit, k: Kind)
    requires k != KNew
    ensures Of(AnnounceTurn(t, v).out, k) == Of(t.out, k)
  {
    if KNew in v.policy.wants {
      var others, group := Without(v.members, v.policy.room), WantingGroup(v.policy);
      var t1 := Emit(t, v, v.policy.room, KNew, FirstSight);
      EmitOf(t, v, v.policy.room, KNew, FirstSight, k);
      EmitAllOf(Risk(t1), v, others, k);
      FinishOf(EmitAll(Risk(t1), v, others, KNew), v, group, k);
    }
  }

  lemma FinishOf(t: Turn, v: Visit, group: Option<string>, k: Kind)
    requires k != KNew
    ensures Of(FinishTurn(t, v, group).out, k) == Of(t.out, k)
  {
    var t1 := Risk(t);
    if group.Some? { EmitOf(t1, v, group.value, KNew, FirstSight, k); }
    var t2 := if group.Some? then Emit(t1, v, group.value, KNew, FirstSight) else t1;
    EmitAllOf(Risk(t2), v, v.extras, k);
  }

  /** Which kinds of message each part of the processing can send. */
  lemma StatusOf(t: Turn, v: Visit, k: Kind)
    requires k != KStatusChange
    ensures Of(StatusTurn(t, v).out, k) == Of(t.out, k)
  {
    var before := DetectStatusChange(t.e.sent, v.issue.status);
    if before.Some? {
      EmitOf(Risk(t), v, v.policy.room, KStatusChange, Change(before.value, v.issue.status), k);
    }
  }

  lemma TellOf(t: Turn, v: Visit, kind: Kind, k: Kind)
    requires k != kind
    ensures Of(TellTurn(t, v, kind).out, k) == Of(t.out, k)
  {
    EmitOf(t, v, v.policy.room, kind, FirstSight, k);
  }

  lemma RepeatOf(t: Turn, v: Visit, k: Kind)
    requires t.e.sent.Some? && k != KNew
    ensures Of(RepeatTurn(t, v).out, k) == Of(t.out, k)
  {
    EmitOf(Risk(t), v, v.policy.groupRoom, KNew, GroupRepeat, k);
  }

  lemma ReminderOf(t: Turn, v: Visit, k: Kind)
    requires t.e.sent.Some? && k != KReminder
    ensures Of(ReminderTurn(t, v).out, k) == Of(t.out, k)
  {
    EmitOf(Risk(t), v, v.policy.room, KReminder, Timer, k);
  }

  lemma KnownOf(t: Turn, v: Visit, stage: Stage, k: Kind)
    requires t.e.sent.Some? && k != KNew && k != KReminder
    ensures Of(KnownTurn(t, v, stage).out, k) == Of(t.out, k)
  {
    if stage == Arrived { RepeatOf(t, v, k); }
    if stage == Answered { ReminderOf(t, v, k); }
  }

  lemma BranchOf(t: Turn, v: Visit, k: Kind)
    requires k == KStatusChange || k == KOverdue || k == KUpdated
    ensures Of(BranchTurn(t, v).out, k) == Of(t.out, k)
  {
    var t1, stage := Risk(t), StageOf(v.issue.status);
    if t1.e.sent.Some? { KnownOf(t1, v, stage, k); } else { UnknownOf(t1, v, stage, k); }
  }

  lemma UnknownOf(t: Turn, v: Visit, stage: Stage, k: Kind)
    requires k != KNew && k != KInfo && k != KReopened
    ensures Of(UnknownTurn(t, v, stage).out, k) == Of(t.out, k)
  {
    AnnounceOf(t, v, k);
    TellOf(t, v, KInfo, k);
    TellOf(t, v, KReopened, k);
  }

  lemma OverdueOf(t: Turn, v: Visit, k: Kind)
    requires k != KOverdue
    ensures Of(OverdueTurn(t, v).out, k) == Of(t.out, k)
  {
    EmitOf(Risk(Risk(t)), v, v.policy.room, KOverdue, Timer, k);
  }

  lemma DigestOf(t: Turn, v: Visit, ids: seq<int>, k: Kind)
    ensures var r := DigestTurn(t, v, ids);
            Of(r.out, k) == Of(t.out, k)
              + if !r.raised && ids != [] && k == KUpdated
                then [Send(v.issue.id, v.policy.room, KUpdated, Digest(ids), v.now.at)] else []
  {
    EmitOf(Risk(t), v, v.policy.room, KUpdated, Digest(ids), k);
  }

  lemma JournalOf(t: Turn, v: Visit, changed: bool, k: Kind)
    requires k != KUpdated
    ensures Of(JournalTurn(t, v, changed).out, k) == Of(t.out, k)
  {
    hide Of, DigestTurn, DescribedIds, NewJournals, MaxJournal;
    var ids := DescribedIds(NewJournals(v.issue.journals, t.e.journal.GetOr(0)), changed);
    DigestOf(Risk(t), v, ids, k);
  }

  // ---- what each part of the processing leaves alone ----

  lemma StatusFrame(t: Turn, v: Visit)
    ensures var e := StatusTurn(t, v).e;
            && e.reminder == t.e.reminder && e.overdue == t.e.overdue && e.journal == t.e.journal
            && (t.e.sent.None? ==> e.sent.None?)
            && (t.e.sent.Some? ==>
                  e.sent.Some? && e.sent.value == t.e.sent.value.(status := e.sent.value.status))
  {
  }

  lemma KnownFrame(t: Turn, v: Visit, stage: Stage)
    requires t.e.sent.Some?
    ensures var e := KnownTurn(t, v, stage).e;
            && e.overdue == t.e.overdue && e.journal == t.e.journal && e.sent.Some?
            && e.sent.value == t.e.sent.value.(groupAt := e.sent.value.groupAt)
  {
    RepeatFrame(t, v);
    ReminderFrame(t, v);
  }

  lemma RepeatFrame(t: Turn, v: Visit)
    requires t.e.sent.Some?
    ensures var e := RepeatTurn(t, v).e;
            && e == t.e.(sent := e.sent) && e.sent.Some?
            && e.sent.value == t.e.sent.value.(groupAt := e.sent.value.groupAt)
  {
  }

  lemma ReminderFrame(t: Turn, v: Visit)
    requires t.e.sent.Some?
    ensures ReminderTurn(t, v).e == t.e.(reminder := ReminderTurn(t, v).e.reminder)
  {
  }

  lemma UnknownFrame(t: Turn, v: Visit, stage: Stage)
    ensures var r := UnknownTurn(t, v, stage);
            && r.e == t.e.(sent := r.e.sent)
            && (!r.raised ==> r.e.sent.Some?)
            && (r.e.sent == t.e.sent
                || (r.e.sent.Some? && r.e.sent.value.notifiedAt == v.now && r.e.sent.value.status == v.issue.status))
  {
  }

  lemma BranchFrame(t: Turn, v: Visit)
    ensures var r := BranchTurn(t, v);
            && r.e.overdue == t.e.overdue && r.e.journal == t.e.journal
            && (t.e.sent.Some? ==>
                  r.e.sent.Some? && r.e.sent.value == t.e.sent.value.(groupAt := r.e.sent.value.groupAt))
            && (!r.raised ==> r.e.sent.Some?)
            && (t.e.sent.None? && r.e.sent.Some? ==>
                  r.e.sent.value.notifiedAt == v.now && r.e.sent.value.status == v.issue.status)
  {
    var t1, stage := Risk(t), StageOf(v.issue.status);
    if t1.e.sent.Some? { KnownFrame(t1, v, stage); } else { UnknownFrame(t1, v, stage); }
  }

  lemma OverdueFrame(t: Turn, v: Visit)
    ensures OverdueTurn(t, v).e == t.e.(overdue := OverdueTurn(t, v).e.overdue)
  {
  }

  lemma JournalFrame(t: Turn, v: Visit, changed: bool)
    ensures JournalTurn(t, v, changed).e == t.e.(journal := JournalTurn(t, v, changed).e.journal)
  {
  }

  // ---- a cycle that writes nothing has changed nothing ----

  /** The row was removed under the cycle in progress. */
  predicate SweptUnder(ms: seq<Move>) {
    if ms == [] then false
    else
      match ms[|ms| - 1]
      case Begin(_) => false
      case Remove => true
      case _ => SweptUnder(ms[..|ms| - 1])
  }

  /** A cycle with nothing to write has the row's entry in memory; if the row was
      removed under it, an entry it could have loaded and no row. */
  predicate Coherent(c: Cell, swept: bool) {
    c.cur.Some? && !c.dirty ==>
      if swept then c.row.None? && Persisted(c.cur.value) == c.cur.value else c.cur.value == Loaded(c.row)
  }

  lemma {:induction false} AlwaysCoherent(c: Cell, ms: seq<Move>)
    requires LegalRun(c, ms) && c.cur.None?
    ensures Coherent(Run(c, ms), SweptUnder(ms))
  {
    hide VisitTurn;
    if ms != [] {
      AlwaysCoherent(c, ms[..|ms| - 1]);
      ReloadGivesPersisted(InForce(c), Run(c, ms[..|ms| - 1]).row);
    }
  }

  /** Without a removal under the cycle, what it would lose by not writing is nothing. */
  lemma CleanIsLoaded(c: Cell, ms: seq<Move>)
    requires LegalRun(c, ms) && c.cur.None? && !SweptUnder(ms)
    ensures var d := Run(c, ms); d.cur.Some? && !d.dirty ==> d.cur.value == Loaded(d.row)
  {
    AlwaysCoherent(c, ms);
  }

  /** Memory and row differ although nothing is to be written. */
  predicate Astray(c: Cell) {
    c.cur.Some? && !c.dirty && c.cur.value != Loaded(c.row)
  }

  /** What every history keeps, whenever the row is removed. */
  predicate Tame(c: Cell) {
    Astray(c) ==> c.row.None?
  }

  lemma {:induction false} AlwaysTame(c: Cell, ms: seq<Move>)
    requires LegalRun(c, ms) && Tame(c)
    ensures Tame(Run(c, ms))
  {
    hide VisitTurn;
    if ms != [] {
      AlwaysTame(c, ms[..|ms| - 1]);
    }
  }

  // ---- histories from any point on ----

  /** A point of a history from which messages are counted. */
  predicate FromHere(c: Cell) {
    Tame(c) && c.log == []
  }

  function CountedFrom(c: Cell): Cell {
    c.(log := [])
  }

  lemma StepOver(c: Cell, x: seq<Send>, m: Move)
    requires Legal(c, m)
    ensures Legal(c.(log := x + c.log), m)
    ensures Step(c.(log := x + c.log), m) == Step(c, m).(log := x + Step(c, m).log)
  {
    hide VisitTurn;
    if m.See? {
      VisitOver(Turn(c.cur.value, c.log, c.dirty, m.visit.limit, false), x, m.visit);
    }
  }

  lemma {:induction false} LegalCountedFrom(c: Cell, ms: seq<Move>)
    requires LegalRun(c, ms)
    ensures LegalRun(CountedFrom(c), ms)
    ensures Run(c, ms) == Run(CountedFrom(c), ms).(log := c.log + Run(CountedFrom(c), ms).log)
  {
    hide Step, Legal;
    var d := CountedFrom(c);
    if ms == [] {
      assert c.log + [] == c.log;
    } else {
      var n := |ms| - 1;
      LegalCountedFrom(c, ms[..n]);
      LegalWhateverSent(Run(c, ms[..n]), Run(d, ms[..n]).log, ms[n]);
      StepOver(Run(d, ms[..n]), c.log, ms[n]);
    }
  }

  lemma LegalWhateverSent(c: Cell, log: seq<Send>, m: Move)
    requires Legal(c, m)
    ensures Legal(c.(log := log), m)
  {
  }

  /** A history can be cut anywhere: what follows is a history of its own, whose
      messages are those sent since. */
  lemma AnyPoint(c: Cell, before: seq<Move>, since: seq<Move>)
    requires Tame(c) && LegalRun(c, before + since)
    ensures LegalRun(c, before) && FromHere(CountedFrom(Run(c, before)))
    ensures var d := CountedFrom(Run(c, before));
            && LegalRun(d, since)
            && Run(c, before + since) == Run(d, since).(log := Run(c, before).log + Run(d, since).log)
  {
    hide Step, Legal;
    RunJoin(c, before, since);
    AlwaysTame(c, before);
    LegalCountedFrom(Run(c, before), since);
  }

  // ---- first sight: at most once, up to spoiled cycles ----

  /** A visit to an issue the bot does not know: branches 2 to 6 of the processing. */
  predicate Fires(c: Cell, m: Move) {
    m.See? && c.cur.Some? && c.cur.value.sent.None?
  }

  /** `hurt`: the cycle's last visit raised. `spoiled` grows by one for every
      visit that raised and for every rollback of a cycle whose last visit did
      not; when a cycle visits the issue at most once, it is the number of
      cycles that rolled back or in which the issue's processing raised. */
  datatype Tally = Tally(fired: nat, spoiled: nat, hurt: bool)

  function Count(c: Cell, ms: seq<Move>): Tally
    requires LegalRun(c, ms)
  {
    if ms == [] then Tally(0, 0, false)
    else
      var n := |ms| - 1;
      var before, t := Run(c, ms[..n]), Count(c, ms[..n]);
      match ms[n]
      case Begin(_) => t.(hurt := false)
      case See(v) =>
        var raised := SeeTurn(before, v).raised;
        Tally(t.fired + if Fires(before, ms[n]) then 1 else 0, t.spoiled + if raised then 1 else 0, raised)
      case Abort => t.(spoiled := t.spoiled + if t.hurt then 0 else 1)
      case Commit => t
      case Remove => t
  }

  lemma SentFacts(t: Turn, v: Visit)
    ensures t.e.sent.Some? ==> VisitTurn(t, v).e.sent.Some?
    ensures !VisitTurn(t, v).raised ==> VisitTurn(t, v).e.sent.Some?
  {
    var t1 := StatusTurn(t, v);
    var t2 := BranchTurn(t1, v);
    var t3 := OverdueTurn(t2, v);
    StatusFrame(t, v);
    BranchFrame(t1, v);
    OverdueFrame(t2, v);
    JournalFrame(t3, v, DetectStatusChange(t.e.sent, v.issue.status).Some?);
  }

  /** An astray cycle has made nothing known for good. */
  lemma {:induction false} FirstSightInvariant(c: Cell, ms: seq<Move>)
    requires LegalRun(c, ms) && Remove !in ms
    ensures var t, d := Count(c, ms), Run(c, ms);
            && t.fired <= t.spoiled + (if InForce(d).sent.Some? then 1 else 0)
            && (t.hurt && d.cur.Some? ==> t.fired <= t.spoiled)
            && (Astray(d) ==> t.fired <= t.spoiled)
  {
    hide VisitTurn;
    if ms != [] {
      var n := |ms| - 1;
      FirstSightInvariant(c, ms[..n]);
      if ms[n].See? {
        var b := Run(c, ms[..n]);
        SentFacts(Turn(b.cur.value, b.log, b.dirty, ms[n].visit.limit, false), ms[n].visit);
      }
    }
  }

  /** In any stretch of a history without a removal of the row, wherever it
      begins, an issue is treated as unknown at most once more often than its
      processing was spoiled. */
  lemma FirstSightAtMostOnce(c: Cell, ms: seq<Move>)
    requires LegalRun(c, ms) && Remove !in ms
    ensures Count(c, ms).fired <= 1 + Count(c, ms).spoiled
  {
    FirstSightInvariant(c, ms);
  }

  /** One visit sends a message about provided information or about reopening
      only when it treats the issue as unknown, and then at most one. */
  lemma VisitTells(t: Turn, v: Visit)
    ensures var r := VisitTurn(t, v);
            |Of(r.out, KInfo)| + |Of(r.out, KReopened)|
              <= |Of(t.out, KInfo)| + |Of(t.out, KReopened)| + if t.e.sent.None? then 1 else 0
  {
    hide StatusTurn, BranchTurn, OverdueTurn, JournalTurn;
    var t1 := StatusTurn(t, v);
    var t2 := BranchTurn(t1, v);
    var t3 := OverdueTurn(t2, v);
    var changed := DetectStatusChange(t.e.sent, v.issue.status).Some?;
    StatusFrame(t, v);
    BranchTells(t1, v);
    forall k | k == KInfo || k == KReopened
      ensures Of(t1.out, k) == Of(t.out, k) && Of(VisitTurn(t, v).out, k) == Of(t2.out, k)
    {
      StatusOf(t, v, k);
      OverdueOf(t2, v, k);
      JournalOf(t3, v, changed, k);
    }
  }

  lemma BranchTells(t: Turn, v: Visit)
    ensures var r := BranchTurn(t, v);
            |Of(r.out, KInfo)| + |Of(r.out, KReopened)|
              <= |Of(t.out, KInfo)| + |Of(t.out, KReopened)| + if t.e.sent.None? then 1 else 0
  {
    hide AnnounceTurn, RepeatTurn, ReminderTurn, Of;
    var t1 := Risk(t);
    forall k | k == KInfo || k == KReopened
      ensures t1.e.sent.Some? ==> Of(KnownTurn(t1, v, StageOf(v.issue.status)).out, k) == Of(t1.out, k)
      ensures Of(AnnounceTurn(t1, v).out, k) == Of(t1.out, k)
    {
      if t1.e.sent.Some? { KnownOf(t1, v, StageOf(v.issue.status), k); }
      AnnounceOf(t1, v, k);
    }
    EmitOf(t1, v, v.policy.room, KInfo, FirstSight, KInfo);
    EmitOf(t1, v, v.policy.room, KInfo, FirstSight, KReopened);
    EmitOf(t1, v, v.policy.room, KReopened, FirstSight, KInfo);
    EmitOf(t1, v, v.policy.room, KReopened, FirstSight, KReopened);
  }

  lemma {:induction false} ToldAtMostFired(c: Cell, ms: seq<Move>)
    requires c.log == [] && LegalRun(c, ms)
    ensures |Of(Run(c, ms).log, KInfo)| + |Of(Run(c, ms).log, KReopened)| <= Count(c, ms).fired
  {
    hide VisitTurn;
    if ms != [] {
      var n := |ms| - 1;
      ToldAtMostFired(c, ms[..n]);
      if ms[n].See? {
        var b, v := Run(c, ms[..n]), ms[n].visit;
        VisitTells(Turn(b.cur.value, b.log, b.dirty, v.limit, false), v);
      }
    }
  }
}
