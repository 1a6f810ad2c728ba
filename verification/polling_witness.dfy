/** Two histories in which a bot that skips unchanged issues parts from one that
    skips none. */
module PollingWitness {
  import opened Wrappers
  import opened Routing
  import opened IssueState
  import opened Processor
  import opened IssueHistory
  import opened CoreEffects
  import opened Timers
  import opened Polling

  /** An overdue issue of another status; its user wants overdue notices only. */
  predicate Plainly(v: Visit) {
    && v.issue.status == "" && v.policy.wants == {KOverdue}
    && v.issue.due == Some(0) && DateOf(v.now) > 0
  }

  lemma PlainStage(v: Visit)
    requires Plainly(v)
    ensures StageOf(v.issue.status) == Other
  {
  }

  /** Notified today already. */
  predicate Notified(e: Entry, v: Visit) {
    e.overdue.Some? && DateOf(e.overdue.value) >= DateOf(v.now)
  }

  /** A visit to a known issue passes five points that can raise, and a sixth when it sends a notice. */
  lemma FatePoints(t: Turn, v: Visit)
    requires Plainly(v) && !t.raised && t.left == Some(5)
    requires t.e.sent.Some? && t.e.sent.value.status == ""
    ensures VisitTurn(t, v).raised <==> !Notified(t.e, v)
  {
    hide DateOf, StageOf, NewJournals, MaxJournal, DescribedIds;
    PlainStage(v);
    var t1 := StatusTurn(t, v);
    assert t1 == t.(left := Some(4));
    var t2 := BranchTurn(t1, v);
    assert t2 == t.(left := Some(3));
    OverduePoints(t2, v);
    var t3 := OverdueTurn(t2, v);
    JournalPoints(t3, v);
  }

  lemma OverduePoints(t: Turn, v: Visit)
    requires Plainly(v) && !t.raised && t.left == Some(3)
    ensures var r := OverdueTurn(t, v);
            !r.raised && r.left == Some(if Notified(t.e, v) then 1 else 0)
  {
    hide DateOf;
  }

  lemma JournalPoints(t: Turn, v: Visit)
    requires Plainly(v) && !t.raised && t.left.Some? && t.left.value <= 1
    ensures JournalTurn(t, v, false).raised <==> t.left == Some(0)
  {
    hide NewJournals, MaxJournal, DescribedIds, DateOf;
  }

  /** An undisturbed visit to an issue not notified today has something to write. */
  lemma NoticeToWrite(t: Turn, v: Visit)
    requires Plainly(v) && t.left.None? && !t.raised && !Notified(t.e, v)
    ensures VisitTurn(t, v).dirty && VisitTurn(t, v).e.overdue == Some(v.now)
  {
    hide VisitTurn, DateOf;
    OverdueExactlyWhenDue(t, v);
    VisitOverdue(t, v);
    NoticeIsDirty(t, v);
  }

  /** Where the two bots are, and what the skipping one remembers. */
  predicate Here(c: Cell, items: seq<Item>, full: Cell, skipping: Cell, memo: Memo) {
    && LegalRun(c, FullOf(items)) && LegalRun(c, IncrementalOf(items))
    && Run(c, FullOf(items)) == full && Run(c, IncrementalOf(items)) == skipping
    && SkipsOnlyUnchanged(c, items) && MemoOf(c, items) == memo
  }

  lemma StartHere(c: Cell)
    ensures Here(c, [], c, c, Memo(Untouched, false, None))
  {
  }

  lemma ShareHere(c: Cell, items: seq<Item>, a: Cell, b: Cell, memo: Memo, m: Move)
    requires Here(c, items, a, b, memo) && Legal(a, m) && Legal(b, m)
    ensures Here(c, items + [Both(m)], Step(a, m), Step(b, m), Noted(memo, m, Raises(b, m)))
    ensures Part(a, b, m) ==> !NeverPart(c, items + [Both(m)])
  {
    hide Step, Legal, Noted, Raises, Part;
    var all := items + [Both(m)];
    assert all[..|items|] == items && all[|items|] == Both(m);
    FullSnoc(c, all);
    IncrementalSnoc(c, all);
  }

  lemma SkipHere(c: Cell, items: seq<Item>, a: Cell, b: Cell, memo: Memo, v: Visit)
    requires Here(c, items, a, b, memo) && Legal(a, See(v)) && Recall(memo) == Some(SnapOf(v))
    ensures Here(c, items + [Skipped(v)], Step(a, See(v)), b, memo)
  {
    hide Step, Legal, Recall, MemoOf, SkipsOnlyUnchanged, FullOf, IncrementalOf;
    var all := items + [Skipped(v)];
    assert all[..|items|] == items && all[|items|] == Skipped(v);
    FullSnoc(c, all);
    IncrementalSnoc(c, all);
    SkipNoted(c, items, v);
  }

  lemma SkipNoted(c: Cell, items: seq<Item>, v: Visit)
    requires LegalRun(c, IncrementalOf(items)) && IncrementalOf(items + [Skipped(v)]) == IncrementalOf(items)
    ensures MemoOf(c, items + [Skipped(v)]) == MemoOf(c, items)
    ensures SkipsOnlyUnchanged(c, items) && Recall(MemoOf(c, items)) == Some(SnapOf(v)) ==>
      SkipsOnlyUnchanged(c, items + [Skipped(v)])
  {
    hide Run, LegalRun, Recall;
    var all := items + [Skipped(v)];
    assert all[..|items|] == items && all[|items|] == Skipped(v);
  }

  /** A committed cycle with one undisturbed visit that sends a notice. */
  function Cycled(c: Cell, v: Visit): Cell
    requires c.cur.None? && c.now.at <= v.now.at
  {
    var t := VisitTurn(Turn(Loaded(c.row), c.log, false, v.limit, false), v);
    Cell(if t.dirty then Some(Stored(t.e)) else c.row, None, t.dirty, t.out, v.now)
  }

  lemma CycledFacts(c: Cell, v: Visit)
    requires c.cur.None? && c.now.at <= v.now.at && Plainly(v) && v.limit.None? && !Notified(Loaded(c.row), v)
    ensures var d := Cycled(c, v);
            && d.row.Some? && Loaded(d.row).overdue == Some(Stamp(v.now.at, 0))
            && CoreOf(Loaded(d.row)) == CoreAfter(CoreOf(Loaded(c.row)), v)
    ensures !VisitTurn(Turn(Loaded(c.row), c.log, false, None, false), v).raised
  {
    hide VisitTurn, DateOf, CoreAfter;
    var t := Turn(Loaded(c.row), c.log, false, None, false);
    NoticeToWrite(t, v);
    VisitCore(t, v);
    CalmVisit(t, v);
    ReloadGivesPersisted(VisitTurn(t, v).e, c.row);
  }

  /** Both make a cycle with the visit. */
  lemma BothCycle(c: Cell, items: seq<Item>, a: Cell, b: Cell, memo: Memo, v: Visit)
    requires Here(c, items, a, b, memo) && a.cur.None? && b.cur.None?
    requires a.now.at <= v.now.at && b.now.at <= v.now.at
    ensures var raised := VisitTurn(Turn(Loaded(b.row), b.log, false, v.limit, false), v).raised;
            !raised ==> Here(c, items + [Both(Begin(v.now))] + [Both(See(v))] + [Both(Commit)],
                             Cycled(a, v), Cycled(b, v), Memo(Processed(SnapOf(v)), false, Some(SnapOf(v))))
  {
    hide VisitTurn, Here;
    var i1 := items + [Both(Begin(v.now))];
    ShareHere(c, items, a, b, memo, Begin(v.now));
    var a1, b1 := Step(a, Begin(v.now)), Step(b, Begin(v.now));
    ShareHere(c, i1, a1, b1, Noted(memo, Begin(v.now), false), See(v));
    var a2, b2 := Step(a1, See(v)), Step(b1, See(v));
    ShareHere(c, i1 + [Both(See(v))], a2, b2,
              Noted(Noted(memo, Begin(v.now), false), See(v), Raises(b1, See(v))), Commit);
  }

  function Poll(now: Stamp, journals: seq<Journal>, limit: Option<nat>): Visit {
    Visit(Issue(1, "", None, Some(0), Some(journals)), Policy("room", {KOverdue}, "", false), [], [], 0, 0, now, limit)
  }

  const DAY_ONE := Stamp(DAY, 0)
  const DAY_TWO := Stamp(2 * DAY, 0)
  const LATER := Stamp(2 * DAY + HOUR, 0)
  const ENTRY_ONE := Journal(1, true, [])
  const ENTRY_TWO := Journal(2, true, [])

  lemma Days()
    ensures DateOf(DAY_ONE) == 1 && DateOf(DAY_TWO) == 2 == DateOf(LATER)
    ensures 0 <= DAY_ONE.at < DAY_TWO.at < LATER.at
  {
  }

  const FIRST_POLL := Poll(DAY_ONE, [ENTRY_ONE], None)
  const SECOND_POLL := Poll(DAY_TWO, [ENTRY_ONE], None)
  const AFTER_FIRST := Cycled(UNKNOWN, FIRST_POLL)
  const FIRST_CYCLE := [Both(Begin(DAY_ONE)), Both(See(FIRST_POLL)), Both(Commit)]
  const FIRST_MEMO := Memo(Processed(SnapOf(FIRST_POLL)), false, Some(SnapOf(FIRST_POLL)))

  lemma AfterFirst()
    ensures Here(UNKNOWN, FIRST_CYCLE, AFTER_FIRST, AFTER_FIRST, FIRST_MEMO)
    ensures AFTER_FIRST.cur.None? && AFTER_FIRST.now == DAY_ONE && AFTER_FIRST.row.Some?
    ensures Loaded(AFTER_FIRST.row).overdue == Some(Stamp(DAY_ONE.at, 0))
    ensures CoreOf(Loaded(AFTER_FIRST.row)) == Core(Some(("", DAY_ONE.at)), Some(1))
  {
    hide VisitTurn, DateOf, Here;
    Days();
    StartHere(UNKNOWN);
    CycledFacts(UNKNOWN, FIRST_POLL);
    BothCycle(UNKNOWN, [], UNKNOWN, UNKNOWN, Memo(Untouched, false, None), FIRST_POLL);
    assert [] + [Both(Begin(DAY_ONE))] + [Both(See(FIRST_POLL))] + [Both(Commit)] == FIRST_CYCLE;
  }

  /** The second cycle begins and only the fully polling bot examines the issue. */
  const SKIPPED := FIRST_CYCLE + [Both(Begin(DAY_TWO))] + [Skipped(SECOND_POLL)]

  lemma AfterSkipped() returns (a: Cell, b: Cell, memo: Memo)
    ensures Here(UNKNOWN, SKIPPED, a, b, memo)
    ensures a.cur.Some? && b.cur.Some? && a.dirty && !b.dirty && a.now == b.now == DAY_TWO
    ensures b.cur.value == Loaded(b.row) && b.row == AFTER_FIRST.row
    ensures a.cur.value.overdue == Some(DAY_TWO)
    ensures CoreOf(a.cur.value) == Core(Some(("", DAY_ONE.at)), Some(1))
  {
    hide VisitTurn, DateOf, Here;
    Days();
    AfterFirst();
    var begin := Begin(DAY_TWO);
    ShareHere(UNKNOWN, FIRST_CYCLE, AFTER_FIRST, AFTER_FIRST, FIRST_MEMO, begin);
    b := Step(AFTER_FIRST, begin);
    memo := Noted(FIRST_MEMO, begin, false);
    assert SnapOf(SECOND_POLL) == SnapOf(FIRST_POLL);
    SkipHere(UNKNOWN, FIRST_CYCLE + [Both(begin)], b, b, memo, SECOND_POLL);
    var t := Turn(b.cur.value, b.log, false, None, false);
    NoticeToWrite(t, SECOND_POLL);
    VisitCore(t, SECOND_POLL);
    a := Step(b, See(SECOND_POLL));
  }

  /** The row is removed under the second cycle, which only one of the bots writes. */
  lemma SweepPartsBots()
    ensures var items := SKIPPED + [Both(Remove)] + [Both(Commit)];
            && LegalRun(UNKNOWN, FullOf(items)) && LegalRun(UNKNOWN, IncrementalOf(items))
            && SkipsOnlyUnchanged(UNKNOWN, items)
            && !NeverPart(UNKNOWN, items) && !AgreeThroughout(UNKNOWN, items)
  {
    hide VisitTurn, DateOf, Here;
    var a, b, memo := AfterSkipped();
    ShareHere(UNKNOWN, SKIPPED, a, b, memo, Remove);
    var a1, b1 := Step(a, Remove), Step(b, Remove);
    ShareHere(UNKNOWN, SKIPPED + [Both(Remove)], a1, b1, Noted(memo, Remove, false), Commit);
    assert Part(a1, b1, Commit);
    HereMeans(UNKNOWN, SKIPPED + [Both(Remove)] + [Both(Commit)]);
  }

  lemma HereMeans(c: Cell, items: seq<Item>)
    requires c.cur.None? && exists a, b, memo :: Here(c, items, a, b, memo)
    ensures LegalRun(c, FullOf(items)) && LegalRun(c, IncrementalOf(items)) && SkipsOnlyUnchanged(c, items)
    ensures AgreeThroughout(c, items) <==> NeverPart(c, items)
  {
    hide NeverPart, AgreeThroughout;
    IncrementalRefinesFull(c, items);
  }

  const THIRD_POLL := Poll(LATER, [ENTRY_ONE, ENTRY_TWO], Some(5))

  /** Both examine the issue again, with news in the journal; the skipping bot, whose
      notice is due, meets the exception, the other does not. */
  lemma ExceptionPartsBots()
    ensures var items := SKIPPED + [Both(Commit)] + [Both(Begin(LATER))] + [Both(See(THIRD_POLL))];
            && LegalRun(UNKNOWN, FullOf(items)) && LegalRun(UNKNOWN, IncrementalOf(items))
            && SkipsOnlyUnchanged(UNKNOWN, items)
            && !NeverPart(UNKNOWN, items) && !AgreeThroughout(UNKNOWN, items)
  {
    hide VisitTurn, DateOf, Here;
    Days();
    AfterFirst();
    var a, b, memo := AfterSkipped();
    ShareHere(UNKNOWN, SKIPPED, a, b, memo, Commit);
    var a1, b1, i1 := Step(a, Commit), Step(b, Commit), SKIPPED + [Both(Commit)];
    var memo1 := Noted(memo, Commit, false);
    ShareHere(UNKNOWN, i1, a1, b1, memo1, Begin(LATER));
    var a2, b2 := Step(a1, Begin(LATER)), Step(b1, Begin(LATER));
    var memo2 := Noted(memo1, Begin(LATER), false);
    ShareHere(UNKNOWN, i1 + [Both(Begin(LATER))], a2, b2, memo2, See(THIRD_POLL));
    FatePoints(Turn(a2.cur.value, a2.log, false, Some(5), false), THIRD_POLL);
    FatePoints(Turn(b2.cur.value, b2.log, false, Some(5), false), THIRD_POLL);
    assert News(CoreOf(a2.cur.value), THIRD_POLL) by { TwoEntries(); }
    assert Part(a2, b2, See(THIRD_POLL));
    HereMeans(UNKNOWN, i1 + [Both(Begin(LATER))] + [Both(See(THIRD_POLL))]);
  }

  lemma TwoEntries()
    ensures MaxJournal(Some([ENTRY_ONE, ENTRY_TWO])) == 2
  {
  }
}
