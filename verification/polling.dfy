/** Skipping unchanged issues makes no difference to what matters: status
    messages, first-sight messages, journal messages, and the stored status and
    journal id. Reminders, overdue notices and group repeats are timers; they
    fire on visits and are not compared. */
module Polling {
  import opened Wrappers
  import opened Routing
  import opened IssueState
  import opened Processor
  import opened IssueHistory
  import opened CoreEffects

  // ---- two bots over the same events ----

  /** An event of both bots, or a visit only the fully polling bot makes. */
  datatype Item = Both(m: Move) | Skipped(v: Visit)

  function FullOf(items: seq<Item>): seq<Move> {
    if items == [] then []
    else
      var n := |items| - 1;
      FullOf(items[..n]) + [if items[n].Both? then items[n].m else See(items[n].v)]
  }

  function IncrementalOf(items: seq<Item>): seq<Move> {
    if items == [] then []
    else
      var n := |items| - 1;
      IncrementalOf(items[..n]) + if items[n].Both? then [items[n].m] else []
  }

  lemma FullSnoc(c: Cell, items: seq<Item>)
    requires items != []
    ensures var n := |items| - 1;
            var m := if items[n].Both? then items[n].m else See(items[n].v);
            && (LegalRun(c, FullOf(items)) <==>
                  LegalRun(c, FullOf(items[..n])) && Legal(Run(c, FullOf(items[..n])), m))
            && (LegalRun(c, FullOf(items)) ==> Run(c, FullOf(items)) == Step(Run(c, FullOf(items[..n])), m))
  {
    var n := |items| - 1;
    RunSnoc(c, FullOf(items[..n]), if items[n].Both? then items[n].m else See(items[n].v));
  }

  lemma IncrementalSnoc(c: Cell, items: seq<Item>)
    requires items != []
    ensures var n := |items| - 1;
            if items[n].Both? then
              && (LegalRun(c, IncrementalOf(items)) <==>
                    LegalRun(c, IncrementalOf(items[..n])) && Legal(Run(c, IncrementalOf(items[..n])), items[n].m))
              && (LegalRun(c, IncrementalOf(items)) ==>
                    Run(c, IncrementalOf(items)) == Step(Run(c, IncrementalOf(items[..n])), items[n].m))
            else IncrementalOf(items) == IncrementalOf(items[..n])
  {
    var n := |items| - 1;
    if items[n].Both? {
      RunSnoc(c, IncrementalOf(items[..n]), items[n].m);
    }
  }

  lemma SameCycles(a: Cell, b: Cell, m: Move)
    requires Legal(a, m) && a.now == b.now && a.cur.Some? == b.cur.Some?
    ensures Legal(b, m) && Step(a, m).now == Step(b, m).now && Step(a, m).cur.Some? == Step(b, m).cur.Some?
  {
    hide VisitTurn;
  }

  /** Whatever is skipped, the two bots are in the same cycles. */
  lemma {:induction false} IncrementalIsLegal(c: Cell, items: seq<Item>)
    requires LegalRun(c, FullOf(items))
    ensures LegalRun(c, IncrementalOf(items))
    ensures var a, b := Run(c, FullOf(items)), Run(c, IncrementalOf(items));
            a.now == b.now && a.cur.Some? == b.cur.Some?
  {
    hide Legal, Step, FullOf, IncrementalOf;
    if items == [] {
      NothingYet(c);
    } else {
      var n := |items| - 1;
      FullSnoc(c, items);
      IncrementalSnoc(c, items);
      IncrementalIsLegal(c, items[..n]);
      var a, b := Run(c, FullOf(items[..n])), Run(c, IncrementalOf(items[..n]));
      if items[n].Both? {
        SameCycles(a, b, items[n].m);
      } else {
        StaysInCycle(a, items[n].v);
      }
    }
  }

  lemma NothingYet(c: Cell)
    ensures LegalRun(c, FullOf([])) && LegalRun(c, IncrementalOf([]))
    ensures Run(c, FullOf([])) == c == Run(c, IncrementalOf([]))
  {
  }

  lemma StaysInCycle(a: Cell, v: Visit)
    requires Legal(a, See(v))
    ensures Step(a, See(v)).now == a.now && Step(a, See(v)).cur.Some? && a.cur.Some?
  {
    hide VisitTurn;
  }

  // ---- what the skipping bot remembers ----

  /** What the cycle in progress did with the issue. */
  datatype Mark = Untouched | Processed(snap: Snap) | CutShort

  /** The snapshot last processed; `swept` says the row was removed under the cycle. */
  datatype Memo = Memo(mark: Mark, swept: bool, committed: Option<Snap>)

  function Noted(memo: Memo, m: Move, raised: bool): Memo {
    match m
    case Begin(_) => Memo(Untouched, false, memo.committed)
    case See(v) => memo.(mark := if raised then CutShort else Processed(SnapOf(v)))
    case Commit =>
      memo.(committed :=
              if memo.swept then None
              else match memo.mark
                   case Untouched => memo.committed
                   case Processed(s) => Some(s)
                   case CutShort => None)
    case Abort => memo
    case Remove => Memo(memo.mark, true, None)
  }

  function MemoOf(c: Cell, items: seq<Item>): Memo
    requires LegalRun(c, IncrementalOf(items))
  {
    if items == [] then Memo(Untouched, false, None)
    else
      var n := |items| - 1;
      IncrementalSnoc(c, items);
      var memo, b := MemoOf(c, items[..n]), Run(c, IncrementalOf(items[..n]));
      match items[n]
      case Skipped(_) => memo
      case Both(m) => Noted(memo, m, Raises(b, m))
  }

  predicate Raises(c: Cell, m: Move)
    requires Legal(c, m)
  {
    m.See? && SeeTurn(c, m.visit).raised
  }

  function Recall(memo: Memo): Option<Snap> {
    match memo.mark
    case Untouched => memo.committed
    case Processed(s) => Some(s)
    case CutShort => None
  }

  /** Only an issue unchanged since its last completed processing, in this cycle
      or in a committed one, is skipped. */
  predicate SkipsOnlyUnchanged(c: Cell, items: seq<Item>)
    requires LegalRun(c, IncrementalOf(items))
  {
    if items == [] then true
    else
      var n := |items| - 1;
      IncrementalSnoc(c, items);
      && SkipsOnlyUnchanged(c, items[..n])
      && (items[n].Skipped? ==> Recall(MemoOf(c, items[..n])) == Some(SnapOf(items[n].v)))
  }

  /** What the memo records is settled in the skipping bot's memory or row. */
  predicate Remembered(b: Cell, memo: Memo) {
    && (memo.committed.Some? ==> Settled(CoreOf(Loaded(b.row)), memo.committed.value))
    && (b.cur.Some? && memo.mark.Processed? ==> Settled(CoreOf(b.cur.value), memo.mark.snap))
    && (b.cur.Some? && memo.mark.Untouched? && memo.committed.Some? ==>
          CoreOf(b.cur.value) == CoreOf(Loaded(b.row)))
    && (b.cur.Some? && !b.dirty && !memo.swept ==> b.cur.value == Loaded(b.row))
  }

  lemma MemoStep(b: Cell, memo: Memo, m: Move)
    requires Legal(b, m) && Remembered(b, memo)
    ensures Remembered(Step(b, m), Noted(memo, m, Raises(b, m)))
  {
    hide VisitTurn, Settled, CoreAfter;
    if m.See? {
      var t := Turn(b.cur.value, b.log, b.dirty, m.visit.limit, false);
      if !VisitTurn(t, m.visit).raised {
        DoneIsCore(t, m.visit);
        VisitSettles(CoreOf(b.cur.value), m.visit);
      }
    }
  }

  lemma {:induction false} AlwaysRemembered(c: Cell, items: seq<Item>)
    requires c.cur.None? && LegalRun(c, IncrementalOf(items))
    ensures Remembered(Run(c, IncrementalOf(items)), MemoOf(c, items))
  {
    hide Legal, Step, Noted, Raises, Remembered, IncrementalOf;
    if items == [] {
      NothingRemembered(c);
    } else {
      var n := |items| - 1;
      IncrementalSnoc(c, items);
      AlwaysRemembered(c, items[..n]);
      if items[n].Both? {
        MemoStep(Run(c, IncrementalOf(items[..n])), MemoOf(c, items[..n]), items[n].m);
      }
    }
  }

  lemma NothingRemembered(c: Cell)
    requires c.cur.None?
    ensures Remembered(Run(c, IncrementalOf([])), Memo(Untouched, false, None))
  {
  }

  // ---- where the two can part ----

  /** The two bots agree on everything but timers. */
  predicate Agree(a: Cell, b: Cell) {
    && a.now == b.now && a.cur.Some? == b.cur.Some?
    && CoreOf(InForce(a)) == CoreOf(InForce(b))
    && CoreOf(Loaded(a.row)) == CoreOf(Loaded(b.row))
    && CoreLog(a.log) == CoreLog(b.log)
  }

  /** An event at which agreeing bots part: the timers of only one of them run
      into the exception, and there is news in the journal; or only one of them
      has something to write, and memory and row differ. */
  predicate Part(a: Cell, b: Cell, m: Move)
    requires Legal(a, m) && Legal(b, m)
  {
    match m
    case See(v) => Raises(a, m) != Raises(b, m) && News(CoreOf(a.cur.value), v)
    case Commit => a.dirty != b.dirty && CoreOf(a.cur.value) != CoreOf(Loaded(a.row))
    case _ => false
  }

  lemma SharedStep(a: Cell, b: Cell, m: Move)
    requires Agree(a, b) && Legal(a, m) && Legal(b, m)
    ensures Agree(Step(a, m), Step(b, m)) <==> !Part(a, b, m)
  {
    hide VisitTurn, CoreLog, News;
    if m.See? {
      VisitsPart(Turn(a.cur.value, a.log, a.dirty, m.visit.limit, false),
                 Turn(b.cur.value, b.log, b.dirty, m.visit.limit, false), m.visit);
    }
  }

  lemma SkippedStep(a: Cell, b: Cell, memo: Memo, v: Visit)
    requires Agree(a, b) && Remembered(b, memo) && Recall(memo) == Some(SnapOf(v))
    requires Legal(a, See(v))
    ensures Agree(Step(a, See(v)), b)
  {
    hide VisitTurn, CoreLog, Settled;
    SettledVisit(Turn(a.cur.value, a.log, a.dirty, v.limit, false), v);
  }

  predicate AgreeThroughout(c: Cell, items: seq<Item>)
    requires LegalRun(c, FullOf(items)) && LegalRun(c, IncrementalOf(items))
  {
    Agree(Run(c, FullOf(items)), Run(c, IncrementalOf(items)))
    && (if items == [] then true
        else
          FullSnoc(c, items);
          IncrementalSnoc(c, items);
          AgreeThroughout(c, items[..|items| - 1]))
  }

  /** No event of the history parts the two. */
  predicate NeverPart(c: Cell, items: seq<Item>)
    requires LegalRun(c, FullOf(items)) && LegalRun(c, IncrementalOf(items))
  {
    if items == [] then true
    else
      var n := |items| - 1;
      FullSnoc(c, items);
      IncrementalSnoc(c, items);
      && NeverPart(c, items[..n])
      && (items[n].Both? ==> !Part(Run(c, FullOf(items[..n])), Run(c, IncrementalOf(items[..n])), items[n].m))
  }

  /** Over every history of cycles, exceptions, rollbacks and removals: a bot that
      skips unchanged issues sends the same status, first-sight and journal
      messages and stores the same status and journal id as one that skips none,
      all along, if and only if no event parts them. */
  lemma IncrementalRefinesFull(c: Cell, items: seq<Item>)
    requires c.cur.None? && LegalRun(c, FullOf(items))
    ensures LegalRun(c, IncrementalOf(items))
    ensures SkipsOnlyUnchanged(c, items) ==> (AgreeThroughout(c, items) <==> NeverPart(c, items))
  {
    IncrementalIsLegal(c, items);
    if SkipsOnlyUnchanged(c, items) {
      AgreeUnlessParted(c, items);
    }
  }

  lemma {:induction false} AgreeUnlessParted(c: Cell, items: seq<Item>)
    requires c.cur.None? && LegalRun(c, FullOf(items)) && LegalRun(c, IncrementalOf(items))
    requires SkipsOnlyUnchanged(c, items)
    ensures AgreeThroughout(c, items) <==> NeverPart(c, items)
  {
    hide Legal, Step, Part, Agree, Recall, MemoOf, Remembered, FullOf, IncrementalOf;
    if items == [] {
      AgreeAtFirst(c);
    } else {
      var n := |items| - 1;
      FullSnoc(c, items);
      IncrementalSnoc(c, items);
      AgreeUnlessParted(c, items[..n]);
      AgreesNow(c, items[..n]);
      if NeverPart(c, items[..n]) {
        var a, b := Run(c, FullOf(items[..n])), Run(c, IncrementalOf(items[..n]));
        if items[n].Both? {
          SharedStep(a, b, items[n].m);
        } else {
          AlwaysRemembered(c, items[..n]);
          SkippedStep(a, b, MemoOf(c, items[..n]), items[n].v);
        }
      }
    }
  }

  lemma AgreesNow(c: Cell, items: seq<Item>)
    requires LegalRun(c, FullOf(items)) && LegalRun(c, IncrementalOf(items))
    ensures AgreeThroughout(c, items) ==> Agree(Run(c, FullOf(items)), Run(c, IncrementalOf(items)))
  {
  }

  lemma AgreeAtFirst(c: Cell)
    ensures LegalRun(c, FullOf([])) && LegalRun(c, IncrementalOf([]))
    ensures AgreeThroughout(c, []) && NeverPart(c, [])
  {
  }

  /** At a commit agreeing bots part only if the row was removed under the cycle. */
  lemma PartedBySweep(c: Cell, full: seq<Move>, incremental: seq<Move>)
    requires c.cur.None? && LegalRun(c, full) && LegalRun(c, incremental)
    requires var a, b := Run(c, full), Run(c, incremental);
             Agree(a, b) && Legal(a, Commit) && Legal(b, Commit) && Part(a, b, Commit)
    ensures SweptUnder(full) || SweptUnder(incremental)
  {
    hide Step, Run;
    if !SweptUnder(full) { CleanIsLoaded(c, full); }
    if !SweptUnder(incremental) { CleanIsLoaded(c, incremental); }
  }

  // ---- histories in which they never part ----

  /** The issue's row is never removed under a cycle in progress. */
  predicate RemovedBetween(c: Cell, ms: seq<Move>)
    requires LegalRun(c, ms)
  {
    ms == []
    || (RemovedBetween(c, ms[..|ms| - 1])
        && (ms[|ms| - 1].Remove? ==> Run(c, ms[..|ms| - 1]).cur.None?))
  }

  lemma {:induction false} NotSweptUnder(c: Cell, ms: seq<Move>)
    requires c.cur.None? && LegalRun(c, ms) && RemovedBetween(c, ms)
    ensures Run(c, ms).cur.Some? ==> !SweptUnder(ms)
  {
    hide VisitTurn;
    if ms != [] {
      NotSweptUnder(c, ms[..|ms| - 1]);
    }
  }

  /** No shared visit meets an exception. */
  predicate Undisturbed(items: seq<Item>) {
    forall i | i in items && i.Both? && i.m.See? :: i.m.visit.limit.None?
  }

  lemma CalmVisit(t: Turn, v: Visit)
    requires Calm(t)
    ensures !VisitTurn(t, v).raised
  {
    hide StatusTurn, BranchTurn, OverdueTurn, JournalTurn;
    EarlyCore(t, v);
    JournalCore(OverdueTurn(BranchTurn(StatusTurn(t, v), v), v), v, DetectStatusChange(t.e.sent, v.issue.status).Some?);
  }

  lemma UndisturbedStep(a: Cell, b: Cell, m: Move)
    requires Agree(a, b) && Legal(a, m) && Legal(b, m) && (m.See? ==> m.visit.limit.None?)
    requires !Astray(a) && !Astray(b)
    ensures !Part(a, b, m)
  {
    hide VisitTurn, CoreLog;
    if m.See? {
      CalmVisit(Turn(a.cur.value, a.log, a.dirty, None, false), m.visit);
      CalmVisit(Turn(b.cur.value, b.log, b.dirty, None, false), m.visit);
    }
  }

  /** In particular they never part if no shared visit meets an exception and no
      row is removed under a cycle in progress, whatever exceptions the skipped
      visits meet. */
  lemma UndisturbedNeverPart(c: Cell, items: seq<Item>)
    requires c.cur.None? && LegalRun(c, FullOf(items)) && Undisturbed(items) && RemovedBetween(c, FullOf(items))
    ensures LegalRun(c, IncrementalOf(items))
    ensures SkipsOnlyUnchanged(c, items) ==> NeverPart(c, items) && AgreeThroughout(c, items)
  {
    IncrementalIsLegal(c, items);
    if SkipsOnlyUnchanged(c, items) {
      RemovedBetweenToo(c, items);
      NothingParts(c, items);
    }
  }

  /** The two bots are in the same cycles, so a row is removed between those of both. */
  lemma {:induction false} RemovedBetweenToo(c: Cell, items: seq<Item>)
    requires LegalRun(c, FullOf(items)) && LegalRun(c, IncrementalOf(items)) && RemovedBetween(c, FullOf(items))
    ensures RemovedBetween(c, IncrementalOf(items))
  {
    hide Legal, Step;
    if items != [] {
      var n := |items| - 1;
      FullSnoc(c, items);
      IncrementalSnoc(c, items);
      var full, inc := FullOf(items[..n]), IncrementalOf(items[..n]);
      var m := if items[n].Both? then items[n].m else See(items[n].v);
      assert FullOf(items)[..|full|] == full && FullOf(items)[|full|] == m;
      RemovedBetweenToo(c, items[..n]);
      IncrementalIsLegal(c, items[..n]);
      if items[n].Both? {
        assert IncrementalOf(items)[..|inc|] == inc && IncrementalOf(items)[|inc|] == items[n].m;
      }
    }
  }

  lemma {:induction false} NothingParts(c: Cell, items: seq<Item>)
    requires c.cur.None? && LegalRun(c, FullOf(items)) && LegalRun(c, IncrementalOf(items))
    requires SkipsOnlyUnchanged(c, items) && Undisturbed(items)
    requires RemovedBetween(c, FullOf(items)) && RemovedBetween(c, IncrementalOf(items))
    ensures NeverPart(c, items) && AgreeThroughout(c, items)
  {
    hide Legal, Step, Part, Agree, Recall, MemoOf, Astray;
    AgreeUnlessParted(c, items);
    if items != [] {
      var n := |items| - 1;
      var full, inc := FullOf(items[..n]), IncrementalOf(items[..n]);
      assert items[n] in items && forall i :: i in items[..n] ==> i in items;
      FullSnoc(c, items);
      IncrementalSnoc(c, items);
      NothingParts(c, items[..n]);
      NotAstray(c, full);
      NotAstray(c, inc);
      if items[n].Both? {
        UndisturbedStep(Run(c, full), Run(c, inc), items[n].m);
      }
    }
  }

  lemma NotAstray(c: Cell, ms: seq<Move>)
    requires c.cur.None? && LegalRun(c, ms) && RemovedBetween(c, ms)
    ensures !Astray(Run(c, ms))
  {
    hide Step, Legal;
    NotSweptUnder(c, ms);
    AlwaysCoherent(c, ms);
  }
}
