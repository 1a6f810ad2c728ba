/** The life of all issues of one user under a single bot, and its projection
    onto each issue. */
module UserHistory {
  import opened Wrappers
  import opened Routing
  import opened IssueState
  import opened Processor
  import opened IssueHistory
  import opened VisitMessages

  /** `mem` and `dirty` belong to the cycle in progress. */
  datatype Desk = Desk(rows: map<int, Row>, mem: Option<Mem>, dirty: set<int>, log: seq<Send>, now: Stamp)

  datatype Act = Open(now: Stamp) | Examine(visit: Visit) | Save | Drop | Sweep(open: set<int>)

  predicate Proper(d: Desk, a: Act) {
    match a
    case Open(now) => d.mem.None? && d.now.at <= now.at
    case Examine(v) => d.mem.Some? && v.now == d.now
    case Save => d.mem.Some?
    case Drop => d.mem.Some?
    case Sweep(_) => true
  }

  /** The rows after the dirty issues have been written. */
  function Saved(rows: map<int, Row>, dirty: set<int>, mem: Mem): (r: map<int, Row>)
    ensures forall i :: Get(r, i) == if i in dirty then Some(Stored(At(mem, i))) else Get(rows, i)
  {
    rows + map i | i in dirty :: Stored(At(mem, i))
  }

  function Swept(rows: map<int, Row>, open: set<int>): (r: map<int, Row>)
    ensures forall i :: Get(r, i) == if i in open then Get(rows, i) else None
  {
    map i | i in rows && i in open :: rows[i]
  }

  function Do(d: Desk, a: Act): Desk
    requires Proper(d, a)
  {
    match a
    case Open(now) => d.(mem := Some(LoadRows(d.rows)), dirty := {}, now := now)
    case Examine(v) =>
      var p := Advance(Progress(d.mem.value, d.dirty, d.log), v);
      d.(mem := Some(p.mem), dirty := p.dirty, log := p.out)
    case Save => d.(rows := Saved(d.rows, d.dirty, d.mem.value), mem := None)
    case Drop => d.(mem := None)
    case Sweep(open) => d.(rows := Swept(d.rows, open))
  }

  predicate ProperRun(d: Desk, acts: seq<Act>)
    decreases |acts|, 0
  {
    acts == []
    || (ProperRun(d, acts[..|acts| - 1]) && Proper(DoAll(d, acts[..|acts| - 1]), acts[|acts| - 1]))
  }

  function DoAll(d: Desk, acts: seq<Act>): Desk
    requires ProperRun(d, acts)
    decreases |acts|, 1
  {
    if acts == [] then d else Do(DoAll(d, acts[..|acts| - 1]), acts[|acts| - 1])
  }

  lemma DoSnoc(d: Desk, acts: seq<Act>, a: Act)
    ensures ProperRun(d, acts + [a]) <==> ProperRun(d, acts) && Proper(DoAll(d, acts), a)
    ensures ProperRun(d, acts + [a]) ==> DoAll(d, acts + [a]) == Do(DoAll(d, acts), a)
  {
    assert (acts + [a])[..|acts|] == acts;
  }

  // ---- projection onto one issue ----

  function LogFor(log: seq<Send>, issue: int): (r: seq<Send>)
    ensures forall s <- r :: s.issue == issue
  {
    if log == [] then []
    else
      var n := |log| - 1;
      LogFor(log[..n], issue) + if log[n].issue == issue then [log[n]] else []
  }

  lemma {:induction false} LogForJoin(a: seq<Send>, b: seq<Send>, issue: int)
    ensures LogFor(a + b, issue) == LogFor(a, issue) + LogFor(b, issue)
  {
    if b == [] {
      assert a + b == a;
    } else {
      var n := |b| - 1;
      LogForJoin(a, b[..n], issue);
      assert (a + b)[..|a + b| - 1] == a + b[..n];
    }
  }

  lemma {:induction false} LogForOwn(log: seq<Send>, about: int, issue: int)
    requires About(log, about)
    ensures LogFor(log, issue) == if issue == about then log else []
  {
    if log != [] {
      var n := |log| - 1;
      assert log[n] in log && forall s <- log[..n] :: s in log;
      LogForOwn(log[..n], about, issue);
      assert log == log[..n] + [log[n]];
    }
  }

  function CellOf(d: Desk, issue: int): Cell {
    Cell(Get(d.rows, issue),
         if d.mem.Some? then Some(At(d.mem.value, issue)) else None,
         issue in d.dirty, LogFor(d.log, issue), d.now)
  }

  /** What an act of the user's cycle is to one issue. */
  function MoveOf(a: Act, issue: int): Option<Move> {
    match a
    case Open(now) => Some(Begin(now))
    case Examine(v) => if v.issue.id == issue then Some(See(v)) else None
    case Save => Some(Commit)
    case Drop => Some(Abort)
    case Sweep(open) => if issue in open then None else Some(Remove)
  }

  function MovesOf(acts: seq<Act>, issue: int): seq<Move> {
    if acts == [] then []
    else
      var n := |acts| - 1;
      var m := MoveOf(acts[n], issue);
      MovesOf(acts[..n], issue) + if m.Some? then [m.value] else []
  }

  /** What a visit does to an issue does not depend on the messages sent before. */
  lemma VisitFromLog(e: Entry, log: seq<Send>, dirty: bool, v: Visit)
    ensures var r := VisitTurn(Turn(e, [], dirty, v.limit, false), v);
            VisitTurn(Turn(e, log, dirty, v.limit, false), v) == r.(out := log + r.out)
  {
    hide VisitTurn;
    VisitOver(Turn(e, [], dirty, v.limit, false), log, v);
    assert log + [] == log;
  }

  lemma LogAfterVisit(e: Entry, log: seq<Send>, dirty: bool, v: Visit, issue: int)
    ensures var r := VisitTurn(Turn(e, [], dirty, v.limit, false), v);
            LogFor(log + r.out, issue) == LogFor(log, issue) + if issue == v.issue.id then r.out else []
  {
    hide VisitTurn;
    var t := Turn(e, [], dirty, v.limit, false);
    VisitAbout(t, v);
    LogForJoin(log, VisitTurn(t, v).out, issue);
    LogForOwn(VisitTurn(t, v).out, v.issue.id, issue);
  }

  lemma ExamineProjects(d: Desk, v: Visit, issue: int)
    requires Proper(d, Examine(v))
    ensures var c := CellOf(d, issue);
            var d' := Do(d, Examine(v));
            if v.issue.id == issue then Legal(c, See(v)) && CellOf(d', issue) == Step(c, See(v))
            else CellOf(d', issue) == c
  {
    hide VisitTurn, LogFor;
    var own := v.issue.id;
    var e, dirty := At(d.mem.value, own), own in d.dirty;
    VisitFromLog(e, d.log, dirty, v);
    VisitFromLog(e, LogFor(d.log, own), dirty, v);
    LogAfterVisit(e, d.log, dirty, v, issue);
    assert LogFor(d.log, issue) + [] == LogFor(d.log, issue);
  }

  lemma ActProjects(d: Desk, a: Act, issue: int)
    requires Proper(d, a)
    ensures match MoveOf(a, issue)
            case Some(m) => Legal(CellOf(d, issue), m) && CellOf(Do(d, a), issue) == Step(CellOf(d, issue), m)
            case None => CellOf(Do(d, a), issue) == CellOf(d, issue)
  {
    hide VisitTurn;
    match a
    case Examine(v) => ExamineProjects(d, v, issue);
    case Open(_) =>
    case Save =>
    case Drop =>
    case Sweep(_) =>
  }

  /** Whatever happens to a user's issues together, each of them lives the life
      of an issue on its own. */
  lemma {:induction false} EachIssueAlone(d: Desk, acts: seq<Act>, issue: int)
    requires ProperRun(d, acts)
    ensures LegalRun(CellOf(d, issue), MovesOf(acts, issue))
    ensures Run(CellOf(d, issue), MovesOf(acts, issue)) == CellOf(DoAll(d, acts), issue)
  {
    hide VisitTurn;
    if acts != [] {
      var n := |acts| - 1;
      EachIssueAlone(d, acts[..n], issue);
      ActProjects(DoAll(d, acts[..n]), acts[n], issue);
      var m := MoveOf(acts[n], issue);
      if m.Some? {
        RunSnoc(CellOf(d, issue), MovesOf(acts[..n], issue), m.value);
      } else {
        assert MovesOf(acts, issue) == MovesOf(acts[..n], issue);
      }
    }
  }

  // ---- the saved rows mirror the dictionaries ----

  /** A cleanup removed the issue's row under the cycle in progress. */
  predicate SweptInCycle(acts: seq<Act>, issue: int) {
    if acts == [] then false
    else
      match acts[|acts| - 1]
      case Open(_) => false
      case Sweep(open) => issue !in open || SweptInCycle(acts[..|acts| - 1], issue)
      case _ => SweptInCycle(acts[..|acts| - 1], issue)
  }

  lemma {:induction false} SweptIsSwept(acts: seq<Act>, issue: int)
    ensures SweptInCycle(acts, issue) == SweptUnder(MovesOf(acts, issue))
  {
    if acts != [] {
      var n := |acts| - 1;
      SweptIsSwept(acts[..n], issue);
      var m := MoveOf(acts[n], issue);
      if m.Some? {
        assert (MovesOf(acts[..n], issue) + [m.value])[..|MovesOf(acts[..n], issue)|] == MovesOf(acts[..n], issue);
      } else {
        assert MovesOf(acts, issue) == MovesOf(acts[..n], issue);
      }
    }
  }

  const NOTHING := Entry(None, None, None, None)

  /** After a save, reloading gives an issue's dictionaries back, up to what is not
      persisted, even if the issue was abandoned by an exception, exactly when
      the issue's row was written, or no cleanup removed it under the cycle, or
      there was nothing in it; and only a dirty issue's row is touched. */
  lemma {:induction false} SaveMirrorsMemory(d: Desk, acts: seq<Act>, issue: int)
    requires ProperRun(d, acts) && d.mem.None?
    requires DoAll(d, acts).mem.Some?
    ensures var b := DoAll(d, acts);
            var rows := Do(b, Save).rows;
            && (At(LoadRows(rows), issue) == Persisted(At(b.mem.value, issue))
                <==> issue in b.dirty || !SweptInCycle(acts, issue) || At(b.mem.value, issue) == NOTHING)
            && (issue !in b.dirty ==> Get(rows, issue) == Get(b.rows, issue))
  {
    hide Do, Run, MovesOf;
    var b := DoAll(d, acts);
    EachIssueAlone(d, acts, issue);
    AlwaysCoherent(CellOf(d, issue), MovesOf(acts, issue));
    SweptIsSwept(acts, issue);
    SaveOne(b, issue);
    ReloadGivesPersisted(At(b.mem.value, issue), Get(b.rows, issue));
  }

  lemma SaveOne(b: Desk, issue: int)
    requires b.mem.Some?
    ensures var rows := Do(b, Save).rows;
            && Get(rows, issue)
               == (if issue in b.dirty then Some(Stored(At(b.mem.value, issue))) else Get(b.rows, issue))
            && At(LoadRows(rows), issue) == Loaded(Get(rows, issue))
  {
  }

  // ---- a reload that does not give the dictionaries back ----

  const ONE_ROW := Desk(map[1 := Row(Some("open"), Some(0), None, None, None)], None, {}, [], Stamp(0, 0))

  /** A cleanup removes the issue under a cycle that has nothing to write. */
  const SWEPT_CYCLE := [Open(Stamp(0, 0)), Sweep({})]

  lemma ReloadLosesSwept()
    ensures ProperRun(ONE_ROW, SWEPT_CYCLE) && DoAll(ONE_ROW, SWEPT_CYCLE).mem.Some?
    ensures var b := DoAll(ONE_ROW, SWEPT_CYCLE);
            At(LoadRows(Do(b, Save).rows), 1) != Persisted(At(b.mem.value, 1))
  {
    var started := Do(ONE_ROW, Open(Stamp(0, 0)));
    assert ProperRun(ONE_ROW, []) && DoAll(ONE_ROW, []) == ONE_ROW;
    DoSnoc(ONE_ROW, [], Open(Stamp(0, 0)));
    assert [] + [Open(Stamp(0, 0))] == [Open(Stamp(0, 0))];
    DoSnoc(ONE_ROW, [Open(Stamp(0, 0))], Sweep({}));
    assert [Open(Stamp(0, 0))] + [Sweep({})] == SWEPT_CYCLE;
    SaveMirrorsMemory(ONE_ROW, SWEPT_CYCLE, 1);
    assert SWEPT_CYCLE[1] == Sweep({}) && SweptInCycle(SWEPT_CYCLE, 1);
    assert At(started.mem.value, 1) == Loaded(Get(ONE_ROW.rows, 1));
  }
}
