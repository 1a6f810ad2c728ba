/** The status messages of an issue tell one connected story. */
module StatusChain {
  import opened Wrappers
  import opened Routing
  import opened IssueState
  import opened Processor
  import opened IssueHistory

  /** The messages lead from status `a` to status `b`, each starting where the
      one before ended and none standing still. */
  predicate Path(msgs: seq<Send>, a: string, b: string) {
    && (forall s <- msgs :: s.cause.Change? && s.cause.before != s.cause.after)
    && (msgs == [] ==> a == b)
    && (msgs != [] ==> msgs[0].cause.before == a && msgs[|msgs| - 1].cause.after == b)
    && (forall k | 0 < k < |msgs| :: msgs[k - 1].cause.after == msgs[k].cause.before)
  }

  lemma PathExtends(msgs: seq<Send>, a: string, b: string, s: Send)
    requires Path(msgs, a, b)
    requires s.cause.Change? && s.cause.before == b && s.cause.after != b
    ensures Path(msgs + [s], a, s.cause.after)
  {
  }

  /** A visit that is not cut short leaves the observed status stored, unless an
      empty status had been stored before: the detector takes that for "unknown"
      and never replaces it. */
  lemma StatusFollows(t: Turn, v: Visit)
    requires !VisitTurn(t, v).raised
    ensures var r := VisitTurn(t, v);
            && r.e.sent.Some?
            && (r.e.sent.value.status == v.issue.status
                <==> !(t.e.sent.Some? && t.e.sent.value.status == "" && v.issue.status != ""))
  {
    var t1 := StatusTurn(t, v);
    var t2 := BranchTurn(t1, v);
    var t3 := OverdueTurn(t2, v);
    StatusFrame(t, v);
    BranchFrame(t1, v);
    OverdueFrame(t2, v);
    JournalFrame(t3, v, DetectStatusChange(t.e.sent, v.issue.status).Some?);
    assert !t1.raised;
    if t.e.sent.Some? { StatusResult(t, v); }
  }

  lemma StatusResult(t: Turn, v: Visit)
    requires t.e.sent.Some? && !StatusTurn(t, v).raised
    ensures StatusTurn(t, v).e.sent.Some?
    ensures StatusTurn(t, v).e.sent.value.status
         == if t.e.sent.value.status == "" then "" else v.issue.status
  {
  }

  /** One visit: no message and no change of status, or the one message that records the change. */
  lemma VisitChain(t: Turn, v: Visit)
    requires KStatusChange in v.policy.wants
    ensures var r := VisitTurn(t, v);
            var before, after := Of(t.out, KStatusChange), Of(r.out, KStatusChange);
            match t.e.sent
            case None => after == before && (r.e.sent.Some? ==> r.e.sent.value.status == v.issue.status)
            case Some(s) =>
              r.e.sent.Some? &&
              if r.e.sent.value.status == s.status then after == before
              else after == before + [Send(v.issue.id, v.policy.room, KStatusChange,
                                           Change(s.status, r.e.sent.value.status), v.now.at)]
  {
    var t1 := StatusTurn(t, v);
    var t2 := BranchTurn(t1, v);
    var t3 := OverdueTurn(t2, v);
    var changed := DetectStatusChange(t.e.sent, v.issue.status).Some?;
    StatusFrame(t, v);
    BranchFrame(t1, v);
    OverdueFrame(t2, v);
    JournalFrame(t3, v, changed);
    StatusMessage(t, v);
    BranchOf(t1, v, KStatusChange);
    OverdueOf(t2, v, KStatusChange);
    JournalOf(t3, v, changed, KStatusChange);
  }

  lemma StatusMessage(t: Turn, v: Visit)
    requires KStatusChange in v.policy.wants
    ensures var r := StatusTurn(t, v);
            var before, after := Of(t.out, KStatusChange), Of(r.out, KStatusChange);
            if r.e == t.e then after == before
            else
              && t.e.sent.Some? && r.e.sent.Some?
              && r.e.sent.value.status != t.e.sent.value.status
              && after == before + [Send(v.issue.id, v.policy.room, KStatusChange,
                                         Change(t.e.sent.value.status, r.e.sent.value.status), v.now.at)]
  {
    var before := DetectStatusChange(t.e.sent, v.issue.status);
    if before.Some? {
      EmitOf(Risk(t), v, v.policy.room, KStatusChange, Change(before.value, v.issue.status), KStatusChange);
    }
  }

  function StatusIn(e: Entry): Option<string> {
    if e.sent.Some? then Some(e.sent.value.status) else None
  }

  /** Where the story begins: at the status stored at the start, or, if the
      issue was unknown, at the one under which it became known. */
  function FirstSeen(c: Cell, ms: seq<Move>): Option<string>
    requires LegalRun(c, ms)
  {
    if ms == [] then StatusIn(InForce(c))
    else
      var n := |ms| - 1;
      SeenBy(FirstSeen(c, ms[..n]), ms[n], Run(c, ms))
  }

  function SeenBy(earlier: Option<string>, m: Move, after: Cell): Option<string> {
    if InForce(after).sent.None? then None
    else if earlier.None? && m.See? then Some(m.visit.issue.status) else earlier
  }

  predicate Subscribed(ms: seq<Move>, kind: Kind) {
    forall m | m in ms && m.See? :: kind in m.visit.policy.wants
  }

  /** The messages so far lead from the first-seen status to the stored one. */
  predicate Told(msgs: seq<Send>, first: Option<string>, e: Entry) {
    match e.sent
    case None => msgs == [] && first.None?
    case Some(s) => first.Some? && Path(msgs, first.value, s.status)
  }

  lemma NothingTold(e: Entry)
    ensures Told([], StatusIn(e), e)
  {
  }

  lemma ToldStep(t: Turn, v: Visit, first: Option<string>)
    requires KStatusChange in v.policy.wants
    requires Told(Of(t.out, KStatusChange), first, t.e)
    ensures var r := VisitTurn(t, v);
            var first' := if first.None? && r.e.sent.Some? then Some(v.issue.status) else first;
            Told(Of(r.out, KStatusChange), first', r.e)
  {
    hide VisitTurn;
    VisitChain(t, v);
    var r := VisitTurn(t, v);
    if t.e.sent.Some? && r.e.sent.value.status != t.e.sent.value.status {
      PathExtends(Of(t.out, KStatusChange), first.value, t.e.sent.value.status,
                  Send(v.issue.id, v.policy.room, KStatusChange,
                       Change(t.e.sent.value.status, r.e.sent.value.status), v.now.at));
    }
  }

  lemma ToldByStatus(msgs: seq<Send>, first: Option<string>, e: Entry, e': Entry)
    requires Told(msgs, first, e)
    requires e.sent.Some? == e'.sent.Some? && (e.sent.Some? ==> e.sent.value.status == e'.sent.value.status)
    ensures Told(msgs, first, e')
  {
  }

  lemma ToldKnown(msgs: seq<Send>, first: Option<string>, e: Entry)
    requires Told(msgs, first, e)
    ensures first.None? <==> e.sent.None?
  {
  }

  /** A message about a status goes with a row to be written. */
  lemma ToldIsDirty(t: Turn, v: Visit)
    requires KStatusChange in v.policy.wants
    ensures var r := VisitTurn(t, v); !r.dirty ==> Of(r.out, KStatusChange) == Of(t.out, KStatusChange)
  {
    hide VisitTurn;
    VisitChain(t, v);
  }

  predicate ChainSound(c: Cell, first: Option<string>) {
    && Told(Of(c.log, KStatusChange), first, InForce(c))
    && (Astray(c) ==> Of(c.log, KStatusChange) == [])
  }

  lemma ChainSee(c: Cell, v: Visit, first: Option<string>)
    requires Legal(c, See(v)) && KStatusChange in v.policy.wants && ChainSound(c, first)
    ensures ChainSound(Step(c, See(v)), SeenBy(first, See(v), Step(c, See(v))))
  {
    hide VisitTurn, Told, Of;
    var t := Turn(c.cur.value, c.log, c.dirty, v.limit, false);
    ToldKnown(Of(t.out, KStatusChange), first, t.e);
    SentFacts(t, v);
    ToldStep(t, v, first);
    ToldIsDirty(t, v);
  }

  lemma ChainRest(c: Cell, m: Move, first: Option<string>)
    requires Legal(c, m) && (m.Begin? || m.Commit?) && Tame(c) && ChainSound(c, first)
    ensures ChainSound(Step(c, m), SeenBy(first, m, Step(c, m)))
  {
    hide Told, Of;
    ToldKnown(Of(c.log, KStatusChange), first, InForce(c));
    if Astray(c) {
      NothingTold(InForce(Step(c, m)));
    } else {
      ToldByStatus(Of(c.log, KStatusChange), first, InForce(c), InForce(Step(c, m)));
    }
  }

  /** In any stretch of a history without rollbacks and removals, the status
      messages of a subscribed user form a path from the status the stretch
      begins with to the stored one; exceptions inside the processing do not
      break it. */
  lemma StatusChainTelescopes(c: Cell, ms: seq<Move>)
    requires FromHere(c) && LegalRun(c, ms)
    requires Abort !in ms && Remove !in ms && Subscribed(ms, KStatusChange)
    ensures var d := Run(c, ms);
            Told(Of(d.log, KStatusChange), FirstSeen(c, ms), InForce(d))
  {
    ChainInvariant(c, ms);
  }

  lemma {:induction false} ChainInvariant(c: Cell, ms: seq<Move>)
    requires FromHere(c) && LegalRun(c, ms)
    requires Abort !in ms && Remove !in ms && Subscribed(ms, KStatusChange)
    ensures ChainSound(Run(c, ms), FirstSeen(c, ms))
  {
    hide Step, Legal, ChainSound, SeenBy;
    if ms == [] {
      ChainStarts(c);
    } else {
      var n := |ms| - 1;
      assert ms[n] in ms && forall m :: m in ms[..n] ==> m in ms;
      ChainInvariant(c, ms[..n]);
      AlwaysTame(c, ms[..n]);
      if ms[n].See? {
        ChainSee(Run(c, ms[..n]), ms[n].visit, FirstSeen(c, ms[..n]));
      } else {
        ChainRest(Run(c, ms[..n]), ms[n], FirstSeen(c, ms[..n]));
      }
    }
  }

  lemma ChainStarts(c: Cell)
    requires c.log == []
    ensures ChainSound(c, StatusIn(InForce(c)))
  {
    NothingTold(InForce(c));
  }
}
