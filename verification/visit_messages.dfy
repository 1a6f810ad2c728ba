/** The messages of one visit: they do not depend on those sent before, and
    they are about the visited issue. */
module VisitMessages {
  import opened Wrappers
  import opened Routing
  import opened IssueState
  import opened Processor

  // ---- a visit's messages do not depend on those sent before ----

  function Over(t: Turn, earlier: seq<Send>): Turn {
    t.(out := earlier + t.out)
  }

  lemma EmitOver(t: Turn, x: seq<Send>, v: Visit, room: string, kind: Kind, cause: Cause)
    ensures Emit(Over(t, x), v, room, kind, cause) == Over(Emit(t, v, room, kind, cause), x)
  {
    var s := Send(v.issue.id, room, kind, cause, v.now.at);
    assert x + (t.out + [s]) == x + t.out + [s];
  }

  lemma {:induction false} EmitAllOver(t: Turn, x: seq<Send>, v: Visit, rooms: seq<string>)
    ensures EmitAll(Over(t, x), v, rooms, KNew) == Over(EmitAll(t, v, rooms, KNew), x)
  {
    if rooms != [] {
      var n := |rooms| - 1;
      EmitAllOver(t, x, v, rooms[..n]);
      EmitOver(EmitAll(t, v, rooms[..n], KNew), x, v, rooms[n], KNew, FirstSight);
    }
  }

  lemma SpreadOver(t: Turn, x: seq<Send>, v: Visit, others: seq<string>, group: Option<string>)
    ensures SpreadTurn(Over(t, x), v, others, group) == Over(SpreadTurn(t, v, others, group), x)
  {
    hide EmitAll, FinishTurn;
    EmitOver(t, x, v, v.policy.room, KNew, FirstSight);
    var t1 := Emit(t, v, v.policy.room, KNew, FirstSight);
    EmitAllOver(Risk(t1), x, v, others);
    FinishOver(EmitAll(Risk(t1), v, others, KNew), x, v, group);
  }

  lemma FinishOver(t: Turn, x: seq<Send>, v: Visit, group: Option<string>)
    ensures FinishTurn(Over(t, x), v, group) == Over(FinishTurn(t, v, group), x)
  {
    hide EmitAll;
    var t1 := Risk(t);
    if group.Some? { EmitOver(t1, x, v, group.value, KNew, FirstSight); }
    var t2 := if group.Some? then Emit(t1, v, group.value, KNew, FirstSight) else t1;
    EmitAllOver(Risk(t2), x, v, v.extras);
  }

  lemma StatusOver(t: Turn, x: seq<Send>, v: Visit)
    ensures StatusTurn(Over(t, x), v) == Over(StatusTurn(t, v), x)
  {
    var before := DetectStatusChange(t.e.sent, v.issue.status);
    if before.Some? {
      EmitOver(Risk(t), x, v, v.policy.room, KStatusChange, Change(before.value, v.issue.status));
    }
  }

  lemma UnknownOver(t: Turn, x: seq<Send>, v: Visit, stage: Stage)
    ensures UnknownTurn(Over(t, x), v, stage) == Over(UnknownTurn(t, v, stage), x)
  {
    SpreadOver(t, x, v, Without(v.members, v.policy.room), WantingGroup(v.policy));
    EmitOver(t, x, v, v.policy.room, KInfo, FirstSight);
    EmitOver(t, x, v, v.policy.room, KReopened, FirstSight);
  }

  lemma KnownOver(t: Turn, x: seq<Send>, v: Visit, stage: Stage)
    requires t.e.sent.Some?
    ensures KnownTurn(Over(t, x), v, stage) == Over(KnownTurn(t, v, stage), x)
  {
    if stage == Answered {
      EmitOver(Risk(t), x, v, v.policy.room, KReminder, Timer);
    } else if stage == Arrived {
      RepeatOver(t, x, v, v.policy.groupRoom);
    }
  }

  lemma RepeatOver(t: Turn, x: seq<Send>, v: Visit, room: string)
    requires t.e.sent.Some? && room == v.policy.groupRoom
    ensures RepeatTurn(Over(t, x), v) == Over(RepeatTurn(t, v), x)
  {
    EmitOver(Risk(t), x, v, room, KNew, GroupRepeat);
  }

  lemma BranchOver(t: Turn, x: seq<Send>, v: Visit)
    ensures BranchTurn(Over(t, x), v) == Over(BranchTurn(t, v), x)
  {
    var t1, stage := Risk(t), StageOf(v.issue.status);
    assert Risk(Over(t, x)) == Over(t1, x);
    if t1.e.sent.Some? { KnownOver(t1, x, v, stage); } else { UnknownOver(t1, x, v, stage); }
  }

  lemma OverdueOver(t: Turn, x: seq<Send>, v: Visit)
    ensures OverdueTurn(Over(t, x), v) == Over(OverdueTurn(t, v), x)
  {
    EmitOver(Risk(Risk(t)), x, v, v.policy.room, KOverdue, Timer);
  }

  lemma DigestOver(t: Turn, x: seq<Send>, v: Visit, ids: seq<int>)
    ensures DigestTurn(Over(t, x), v, ids) == Over(DigestTurn(t, v, ids), x)
  {
    EmitOver(Risk(t), x, v, v.policy.room, KUpdated, Digest(ids));
  }

  lemma JournalOver(t: Turn, x: seq<Send>, v: Visit, changed: bool)
    ensures JournalTurn(Over(t, x), v, changed) == Over(JournalTurn(t, v, changed), x)
  {
    hide DigestTurn, DescribedIds, NewJournals, MaxJournal;
    DigestOver(Risk(t), x, v, DescribedIds(NewJournals(v.issue.journals, t.e.journal.GetOr(0)), changed));
  }

  lemma VisitOver(t: Turn, x: seq<Send>, v: Visit)
    ensures VisitTurn(Over(t, x), v) == Over(VisitTurn(t, v), x)
  {
    StatusOver(t, x, v);
    BranchOver(StatusTurn(t, v), x, v);
    OverdueOver(BranchTurn(StatusTurn(t, v), v), x, v);
    JournalOver(OverdueTurn(BranchTurn(StatusTurn(t, v), v), v), x, v,
                DetectStatusChange(t.e.sent, v.issue.status).Some?);
  }

  // ---- a visit's messages are about its issue ----

  predicate About(log: seq<Send>, issue: int) {
    forall s <- log :: s.issue == issue
  }

  lemma EmitAbout(t: Turn, v: Visit, room: string, kind: Kind, cause: Cause)
    requires About(t.out, v.issue.id)
    ensures About(Emit(t, v, room, kind, cause).out, v.issue.id)
  {
  }

  lemma {:induction false} EmitAllAbout(t: Turn, v: Visit, rooms: seq<string>)
    requires About(t.out, v.issue.id)
    ensures About(EmitAll(t, v, rooms, KNew).out, v.issue.id)
  {
    if rooms != [] {
      var n := |rooms| - 1;
      EmitAllAbout(t, v, rooms[..n]);
      EmitAbout(EmitAll(t, v, rooms[..n], KNew), v, rooms[n], KNew, FirstSight);
    }
  }

  lemma SpreadAbout(t: Turn, v: Visit, others: seq<string>, group: Option<string>)
    requires About(t.out, v.issue.id)
    ensures About(SpreadTurn(t, v, others, group).out, v.issue.id)
  {
    hide EmitAll, About;
    EmitAbout(t, v, v.policy.room, KNew, FirstSight);
    var t1 := Risk(Emit(t, v, v.policy.room, KNew, FirstSight));
    EmitAllAbout(t1, v, others);
    var t3 := Risk(EmitAll(t1, v, others, KNew));
    if group.Some? { EmitAbout(t3, v, group.value, KNew, FirstSight); }
    var t4 := if group.Some? then Emit(t3, v, group.value, KNew, FirstSight) else t3;
    EmitAllAbout(Risk(t4), v, v.extras);
  }

  lemma UnknownAbout(t: Turn, v: Visit, stage: Stage)
    requires About(t.out, v.issue.id)
    ensures About(UnknownTurn(t, v, stage).out, v.issue.id)
  {
    hide About, SpreadTurn;
    SpreadAbout(t, v, Without(v.members, v.policy.room), WantingGroup(v.policy));
    EmitAbout(t, v, v.policy.room, KInfo, FirstSight);
    EmitAbout(t, v, v.policy.room, KReopened, FirstSight);
  }

  lemma KnownAbout(t: Turn, v: Visit, stage: Stage)
    requires t.e.sent.Some? && About(t.out, v.issue.id)
    ensures About(KnownTurn(t, v, stage).out, v.issue.id)
  {
    hide About;
    EmitAbout(Risk(t), v, v.policy.room, KReminder, Timer);
    EmitAbout(Risk(t), v, v.policy.groupRoom, KNew, GroupRepeat);
  }

  lemma BranchAbout(t: Turn, v: Visit)
    requires About(t.out, v.issue.id)
    ensures About(BranchTurn(t, v).out, v.issue.id)
  {
    hide About, KnownTurn, UnknownTurn;
    var t1, stage := Risk(t), StageOf(v.issue.status);
    if t1.e.sent.Some? { KnownAbout(t1, v, stage); } else { UnknownAbout(t1, v, stage); }
  }

  lemma StatusAbout(t: Turn, v: Visit)
    requires About(t.out, v.issue.id)
    ensures About(StatusTurn(t, v).out, v.issue.id)
  {
    hide About;
    var before := DetectStatusChange(t.e.sent, v.issue.status);
    if before.Some? {
      EmitAbout(Risk(t), v, v.policy.room, KStatusChange, Change(before.value, v.issue.status));
    }
  }

  lemma OverdueAbout(t: Turn, v: Visit)
    requires About(t.out, v.issue.id)
    ensures About(OverdueTurn(t, v).out, v.issue.id)
  {
    hide About;
    EmitAbout(Risk(Risk(t)), v, v.policy.room, KOverdue, Timer);
  }

  lemma JournalAbout(t: Turn, v: Visit, changed: bool)
    requires About(t.out, v.issue.id)
    ensures About(JournalTurn(t, v, changed).out, v.issue.id)
  {
    hide About, DescribedIds, NewJournals;
    var ids := DescribedIds(NewJournals(v.issue.journals, t.e.journal.GetOr(0)), changed);
    EmitAbout(Risk(Risk(t)), v, v.policy.room, KUpdated, Digest(ids));
  }

  lemma VisitAbout(t: Turn, v: Visit)
    requires About(t.out, v.issue.id)
    ensures About(VisitTurn(t, v).out, v.issue.id)
  {
    hide About, StatusTurn, BranchTurn, OverdueTurn, JournalTurn;
    StatusAbout(t, v);
    BranchAbout(StatusTurn(t, v), v);
    OverdueAbout(BranchTurn(StatusTurn(t, v), v), v);
    JournalAbout(OverdueTurn(BranchTurn(StatusTurn(t, v), v), v), v,
                 DetectStatusChange(t.e.sent, v.issue.status).Some?);
  }
}
