/** How often the announcement of one issue can reach one room. */
module RoomBounds {
  import opened Wrappers
  import opened Routing
  import opened IssueState
  import opened Processor
  import opened IssueHistory

  predicate Announces(s: Send, room: string) {
    s.kind == KNew && s.cause == FirstSight && s.room == room
  }

  /** The announcements to the room. */
  function To(log: seq<Send>, room: string): nat {
    if log == [] then 0
    else To(log[..|log| - 1], room) + if Announces(log[|log| - 1], room) then 1 else 0
  }

  function Times(rooms: seq<string>, room: string): nat {
    if rooms == [] then 0
    else Times(rooms[..|rooms| - 1], room) + if rooms[|rooms| - 1] == room then 1 else 0
  }

  /** A set of rooms is walked without repetition. */
  predicate NoRepeats(rooms: seq<string>) {
    forall a, b | 0 <= a < b < |rooms| :: rooms[a] != rooms[b]
  }

  lemma {:induction false} AtMostOnce(rooms: seq<string>, room: string)
    requires NoRepeats(rooms)
    ensures Times(rooms, room) == if room in rooms then 1 else 0
  {
    if rooms != [] {
      var n := |rooms| - 1;
      AtMostOnce(rooms[..n], room);
      assert rooms == rooms[..n] + [rooms[n]];
      assert rooms[n] !in rooms[..n];
    }
  }

  lemma {:induction false} WithoutNoRepeats(rooms: seq<string>, own: string)
    requires NoRepeats(rooms)
    ensures NoRepeats(Without(rooms, own))
  {
    if rooms != [] {
      var rest := Without(rooms[1..], own);
      WithoutNoRepeats(rooms[1..], own);
      assert rooms[0] !in rooms[1..];
      assert forall k | 0 <= k < |rest| :: rest[k] in rest && rest[k] in rooms[1..];
    }
  }

  lemma EmitTo(t: Turn, v: Visit, at: string, kind: Kind, cause: Cause, room: string)
    ensures var n := To(Emit(t, v, at, kind, cause).out, room);
            To(t.out, room) <= n <= To(t.out, room) + if kind == KNew && cause == FirstSight && at == room then 1 else 0
  {
    var s := Send(v.issue.id, at, kind, cause, v.now.at);
    assert (t.out + [s])[..|t.out|] == t.out;
  }

  lemma {:induction false} EmitAllTo(t: Turn, v: Visit, rooms: seq<string>, room: string)
    ensures To(EmitAll(t, v, rooms, KNew).out, room) <= To(t.out, room) + Times(rooms, room)
  {
    if rooms != [] {
      var n := |rooms| - 1;
      EmitAllTo(t, v, rooms[..n], room);
      EmitTo(EmitAll(t, v, rooms[..n], KNew), v, rooms[n], KNew, FirstSight, room);
    }
  }

  /** The own room is left out of the walk over the members. */
  lemma SpreadTo(t: Turn, v: Visit, group: Option<string>, room: string)
    requires NoRepeats(v.members) && NoRepeats(v.extras)
    ensures To(SpreadTurn(t, v, Without(v.members, v.policy.room), group).out, room) <= To(t.out, room) + 3
  {
    hide EmitAll, Emit, To, Times, NoRepeats, Without;
    var others := Without(v.members, v.policy.room);
    WithoutNoRepeats(v.members, v.policy.room);
    AtMostOnce(others, room);
    AtMostOnce(v.extras, room);
    EmitTo(t, v, v.policy.room, KNew, FirstSight, room);
    var t1 := Risk(Emit(t, v, v.policy.room, KNew, FirstSight));
    EmitAllTo(t1, v, others, room);
    var t2 := Risk(Risk(EmitAll(t1, v, others, KNew)));
    NotOwn(v, room);
    if group.Some? {
      EmitTo(Risk(EmitAll(t1, v, others, KNew)), v, group.value, KNew, FirstSight, room);
      EmitAllTo(Risk(Emit(Risk(EmitAll(t1, v, others, KNew)), v, group.value, KNew, FirstSight)), v, v.extras, room);
    } else {
      EmitAllTo(t2, v, v.extras, room);
    }
  }

  lemma NotOwn(v: Visit, room: string)
    ensures room == v.policy.room ==> room !in Without(v.members, v.policy.room)
  {
  }

  lemma UnknownTo(t: Turn, v: Visit, stage: Stage, room: string)
    requires NoRepeats(v.members) && NoRepeats(v.extras)
    ensures To(UnknownTurn(t, v, stage).out, room) <= To(t.out, room) + 3
  {
    hide SpreadTurn, To, NoRepeats;
    SpreadTo(t, v, WantingGroup(v.policy), room);
    EmitTo(t, v, v.policy.room, KInfo, FirstSight, room);
    EmitTo(t, v, v.policy.room, KReopened, FirstSight, room);
  }

  lemma KnownTo(t: Turn, v: Visit, stage: Stage, room: string)
    requires t.e.sent.Some?
    ensures To(KnownTurn(t, v, stage).out, room) == To(t.out, room)
  {
    hide To;
    EmitTo(Risk(t), v, v.policy.groupRoom, KNew, GroupRepeat, room);
    EmitTo(Risk(t), v, v.policy.room, KReminder, Timer, room);
  }

  lemma StatusTo(t: Turn, v: Visit, room: string)
    ensures To(StatusTurn(t, v).out, room) == To(t.out, room)
  {
    hide To;
    var before := DetectStatusChange(t.e.sent, v.issue.status);
    if before.Some? {
      EmitTo(Risk(t), v, v.policy.room, KStatusChange, Change(before.value, v.issue.status), room);
    }
  }

  lemma OverdueTo(t: Turn, v: Visit, room: string)
    ensures To(OverdueTurn(t, v).out, room) == To(t.out, room)
  {
    hide To;
    EmitTo(Risk(Risk(t)), v, v.policy.room, KOverdue, Timer, room);
  }

  lemma JournalTo(t: Turn, v: Visit, changed: bool, room: string)
    ensures To(JournalTurn(t, v, changed).out, room) == To(t.out, room)
  {
    hide To, DescribedIds, NewJournals, MaxJournal;
    var ids := DescribedIds(NewJournals(v.issue.journals, t.e.journal.GetOr(0)), changed);
    EmitTo(Risk(Risk(t)), v, v.policy.room, KUpdated, Digest(ids), room);
  }

  /** One visit announces an issue to one room at most three times, and only an
      unknown issue: the room may be the user's or a member's, the group's, and
      one routed by version. */
  lemma VisitAnnounces(t: Turn, v: Visit, room: string)
    requires NoRepeats(v.members) && NoRepeats(v.extras)
    ensures To(VisitTurn(t, v).out, room) <= To(t.out, room) + if t.e.sent.None? then 3 else 0
  {
    hide StatusTurn, OverdueTurn, JournalTurn, KnownTurn, UnknownTurn, To, NoRepeats;
    var t1 := StatusTurn(t, v);
    var t2 := BranchTurn(t1, v);
    var t3 := OverdueTurn(t2, v);
    StatusFrame(t, v);
    StatusTo(t, v, room);
    if t1.e.sent.Some? {
      KnownTo(Risk(t1), v, StageOf(v.issue.status), room);
    } else {
      UnknownTo(Risk(t1), v, StageOf(v.issue.status), room);
    }
    OverdueTo(t2, v, room);
    JournalTo(t3, v, DetectStatusChange(t.e.sent, v.issue.status).Some?, room);
  }

  predicate Walked(ms: seq<Move>) {
    forall m | m in ms && m.See? :: NoRepeats(m.visit.members) && NoRepeats(m.visit.extras)
  }

  /** So a room sees at most three announcements for every time the issue is treated as unknown. */
  lemma {:induction false} AnnouncedAtMostFired(c: Cell, ms: seq<Move>, room: string)
    requires c.log == [] && LegalRun(c, ms) && Walked(ms)
    ensures To(Run(c, ms).log, room) <= 3 * Count(c, ms).fired
  {
    hide VisitTurn, NoRepeats;
    if ms != [] {
      var n := |ms| - 1;
      assert ms[n] in ms && forall m :: m in ms[..n] ==> m in ms;
      AnnouncedAtMostFired(c, ms[..n], room);
      if ms[n].See? {
        var b, v := Run(c, ms[..n]), ms[n].visit;
        VisitAnnounces(Turn(b.cur.value, b.log, b.dirty, v.limit, false), v, room);
      }
    }
  }
}
