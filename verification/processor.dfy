/** One user's issues are examined and notifications emitted (src/bot/processor.py).

    An exception inside one issue's processing abandons that issue and leaves
    whatever was done so far. It can strike at a message (before the attempt:
    delivery errors are caught by the sender) and wherever foreign data is read;
    assignments to the dictionaries do not raise. `Visit.limit` is the number of
    such points that are passed before one raises. */
module Processor {
  import opened Wrappers
  import opened Routing
  import opened IssueState

  datatype Journal = Journal(id: int, notes: bool, fields: seq<string>)

  /** An issue as fetched. `journals` is None when reading them raised; `due` is a day number. */
  datatype Issue = Issue(id: int, status: string, version: Option<string>, due: Option<int>,
                         journals: Option<seq<Journal>>)

  datatype Cause =
    | FirstSight
    | GroupRepeat
    | Timer
    | Change(before: string, after: string)
    | Digest(ids: seq<int>)

  /** One attempt to send, logged whether or not it is delivered. */
  datatype Send = Send(issue: int, room: string, kind: Kind, cause: Cause, at: int)

  /** One issue in one cycle, with everything its processing depends on.
      `members` and `extras` list the two room sets in the order they are walked. */
  datatype Visit = Visit(
    issue: Issue, policy: Policy, members: seq<string>, extras: seq<string>,
    reminderAfter: int, groupRepeat: int, now: Stamp, limit: Option<nat>)

  predicate Enumerates(s: seq<string>, rooms: set<string>) {
    (set r | r in s) == rooms
  }

  /** The visit is made for this user: policy and rooms are those the routing functions give. */
  predicate Routed(v: Visit, cfg: UserCfg, dir: Directory) {
    && v.policy == PolicyOf(cfg)
    && Enumerates(v.members, MemberRooms(cfg, dir.users))
    && Enumerates(v.extras, ExtraRooms(v.issue.status, v.issue.version, cfg, dir))
  }

  // ---- detectors ----

  /** The previous status when it differs from the issue's; an empty stored status is never reported. */
  function DetectStatusChange(sent: Option<Sent>, status: string): Option<string> {
    if sent.Some? && sent.value.status != "" && sent.value.status != status
    then Some(sent.value.status) else None
  }

  function Ids(js: seq<Journal>): seq<int> {
    seq(|js|, k requires 0 <= k < |js| => js[k].id)
  }

  function Max(js: seq<Journal>): (m: int)
    requires js != []
    ensures exists k | 0 <= k < |js| :: js[k].id == m
    ensures forall k | 0 <= k < |js| :: js[k].id <= m
  {
    var n := |js| - 1;
    if n == 0 then js[0].id
    else
      var m := Max(js[..n]);
      if js[n].id > m then js[n].id else m
  }

  /** `max_journal_id`, 0 when there are none or they cannot be read. */
  function MaxJournal(js: Option<seq<Journal>>): int {
    if js.None? || js.value == [] then 0 else Max(js.value)
  }

  function Newer(js: seq<Journal>, last: int): (r: seq<Journal>)
    ensures forall j :: j in r <==> j in js && j.id > last
  {
    if js == [] then []
    else if js[0].id > last then [js[0]] + Newer(js[1..], last)
    else Newer(js[1..], last)
  }

  function NewJournals(js: Option<seq<Journal>>, last: int): seq<Journal> {
    if js.None? then [] else Newer(js.value, last)
  }

  const NAMED_FIELDS := {
    "status_id", "assigned_to_id", "priority_id", "done_ratio", "due_date", "subject", "tracker_id",
    "fixed_version_id", "project_id", "category_id", "parent_id", "start_date", "estimated_hours"
  }

  /** Does `describe_journal` give a text for this entry? */
  predicate Described(j: Journal, skipStatus: bool) {
    j.notes || exists f | f in j.fields :: f in NAMED_FIELDS && !(skipStatus && f == "status_id")
  }

  function DescribedIds(js: seq<Journal>, skipStatus: bool): (r: seq<int>)
    ensures forall x :: x in r <==> exists j :: j in js && j.id == x && Described(j, skipStatus)
  {
    if js == [] then []
    else
      assert forall j :: j in js <==> j == js[0] || j in js[1..];
      var rest := DescribedIds(js[1..], skipStatus);
      if Described(js[0], skipStatus) then
        assert ([js[0].id] + rest)[0] == js[0].id;
        [js[0].id] + rest
      else rest
  }

  // ---- one issue, step by step ----

  /** The state while one issue is processed: its entry, the log of attempts,
      whether its row must be written, and the points left before an exception. */
  datatype Turn = Turn(e: Entry, out: seq<Send>, dirty: bool, left: Option<nat>, raised: bool)

  function Risk(t: Turn): (r: Turn)
    ensures r.e == t.e && r.out == t.out && r.dirty == t.dirty
    ensures t.raised ==> r == t
    ensures t.left.None? ==> r == t
  {
    if t.raised || t.left.None? then t
    else if t.left.value == 0 then t.(raised := true)
    else t.(left := Some(t.left.value - 1))
  }

  function Emit(t: Turn, v: Visit, room: string, kind: Kind, cause: Cause): (r: Turn)
    ensures r.e == t.e && r.dirty == t.dirty
    ensures r.out == if r.raised then t.out else t.out + [Send(v.issue.id, room, kind, cause, v.now.at)]
    ensures t.raised ==> r == t
    ensures t.left.None? ==> r.raised == t.raised && r.left == t.left
  {
    var r := Risk(t);
    if r.raised then r else r.(out := r.out + [Send(v.issue.id, room, kind, cause, v.now.at)])
  }

  function EmitAll(t: Turn, v: Visit, rooms: seq<string>, kind: Kind): (r: Turn)
    ensures r.e == t.e && r.dirty == t.dirty
    ensures t.raised ==> r == t
    ensures t.left.None? ==> r.raised == t.raised && r.left == t.left
  {
    if rooms == [] then t
    else
      var n := |rooms| - 1;
      Emit(EmitAll(t, v, rooms[..n], kind), v, rooms[n], kind, FirstSight)
  }

  function Put(t: Turn, e: Entry): Turn {
    if t.raised then t else t.(e := e, dirty := true)
  }

  /** 1. A change of status is announced and recorded. */
  function StatusTurn(t: Turn, v: Visit): (r: Turn)
    ensures t.raised ==> r == t
    ensures t.dirty ==> r.dirty
    ensures !r.dirty ==> r.e == t.e
  {
    var t1 := Risk(t);
    var before := DetectStatusChange(t1.e.sent, v.issue.status);
    if t1.raised || before.None? then t1
    else
      var t2 := if KStatusChange in v.policy.wants
                then Emit(t1, v, v.policy.room, KStatusChange, Change(before.value, v.issue.status)) else t1;
      Put(t2, t2.e.(sent := Some(t2.e.sent.value.(status := v.issue.status))))
  }

  function Without(rooms: seq<string>, room: string): (r: seq<string>)
    ensures forall x :: x in r <==> x in rooms && x != room
  {
    if rooms == [] then []
    else if rooms[0] == room then Without(rooms[1..], room)
    else [rooms[0]] + Without(rooms[1..], room)
  }

  /** The announcements of an issue that appears as new or handed over. */
  function AnnounceTurn(t: Turn, v: Visit): (r: Turn)
    ensures r.e == t.e && r.dirty == t.dirty
    ensures t.raised ==> r == t
    ensures t.left.None? ==> r.raised == t.raised && r.left == t.left
  {
    if KNew !in v.policy.wants then t
    else SpreadTurn(t, v, Without(v.members, v.policy.room), WantingGroup(v.policy))
  }

  /** The group's room, when it is subscribed to new issues. */
  function WantingGroup(policy: Policy): Option<string> {
    if policy.groupWantsNew then Some(policy.groupRoom) else None
  }

  function SpreadTurn(t: Turn, v: Visit, others: seq<string>, group: Option<string>): (r: Turn)
    ensures r.e == t.e && r.dirty == t.dirty
    ensures t.raised ==> r == t
    ensures t.left.None? ==> r.raised == t.raised && r.left == t.left
  {
    var t1 := Emit(t, v, v.policy.room, KNew, FirstSight);
    FinishTurn(EmitAll(Risk(t1), v, others, KNew), v, group)
  }

  function FinishTurn(t: Turn, v: Visit, group: Option<string>): (r: Turn)
    ensures r.e == t.e && r.dirty == t.dirty
    ensures t.raised ==> r == t
    ensures t.left.None? ==> r.raised == t.raised && r.left == t.left
  {
    var t1 := Risk(t);
    var t2 := if group.Some? then Emit(t1, v, group.value, KNew, FirstSight) else t1;
    EmitAll(Risk(t2), v, v.extras, KNew)
  }

  /** A first sight that concerns the user's own room only. */
  function TellTurn(t: Turn, v: Visit, kind: Kind): (r: Turn)
    ensures r.e == t.e && r.dirty == t.dirty
    ensures t.raised ==> r == t
    ensures t.dirty ==> r.dirty
    ensures !r.dirty ==> r.e == t.e
  {
    if kind in v.policy.wants then Emit(t, v, v.policy.room, kind, FirstSight) else t
  }

  function Remember(t: Turn, v: Visit, groupAt: Option<Stamp>): Turn {
    Put(t, t.e.(sent := Some(Sent(v.now, v.issue.status, groupAt))))
  }

  predicate RepeatDue(sent: Sent, v: Visit) {
    var elapsed := if sent.groupAt.Some? then v.now.at - sent.groupAt.value.at else v.groupRepeat + 1;
    elapsed >= v.groupRepeat
  }

  function SendRepeatTurn(t: Turn, v: Visit, room: string): (r: Turn)
    requires t.e.sent.Some?
    ensures t.raised ==> r == t
    ensures t.dirty ==> r.dirty
    ensures !r.dirty ==> r.e == t.e
  {
    var t1 := Emit(t, v, room, KNew, GroupRepeat);
    Put(t1, t1.e.(sent := Some(t1.e.sent.value.(groupAt := Some(v.now)))))
  }

  /** The repeated message to the group's room. */
  function RepeatTurn(t: Turn, v: Visit): (r: Turn)
    requires t.e.sent.Some?
    ensures t.raised ==> r == t
    ensures t.dirty ==> r.dirty
    ensures !r.dirty ==> r.e == t.e
  {
    if v.policy.groupRoom == "" then t
    else
      var t1 := Risk(t);
      if !t1.raised && RepeatDue(t1.e.sent.value, v) && v.policy.groupWantsNew then
        SendRepeatTurn(t1, v, v.policy.groupRoom)
      else t1
  }

  /** The reminder about provided information. */
  function ReminderTurn(t: Turn, v: Visit): (r: Turn)
    requires t.e.sent.Some?
    ensures t.raised ==> r == t
    ensures t.dirty ==> r.dirty
    ensures !r.dirty ==> r.e == t.e
  {
    if KReminder !in v.policy.wants then t
    else
      var t1 := Risk(t);
      var since := v.now.at - if t1.e.reminder.Some? then t1.e.reminder.value.at else t1.e.sent.value.notifiedAt.at;
      if t1.raised || since < v.reminderAfter then t1
      else
        var t2 := Emit(t1, v, v.policy.room, KReminder, Timer);
        Put(t2, t2.e.(reminder := Some(v.now)))
  }

  /** What a status means to the processing. */
  datatype Stage = Arrived | Answered | Reopened | Other

  function StageOf(status: string): Stage {
    if status == STATUS_NEW || status == STATUS_RV then Arrived
    else if status == STATUS_INFO_PROVIDED then Answered
    else if status == STATUS_REOPENED then Reopened
    else Other
  }

  /** 2-6. First sight by status, group repeats and reminders. */
  function BranchTurn(t: Turn, v: Visit): (r: Turn)
    ensures t.raised ==> r == t
    ensures t.dirty ==> r.dirty
    ensures !r.dirty ==> r.e == t.e
  {
    var t1 := Risk(t);
    if t1.raised then t1
    else if t1.e.sent.Some? then KnownTurn(t1, v, StageOf(v.issue.status))
    else UnknownTurn(t1, v, StageOf(v.issue.status))
  }

  function KnownTurn(t: Turn, v: Visit, stage: Stage): (r: Turn)
    requires t.e.sent.Some?
    ensures t.dirty ==> r.dirty
    ensures !r.dirty ==> r.e == t.e
  {
    match stage
    case Arrived => RepeatTurn(t, v)
    case Answered => ReminderTurn(t, v)
    case Reopened => t
    case Other => t
  }

  /** First sight: announced according to the status, then remembered. */
  function UnknownTurn(t: Turn, v: Visit, stage: Stage): (r: Turn)
    ensures t.dirty ==> r.dirty
    ensures !r.dirty ==> r.e == t.e
  {
    match stage
    case Arrived => Remember(AnnounceTurn(t, v), v, Some(v.now))
    case Answered => Remember(TellTurn(t, v, KInfo), v, None)
    case Reopened => Remember(TellTurn(t, v, KReopened), v, None)
    case Other => Remember(t, v, None)
  }

  /** 7. Overdue issues. */
  function OverdueTurn(t: Turn, v: Visit): (r: Turn)
    ensures t.raised ==> r == t
    ensures t.dirty ==> r.dirty
    ensures !r.dirty ==> r.e == t.e
  {
    var t1 := Risk(t);
    if t1.raised || v.issue.due.None? || v.issue.due.value >= DateOf(v.now)
       || KOverdue !in v.policy.wants then t1
    else
      var t2 := Risk(t1);
      if t2.raised || (t2.e.overdue.Some? && DateOf(t2.e.overdue.value) >= DateOf(v.now)) then t2
      else
        var t3 := Emit(t2, v, v.policy.room, KOverdue, Timer);
        Put(t3, t3.e.(overdue := Some(v.now)))
  }

  /** 8. Comments and field changes. `changed` says a status change was detected in this visit. */
  function JournalTurn(t: Turn, v: Visit, changed: bool): (r: Turn)
    ensures t.raised ==> r == t
    ensures t.dirty ==> r.dirty
    ensures !r.dirty ==> r.e == t.e
  {
    var t1 := Risk(t);
    var last := t1.e.journal.GetOr(0);
    var newer := NewJournals(v.issue.journals, last);
    var max := MaxJournal(v.issue.journals);
    if t1.e.journal.None? then Follow(t1, 0, max)
    else if newer != [] && t1.e.sent.Some? && KUpdated in v.policy.wants then
      Follow(DigestTurn(t1, v, DescribedIds(newer, changed)), last, max)
    else Follow(t1, last, max)
  }

  /** The message about new journal entries; an entry without a text is passed over. */
  function DigestTurn(t: Turn, v: Visit, ids: seq<int>): (r: Turn)
    ensures r.e == t.e && r.dirty == t.dirty
    ensures t.raised ==> r == t
  {
    var t1 := Risk(t);
    if ids != [] then Emit(t1, v, v.policy.room, KUpdated, Digest(ids)) else t1
  }

  function Follow(t: Turn, last: int, max: int): Turn {
    if max > last then Put(t, t.e.(journal := Some(max))) else t
  }

  /** The whole processing of one issue. */
  function VisitTurn(t: Turn, v: Visit): (r: Turn)
    ensures t.dirty ==> r.dirty
    ensures !r.dirty ==> r.e == t.e
  {
    var t1 := StatusTurn(t, v);
    var t2 := BranchTurn(t1, v);
    var t3 := OverdueTurn(t2, v);
    JournalTurn(t3, v, DetectStatusChange(t.e.sent, v.issue.status).Some?)
  }

  // ---- where a first-seen issue is announced ----

  function Announcements(v: Visit, rooms: seq<string>): seq<Send> {
    seq(|rooms|, k requires 0 <= k < |rooms| => Send(v.issue.id, rooms[k], KNew, FirstSight, v.now.at))
  }

  lemma {:induction false} EmitAllAppends(t: Turn, v: Visit, rooms: seq<string>)
    requires t.left.None? && !t.raised
    ensures EmitAll(t, v, rooms, KNew).out == t.out + Announcements(v, rooms)
  {
    if rooms != [] {
      var n := |rooms| - 1;
      EmitAllAppends(t, v, rooms[..n]);
      assert Announcements(v, rooms) == Announcements(v, rooms[..n]) + Announcements(v, [rooms[n]]);
    }
  }

  function Listed(group: Option<string>): seq<string> {
    if group.Some? then [group.value] else []
  }

  function AnnouncedRooms(v: Visit): seq<string> {
    [v.policy.room] + (Without(v.members, v.policy.room) + (Listed(WantingGroup(v.policy)) + v.extras))
  }

  lemma FinishAppends(t: Turn, v: Visit, group: Option<string>)
    requires t.left.None? && !t.raised
    ensures FinishTurn(t, v, group).out == t.out + Announcements(v, Listed(group) + v.extras)
  {
    hide EmitAll;
    var t1 := if group.Some? then Emit(t, v, group.value, KNew, FirstSight) else t;
    assert t1.out == t.out + Announcements(v, Listed(group));
    EmitAllAppends(t1, v, v.extras);
    AnnouncementsJoin(v, Listed(group), v.extras);
  }

  lemma SpreadAppends(t: Turn, v: Visit, others: seq<string>, group: Option<string>)
    requires t.left.None? && !t.raised
    ensures SpreadTurn(t, v, others, group).out
         == t.out + Announcements(v, [v.policy.room] + (others + (Listed(group) + v.extras)))
  {
    hide EmitAll, FinishTurn, Listed;
    var t1 := Emit(t, v, v.policy.room, KNew, FirstSight);
    assert t1.out == t.out + Announcements(v, [v.policy.room]);
    EmitAllAppends(t1, v, others);
    FinishAppends(EmitAll(t1, v, others, KNew), v, group);
    AnnouncementsJoin(v, others, Listed(group) + v.extras);
    AnnouncementsJoin(v, [v.policy.room], others + (Listed(group) + v.extras));
  }

  lemma AnnouncementsJoin(v: Visit, a: seq<string>, b: seq<string>)
    ensures Announcements(v, a + b) == Announcements(v, a) + Announcements(v, b)
  {
  }

  /** Undisturbed, the announcement of a new issue reaches exactly the user's
      room, the rooms of the group's members, the group's room if it is
      subscribed, and the rooms routed by version and status. */
  lemma AnnouncementReaches(t: Turn, v: Visit, cfg: UserCfg, dir: Directory)
    requires t.left.None? && !t.raised
    requires Routed(v, cfg, dir) && ShouldNotify(cfg, KNew)
    ensures t.out <= AnnounceTurn(t, v).out
    ensures forall s <- AnnounceTurn(t, v).out[|t.out|..] ::
              s == Send(v.issue.id, s.room, KNew, FirstSight, v.now.at)
    ensures (set s | s in AnnounceTurn(t, v).out[|t.out|..] :: s.room)
         == {cfg.room} + MemberRooms(cfg, dir.users)
            + (if GroupWants(cfg, KNew) then {GroupRoom(cfg)} else {})
            + ExtraRooms(v.issue.status, v.issue.version, cfg, dir)
  {
    hide ShouldNotify, GroupWants, GroupRoom, MemberRooms, ExtraRooms;
    SpreadAppends(t, v, Without(v.members, v.policy.room), WantingGroup(v.policy));
    assert AnnounceTurn(t, v).out[|t.out|..] == Announcements(v, AnnouncedRooms(v));
    RoomsAnnounced(v, AnnouncedRooms(v));
    JoinedSet(v.policy.room, v.members, Without(v.members, v.policy.room), Listed(WantingGroup(v.policy)), v.extras);
    assert (set r | r in Listed(WantingGroup(v.policy)))
        == if GroupWants(cfg, KNew) then {GroupRoom(cfg)} else {};
  }

  lemma JoinedSet(own: string, members: seq<string>, others: seq<string>, group: seq<string>, extras: seq<string>)
    requires forall x :: x in others <==> x in members && x != own
    ensures (set r | r in [own] + (others + (group + extras)))
         == {own} + (set r | r in members) + (set r | r in group) + (set r | r in extras)
  {
  }

  lemma RoomsAnnounced(v: Visit, rooms: seq<string>)
    ensures (set s | s in Announcements(v, rooms) :: s.room) == (set r | r in rooms)
  {
    forall r
      ensures r in rooms ==> exists s :: s in Announcements(v, rooms) && s.room == r
    {
      if r in rooms {
        var k :| 0 <= k < |rooms| && rooms[k] == r;
        assert Announcements(v, rooms)[k].room == r;
      }
    }
  }

  // ---- a user's issues, one after the other ----

  /** The state of one cycle of one user: dictionaries, rows to write, log of attempts. */
  datatype Progress = Progress(mem: Mem, dirty: set<int>, out: seq<Send>)

  function TurnOf(p: Progress, v: Visit): Turn {
    VisitTurn(Turn(At(p.mem, v.issue.id), p.out, v.issue.id in p.dirty, v.limit, false), v)
  }

  function Advance(p: Progress, v: Visit): Progress {
    var t := TurnOf(p, v);
    Progress(WithEntry(p.mem, v.issue.id, t.e),
             if t.dirty then p.dirty + {v.issue.id} else p.dirty,
             t.out)
  }

  function AdvanceAll(p: Progress, vs: seq<Visit>): Progress {
    if vs == [] then p else Advance(AdvanceAll(p, vs[..|vs| - 1]), vs[|vs| - 1])
  }

  /** The cycle of `check_user_issues` after the issues have been fetched. */
  class UserCycle {
    var sent: map<int, Sent>
    var reminders: map<int, Stamp>
    var overdue: map<int, Stamp>
    var journals: map<int, int>
    var changedSent: set<int>
    var changedReminders: set<int>
    var changedOverdue: set<int>
    var changedJournals: set<int>
    var outbox: seq<Send>
    var left: Option<nat>

    constructor (mem: Mem, out: seq<Send>)
      ensures State() == Progress(mem, {}, out)
    {
      sent, reminders, overdue, journals := mem.sent, mem.reminders, mem.overdue, mem.journals;
      changedSent, changedReminders, changedOverdue, changedJournals := {}, {}, {}, {};
      outbox, left := out, None;
    }

    function Dicts(): Mem
      reads this
    {
      Mem(sent, reminders, overdue, journals)
    }

    function Changed(): set<int>
      reads this
    {
      changedSent + changedReminders + changedOverdue + changedJournals
    }

    function State(): Progress
      reads this
    {
      Progress(Dicts(), Changed(), outbox)
    }

    function Now(id: int, raised: bool): Turn
      reads this
    {
      Turn(At(Dicts(), id), outbox, id in Changed(), left, raised)
    }

    /** Only the issue `id` has been worked on. */
    twostate predicate Only(id: int)
      reads this
    {
      forall j | j != id ::
        At(Dicts(), j) == old(At(Dicts(), j)) && (j in Changed() <==> j in old(Changed()))
    }

    method Survive(v: Visit) returns (raised: bool)
      modifies this`left
      ensures Now(v.issue.id, raised) == Risk(old(Now(v.issue.id, false)))
    {
      match left
      case None => raised := false;
      case Some(n) =>
        if n == 0 { raised := true; }
        else { left := Some(n - 1); raised := false; }
    }

    method SendSafe(v: Visit, room: string, kind: Kind, cause: Cause) returns (raised: bool)
      modifies this`left, this`outbox
      ensures Now(v.issue.id, raised) == Emit(old(Now(v.issue.id, false)), v, room, kind, cause)
    {
      raised := Survive(v);
      if !raised {
        outbox := outbox + [Send(v.issue.id, room, kind, cause, v.now.at)];
      }
    }

    method SendAll(v: Visit, rooms: seq<string>, kind: Kind) returns (raised: bool)
      modifies this`left, this`outbox
      ensures Now(v.issue.id, raised) == EmitAll(old(Now(v.issue.id, false)), v, rooms, kind)
    {
      raised := false;
      for i := 0 to |rooms|
        invariant Now(v.issue.id, raised) == EmitAll(old(Now(v.issue.id, false)), v, rooms[..i], kind)
      {
        assert rooms[..i + 1][..i] == rooms[..i];
        if !raised {
          raised := SendSafe(v, rooms[i], kind, FirstSight);
        }
      }
      assert rooms[..|rooms|] == rooms;
    }

    method NoteStatus(v: Visit) returns (before: Option<string>, raised: bool)
      modifies this
      ensures before == DetectStatusChange(old(Get(sent, v.issue.id)), v.issue.status)
      ensures Now(v.issue.id, raised) == StatusTurn(old(Now(v.issue.id, false)), v)
      ensures Only(v.issue.id)
    {
      var id := v.issue.id;
      before := DetectStatusChange(Get(sent, id), v.issue.status);
      raised := Survive(v);
      if raised || before.None? { return; }
      if KStatusChange in v.policy.wants {
        raised := SendSafe(v, v.policy.room, KStatusChange, Change(before.value, v.issue.status));
        if raised { return; }
      }
      sent := sent[id := sent[id].(status := v.issue.status)];
      changedSent := changedSent + {id};
    }

    method Announce(v: Visit) returns (raised: bool)
      modifies this`left, this`outbox
      ensures Now(v.issue.id, raised) == AnnounceTurn(old(Now(v.issue.id, false)), v)
    {
      raised := false;
      if KNew in v.policy.wants {
        raised := Spread(v, Without(v.members, v.policy.room), WantingGroup(v.policy));
      }
    }

    method Spread(v: Visit, others: seq<string>, group: Option<string>) returns (raised: bool)
      modifies this`left, this`outbox
      ensures Now(v.issue.id, raised) == SpreadTurn(old(Now(v.issue.id, false)), v, others, group)
    {
      raised := SendSafe(v, v.policy.room, KNew, FirstSight);
      if raised { return; }
      raised := Survive(v);
      if raised { return; }
      raised := SendAll(v, others, KNew);
      if raised { return; }
      raised := Survive(v);
      if raised { return; }
      if group.Some? {
        raised := SendSafe(v, group.value, KNew, FirstSight);
        if raised { return; }
      }
      raised := Survive(v);
      if raised { return; }
      raised := SendAll(v, v.extras, KNew);
    }

    method RememberSent(v: Visit, groupAt: Option<Stamp>)
      modifies this`sent, this`changedSent
      ensures Now(v.issue.id, false) == Remember(old(Now(v.issue.id, false)), v, groupAt)
      ensures Only(v.issue.id)
    {
      sent := sent[v.issue.id := Sent(v.now, v.issue.status, groupAt)];
      changedSent := changedSent + {v.issue.id};
    }

    method RepeatToGroup(v: Visit) returns (raised: bool)
      requires v.issue.id in sent
      modifies this
      ensures Now(v.issue.id, raised) == RepeatTurn(old(Now(v.issue.id, false)), v)
      ensures Only(v.issue.id)
    {
      raised := false;
      if v.policy.groupRoom == "" { return; }
      raised := Survive(v);
      if raised { return; }
      if RepeatDue(sent[v.issue.id], v) && v.policy.groupWantsNew {
        raised := SendRepeat(v, v.policy.groupRoom);
      }
    }

    method SendRepeat(v: Visit, room: string) returns (raised: bool)
      requires v.issue.id in sent
      modifies this
      ensures Now(v.issue.id, raised) == SendRepeatTurn(old(Now(v.issue.id, false)), v, room)
      ensures Only(v.issue.id)
    {
      var id := v.issue.id;
      raised := SendSafe(v, room, KNew, GroupRepeat);
      if raised { return; }
      sent := sent[id := sent[id].(groupAt := Some(v.now))];
      changedSent := changedSent + {id};
    }

    method Remind(v: Visit) returns (raised: bool)
      requires v.issue.id in sent
      modifies this
      ensures Now(v.issue.id, raised) == ReminderTurn(old(Now(v.issue.id, false)), v)
      ensures Only(v.issue.id)
    {
      var id := v.issue.id;
      raised := false;
      if KReminder !in v.policy.wants { return; }
      raised := Survive(v);
      if raised { return; }
      var since := v.now.at - if id in reminders then reminders[id].at else sent[id].notifiedAt.at;
      if since >= v.reminderAfter {
        raised := SendSafe(v, v.policy.room, KReminder, Timer);
        if raised { return; }
        reminders := reminders[id := v.now];
        changedReminders := changedReminders + {id};
      }
    }

    method Branch(v: Visit) returns (raised: bool)
      modifies this
      ensures Now(v.issue.id, raised) == BranchTurn(old(Now(v.issue.id, false)), v)
      ensures Only(v.issue.id)
    {
      var id, stage := v.issue.id, StageOf(v.issue.status);
      raised := Survive(v);
      if raised { return; }
      if stage == Arrived && id !in sent {
        raised := Announce(v);
        if raised { return; }
        RememberSent(v, Some(v.now));
      } else if stage == Arrived {
        raised := RepeatToGroup(v);
      } else if stage == Answered {
        if id !in sent {
          if KInfo in v.policy.wants {
            raised := SendSafe(v, v.policy.room, KInfo, FirstSight);
            if raised { return; }
          }
          RememberSent(v, None);
        } else {
          raised := Remind(v);
        }
      } else if stage == Reopened && id !in sent {
        if KReopened in v.policy.wants {
          raised := SendSafe(v, v.policy.room, KReopened, FirstSight);
          if raised { return; }
        }
        RememberSent(v, None);
      } else if id !in sent {
        RememberSent(v, None);
      }
    }

    method NoteOverdue(v: Visit) returns (raised: bool)
      modifies this
      ensures Now(v.issue.id, raised) == OverdueTurn(old(Now(v.issue.id, false)), v)
      ensures Only(v.issue.id)
    {
      var id := v.issue.id;
      var today := DateOf(v.now);
      raised := Survive(v);
      if raised { return; }
      if v.issue.due.Some? && v.issue.due.value < today {
        if KOverdue in v.policy.wants {
          raised := Survive(v);
          if raised { return; }
          if id !in overdue || DateOf(overdue[id]) < today {
            raised := SendSafe(v, v.policy.room, KOverdue, Timer);
            if raised { return; }
            overdue := overdue[id := v.now];
            changedOverdue := changedOverdue + {id};
          }
        }
      }
    }

    method NoteJournals(v: Visit, changed: bool) returns (raised: bool)
      modifies this
      ensures Now(v.issue.id, raised) == JournalTurn(old(Now(v.issue.id, false)), v, changed)
      ensures Only(v.issue.id)
    {
      var id := v.issue.id;
      raised := Survive(v);
      if raised { return; }
      var last := Get(journals, id).GetOr(0);
      var newer := NewJournals(v.issue.journals, last);
      var max := MaxJournal(v.issue.journals);
      if id !in journals {
        FollowJournals(id, 0, max);
        return;
      }
      if newer != [] && id in sent && KUpdated in v.policy.wants {
        raised := SendDigest(v, DescribedIds(newer, changed));
        if raised { return; }
      }
      FollowJournals(id, last, max);
    }

    method SendDigest(v: Visit, ids: seq<int>) returns (raised: bool)
      modifies this`left, this`outbox
      ensures Now(v.issue.id, raised) == DigestTurn(old(Now(v.issue.id, false)), v, ids)
    {
      raised := Survive(v);
      if !raised && ids != [] {
        raised := SendSafe(v, v.policy.room, KUpdated, Digest(ids));
      }
    }

    method FollowJournals(id: int, last: int, max: int)
      modifies this`journals, this`changedJournals
      ensures Now(id, false) == Follow(old(Now(id, false)), last, max)
      ensures Only(id)
    {
      if max > last {
        journals := journals[id := max];
        changedJournals := changedJournals + {id};
      }
    }

    method NoteRest(v: Visit, changed: bool) returns (raised: bool)
      modifies this
      ensures Now(v.issue.id, raised) == JournalTurn(OverdueTurn(old(Now(v.issue.id, false)), v), v, changed)
      ensures Only(v.issue.id)
    {
      raised := NoteOverdue(v);
      if !raised {
        raised := NoteJournals(v, changed);
      }
    }

    /** One turn of the loop over the issues: an exception skips the rest of the issue only. */
    method ProcessIssue(v: Visit)
      modifies this
      ensures State() == Advance(old(State()), v)
    {
      left := v.limit;
      var before, raised := NoteStatus(v);
      if !raised {
        raised := Branch(v);
      }
      if !raised {
        raised := NoteRest(v, before.Some?);
      }
      assert Now(v.issue.id, raised) == TurnOf(old(State()), v);
      SameMem(Dicts(), Advance(old(State()), v).mem);
      assert forall j :: j in Changed() <==> j in Advance(old(State()), v).dirty;
    }

    method ProcessAll(vs: seq<Visit>)
      modifies this
      ensures State() == AdvanceAll(old(State()), vs)
    {
      for i := 0 to |vs|
        invariant State() == AdvanceAll(old(State()), vs[..i])
      {
        ProcessIssue(vs[i]);
        assert vs[..i + 1][..i] == vs[..i];
      }
      assert vs[..|vs|] == vs;
    }
  }
}
