/** What each status of an issue brings (src/bot/processor.py, sections 2 to 6),
    stated by the names of the statuses. */
module ByStatus {
  import opened Wrappers
  import opened Routing
  import opened IssueState
  import opened Processor
  import opened IssueHistory

  lemma {:induction false} OfAnnouncements(log: seq<Send>, v: Visit, rooms: seq<string>, kind: Kind)
    ensures Of(log + Announcements(v, rooms), kind)
         == Of(log, kind) + if kind == KNew then Announcements(v, rooms) else []
  {
    hide Of;
    if rooms == [] {
      assert log + Announcements(v, rooms) == log;
    } else {
      var n := |rooms| - 1;
      var s := Send(v.issue.id, rooms[n], KNew, FirstSight, v.now.at);
      OfAnnouncements(log, v, rooms[..n], kind);
      assert Announcements(v, rooms) == Announcements(v, rooms[..n]) + [s];
      assert log + Announcements(v, rooms) == (log + Announcements(v, rooms[..n])) + [s];
      OfSnoc(log + Announcements(v, rooms[..n]), s, kind);
    }
  }

  /** The message that tells the user's own room, if it is wanted. */
  function Told(v: Visit, kind: Kind): seq<Send> {
    if kind in v.policy.wants then [Send(v.issue.id, v.policy.room, kind, FirstSight, v.now.at)] else []
  }

  /** A first-seen issue: in the statuses "new" and "handed over" it is announced,
      in "information provided" and "reopened" the user alone is told, in any other
      it is remembered silently. */
  lemma UnknownByStatus(t: Turn, v: Visit)
    requires t.left.None? && !t.raised && t.e.sent.None?
    ensures var r, status := VisitTurn(t, v), v.issue.status;
            && Of(r.out, KNew) == Of(t.out, KNew)
                 + (if status in {STATUS_NEW, STATUS_RV} && KNew in v.policy.wants
                    then Announcements(v, AnnouncedRooms(v)) else [])
            && Of(r.out, KInfo) == Of(t.out, KInfo) + (if status == STATUS_INFO_PROVIDED then Told(v, KInfo) else [])
            && Of(r.out, KReopened) == Of(t.out, KReopened)
                 + (if status == STATUS_REOPENED then Told(v, KReopened) else [])
            && r.e.sent == Some(Sent(v.now, status, if status in {STATUS_NEW, STATUS_RV} then Some(v.now) else None))
  {
    hide StatusTurn, OverdueTurn, JournalTurn, UnknownTurn, Of, Announcements, AnnouncedRooms, Told;
    assert StatusTurn(t, v) == t by { NothingToDetect(t, v); }
    var t2 := UnknownTurn(t, v, StageOf(v.issue.status));
    UnknownMessages(t, v);
    RestIsOther(t2, v, false, KNew);
    RestIsOther(t2, v, false, KInfo);
    RestIsOther(t2, v, false, KReopened);
    RestKeepsSent(t2, v, false);
  }

  lemma NothingToDetect(t: Turn, v: Visit)
    requires t.left.None? && !t.raised && DetectStatusChange(t.e.sent, v.issue.status).None?
    ensures StatusTurn(t, v) == t
  {
  }

  lemma UnknownMessages(t: Turn, v: Visit)
    requires t.left.None? && !t.raised && t.e.sent.None?
    ensures var r, status := UnknownTurn(t, v, StageOf(v.issue.status)), v.issue.status;
            && Of(r.out, KNew) == Of(t.out, KNew)
                 + (if status in {STATUS_NEW, STATUS_RV} && KNew in v.policy.wants
                    then Announcements(v, AnnouncedRooms(v)) else [])
            && Of(r.out, KInfo) == Of(t.out, KInfo) + (if status == STATUS_INFO_PROVIDED then Told(v, KInfo) else [])
            && Of(r.out, KReopened) == Of(t.out, KReopened)
                 + (if status == STATUS_REOPENED then Told(v, KReopened) else [])
            && r.e.sent == Some(Sent(v.now, status, if status in {STATUS_NEW, STATUS_RV} then Some(v.now) else None))
  {
    hide Of, SpreadTurn, Announcements, AnnouncedRooms;
    EmitOf(t, v, v.policy.room, KInfo, FirstSight, KNew);
    EmitOf(t, v, v.policy.room, KInfo, FirstSight, KInfo);
    EmitOf(t, v, v.policy.room, KInfo, FirstSight, KReopened);
    EmitOf(t, v, v.policy.room, KReopened, FirstSight, KNew);
    EmitOf(t, v, v.policy.room, KReopened, FirstSight, KInfo);
    EmitOf(t, v, v.policy.room, KReopened, FirstSight, KReopened);
    if KNew in v.policy.wants { Announced(t, v); }
    OfAnnouncements(t.out, v, AnnouncedRooms(v), KNew);
    OfAnnouncements(t.out, v, AnnouncedRooms(v), KInfo);
    OfAnnouncements(t.out, v, AnnouncedRooms(v), KReopened);
  }

  lemma Announced(t: Turn, v: Visit)
    requires t.left.None? && !t.raised && KNew in v.policy.wants
    ensures AnnounceTurn(t, v).out == t.out + Announcements(v, AnnouncedRooms(v))
  {
    hide SpreadTurn, Announcements;
    SpreadAppends(t, v, Without(v.members, v.policy.room), WantingGroup(v.policy));
  }

  /** The overdue notice and the journal message, sent last. */
  function RestTurn(t: Turn, v: Visit, changed: bool): Turn {
    JournalTurn(OverdueTurn(t, v), v, changed)
  }

  lemma RestIsOther(t: Turn, v: Visit, changed: bool, kind: Kind)
    requires kind != KOverdue && kind != KUpdated
    ensures Of(RestTurn(t, v, changed).out, kind) == Of(t.out, kind)
  {
    hide Of, OverdueTurn, JournalTurn;
    OverdueOf(t, v, kind);
    JournalOf(OverdueTurn(t, v), v, changed, kind);
  }

  lemma RestKeepsSent(t: Turn, v: Visit, changed: bool)
    ensures RestTurn(t, v, changed).e.sent == t.e.sent
  {
    hide OverdueTurn, JournalTurn;
    OverdueFrame(t, v);
    JournalFrame(OverdueTurn(t, v), v, changed);
  }

  // ---- a known issue ----

  /** The time since the last message to the group's room has come, or none is known. */
  predicate GroupTime(sent: Sent, v: Visit) {
    sent.groupAt.Some? ==> v.now.at - sent.groupAt.value.at >= v.groupRepeat
  }

  /** A known issue in "new" or "handed over" is repeated to the group's room exactly
      when there is one, it is subscribed, and the time has come or is not known; it is
      never announced again, and in no status is the user told of it again. */
  lemma KnownByStatus(t: Turn, v: Visit)
    requires t.left.None? && !t.raised && t.e.sent.Some?
    ensures var r, status := VisitTurn(t, v), v.issue.status;
            var repeated := status in {STATUS_NEW, STATUS_RV} && v.policy.groupRoom != "" && v.policy.groupWantsNew
                            && GroupTime(t.e.sent.value, v);
            && Of(r.out, KNew) == Of(t.out, KNew)
                 + (if repeated then [Send(v.issue.id, v.policy.groupRoom, KNew, GroupRepeat, v.now.at)] else [])
            && Of(r.out, KInfo) == Of(t.out, KInfo)
            && Of(r.out, KReopened) == Of(t.out, KReopened)
            && r.e.sent.Some?
            && r.e.sent.value.groupAt == (if repeated then Some(v.now) else t.e.sent.value.groupAt)
            && r.e.sent.value.notifiedAt == t.e.sent.value.notifiedAt
  {
    hide StatusTurn, OverdueTurn, JournalTurn, KnownTurn, Of;
    var t1, changed := StatusTurn(t, v), DetectStatusChange(t.e.sent, v.issue.status).Some?;
    StatusFrame(t, v);
    StatusCalm(t, v);
    StatusOf(t, v, KNew);
    StatusOf(t, v, KInfo);
    StatusOf(t, v, KReopened);
    var t2 := KnownTurn(t1, v, StageOf(v.issue.status));
    KnownMessages(t1, v);
    RestIsOther(t2, v, changed, KNew);
    RestIsOther(t2, v, changed, KInfo);
    RestIsOther(t2, v, changed, KReopened);
    RestKeepsSent(t2, v, changed);
  }

  lemma StatusCalm(t: Turn, v: Visit)
    requires t.left.None? && !t.raised
    ensures StatusTurn(t, v).left.None? && !StatusTurn(t, v).raised
  {
  }

  lemma KnownMessages(t: Turn, v: Visit)
    requires t.left.None? && !t.raised && t.e.sent.Some?
    ensures var r, status := KnownTurn(t, v, StageOf(v.issue.status)), v.issue.status;
            var repeated := status in {STATUS_NEW, STATUS_RV} && v.policy.groupRoom != "" && v.policy.groupWantsNew
                            && GroupTime(t.e.sent.value, v);
            && Of(r.out, KNew) == Of(t.out, KNew)
                 + (if repeated then [Send(v.issue.id, v.policy.groupRoom, KNew, GroupRepeat, v.now.at)] else [])
            && Of(r.out, KInfo) == Of(t.out, KInfo)
            && Of(r.out, KReopened) == Of(t.out, KReopened)
            && r.e.sent.Some?
            && r.e.sent.value.groupAt == (if repeated then Some(v.now) else t.e.sent.value.groupAt)
            && r.e.sent.value.notifiedAt == t.e.sent.value.notifiedAt
  {
    hide Of;
    EmitOf(t, v, v.policy.groupRoom, KNew, GroupRepeat, KNew);
    EmitOf(t, v, v.policy.groupRoom, KNew, GroupRepeat, KInfo);
    EmitOf(t, v, v.policy.groupRoom, KNew, GroupRepeat, KReopened);
    EmitOf(t, v, v.policy.room, KReminder, Timer, KNew);
    EmitOf(t, v, v.policy.room, KReminder, Timer, KInfo);
    EmitOf(t, v, v.policy.room, KReminder, Timer, KReopened);
  }

  // ---- the group's room, cycle by cycle ----

  /** The row of an issue never says when the group's room was last told, so whatever
      was sent before, a cycle's first visit to a stored issue in "new" or "handed
      over" repeats it there. */
  lemma RepeatedAfterEveryLoad(c: Cell, now: Stamp, v: Visit)
    requires Legal(c, Begin(now)) && v.now == now && v.limit.None? && Loaded(c.row).sent.Some?
    requires v.issue.status in {STATUS_NEW, STATUS_RV} && v.policy.groupRoom != "" && v.policy.groupWantsNew
    ensures var d := Step(Step(c, Begin(now)), See(v));
            Of(d.log, KNew) == Of(c.log, KNew) + [Send(v.issue.id, v.policy.groupRoom, KNew, GroupRepeat, now.at)]
  {
    hide VisitTurn, Of;
    KnownByStatus(Turn(Loaded(c.row), c.log, false, None, false), v);
  }

  // ---- which journal entries have a text ----

  /** The fields with a name of their own, but for the status. */
  predicate OtherName(f: string) {
    || f == "assigned_to_id" || f == "priority_id" || f == "done_ratio" || f == "due_date" || f == "subject"
    || f == "tracker_id" || f == "fixed_version_id" || f == "project_id" || f == "category_id" || f == "parent_id"
    || f == "start_date" || f == "estimated_hours"
  }

  /** Undisturbed, a known issue whose only new entry holds nothing but one changed field
      is reported to a subscriber exactly if that field has a name, and, when it is the
      status, no change of status is told of in the same visit; an entry with a comment always is. */
  lemma OneEntryReported(t: Turn, v: Visit, j: Journal)
    requires t.left.None? && !t.raised && t.e.sent.Some? && t.e.journal.Some? && KUpdated in v.policy.wants
    requires v.issue.journals == Some([j]) && j.id > t.e.journal.value && (j.notes || |j.fields| == 1)
    ensures var changed := t.e.sent.value.status != "" && t.e.sent.value.status != v.issue.status;
            var named := j.notes || (j.fields[0] == "status_id" && !changed) || OtherName(j.fields[0]);
            Of(VisitTurn(t, v).out, KUpdated)
              == Of(t.out, KUpdated)
                 + if named then [Send(v.issue.id, v.policy.room, KUpdated, Digest([j.id]), v.now.at)] else []
  {
    hide StatusTurn, BranchTurn, OverdueTurn, Of, NewJournals, MaxJournal, DescribedIds, Described;
    var t1 := StatusTurn(t, v);
    var t2 := BranchTurn(t1, v);
    var t3 := OverdueTurn(t2, v);
    var changed := DetectStatusChange(t.e.sent, v.issue.status).Some?;
    StatusFrame(t, v);
    BranchFrame(t1, v);
    OverdueFrame(t2, v);
    CalmSoFar(t, v);
    StatusOf(t, v, KUpdated);
    BranchOf(t1, v, KUpdated);
    OverdueOf(t2, v, KUpdated);
    OneEntry(j, t.e.journal.value, changed);
    DescribedByName(j, changed);
    DigestOf(Risk(t3), v, if Described(j, changed) then [j.id] else [], KUpdated);
  }

  lemma CalmSoFar(t: Turn, v: Visit)
    requires t.left.None? && !t.raised
    ensures var r := OverdueTurn(BranchTurn(StatusTurn(t, v), v), v); r.left.None? && !r.raised
  {
    StatusCalm(t, v);
    BranchCalm(StatusTurn(t, v), v);
    OverdueCalm(BranchTurn(StatusTurn(t, v), v), v);
  }

  lemma BranchCalm(t: Turn, v: Visit)
    requires t.left.None? && !t.raised
    ensures BranchTurn(t, v).left.None? && !BranchTurn(t, v).raised
  {
  }

  lemma OverdueCalm(t: Turn, v: Visit)
    requires t.left.None? && !t.raised
    ensures OverdueTurn(t, v).left.None? && !OverdueTurn(t, v).raised
  {
  }

  lemma OneEntry(j: Journal, last: int, changed: bool)
    requires j.id > last
    ensures NewJournals(Some([j]), last) == [j]
    ensures DescribedIds([j], changed) == if Described(j, changed) then [j.id] else []
  {
    assert [j][1..] == [] && Newer([], last) == [] && DescribedIds([], changed) == [];
    assert [j] + Newer([], last) == [j];
    assert [j.id] + DescribedIds([], changed) == [j.id];
  }

  lemma DescribedByName(j: Journal, skipStatus: bool)
    requires j.notes || |j.fields| == 1
    ensures Described(j, skipStatus) <==>
      j.notes || (j.fields[0] == "status_id" && !skipStatus) || OtherName(j.fields[0])
  {
    hide NAMED_FIELDS, OtherName;
    if !j.notes {
      var f := j.fields[0];
      assert f in j.fields && forall g <- j.fields :: g == f;
      NotTheStatus(f);
      assert Described(j, skipStatus) <==> f in NAMED_FIELDS && !(skipStatus && f == "status_id");
    }
  }

  lemma NotTheStatus(f: string)
    ensures f in NAMED_FIELDS <==> f == "status_id" || OtherName(f)
    ensures OtherName(f) ==> f != "status_id"
  {
    assert "status_id"[0] == 's' && "parent_id"[0] == 'p';
  }
}
