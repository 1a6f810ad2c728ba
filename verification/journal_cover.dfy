/** Each journal entry of a followed issue is reported exactly once. */
module JournalCover {
  import opened Wrappers
  import opened Routing
  import opened IssueState
  import opened Processor
  import opened IssueHistory
  import opened StatusChain

  predicate Ascending(js: seq<Journal>) {
    forall a, b | 0 <= a < b < |js| :: js[a].id < js[b].id
  }

  predicate Increasing(ids: seq<int>) {
    forall a, b | 0 <= a < b < |ids| :: ids[a] < ids[b]
  }

  /** The journal as last observed. */
  function Latest(ms: seq<Move>): seq<Journal> {
    if ms == [] then []
    else
      var n := |ms| - 1;
      if ms[n].See? && ms[n].visit.issue.journals.Some? then ms[n].visit.issue.journals.value
      else Latest(ms[..n])
  }

  /** Redmine only appends to a journal, with growing ids. */
  predicate Growing(ms: seq<Move>) {
    forall k | 0 <= k < |ms| && ms[k].See? && ms[k].visit.issue.journals.Some? ::
      Ascending(ms[k].visit.issue.journals.value) && Latest(ms[..k]) <= ms[k].visit.issue.journals.value
  }

  /** All ids reported, in the order of the messages. */
  function Reported(msgs: seq<Send>): seq<int> {
    if msgs == [] then []
    else
      var n := |msgs| - 1;
      Reported(msgs[..n]) + if msgs[n].cause.Digest? then msgs[n].cause.ids else []
  }

  lemma ReportedSnoc(msgs: seq<Send>, s: Send)
    ensures Reported(msgs + [s]) == Reported(msgs) + if s.cause.Digest? then s.cause.ids else []
  {
    assert (msgs + [s])[..|msgs|] == msgs;
  }

  lemma {:induction false} NewerAscends(js: seq<Journal>, last: int)
    requires Ascending(js)
    ensures Ascending(Newer(js, last))
  {
    if js != [] {
      NewerAscends(js[1..], last);
      assert forall j <- Newer(js[1..], last) :: j in js[1..];
    }
  }

  lemma {:induction false} DescribedIncrease(js: seq<Journal>, skip: bool)
    requires Ascending(js)
    ensures Increasing(DescribedIds(js, skip))
  {
    if js != [] {
      var rest := DescribedIds(js[1..], skip);
      DescribedIncrease(js[1..], skip);
      FirstIsLeast(js, rest, skip);
      assert Increasing([js[0].id] + rest);
    }
  }

  lemma FirstIsLeast(js: seq<Journal>, rest: seq<int>, skip: bool)
    requires Ascending(js) && js != [] && rest == DescribedIds(js[1..], skip)
    ensures forall k | 0 <= k < |rest| :: js[0].id < rest[k]
  {
    forall k | 0 <= k < |rest|
      ensures js[0].id < rest[k]
    {
      assert rest[k] in rest;
      var j :| j in js[1..] && j.id == rest[k] && Described(j, skip);
      var q :| 0 <= q < |js[1..]| && js[1..][q] == j;
      assert js[q + 1] == j;
    }
  }

  /** The first journal seen only sets the baseline. */
  lemma FirstJournalIsSilent(t: Turn, v: Visit)
    requires t.e.journal.None?
    ensures var r := VisitTurn(t, v);
            && Of(r.out, KUpdated) == Of(t.out, KUpdated)
            && (r.e.journal.Some? ==>
                  r.e.journal == Some(MaxJournal(v.issue.journals)) && MaxJournal(v.issue.journals) > 0)
            && (!r.raised && MaxJournal(v.issue.journals) > 0 ==> r.e.journal.Some?)
  {
    var t1 := StatusTurn(t, v);
    var t2 := BranchTurn(t1, v);
    StatusFrame(t, v);
    BranchFrame(t1, v);
    OverdueFrame(t2, v);
    StatusOf(t, v, KUpdated);
    BranchOf(t1, v, KUpdated);
    OverdueOf(t2, v, KUpdated);
  }

  /** A visit either leaves the journal alone, or takes in everything newer and reports it. */
  lemma VisitJournal(t: Turn, v: Visit)
    requires t.e.journal.Some? && KUpdated in v.policy.wants
    requires t.e.journal.value >= 0
    ensures var r := VisitTurn(t, v);
            var newer := NewJournals(v.issue.journals, t.e.journal.value);
            var ids := DescribedIds(newer, DetectStatusChange(t.e.sent, v.issue.status).Some?);
            var before, after := Of(t.out, KUpdated), Of(r.out, KUpdated);
            || (after == before && r.e.journal == t.e.journal && (r.raised || newer == []))
            || (newer != [] && r.e.journal == Some(MaxJournal(v.issue.journals))
                && after == before + DigestMessages(v, ids))
  {
    var t1 := StatusTurn(t, v);
    var t2 := BranchTurn(t1, v);
    var t3 := OverdueTurn(t2, v);
    StatusFrame(t, v);
    BranchFrame(t1, v);
    OverdueFrame(t2, v);
    StatusOf(t, v, KUpdated);
    BranchOf(t1, v, KUpdated);
    OverdueOf(t2, v, KUpdated);
    if !t3.raised {
      JournalMessage(t3, v, DetectStatusChange(t.e.sent, v.issue.status).Some?);
    }
  }

  lemma JournalMessage(t: Turn, v: Visit, changed: bool)
    requires t.e.journal.Some? && t.e.sent.Some? && KUpdated in v.policy.wants
    requires t.e.journal.value >= 0
    ensures var r := JournalTurn(t, v, changed);
            var newer := NewJournals(v.issue.journals, t.e.journal.value);
            var ids := DescribedIds(newer, changed);
            var before, after := Of(t.out, KUpdated), Of(r.out, KUpdated);
            || (after == before && r.e.journal == t.e.journal && (r.raised || newer == []))
            || (newer != [] && r.e.journal == Some(MaxJournal(v.issue.journals))
                && after == before + DigestMessages(v, ids))
  {
    var last := t.e.journal.value;
    var newer := NewJournals(v.issue.journals, last);
    DigestOf(Risk(t), v, DescribedIds(newer, changed), KUpdated);
    MaxIsNewer(v.issue.journals, last);
  }

  lemma MaxIsNewer(js: Option<seq<Journal>>, last: int)
    requires last >= 0
    ensures MaxJournal(js) > last <==> NewJournals(js, last) != []
  {
    if js.Some? && js.value != [] {
      var m := Max(js.value);
      var k :| 0 <= k < |js.value| && js.value[k].id == m;
      assert js.value[k] in js.value;
      if m > last { assert js.value[k] in Newer(js.value, last); }
      if Newer(js.value, last) != [] {
        var j := Newer(js.value, last)[0];
        assert j in Newer(js.value, last);
      }
    }
  }

  /** What has been reported of the journal `js`, followed from `base` up to `last`. */
  predicate Covers(ids: seq<int>, js: seq<Journal>, base: int, last: int) {
    && Increasing(ids)
    && (forall x <- ids :: base < x <= last && exists j :: j in js && j.id == x && Described(j, false))
    && (forall j <- js :: base < j.id <= last && Described(j, true) ==> j.id in ids)
    && (last == base || exists j :: j in js && j.id == last)
  }

  lemma CoversGrown(ids: seq<int>, js: seq<Journal>, js': seq<Journal>, base: int, last: int)
    requires Covers(ids, js, base, last) && js <= js' && Ascending(js')
    ensures Covers(ids, js', base, last)
  {
    forall j | j in js' && base < j.id <= last && Described(j, true)
      ensures j.id in ids
    {
      var top :| top in js && top.id == last;
      var p :| 0 <= p < |js| && js[p] == top;
      var q :| 0 <= q < |js'| && js'[q] == j;
      assert js'[p] == top;
      assert q <= p;
      assert j in js;
    }
  }

  lemma IncreasingJoin(ids: seq<int>, more: seq<int>, mid: int)
    requires Increasing(ids) && Increasing(more)
    requires (forall x <- ids :: x <= mid) && (forall x <- more :: mid < x)
    ensures Increasing(ids + more)
  {
    forall a, b | 0 <= a < |ids| && 0 <= b < |more|
      ensures ids[a] < more[b]
    {
      assert ids[a] in ids && more[b] in more;
    }
  }

  lemma NewerFacts(js: seq<Journal>, last: int, skip: bool)
    requires Newer(js, last) != []
    ensures last < Max(js) && exists j :: j in js && j.id == Max(js)
    ensures forall x <- DescribedIds(Newer(js, last), skip) ::
              last < x <= Max(js) && exists j :: j in js && j.id == x && Described(j, false)
    ensures forall j <- js :: last < j.id && Described(j, true) ==> j.id in DescribedIds(Newer(js, last), skip)
  {
    var newer := Newer(js, last);
    assert newer[0] in newer;
    forall x | x in DescribedIds(newer, skip)
      ensures last < x <= Max(js) && exists j :: j in js && j.id == x && Described(j, false)
    {
      var j :| j in newer && j.id == x && Described(j, skip);
      assert j in js && Described(j, false);
    }
    forall j | j in js && last < j.id && Described(j, true)
      ensures j.id in DescribedIds(newer, skip)
    {
      assert j in newer && Described(j, skip);
    }
    var k :| 0 <= k < |js| && js[k].id == Max(js);
    assert js[k] in js;
  }

  lemma CoversExtended(ids: seq<int>, js: seq<Journal>, base: int, last: int, skip: bool)
    requires Covers(ids, js, base, last) && Ascending(js)
    requires base <= last && Newer(js, last) != []
    ensures last < Max(js)
    ensures Covers(ids + DescribedIds(Newer(js, last), skip), js, base, Max(js))
  {
    hide Newer, DescribedIds, Ascending, Increasing, Described, Max;
    NewerAscends(js, last);
    DescribedIncrease(Newer(js, last), skip);
    NewerFacts(js, last, skip);
    IncreasingJoin(ids, DescribedIds(Newer(js, last), skip), last);
  }

  lemma GrowingLast(ms: seq<Move>)
    requires Growing(ms) && ms != [] && ms[|ms| - 1].See? && ms[|ms| - 1].visit.issue.journals.Some?
    ensures Ascending(ms[|ms| - 1].visit.issue.journals.value)
    ensures Latest(ms[..|ms| - 1]) <= ms[|ms| - 1].visit.issue.journals.value
  {
  }

  lemma GrowingPrefix(ms: seq<Move>)
    requires Growing(ms) && ms != []
    ensures Growing(ms[..|ms| - 1])
  {
    var n := |ms| - 1;
    forall k | 0 <= k < n
      ensures ms[..n][..k] == ms[..k]
    {
    }
  }

  /** The journal has been followed from `base`: nothing before it, all that was taken in. */
  predicate FollowedFrom(base: int, last: Option<int>, msgs: seq<Send>, js: seq<Journal>) {
    last.Some? && last.value >= base && Covers(Reported(msgs), js, base, last.value)
  }

  lemma NothingYet(base: int)
    ensures FollowedFrom(base, Some(base), [], [])
  {
  }

  lemma JournalStep(t: Turn, v: Visit, seen: seq<Journal>, base: int)
    requires KUpdated in v.policy.wants && base >= 0
    requires FollowedFrom(base, t.e.journal, Of(t.out, KUpdated), seen)
    requires v.issue.journals.Some? ==> Ascending(v.issue.journals.value) && seen <= v.issue.journals.value
    ensures var r := VisitTurn(t, v);
            FollowedFrom(base, r.e.journal, Of(r.out, KUpdated), v.issue.journals.GetOr(seen))
  {
    hide VisitTurn;
    VisitJournal(t, v);
    var last := t.e.journal.value;
    var js := v.issue.journals.GetOr(seen);
    var before := Of(t.out, KUpdated);
    if v.issue.journals.Some? {
      CoversGrown(Reported(before), seen, js, base, last);
      if Newer(js, last) != [] {
        TakenIn(before, v, js, base, last, DetectStatusChange(t.e.sent, v.issue.status).Some?);
      }
    }
  }

  /** The message about these ids; none when no entry has a text. */
  function DigestMessages(v: Visit, ids: seq<int>): seq<Send> {
    if ids == [] then [] else [Send(v.issue.id, v.policy.room, KUpdated, Digest(ids), v.now.at)]
  }

  lemma ReportedDigest(before: seq<Send>, v: Visit, ids: seq<int>)
    ensures Reported(before + DigestMessages(v, ids)) == Reported(before) + ids
  {
    if ids == [] {
      assert before + DigestMessages(v, ids) == before;
    } else {
      ReportedSnoc(before, DigestMessages(v, ids)[0]);
    }
  }

  lemma TakenIn(before: seq<Send>, v: Visit, js: seq<Journal>, base: int, last: int, skip: bool)
    requires Covers(Reported(before), js, base, last) && Ascending(js)
    requires base <= last && Newer(js, last) != []
    ensures var sent := DigestMessages(v, DescribedIds(Newer(js, last), skip));
            last < Max(js) && Covers(Reported(before + sent), js, base, Max(js))
  {
    CoversExtended(Reported(before), js, base, last, skip);
    ReportedDigest(before, v, DescribedIds(Newer(js, last), skip));
  }

  /** After a visit that was not cut short nothing in the journal is newer than
      the last id taken in, whether or not the user is told. */
  lemma NothingLeftBehind(t: Turn, v: Visit)
    requires !VisitTurn(t, v).raised && v.issue.journals.Some?
    ensures forall j <- v.issue.journals.value :: j.id <= VisitTurn(t, v).e.journal.GetOr(0)
  {
    hide StatusTurn, BranchTurn, OverdueTurn, DescribedIds, NewJournals;
    var js := v.issue.journals.value;
    var t3 := OverdueTurn(BranchTurn(StatusTurn(t, v), v), v);
    forall j | j in js
      ensures j.id <= MaxJournal(Some(js))
    {
      var k :| 0 <= k < |js| && js[k] == j;
    }
    var changed := DetectStatusChange(t.e.sent, v.issue.status).Some?;
    assert JournalTurn(t3, v, changed).e.journal.GetOr(0) >= MaxJournal(Some(js));
  }

  // ---- from the first id taken in ----

  /** Where the following begins: at the id stored at the start, or, if none was,
      at the first one stored since. */
  function Baseline(c: Cell, ms: seq<Move>): Option<int>
    requires LegalRun(c, ms)
  {
    if ms == [] then InForce(c).journal
    else BaseBy(Baseline(c, ms[..|ms| - 1]), Run(c, ms))
  }

  function BaseBy(earlier: Option<int>, after: Cell): Option<int> {
    if InForce(after).journal.None? then None
    else if earlier.Some? then earlier else InForce(after).journal
  }

  /** Journal ids are never negative. */
  predicate Natural(c: Cell) {
    && (InForce(c).journal.Some? ==> InForce(c).journal.value >= 0)
    && (Loaded(c.row).journal.Some? ==> Loaded(c.row).journal.value >= 0)
  }

  lemma VisitNatural(t: Turn, v: Visit)
    requires t.e.journal.Some? ==> t.e.journal.value >= 0
    ensures VisitTurn(t, v).e.journal.Some? ==> VisitTurn(t, v).e.journal.value >= 0
  {
    hide StatusTurn, BranchTurn, OverdueTurn, DescribedIds, NewJournals, MaxJournal;
    var t1 := StatusTurn(t, v);
    var t2 := BranchTurn(t1, v);
    StatusFrame(t, v);
    BranchFrame(t1, v);
    OverdueFrame(t2, v);
  }

  lemma {:induction false} AlwaysNatural(c: Cell, ms: seq<Move>)
    requires LegalRun(c, ms) && Natural(c)
    ensures Natural(Run(c, ms))
  {
    hide VisitTurn;
    if ms != [] {
      var n := |ms| - 1;
      AlwaysNatural(c, ms[..n]);
      if ms[n].See? {
        var b := Run(c, ms[..n]);
        VisitNatural(Turn(b.cur.value, b.log, b.dirty, ms[n].visit.limit, false), ms[n].visit);
      }
    }
  }

  /** Before there is a baseline nothing is reported; after, the journal is followed from it. */
  predicate Reports(base: Option<int>, last: Option<int>, msgs: seq<Send>, js: seq<Journal>) {
    match base
    case None => last.None? && msgs == []
    case Some(b) => b >= 0 && FollowedFrom(b, last, msgs, js)
  }

  lemma ReportsNothing(last: Option<int>)
    requires last.Some? ==> last.value >= 0
    ensures Reports(last, last, [], [])
  {
    if last.Some? { NothingYet(last.value); }
  }

  /** A row that is gone begins anew. */
  predicate CoverSound(c: Cell, base: Option<int>, js: seq<Journal>) {
    && Reports(base, InForce(c).journal, Of(c.log, KUpdated), js)
    && (Astray(c) ==> Of(c.log, KUpdated) == [])
  }

  lemma FirstStep(t: Turn, v: Visit, seen: seq<Journal>)
    requires t.e.journal.None? && Of(t.out, KUpdated) == []
    ensures var r := VisitTurn(t, v);
            Reports(r.e.journal, r.e.journal, Of(r.out, KUpdated), v.issue.journals.GetOr(seen))
  {
    hide VisitTurn;
    FirstJournalIsSilent(t, v);
  }

  lemma ReportIsDirty(t: Turn, v: Visit)
    requires KUpdated in v.policy.wants && (t.e.journal.Some? ==> t.e.journal.value >= 0)
    ensures var r := VisitTurn(t, v); !r.dirty ==> Of(r.out, KUpdated) == Of(t.out, KUpdated)
  {
    hide VisitTurn;
    if t.e.journal.None? {
      FirstJournalIsSilent(t, v);
    } else {
      VisitJournal(t, v);
      MaxIsNewer(v.issue.journals, t.e.journal.value);
    }
  }

  lemma JournalKept(t: Turn, v: Visit)
    requires t.e.journal.Some?
    ensures VisitTurn(t, v).e.journal.Some?
  {
    var t1 := StatusTurn(t, v);
    StatusFrame(t, v);
    BranchFrame(t1, v);
    OverdueFrame(BranchTurn(t1, v), v);
  }

  lemma CoverSee(c: Cell, v: Visit, base: Option<int>, seen: seq<Journal>)
    requires Legal(c, See(v)) && KUpdated in v.policy.wants && CoverSound(c, base, seen) && Natural(c)
    requires v.issue.journals.Some? ==> Ascending(v.issue.journals.value) && seen <= v.issue.journals.value
    ensures CoverSound(Step(c, See(v)), BaseBy(base, Step(c, See(v))), v.issue.journals.GetOr(seen))
  {
    hide VisitTurn, Of, FollowedFrom, Ascending;
    var t := Turn(c.cur.value, c.log, c.dirty, v.limit, false);
    ReportIsDirty(t, v);
    FollowedSome(base, t.e.journal, Of(t.out, KUpdated), seen);
    if base.None? {
      FirstStep(t, v, seen);
    } else {
      JournalStep(t, v, seen, base.value);
      JournalKept(t, v);
    }
  }

  lemma FollowedSome(base: Option<int>, last: Option<int>, msgs: seq<Send>, js: seq<Journal>)
    requires Reports(base, last, msgs, js)
    ensures base.Some? <==> last.Some?
  {
  }

  lemma CoverRest(c: Cell, m: Move, base: Option<int>, js: seq<Journal>)
    requires Legal(c, m) && (m.Begin? || m.Commit?) && Tame(c) && CoverSound(c, base, js)
    ensures CoverSound(Step(c, m), BaseBy(base, Step(c, m)), js)
  {
    hide Of, FollowedFrom;
    FollowedSome(base, InForce(c).journal, Of(c.log, KUpdated), js);
  }

  lemma {:induction false} CoverInvariant(c: Cell, ms: seq<Move>)
    requires FromHere(c) && Natural(c) && LegalRun(c, ms)
    requires Abort !in ms && Remove !in ms && Subscribed(ms, KUpdated) && Growing(ms)
    ensures CoverSound(Run(c, ms), Baseline(c, ms), Latest(ms))
  {
    hide Step, Legal, CoverSound, BaseBy, Growing, Natural;
    if ms == [] {
      CoverStarts(c);
    } else {
      var n := |ms| - 1;
      assert ms[n] in ms && forall m :: m in ms[..n] ==> m in ms;
      GrowingPrefix(ms);
      CoverInvariant(c, ms[..n]);
      AlwaysTame(c, ms[..n]);
      AlwaysNatural(c, ms[..n]);
      if ms[n].See? {
        if ms[n].visit.issue.journals.Some? { GrowingLast(ms); }
        CoverSee(Run(c, ms[..n]), ms[n].visit, Baseline(c, ms[..n]), Latest(ms[..n]));
      } else {
        CoverRest(Run(c, ms[..n]), ms[n], Baseline(c, ms[..n]), Latest(ms));
      }
    }
  }

  lemma CoverStarts(c: Cell)
    requires c.log == [] && Natural(c)
    ensures CoverSound(c, InForce(c).journal, [])
  {
    ReportsNothing(InForce(c).journal);
  }

  /** In any stretch of a history without rollbacks and removals, for a
      subscribed user: nothing is reported before the baseline is set; from then
      on the ids reported are those of the entries after the baseline, each in
      one message, in order, none twice and none left out up to the last id taken
      in. The baseline is the id stored at the start or the first one stored
      since. An entry that only records a change of status may be left to the
      status message. */
  lemma JournalExactlyCovered(c: Cell, ms: seq<Move>)
    requires FromHere(c) && Natural(c) && LegalRun(c, ms)
    requires Abort !in ms && Remove !in ms && Subscribed(ms, KUpdated) && Growing(ms)
    ensures var d := Run(c, ms);
            Reports(Baseline(c, ms), InForce(d).journal, Of(d.log, KUpdated), Latest(ms))
  {
    hide Reports;
    CoverInvariant(c, ms);
  }

  // ---- exactly which entries are reported ----

  /** Did the visit that took the entry in detect a change of status? */
  predicate WithStatusChange(c: Cell, ms: seq<Move>, id: int)
    requires LegalRun(c, ms)
  {
    if ms == [] then false
    else
      var n := |ms| - 1;
      var b := Run(c, ms[..n]);
      if ms[n].See? && InForce(b).journal.GetOr(0) < id <= InForce(Run(c, ms)).journal.GetOr(0)
      then DetectStatusChange(b.cur.value.sent, ms[n].visit.issue.status).Some?
      else WithStatusChange(c, ms[..n], id)
  }

  /** An entry up to the last id taken in was in the journal when that id was taken in. */
  lemma SeenBefore(ids: seq<int>, seen: seq<Journal>, js: seq<Journal>, base: int, last: int, j: Journal)
    requires Covers(ids, seen, base, last) && seen <= js && Ascending(js)
    requires j in js && base < j.id <= last
    ensures j in seen
  {
    var top :| top in seen && top.id == last;
    var p :| 0 <= p < |seen| && seen[p] == top;
    var q :| 0 <= q < |js| && js[q] == j;
    assert js[p] == top;
    assert q <= p;
  }

  lemma OneById(js: seq<Journal>, i: Journal, j: Journal)
    requires Ascending(js) && i in js && j in js && i.id == j.id
    ensures i == j
  {
    var p :| 0 <= p < |js| && js[p] == i;
    var q :| 0 <= q < |js| && js[q] == j;
  }

  lemma DescribedOne(js: seq<Journal>, last: int, skip: bool, j: Journal)
    requires Ascending(js) && j in js
    ensures j.id in DescribedIds(Newer(js, last), skip) <==> last < j.id && Described(j, skip)
  {
    hide DescribedIds, Newer, Described, Ascending;
    var ids := DescribedIds(Newer(js, last), skip);
    if j.id in ids {
      var i :| i in Newer(js, last) && i.id == j.id && Described(i, skip);
      OneById(js, i, j);
    }
    if last < j.id && Described(j, skip) {
      assert j in Newer(js, last);
    }
  }

  /** One entry through one visit. */
  lemma EntryThroughVisit(t: Turn, v: Visit, seen: seq<Journal>, base: int, j: Journal, was: bool)
    requires KUpdated in v.policy.wants && base >= 0
    requires FollowedFrom(base, t.e.journal, Of(t.out, KUpdated), seen)
    requires v.issue.journals.Some? ==> Ascending(v.issue.journals.value) && seen <= v.issue.journals.value
    requires j in v.issue.journals.GetOr(seen) && VisitTurn(t, v).e.journal.Some?
    requires base < j.id <= VisitTurn(t, v).e.journal.value
    requires j in seen && j.id <= t.e.journal.value ==>
      (j.id in Reported(Of(t.out, KUpdated)) <==> Described(j, was))
    ensures var skip := if t.e.journal.value < j.id
                        then DetectStatusChange(t.e.sent, v.issue.status).Some? else was;
            j.id in Reported(Of(VisitTurn(t, v).out, KUpdated)) <==> Described(j, skip)
  {
    hide VisitTurn, Of, Described, Ascending, DescribedIds, Newer, Reported;
    var last := t.e.journal.value;
    var before := Of(t.out, KUpdated);
    var changed := DetectStatusChange(t.e.sent, v.issue.status).Some?;
    VisitJournal(t, v);
    if v.issue.journals.Some? {
      var js := v.issue.journals.value;
      if j.id <= last { SeenBefore(Reported(before), seen, js, base, last, j); }
      ReportedDigest(before, v, DescribedIds(Newer(js, last), changed));
      DescribedOne(js, last, changed, j);
    }
  }

  /** Of the journal last observed, an entry after the baseline and up to the last id
      taken in has been reported if and only if it has a text, where one that
      records nothing but a change of status has none exactly if the visit that
      took it in detected one. */
  ghost predicate ReportedExactly(c: Cell, ms: seq<Move>)
    requires LegalRun(c, ms)
  {
    var d, base := Run(c, ms), Baseline(c, ms);
    base.Some? && InForce(d).journal.Some? ==>
      forall j | j in Latest(ms) && base.value < j.id <= InForce(d).journal.value ::
        (j.id in Reported(Of(d.log, KUpdated)) <==> Described(j, WithStatusChange(c, ms, j.id)))
  }

  lemma {:induction false} JournalReportedExactly(c: Cell, ms: seq<Move>)
    requires FromHere(c) && Natural(c) && LegalRun(c, ms)
    requires Abort !in ms && Remove !in ms && Subscribed(ms, KUpdated) && Growing(ms)
    ensures ReportedExactly(c, ms)
  {
    hide Step, Legal, Growing, Natural, Described, Reported, VisitTurn, Of;
    if ms != [] {
      var n := |ms| - 1;
      assert ms[n] in ms && forall m :: m in ms[..n] ==> m in ms;
      GrowingPrefix(ms);
      JournalReportedExactly(c, ms[..n]);
      CoverInvariant(c, ms[..n]);
      AlwaysTame(c, ms[..n]);
      if ms[n].See? {
        ExactSee(c, ms);
      } else {
        ExactRest(c, ms);
      }
    }
  }

  lemma ExactSee(c: Cell, ms: seq<Move>)
    requires LegalRun(c, ms) && ms != [] && ms[|ms| - 1].See? && Growing(ms)
    requires KUpdated in ms[|ms| - 1].visit.policy.wants
    requires ReportedExactly(c, ms[..|ms| - 1])
    requires CoverSound(Run(c, ms[..|ms| - 1]), Baseline(c, ms[..|ms| - 1]), Latest(ms[..|ms| - 1]))
    ensures ReportedExactly(c, ms)
  {
    hide VisitTurn, Of, Described, Ascending, Reported, Growing, FollowedFrom;
    var n := |ms| - 1;
    var b, d, v := Run(c, ms[..n]), Run(c, ms), ms[n].visit;
    var t := Turn(b.cur.value, b.log, b.dirty, v.limit, false);
    var seen := Latest(ms[..n]);
    if v.issue.journals.Some? { GrowingLast(ms); }
    FollowedSome(Baseline(c, ms[..n]), InForce(b).journal, Of(b.log, KUpdated), seen);
    if Baseline(c, ms[..n]).Some? && InForce(d).journal.Some? {
      var base := Baseline(c, ms[..n]).value;
      assert Baseline(c, ms).value == base && Latest(ms) == v.issue.journals.GetOr(seen);
      forall j | j in Latest(ms) && base < j.id <= InForce(d).journal.value
        ensures j.id in Reported(Of(d.log, KUpdated)) <==> Described(j, WithStatusChange(c, ms, j.id))
      {
        EntryThroughVisit(t, v, seen, base, j, WithStatusChange(c, ms[..n], j.id));
      }
    }
  }

  lemma ExactRest(c: Cell, ms: seq<Move>)
    requires LegalRun(c, ms) && ms != [] && (ms[|ms| - 1].Begin? || ms[|ms| - 1].Commit?)
    requires Tame(Run(c, ms[..|ms| - 1])) && ReportedExactly(c, ms[..|ms| - 1])
    requires CoverSound(Run(c, ms[..|ms| - 1]), Baseline(c, ms[..|ms| - 1]), Latest(ms[..|ms| - 1]))
    ensures ReportedExactly(c, ms)
  {
    hide Of, Described, Reported, FollowedFrom;
    var n := |ms| - 1;
    FollowedSome(Baseline(c, ms[..n]), InForce(Run(c, ms[..n])).journal, Of(Run(c, ms[..n]).log, KUpdated),
                 Latest(ms[..n]));
    assert forall id :: WithStatusChange(c, ms, id) == WithStatusChange(c, ms[..n], id);
  }
}
