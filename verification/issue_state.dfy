/** The persisted notification state of issues (src/database/state_repo.py):
    the four in-memory dictionaries, the table rows, and the passage between them. */
module IssueState {
  import opened Wrappers

  const SECOND := 1_000_000
  const DAY := 86_400 * SECOND

  /** An instant in microseconds, with the UTC offset its text carries. */
  datatype Stamp = Stamp(at: int, zone: int)

  /** The calendar day of a stamp, read in the stamp's own zone. */
  function DateOf(s: Stamp): int {
    (s.at + s.zone) / DAY
  }

  datatype Sent = Sent(notifiedAt: Stamp, status: string, groupAt: Option<Stamp>)

  /** What the four dictionaries hold for one issue. */
  datatype Entry = Entry(sent: Option<Sent>, reminder: Option<Stamp>, overdue: Option<Stamp>, journal: Option<int>)

  datatype Row = Row(lastStatus: Option<string>, sentAt: Option<int>, reminderAt: Option<int>,
                     overdueAt: Option<int>, journalId: Option<int>)

  datatype Mem = Mem(sent: map<int, Sent>, reminders: map<int, Stamp>,
                     overdue: map<int, Stamp>, journals: map<int, int>)

  type Table = map<(int, int), Row>

  datatype Lease = Lease(owner: int, until: int)

  function Get<K, V>(m: map<K, V>, k: K): Option<V> {
    if k in m then Some(m[k]) else None
  }

  function At(mem: Mem, issue: int): Entry {
    Entry(Get(mem.sent, issue), Get(mem.reminders, issue), Get(mem.overdue, issue), Get(mem.journals, issue))
  }

  function Assign<V>(m: map<int, V>, k: int, v: Option<V>): map<int, V> {
    if v.Some? then m[k := v.value] else m - {k}
  }

  function WithEntry(mem: Mem, issue: int, e: Entry): (r: Mem)
    ensures At(r, issue) == e
    ensures forall j | j != issue :: At(r, j) == At(mem, j)
  {
    Mem(Assign(mem.sent, issue, e.sent), Assign(mem.reminders, issue, e.reminder),
        Assign(mem.overdue, issue, e.overdue), Assign(mem.journals, issue, e.journal))
  }

  lemma SameMem(a: Mem, b: Mem)
    requires forall i :: At(a, i) == At(b, i)
    ensures a == b
  {
    assert forall i :: Get(a.sent, i) == At(a, i).sent == At(b, i).sent == Get(b.sent, i);
    assert forall i :: Get(a.reminders, i) == At(a, i).reminder == At(b, i).reminder == Get(b.reminders, i);
    assert forall i :: Get(a.overdue, i) == At(a, i).overdue == At(b, i).overdue == Get(b.overdue, i);
    assert forall i :: Get(a.journals, i) == At(a, i).journal == At(b, i).journal == Get(b.journals, i);
    SameMap(a.sent, b.sent);
    SameMap(a.reminders, b.reminders);
    SameMap(a.overdue, b.overdue);
    SameMap(a.journals, b.journals);
  }

  lemma SameMap<V>(a: map<int, V>, b: map<int, V>)
    requires forall i :: Get(a, i) == Get(b, i)
    ensures a == b
  {
    forall i
      ensures i in a <==> i in b
      ensures i in a && i in b ==> a[i] == b[i]
    {
      assert Get(a, i) == Get(b, i);
    }
  }

  // ---- one row against one entry ----

  function Stamped(at: Option<int>): Option<Stamp> {
    if at.Some? then Some(Stamp(at.value, 0)) else None
  }

  function Instant(s: Option<Stamp>): Option<int> {
    if s.Some? then Some(s.value.at) else None
  }

  /** The entry read back from a row; the database hands instants back in UTC. */
  function Loaded(row: Option<Row>): Entry {
    match row
    case None => Entry(None, None, None, None)
    case Some(r) =>
      Entry(
        if r.lastStatus.Some? && r.sentAt.Some?
        then Some(Sent(Stamp(r.sentAt.value, 0), r.lastStatus.value, None)) else None,
        Stamped(r.reminderAt), Stamped(r.overdueAt), r.journalId)
  }

  /** The row written for an entry. */
  function Stored(e: Entry): Row {
    Row(if e.sent.Some? then Some(e.sent.value.status) else None,
        if e.sent.Some? then Some(e.sent.value.notifiedAt.at) else None,
        Instant(e.reminder), Instant(e.overdue), e.journal)
  }

  /** The part of an entry that survives a save and a reload: everything but
      the time of the last message to the group's room and the zones. */
  function Persisted(e: Entry): Entry {
    Entry(
      if e.sent.Some?
      then Some(Sent(Stamp(e.sent.value.notifiedAt.at, 0), e.sent.value.status, None)) else None,
      Stamped(Instant(e.reminder)), Stamped(Instant(e.overdue)), e.journal)
  }

  lemma ReloadGivesPersisted(e: Entry, row: Option<Row>)
    ensures Loaded(Some(Stored(e))) == Persisted(e)
    ensures Persisted(Loaded(row)) == Loaded(row)
  {
  }

  // ---- the table ----

  function RowOf(rows: Table, user: int, issue: int): Option<Row> {
    Get(rows, (user, issue))
  }

  function Issues(rows: Table, user: int): set<int> {
    set k | k in rows && k.0 == user :: k.1
  }

  /** The rows of one user, by issue. */
  function UserRows(rows: Table, user: int): (r: map<int, Row>)
    ensures forall i :: Get(r, i) == RowOf(rows, user, i)
  {
    map i | i in Issues(rows, user) :: rows[(user, i)]
  }

  /** The four dictionaries built from a user's rows. */
  function LoadRows(rows: map<int, Row>): (mem: Mem)
    ensures forall i :: At(mem, i) == Loaded(Get(rows, i))
  {
    Mem(
      map i | i in rows && Loaded(Some(rows[i])).sent.Some? :: Loaded(Some(rows[i])).sent.value,
      map i | i in rows && Loaded(Some(rows[i])).reminder.Some? :: Loaded(Some(rows[i])).reminder.value,
      map i | i in rows && Loaded(Some(rows[i])).overdue.Some? :: Loaded(Some(rows[i])).overdue.value,
      map i | i in rows && Loaded(Some(rows[i])).journal.Some? :: Loaded(Some(rows[i])).journal.value)
  }

  function LoadMem(rows: Table, user: int): Mem {
    LoadRows(UserRows(rows, user))
  }

  function Upserted(rows: Table, user: int, ids: set<int>, mem: Mem): (r: Table)
    ensures forall u, i ::
              RowOf(r, u, i) == if u == user && i in ids then Some(Stored(At(mem, i))) else RowOf(rows, u, i)
  {
    rows + map i | i in ids :: (user, i) := Stored(At(mem, i))
  }

  function Kept(rows: Table, user: int, open: set<int>): (r: Table)
    ensures forall u, i ::
              RowOf(r, u, i) == if u == user && i !in open then None else RowOf(rows, u, i)
  {
    map k | k in rows && (k.0 != user || k.1 in open) :: rows[k]
  }

  predicate Grantable(leases: map<int, Lease>, user: int, owner: int, now: int) {
    user !in leases || leases[user].until < now || leases[user].owner == owner
  }

  /** The tables `bot_issue_state` and `bot_user_leases`. */
  class StateTables {
    var rows: Table
    var leases: map<int, Lease>

    constructor ()
      ensures rows == map[] && leases == map[]
    {
      rows, leases := map[], map[];
    }

    /** The conditional upsert of a lease: it succeeds exactly when there is
        no lease, the lease has run out, or it is the caller's own. */
    method TryAcquireUserLease(user: int, owner: int, until: int, now: int) returns (acquired: bool)
      modifies this`leases
      ensures acquired <==>
                user !in old(leases) || old(leases)[user].until < now || old(leases)[user].owner == owner
      ensures leases == if acquired then old(leases)[user := Lease(owner, until)] else old(leases)
    {
      if user !in leases {
        leases := leases[user := Lease(owner, until)];
        return true;
      }
      if leases[user].until < now || leases[user].owner == owner {
        leases := leases[user := Lease(owner, until)];
        return true;
      }
      return false;
    }

    method LoadUserIssueState(user: int) returns (mem: Mem)
      ensures mem == LoadMem(rows, user)
    {
      mem := Mem(map[], map[], map[], map[]);
      var ids := Issues(rows, user);
      var todo := ids;
      while todo != {}
        invariant todo <= ids
        invariant forall i ::
                    At(mem, i) == if i in ids - todo then Loaded(RowOf(rows, user, i)) else Loaded(None)
        decreases todo
      {
        var id := Pick(todo);
        mem := AddRow(mem, id, rows[(user, id)]);
        todo := todo - {id};
      }
      assert forall i :: i !in ids ==> RowOf(rows, user, i) == None;
      SameMem(mem, LoadMem(rows, user));
    }

    /** One turn of the loop that fills the four dictionaries from the rows. */
    static method AddRow(mem: Mem, id: int, r: Row) returns (out: Mem)
      requires At(mem, id) == Loaded(None)
      ensures At(out, id) == Loaded(Some(r))
      ensures forall j | j != id :: At(out, j) == At(mem, j)
    {
      assert Get(mem.sent, id).None? && Get(mem.reminders, id).None?;
      assert Get(mem.overdue, id).None? && Get(mem.journals, id).None?;
      var sent, reminders, overdue, journals := mem.sent, mem.reminders, mem.overdue, mem.journals;
      if r.lastStatus.Some? && r.sentAt.Some? {
        sent := sent[id := Sent(Stamp(r.sentAt.value, 0), r.lastStatus.value, None)];
      }
      if r.reminderAt.Some? {
        reminders := reminders[id := Stamp(r.reminderAt.value, 0)];
      }
      if r.overdueAt.Some? {
        overdue := overdue[id := Stamp(r.overdueAt.value, 0)];
      }
      if r.journalId.Some? {
        journals := journals[id := r.journalId.value];
      }
      out := Mem(sent, reminders, overdue, journals);
    }

    method UpsertUserIssueState(user: int, ids: set<int>, mem: Mem)
      modifies this`rows
      ensures rows == Upserted(old(rows), user, ids, mem)
    {
      var todo := ids;
      while todo != {}
        invariant todo <= ids
        invariant rows == Upserted(old(rows), user, ids - todo, mem)
        decreases todo
      {
        var id := Pick(todo);
        rows := rows[(user, id) := Stored(At(mem, id))];
        todo := todo - {id};
        SameTable(rows, Upserted(old(rows), user, ids - todo, mem));
      }
      assert ids - todo == ids;
    }

    method DeleteStateRowsNotInOpen(user: int, open: set<int>) returns (deleted: nat)
      modifies this`rows
      ensures rows == Kept(old(rows), user, open)
      ensures deleted == |old(rows)| - |rows|
    {
      var victims := if open == {} then set k | k in rows && k.0 == user
                     else set k | k in rows && k.0 == user && k.1 !in open;
      deleted := |victims|;
      rows := rows - victims;
      assert rows.Keys == old(rows).Keys - victims;
      SameTable(rows, Kept(old(rows), user, open));
    }
  }

  lemma SameTable(a: Table, b: Table)
    requires forall u, i :: RowOf(a, u, i) == RowOf(b, u, i)
    ensures a == b
  {
    forall k: (int, int)
      ensures k in a <==> k in b
      ensures k in a && k in b ==> a[k] == b[k]
    {
      assert RowOf(a, k.0, k.1) == RowOf(b, k.0, k.1);
    }
  }
}
