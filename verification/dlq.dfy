/** The dead-letter queue: undelivered notifications, retried with growing
    pauses a bounded number of times (src/database/dlq_repo.py). */
module Dlq {
  import opened Wrappers
  import opened MatrixSend

  const MAX_DLQ_RETRIES := 5
  const DLQ_RETRY_DELAY_SEC := 120

  datatype Note = Note(user: int, issue: int, room: string, kind: string, payload: string)

  /** A row of `pending_notifications`. */
  datatype Pending = Pending(id: nat, note: Note, createdAt: int, retryCount: nat, lastError: string,
                             nextRetryAt: Option<int>)

  // ---- the operations on the table, rows in order of creation ----

  function Enqueued(rows: seq<Pending>, id: nat, note: Note, error: string, now: int): seq<Pending> {
    rows + [Pending(id, note, now, 0, error, Some(now + DLQ_RETRY_DELAY_SEC))]
  }

  predicate IsDue(p: Pending, now: int) {
    p.nextRetryAt.Some? && p.nextRetryAt.value <= now && p.retryCount < MAX_DLQ_RETRIES
  }

  function Due(rows: seq<Pending>, now: int): (r: seq<Pending>)
    ensures forall p :: p in r <==> p in rows && IsDue(p, now)
  {
    if rows == [] then []
    else
      var n := |rows| - 1;
      assert forall p :: p in rows <==> p in rows[..n] || p == rows[n];
      Due(rows[..n], now) + if IsDue(rows[n], now) then [rows[n]] else []
  }

  function Without(rows: seq<Pending>, id: nat): (r: seq<Pending>)
    ensures forall p :: p in r <==> p in rows && p.id != id
  {
    if rows == [] then []
    else
      var n := |rows| - 1;
      assert forall p :: p in rows <==> p in rows[..n] || p == rows[n];
      Without(rows[..n], id) + if rows[n].id == id then [] else [rows[n]]
  }

  function Postponed(p: Pending, now: int, error: string): Pending {
    var count := p.retryCount + 1;
    p.(retryCount := count, lastError := error,
       nextRetryAt := Some(now + DLQ_RETRY_DELAY_SEC * Pow2(count - 1)))
  }

  function Retried(rows: seq<Pending>, id: nat, now: int, error: string): (r: seq<Pending>)
    ensures |r| == |rows|
    ensures forall k | 0 <= k < |rows| :: r[k] == if rows[k].id == id then Postponed(rows[k], now, error) else rows[k]
  {
    seq(|rows|, k requires 0 <= k < |rows| =>
      if rows[k].id == id then Postponed(rows[k], now, error) else rows[k])
  }

  // ---- one queue through any history ----

  /** One attempt to deliver: the row's k-th, made at `at` and recorded at `marked`,
      of a notification enqueued at `born`; it took `calls` calls of the client. */
  datatype Attempt = Attempt(id: nat, k: nat, born: int, at: int, marked: int, calls: nat, error: string)

  /** The table with its history: the notifications in order of arrival (a row's
      id is its place), the attempts made, the ids delivered. */
  datatype Ledger = Ledger(rows: seq<Pending>, arrived: seq<Note>, clock: int,
                           attempts: seq<Attempt>, delivered: seq<nat>)

  /** How one attempt went: begun at `at`, recorded at `marked`. */
  datatype Delivery = Delivery(at: int, marked: int, calls: nat, ok: bool, error: string)

  datatype Op = Put(now: int, note: Note, error: string) | Try(id: nat, went: Delivery)

  predicate HasRow(rows: seq<Pending>, id: nat) {
    exists p :: p in rows && p.id == id
  }

  function RowWith(rows: seq<Pending>, id: nat): (p: Pending)
    requires HasRow(rows, id)
    ensures p in rows && p.id == id
  {
    var n := |rows| - 1;
    if rows[n].id == id then rows[n] else RowWith(rows[..n], id)
  }

  function Settled(rows: seq<Pending>, id: nat, went: Delivery): seq<Pending> {
    if went.ok then Without(rows, id) else Retried(rows, id, went.marked, went.error)
  }

  /** Only a due row is tried; the clock does not run back. */
  predicate Allowed(l: Ledger, op: Op) {
    match op
    case Put(now, _, _) => l.clock <= now
    case Try(id, went) =>
      l.clock <= went.at <= went.marked && HasRow(l.rows, id) && IsDue(RowWith(l.rows, id), went.at)
  }

  function AttemptOn(p: Pending, went: Delivery): Attempt {
    Attempt(p.id, p.retryCount + 1, p.createdAt, went.at, went.marked, went.calls, went.error)
  }

  function Apply(l: Ledger, op: Op): Ledger
    requires Allowed(l, op)
  {
    match op
    case Put(now, note, error) =>
      l.(rows := Enqueued(l.rows, |l.arrived|, note, error, now), arrived := l.arrived + [note], clock := now)
    case Try(id, went) =>
      var p := RowWith(l.rows, id);
      l.(rows := Settled(l.rows, id, went),
         clock := went.marked,
         attempts := l.attempts + [AttemptOn(p, went)],
         delivered := if went.ok then l.delivered + [id] else l.delivered)
  }

  predicate History(l: Ledger, ops: seq<Op>)
    decreases |ops|, 0
  {
    ops == [] || (History(l, ops[..|ops| - 1]) && Allowed(Replay(l, ops[..|ops| - 1]), ops[|ops| - 1]))
  }

  function Replay(l: Ledger, ops: seq<Op>): Ledger
    requires History(l, ops)
    decreases |ops|, 1
  {
    if ops == [] then l else Apply(Replay(l, ops[..|ops| - 1]), ops[|ops| - 1])
  }

  predicate Empty(l: Ledger) {
    l.rows == [] && l.arrived == [] && l.attempts == [] && l.delivered == []
  }

  // ---- what every history keeps ----

  predicate Increasing(rows: seq<Pending>) {
    forall a, b | 0 <= a < b < |rows| :: rows[a].id < rows[b].id
  }

  /** Ids grow along the table, and a row still holds what arrived under its id. */
  predicate Ordered(rows: seq<Pending>, arrived: seq<Note>) {
    && Increasing(rows)
    && (forall p <- rows :: p.id < |arrived| && p.note == arrived[p.id])
  }

  /** The pause before the next attempt has doubled with every failure. */
  predicate BacksOff(p: Pending) {
    && p.retryCount <= MAX_DLQ_RETRIES
    && p.nextRetryAt.Some?
    && p.nextRetryAt.value >= p.createdAt + DLQ_RETRY_DELAY_SEC * Pow2(p.retryCount)
  }

  /** Attempt k comes no earlier than 120 * 2^(k-1) seconds after the notification was enqueued. */
  predicate InTime(a: Attempt) {
    1 <= a.k <= MAX_DLQ_RETRIES && a.at >= a.born + DLQ_RETRY_DELAY_SEC * Pow2(a.k - 1)
  }

  function AttemptsOf(attempts: seq<Attempt>, id: nat): (r: seq<Attempt>)
    ensures forall a <- r :: a in attempts && a.id == id
  {
    if attempts == [] then []
    else
      var n := |attempts| - 1;
      AttemptsOf(attempts[..n], id) + if attempts[n].id == id then [attempts[n]] else []
  }

  /** The attempts of one notification are numbered 1, 2, 3, ... */
  predicate Numbered(attempts: seq<Attempt>) {
    forall k | 0 <= k < |attempts| :: attempts[k].k == k + 1
  }

  predicate Distinct(ids: seq<nat>) {
    forall a, b | 0 <= a < b < |ids| :: ids[a] != ids[b]
  }

  /** Each notification that arrived is stored or has been delivered, never both, never twice. */
  ghost predicate Conserved(l: Ledger) {
    && Distinct(l.delivered)
    && (forall id: nat :: id < |l.arrived| <==> (HasRow(l.rows, id) || id in l.delivered))
    && (forall id: nat :: !(HasRow(l.rows, id) && id in l.delivered))
  }

  /** A stored row has failed as often as it counts. */
  ghost predicate Counted(l: Ledger) {
    && (forall id: nat :: Numbered(AttemptsOf(l.attempts, id)))
    && (forall p <- l.rows :: |AttemptsOf(l.attempts, p.id)| == p.retryCount)
    && (forall id: nat | id >= |l.arrived| :: AttemptsOf(l.attempts, id) == [])
  }

  ghost predicate Sound(l: Ledger) {
    && Ordered(l.rows, l.arrived)
    && (forall p <- l.rows :: BacksOff(p))
    && (forall a <- l.attempts :: InTime(a))
    && Conserved(l)
    && Counted(l)
  }

  // ---- one row at a time ----

  lemma OneRow(rows: seq<Pending>, arrived: seq<Note>, p: Pending, q: Pending)
    requires Ordered(rows, arrived) && p in rows && q in rows && p.id == q.id
    ensures p == q
  {
  }

  lemma {:induction false} WithoutIncreasing(rows: seq<Pending>, id: nat)
    requires Increasing(rows)
    ensures Increasing(Without(rows, id))
  {
    if rows != [] {
      var n := |rows| - 1;
      var earlier := Without(rows[..n], id);
      WithoutIncreasing(rows[..n], id);
      forall k | 0 <= k < |earlier|
        ensures earlier[k].id < rows[n].id
      {
        assert earlier[k] in rows[..n];
      }
      if rows[n].id != id {
        assert Without(rows, id) == earlier + [rows[n]];
      } else {
        assert Without(rows, id) == earlier;
      }
    }
  }

  lemma WithoutOrdered(rows: seq<Pending>, arrived: seq<Note>, id: nat)
    requires Ordered(rows, arrived)
    ensures Ordered(Without(rows, id), arrived)
  {
    WithoutIncreasing(rows, id);
  }

  lemma RetriedRow(rows: seq<Pending>, id: nat, now: int, error: string, p: Pending)
    ensures p in Retried(rows, id, now, error)
       <==> exists q :: q in rows && p == if q.id == id then Postponed(q, now, error) else q
  {
    hide Postponed;
    var r := Retried(rows, id, now, error);
    if p in r {
      var j :| 0 <= j < |r| && r[j] == p;
      assert rows[j] in rows;
    }
    if q :| q in rows && p == if q.id == id then Postponed(q, now, error) else q {
      var j :| 0 <= j < |rows| && rows[j] == q;
      assert r[j] == p;
    }
  }

  lemma SettledRow(rows: seq<Pending>, arrived: seq<Note>, id: nat, went: Delivery, p: Pending)
    requires Ordered(rows, arrived) && HasRow(rows, id)
    ensures p in Settled(rows, id, went) <==>
      (p in rows && p.id != id) || (!went.ok && p == Postponed(RowWith(rows, id), went.marked, went.error))
  {
    hide Postponed, Ordered, Retried;
    var q := RowWith(rows, id);
    if !went.ok {
      RetriedRow(rows, id, went.marked, went.error, p);
      forall o | o in rows && o.id == id
        ensures o == q
      {
        OneRow(rows, arrived, o, q);
      }
    }
  }

  lemma SettledOrdered(rows: seq<Pending>, arrived: seq<Note>, id: nat, went: Delivery)
    requires Ordered(rows, arrived)
    ensures Ordered(Settled(rows, id, went), arrived)
  {
    if went.ok {
      WithoutOrdered(rows, arrived, id);
    } else {
      var r := Retried(rows, id, went.marked, went.error);
      forall p | p in r
        ensures p.id < |arrived| && p.note == arrived[p.id]
      {
        var k :| 0 <= k < |r| && r[k] == p;
        assert rows[k] in rows;
      }
    }
  }

  lemma SettledRows(rows: seq<Pending>, arrived: seq<Note>, id: nat, went: Delivery, other: nat)
    requires Ordered(rows, arrived) && HasRow(rows, id)
    ensures HasRow(Settled(rows, id, went), other) <==> HasRow(rows, other) && (other == id ==> !went.ok)
  {
    var r := Settled(rows, id, went);
    if HasRow(rows, other) && (other == id ==> !went.ok) {
      var p := RowWith(rows, other);
      var q := if other == id then Postponed(RowWith(rows, id), went.marked, went.error) else p;
      SettledRow(rows, arrived, id, went, q);
      assert q in r && q.id == other;
    }
    if HasRow(r, other) {
      SettledRow(rows, arrived, id, went, RowWith(r, other));
    }
  }

  /** Waiting 120 * 2^k after an attempt that itself waited 120 * 2^k. */
  lemma PostponedBacksOff(p: Pending, went: Delivery)
    requires BacksOff(p) && IsDue(p, went.at) && went.at <= went.marked
    ensures BacksOff(Postponed(p, went.marked, went.error))
  {
    assert Pow2(p.retryCount + 1) == 2 * Pow2(p.retryCount);
  }

  // ---- each operation keeps the ledger sound ----

  lemma PutSound(l: Ledger, op: Op)
    requires Sound(l) && Allowed(l, op) && op.Put?
    ensures Sound(Apply(l, op))
  {
    var r := Apply(l, op);
    var id := |l.arrived|;
    var p := r.rows[|l.rows|];
    assert p in r.rows && r.rows == l.rows + [p] && Pow2(0) == 1;
    assert forall q :: q in r.rows <==> q in l.rows || q == p;
    assert forall other: nat :: HasRow(r.rows, other) <==> HasRow(l.rows, other) || other == id;
  }

  lemma TryConserves(l: Ledger, op: Op)
    requires Sound(l) && Allowed(l, op) && op.Try?
    ensures Conserved(Apply(l, op))
  {
    var r := Apply(l, op);
    forall other: nat
      ensures HasRow(r.rows, other) <==> HasRow(l.rows, other) && (other == op.id ==> !op.went.ok)
    {
      SettledRows(l.rows, l.arrived, op.id, op.went, other);
    }
    assert forall other :: other in r.delivered <==> other in l.delivered || (op.went.ok && other == op.id);
  }

  lemma TryCounts(l: Ledger, op: Op)
    requires Sound(l) && Allowed(l, op) && op.Try?
    ensures Counted(Apply(l, op))
  {
    var r := Apply(l, op);
    var p := RowWith(l.rows, op.id);
    var a := AttemptOn(p, op.went);
    assert r.attempts == l.attempts + [a] && r.attempts[..|l.attempts|] == l.attempts;
    assert forall id: nat :: AttemptsOf(r.attempts, id)
                          == AttemptsOf(l.attempts, id) + if id == op.id then [a] else [];
    forall q | q in r.rows
      ensures |AttemptsOf(r.attempts, q.id)| == q.retryCount
    {
      SettledRow(l.rows, l.arrived, op.id, op.went, q);
    }
    forall id: nat
      ensures Numbered(AttemptsOf(r.attempts, id))
    {
      assert Numbered(AttemptsOf(l.attempts, id));
    }
  }

  lemma TrySound(l: Ledger, op: Op)
    requires Sound(l) && Allowed(l, op) && op.Try?
    ensures Sound(Apply(l, op))
  {
    hide Conserved, Counted, Settled;
    var r := Apply(l, op);
    TryConserves(l, op);
    TryCounts(l, op);
    SettledOrdered(l.rows, l.arrived, op.id, op.went);
    var p := RowWith(l.rows, op.id);
    PostponedBacksOff(p, op.went);
    forall q | q in r.rows
      ensures BacksOff(q)
    {
      SettledRow(l.rows, l.arrived, op.id, op.went, q);
    }
  }

  lemma {:induction false} AlwaysSound(l: Ledger, ops: seq<Op>)
    requires Empty(l) && History(l, ops)
    ensures Sound(Replay(l, ops))
  {
    hide Sound, Apply;
    if ops == [] {
      EmptySound(l);
    } else {
      var n := |ops| - 1;
      AlwaysSound(l, ops[..n]);
      if ops[n].Put? {
        PutSound(Replay(l, ops[..n]), ops[n]);
      } else {
        TrySound(Replay(l, ops[..n]), ops[n]);
      }
    }
  }

  lemma EmptySound(l: Ledger)
    requires Empty(l)
    ensures Sound(l)
  {
  }

  // ---- the queue over every history ----

  /** In every reachable table a stored row waits at least 120 * 2^failures seconds
      from its arrival, and every attempt ever made was late enough and at most the fifth. */
  lemma RetriesBackOff(l: Ledger, ops: seq<Op>, id: nat)
    requires Empty(l) && History(l, ops)
    ensures var r := Replay(l, ops);
            && (forall p <- r.rows :: BacksOff(p))
            && (forall a <- AttemptsOf(r.attempts, id) :: InTime(a))
            && Numbered(AttemptsOf(r.attempts, id))
            && |AttemptsOf(r.attempts, id)| <= MAX_DLQ_RETRIES
  {
    hide History, Replay;
    AlwaysSound(l, ops);
    var mine := AttemptsOf(Replay(l, ops).attempts, id);
    if mine != [] {
      assert mine[|mine| - 1] in mine && InTime(mine[|mine| - 1]);
    }
  }

  /** Whatever arrived is either still stored, as it arrived, with its failures
      counted, or was delivered and is gone; nothing is delivered twice. */
  lemma DeliveredOnceOrStored(l: Ledger, ops: seq<Op>, id: nat)
    requires Empty(l) && History(l, ops) && id < |Replay(l, ops).arrived|
    ensures var r := Replay(l, ops);
            && Distinct(r.delivered)
            && (HasRow(r.rows, id) <==> id !in r.delivered)
            && (HasRow(r.rows, id) ==>
                  var p := RowWith(r.rows, id);
                  && p.note == r.arrived[id]
                  && p.retryCount == |AttemptsOf(r.attempts, id)|
                  && p.retryCount <= MAX_DLQ_RETRIES)
  {
    hide History, Replay;
    AlwaysSound(l, ops);
  }

  /** The attempts the stored rows may still use. */
  function Budget(rows: seq<Pending>): int {
    if rows == [] then 0
    else Budget(rows[..|rows| - 1]) + MAX_DLQ_RETRIES - rows[|rows| - 1].retryCount
  }

  lemma {:induction false} WithoutBudget(rows: seq<Pending>, id: nat)
    requires Increasing(rows)
    ensures !HasRow(rows, id) ==> Budget(Without(rows, id)) == Budget(rows)
    ensures HasRow(rows, id) ==>
      Budget(Without(rows, id)) == Budget(rows) - (MAX_DLQ_RETRIES - RowWith(rows, id).retryCount)
  {
    if rows != [] {
      var n := |rows| - 1;
      WithoutBudget(rows[..n], id);
      HasRowSnoc(rows, id);
      var earlier := Without(rows[..n], id);
      if rows[n].id == id {
        assert Without(rows, id) == earlier;
      } else {
        assert Without(rows, id) == earlier + [rows[n]];
        assert (earlier + [rows[n]])[..|earlier|] == earlier;
      }
    }
  }

  lemma HasRowSnoc(rows: seq<Pending>, id: nat)
    requires rows != [] && Increasing(rows)
    ensures var n := |rows| - 1; HasRow(rows, id) <==> HasRow(rows[..n], id) || rows[n].id == id
    ensures rows[|rows| - 1].id == id ==> !HasRow(rows[..|rows| - 1], id)
  {
    var n := |rows| - 1;
    assert rows == rows[..n] + [rows[n]];
    assert rows[n] in rows;
    if HasRow(rows[..n], id) {
      assert RowWith(rows[..n], id) in rows;
    }
  }

  lemma {:induction false} RetriedBudget(rows: seq<Pending>, id: nat, now: int, error: string)
    requires Increasing(rows)
    ensures Budget(Retried(rows, id, now, error)) == Budget(rows) - if HasRow(rows, id) then 1 else 0
  {
    if rows != [] {
      var n := |rows| - 1;
      RetriedBudget(rows[..n], id, now, error);
      HasRowSnoc(rows, id);
      assert Retried(rows, id, now, error)[..n] == Retried(rows[..n], id, now, error);
    }
  }

  /** Every attempt, whatever its outcome, uses up some of what is left; a failed one exactly one. */
  lemma AttemptSpends(l: Ledger, op: Op)
    requires Sound(l) && Allowed(l, op) && op.Try?
    ensures var left := Budget(Apply(l, op).rows);
            && 0 <= left < Budget(l.rows)
            && (!op.went.ok ==> left == Budget(l.rows) - 1)
  {
    hide Conserved, Counted;
    if op.went.ok {
      WithoutBudget(l.rows, op.id);
    } else {
      RetriedBudget(l.rows, op.id, op.went.marked, op.went.error);
    }
    TrySound(l, op);
    BudgetNatural(Apply(l, op).rows);
  }

  lemma {:induction false} BudgetNatural(rows: seq<Pending>)
    requires forall p <- rows :: p.retryCount <= MAX_DLQ_RETRIES
    ensures Budget(rows) >= 0
  {
    if rows != [] {
      BudgetNatural(rows[..|rows| - 1]);
      assert rows[|rows| - 1] in rows;
    }
  }

  /** Termination: at most five attempts per notification that ever arrived, less what is left. */
  lemma {:induction false} AttemptsAreFinite(l: Ledger, ops: seq<Op>)
    requires Empty(l) && History(l, ops)
    ensures var r := Replay(l, ops);
            |r.attempts| + Budget(r.rows) <= MAX_DLQ_RETRIES * |r.arrived| && 0 <= Budget(r.rows)
  {
    hide Sound, Settled;
    if ops != [] {
      var n := |ops| - 1;
      AttemptsAreFinite(l, ops[..n]);
      AlwaysSound(l, ops[..n]);
      var before := Replay(l, ops[..n]);
      if ops[n].Try? {
        AttemptSpends(before, ops[n]);
      } else {
        var r := Apply(before, ops[n]);
        assert r.rows[..|before.rows|] == before.rows;
      }
    }
  }

  function TotalCalls(attempts: seq<Attempt>): nat {
    if attempts == [] then 0
    else TotalCalls(attempts[..|attempts| - 1]) + attempts[|attempts| - 1].calls
  }

  lemma {:induction false} CallsWithin(attempts: seq<Attempt>, n: nat)
    requires forall a <- attempts :: a.calls <= n
    ensures TotalCalls(attempts) <= n * |attempts|
  {
    if attempts != [] {
      CallsWithin(attempts[..|attempts| - 1], n);
      assert attempts[|attempts| - 1] in attempts;
      assert n * |attempts| == n * (|attempts| - 1) + n;
    }
  }

  lemma {:induction false} AttemptsKeepCalls(l: Ledger, ops: seq<Op>, n: nat)
    requires Empty(l) && History(l, ops)
    requires forall op | op in ops && op.Try? :: op.went.calls <= n
    ensures forall a <- Replay(l, ops).attempts :: a.calls <= n
  {
    hide Settled;
    if ops != [] {
      assert ops[|ops| - 1] in ops;
      AttemptsKeepCalls(l, ops[..|ops| - 1], n);
    }
  }

  lemma Scaled(n: nat, a: nat, b: nat)
    requires a <= b
    ensures n * a <= n * b
  {
  }

  /** If one attempt makes at most `n` calls, a queued row costs at most 5 * n. */
  lemma SendsPerRow(l: Ledger, ops: seq<Op>, id: nat, n: nat)
    requires Empty(l) && History(l, ops)
    requires forall op | op in ops && op.Try? :: op.went.calls <= n
    ensures TotalCalls(AttemptsOf(Replay(l, ops).attempts, id)) <= n * MAX_DLQ_RETRIES
  {
    hide *;
    RetriesBackOff(l, ops, id);
    AttemptsKeepCalls(l, ops, n);
    var mine := AttemptsOf(Replay(l, ops).attempts, id);
    CallsWithin(mine, n);
    Scaled(n, |mine|, MAX_DLQ_RETRIES);
  }

  // ---- a retry pass ----

  /** The table after the due rows have been tried in turn. */
  function Passed(rows: seq<Pending>, due: seq<Pending>, went: seq<Delivery>): seq<Pending>
    requires |went| == |due|
  {
    if due == [] then rows
    else
      var n := |due| - 1;
      Settled(Passed(rows, due[..n], went[..n]), due[n].id, went[n])
  }

  function TryOps(due: seq<Pending>, went: seq<Delivery>): seq<Op>
    requires |went| == |due|
  {
    if due == [] then []
    else
      var n := |due| - 1;
      TryOps(due[..n], went[..n]) + [Try(due[n].id, went[n])]
  }

  lemma {:induction false} DueIncreasing(rows: seq<Pending>, now: int)
    requires Increasing(rows)
    ensures Increasing(Due(rows, now))
  {
    if rows != [] {
      var n := |rows| - 1;
      var earlier := Due(rows[..n], now);
      DueIncreasing(rows[..n], now);
      forall k | 0 <= k < |earlier|
        ensures earlier[k].id < rows[n].id
      {
        assert earlier[k] in rows[..n];
      }
      if IsDue(rows[n], now) {
        assert Due(rows, now) == earlier + [rows[n]];
      } else {
        assert Due(rows, now) == earlier;
      }
    }
  }

  /** The attempts of a pass follow one another, starting no earlier than the query for due rows. */
  predicate InTurn(now: int, went: seq<Delivery>) {
    forall k | 0 <= k < |went| :: FreeAt(now, went[..k]) <= went[k].at <= went[k].marked
  }

  function FreeAt(now: int, went: seq<Delivery>): int {
    if went == [] then now else went[|went| - 1].marked
  }

  lemma NoEarlier(now: int, went: seq<Delivery>, k: nat)
    requires InTurn(now, went) && k < |went|
    ensures now <= went[k].at
  {
    if k > 0 {
      NoEarlier(now, went, k - 1);
      assert FreeAt(now, went[..k]) == went[k - 1].marked;
    }
  }

  lemma NothingReplayed(l: Ledger)
    ensures History(l, []) && Replay(l, []) == l
  {
  }

  lemma ReplaySnoc(l: Ledger, ops: seq<Op>, op: Op)
    requires History(l, ops) && Allowed(Replay(l, ops), op)
    ensures History(l, ops + [op]) && Replay(l, ops + [op]) == Apply(Replay(l, ops), op)
  {
    assert (ops + [op])[..|ops|] == ops;
  }

  /** A row not yet tried in this pass stands untouched. */
  lemma {:induction false} PassFollows(l: Ledger, now: int, due: seq<Pending>,
                                       went: seq<Delivery>, waiting: set<Pending>)
    requires Sound(l) && l.clock <= now && |went| == |due| && InTurn(now, went)
    requires Increasing(due) && (forall p <- due :: p in l.rows && IsDue(p, now))
    requires forall p <- waiting :: p in l.rows && forall q <- due :: q.id != p.id
    ensures History(l, TryOps(due, went))
    ensures var r := Replay(l, TryOps(due, went));
            && Sound(r)
            && r.rows == Passed(l.rows, due, went)
            && r.clock == (if went == [] then l.clock else went[|went| - 1].marked)
            && forall p <- waiting :: p in r.rows
    decreases |due|
  {
    hide Sound, Settled, IsDue, Apply, Allowed, InTurn, Increasing, History, Replay;
    if due == [] {
      NothingReplayed(l);
    } else {
      var n := |due| - 1;
      DueApart(due);
      OthersWait(l, due, waiting);
      TurnPrefix(now, went);
      PassFollows(l, now, due[..n], went[..n], waiting + {due[n]});
      LastTurn(now, went);
      var ops := TryOps(due[..n], went[..n]);
      assert due[n] in due;
      TryDue(Replay(l, ops), now, due[n], went[n]);
      ReplaySnoc(l, ops, Try(due[n].id, went[n]));
    }
  }

  lemma LastTurn(now: int, went: seq<Delivery>)
    requires InTurn(now, went) && went != []
    ensures var n := |went| - 1;
            && now <= went[n].at <= went[n].marked
            && (n > 0 ==> went[n - 1].marked <= went[n].at)
  {
    var n := |went| - 1;
    NoEarlier(now, went, n);
    assert FreeAt(now, went[..n]) <= went[n].at;
  }

  lemma TurnPrefix(now: int, went: seq<Delivery>)
    requires InTurn(now, went) && went != []
    ensures InTurn(now, went[..|went| - 1])
  {
    var w := went[..|went| - 1];
    forall k | 0 <= k < |w|
      ensures FreeAt(now, w[..k]) <= w[k].at <= w[k].marked
    {
      assert w[..k] == went[..k];
    }
  }

  lemma DueApart(due: seq<Pending>)
    requires Increasing(due) && due != []
    ensures Increasing(due[..|due| - 1])
    ensures forall q <- due[..|due| - 1] :: q in due && q.id != due[|due| - 1].id
  {
  }

  lemma OthersWait(l: Ledger, due: seq<Pending>, waiting: set<Pending>)
    requires due != [] && forall p <- waiting :: p in l.rows && forall q <- due :: q.id != p.id
    ensures forall p <- waiting :: forall q <- due[..|due| - 1] :: q.id != p.id
  {
  }

  lemma TryDue(l: Ledger, now: int, p: Pending, went: Delivery)
    requires Sound(l) && p in l.rows && IsDue(p, now) && now <= went.at <= went.marked && l.clock <= went.at
    ensures Allowed(l, Try(p.id, went))
    ensures var r := Apply(l, Try(p.id, went));
            && Sound(r)
            && r.rows == Settled(l.rows, p.id, went)
            && r.clock == went.marked
            && forall q | q in l.rows && q.id != p.id :: q in r.rows
  {
    hide Settled;
    assert HasRow(l.rows, p.id);
    OneRow(l.rows, l.arrived, p, RowWith(l.rows, p.id));
    TrySound(l, Try(p.id, went));
    forall q | q in l.rows && q.id != p.id
      ensures q in Settled(l.rows, p.id, went)
    {
      SettledRow(l.rows, l.arrived, p.id, went, q);
    }
  }

  /** A retry pass over everything due is a stretch of history: each due row is
      tried once, in order of arrival, and no other row changes. */
  lemma PassIsHistory(l: Ledger, now: int, went: seq<Delivery>)
    requires Sound(l) && l.clock <= now && |went| == |Due(l.rows, now)| && InTurn(now, went)
    ensures var due := Due(l.rows, now);
            && History(l, TryOps(due, went))
            && Replay(l, TryOps(due, went)).rows == Passed(l.rows, due, went)
            && forall p | p in l.rows && !IsDue(p, now) :: p in Passed(l.rows, due, went)
  {
    hide Passed, TryOps, History, Replay;
    var due := Due(l.rows, now);
    DueIncreasing(l.rows, now);
    var rest := set p | p in l.rows && !IsDue(p, now);
    forall p, q | p in rest && q in due
      ensures q.id != p.id
    {
      assert q in l.rows && IsDue(q, now);
      if q.id == p.id {
        OneRow(l.rows, l.arrived, p, q);
      }
    }
    PassFollows(l, now, due, went, rest);
    forall p | p in l.rows && !IsDue(p, now)
      ensures p in Passed(l.rows, due, went)
    {
      assert p in rest;
    }
  }

  // ---- the queue itself ----

  /** What one attempt on a row amounts to, given what the client would answer. */
  function DeliveryOf(answers: nat -> Answer, maxRetries: int, at: int, marked: int,
                      describe: Failure -> string): (d: Delivery)
    ensures d.calls <= if maxRetries < 1 then 0 else maxRetries
    ensures d.ok <==> exists k: nat | k < maxRetries :: Accepted(answers(k))
  {
    var o := OutcomeOf(answers, maxRetries);
    Delivery(at, marked, if maxRetries < 1 then 0 else Calls(answers, maxRetries), o.Delivered?,
             if o.Delivered? then "" else describe(o.failure))
  }

  /** The deliveries of a pass: the client and the clock as each row meets them. */
  function Deliveries(n: nat, client: nat -> nat -> Answer, maxRetries: int, begun: nat -> int, ended: nat -> int,
                      describe: Failure -> string): (r: seq<Delivery>)
    ensures |r| == n
  {
    seq(n, k requires 0 <= k < n => DeliveryOf(client(k), maxRetries, begun(k), ended(k), describe))
  }

  function Successes(went: seq<Delivery>): nat {
    if went == [] then 0 else Successes(went[..|went| - 1]) + if went[|went| - 1].ok then 1 else 0
  }

  // ---- arrivals and retry passes ----

  /** What happens to the queue: a notification arrives, or a pass goes over what is
      due, with the client and the clock as each due row meets them. */
  datatype Action =
    | Arrival(at: int, note: Note, error: string)
    | Pass(now: int, client: nat -> nat -> Answer, begun: nat -> int, ended: nat -> int)

  /** How often to try and how to word a failure; the same for all passes. */
  datatype Retry = Retry(max: int, describe: Failure -> string)

  function PassDeliveries(rows: seq<Pending>, a: Action, how: Retry): (r: seq<Delivery>)
    requires a.Pass?
    ensures |r| == |Due(rows, a.now)|
  {
    Deliveries(|Due(rows, a.now)|, a.client, how.max, a.begun, a.ended, how.describe)
  }

  /** The clock does not run back, and the attempts of a pass follow one another. */
  predicate Timely(l: Ledger, a: Action, how: Retry) {
    match a
    case Arrival(at, _, _) => l.clock <= at
    case Pass(now, _, _, _) => l.clock <= now && InTurn(now, PassDeliveries(l.rows, a, how))
  }

  /** The attempts of an action, as a stretch of history. */
  function OpsOf(l: Ledger, a: Action, how: Retry): seq<Op> {
    match a
    case Arrival(at, note, error) => [Put(at, note, error)]
    case Pass(now, _, _, _) => TryOps(Due(l.rows, now), PassDeliveries(l.rows, a, how))
  }

  lemma ActionIsHistory(l: Ledger, a: Action, how: Retry)
    requires Sound(l) && Timely(l, a, how)
    ensures History(l, OpsOf(l, a, how))
    ensures a.Pass? ==>
      Replay(l, OpsOf(l, a, how)).rows == Passed(l.rows, Due(l.rows, a.now), PassDeliveries(l.rows, a, how))
  {
    hide Sound, Passed, Replay;
    if a.Pass? {
      PassIsHistory(l, a.now, PassDeliveries(l.rows, a, how));
    } else {
      NothingReplayed(l);
      ReplaySnoc(l, [], Put(a.at, a.note, a.error));
      assert [] + [Put(a.at, a.note, a.error)] == [Put(a.at, a.note, a.error)];
    }
  }

  lemma {:induction false} HistoryJoin(l: Ledger, a: seq<Op>, b: seq<Op>)
    requires History(l, a) && History(Replay(l, a), b)
    ensures History(l, a + b) && Replay(l, a + b) == Replay(Replay(l, a), b)
  {
    hide Allowed, Apply;
    if b == [] {
      assert a + b == a;
    } else {
      assert (a + b)[..|a + b| - 1] == a + b[..|b| - 1];
      HistoryJoin(l, a, b[..|b| - 1]);
    }
  }

  /** The whole history of a queue under these actions; None if one of them is untimely. */
  function OpsOfAll(l: Ledger, actions: seq<Action>, how: Retry): Option<seq<Op>> {
    if actions == [] then Some([])
    else
      var n := |actions| - 1;
      var earlier := OpsOfAll(l, actions[..n], how);
      if earlier.None? || !History(l, earlier.value) then None
      else
        var b := Replay(l, earlier.value);
        if Timely(b, actions[n], how) then Some(earlier.value + OpsOf(b, actions[n], how)) else None
  }

  lemma {:induction false} TriesWithin(due: seq<Pending>, went: seq<Delivery>, n: nat)
    requires |went| == |due| && forall d <- went :: d.calls <= n
    ensures forall op | op in TryOps(due, went) && op.Try? :: op.went.calls <= n
  {
    if due != [] {
      var k := |due| - 1;
      assert went[k] in went && forall d <- went[..k] :: d in went;
      TriesWithin(due[..k], went[..k], n);
    }
  }

  function Tries(how: Retry): nat {
    if how.max < 1 then 0 else how.max
  }

  lemma DeliveriesWithin(rows: seq<Pending>, a: Action, how: Retry)
    requires a.Pass?
    ensures forall d <- PassDeliveries(rows, a, how) :: d.calls <= Tries(how)
  {
    hide DeliveryOf;
    var went := PassDeliveries(rows, a, how);
    forall d | d in went
      ensures d.calls <= Tries(how)
    {
      var k :| 0 <= k < |went| && went[k] == d;
      assert d == DeliveryOf(a.client(k), how.max, a.begun(k), a.ended(k), how.describe);
    }
  }

  /** Every timely sequence of arrivals and passes is a history whose attempts are
      those of the retry loop. */
  lemma {:induction false} ActionsAreHistory(l: Ledger, actions: seq<Action>, how: Retry)
    requires Empty(l) && OpsOfAll(l, actions, how).Some?
    ensures History(l, OpsOfAll(l, actions, how).value)
    ensures forall op | op in OpsOfAll(l, actions, how).value && op.Try? :: op.went.calls <= Tries(how)
  {
    hide History, Replay, Timely, PassDeliveries, Deliveries, TryOps;
    if actions == [] {
      NothingReplayed(l);
    } else {
      var n := |actions| - 1;
      ActionsAreHistory(l, actions[..n], how);
      var ops := OpsOfAll(l, actions[..n], how).value;
      var b, a := Replay(l, ops), actions[n];
      AlwaysSound(l, ops);
      ActionIsHistory(b, a, how);
      HistoryJoin(l, ops, OpsOf(b, a, how));
      if a.Pass? {
        DeliveriesWithin(b.rows, a, how);
        TriesWithin(Due(b.rows, a.now), PassDeliveries(b.rows, a, how), Tries(how));
      }
    }
  }

  /** Over every timely sequence of arrivals and retry passes a queued row costs at
      most five times the retry loop's calls. */
  lemma CallsPerRow(l: Ledger, actions: seq<Action>, how: Retry, id: nat)
    requires Empty(l) && OpsOfAll(l, actions, how).Some?
    ensures History(l, OpsOfAll(l, actions, how).value)
    ensures TotalCalls(AttemptsOf(Replay(l, OpsOfAll(l, actions, how).value).attempts, id))
         <= Tries(how) * MAX_DLQ_RETRIES
  {
    hide *;
    ActionsAreHistory(l, actions, how);
    SendsPerRow(l, OpsOfAll(l, actions, how).value, id, Tries(how));
  }

  class Queue {
    var rows: seq<Pending>
    var arrived: nat

    constructor ()
      ensures rows == [] && arrived == 0
    {
      rows, arrived := [], 0;
    }

    method EnqueueNotification(note: Note, error: string, now: int)
      modifies this
      ensures rows == Enqueued(old(rows), old(arrived), note, error, now)
      ensures arrived == old(arrived) + 1
    {
      rows := rows + [Pending(arrived, note, now, 0, error, Some(now + DLQ_RETRY_DELAY_SEC))];
      arrived := arrived + 1;
    }

    method DequeueDueNotifications(now: int) returns (due: seq<Pending>)
      ensures due == Due(rows, now)
    {
      due := Due(rows, now);
    }

    method MarkSent(id: nat)
      modifies this`rows
      ensures rows == Without(old(rows), id)
    {
      rows := Without(rows, id);
    }

    /** A row that is gone is left gone. */
    method MarkFailed(id: nat, error: string, now: int) returns (updated: Option<Pending>)
      modifies this`rows
      ensures rows == Retried(old(rows), id, now, error)
      ensures updated == if HasRow(old(rows), id) then Some(Postponed(RowWith(old(rows), id), now, error)) else None
    {
      updated := None;
      ghost var was := rows;
      if k :| 0 <= k < |rows| && rows[k].id == id {
        assert rows[k] in rows;
        updated := Some(Postponed(RowWith(rows, id), now, error));
        rows := Retried(rows, id, now, error);
      } else {
        assert forall p <- rows :: p.id != id;
        assert rows == Retried(rows, id, now, error);
      }
    }

    /** One pass: `client(k)` answers for the k-th due row, `begun` and `ended`
        are the instants its attempt begins and is recorded. */
    method RetryDlqNotifications(now: int, client: nat -> nat -> Answer, maxRetries: int, base: real,
                                 begun: nat -> int, ended: nat -> int, describe: Failure -> string)
      returns (processed: nat)
      modifies this`rows
      ensures var due := Due(old(rows), now);
              var went := Deliveries(|due|, client, maxRetries, begun, ended, describe);
              && rows == Passed(old(rows), due, went)
              && processed == Successes(went)
    {
      hide Due, Without, Retried, DeliveryOf, Postponed, RowWith, HasRow, OutcomeOf;
      processed := 0;
      var due := DequeueDueNotifications(now);
      if due == [] { return; }
      ghost var went := Deliveries(|due|, client, maxRetries, begun, ended, describe);
      for i := 0 to |due|
        invariant rows == Passed(old(rows), due[..i], went[..i])
        invariant processed == Successes(went[..i])
      {
        var outcome, _, _ := RoomSendWithRetry(client(i), maxRetries, base);
        AttemptIs(client(i), maxRetries, begun(i), ended(i), describe, outcome);
        match outcome {
          case Delivered(_) =>
            MarkSent(due[i].id);
            processed := processed + 1;
          case Failed(failure) =>
            var _ := MarkFailed(due[i].id, describe(failure), ended(i));
        }
        assert due[..i + 1][..i] == due[..i] && went[..i + 1][..i] == went[..i];
      }
      assert due[..|due|] == due && went[..|due|] == went;
    }
  }

  lemma AttemptIs(answers: nat -> Answer, maxRetries: int, at: int, marked: int, describe: Failure -> string,
                  outcome: Outcome)
    requires outcome == OutcomeOf(answers, maxRetries)
    ensures var d := DeliveryOf(answers, maxRetries, at, marked, describe);
            && d.ok == outcome.Delivered?
            && d.marked == marked
            && (outcome.Failed? ==> d.error == describe(outcome.failure))
  {
  }
}
