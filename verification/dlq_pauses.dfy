/** When exactly a queued notification is tried again (src/database/dlq_repo.py). */
module DlqPauses {
  import opened Wrappers
  import opened MatrixSend
  import opened Dlq

  /** The arrivals, in order: notification number k is the k-th. */
  function Arrivals(ops: seq<Op>): (r: seq<Op>)
    ensures forall op <- r :: op.Put? && op in ops
  {
    if ops == [] then []
    else
      var n := |ops| - 1;
      Arrivals(ops[..n]) + if ops[n].Put? then [ops[n]] else []
  }

  /** When a notification that arrived so and was tried in vain so often is tried next:
      120 seconds after its arrival; 120 * 2^(k-1) seconds after its k-th failure was recorded. */
  function NextTry(put: Op, tries: seq<Attempt>): int
    requires put.Put?
  {
    if tries == [] then put.now + DLQ_RETRY_DELAY_SEC
    else tries[|tries| - 1].marked + DLQ_RETRY_DELAY_SEC * Pow2(|tries| - 1)
  }

  /** What the table says of a row is what its history says. */
  predicate Recorded(p: Pending, put: Op, tries: seq<Attempt>)
    requires put.Put?
  {
    && p.note == put.note && p.createdAt == put.now
    && p.retryCount == |tries|
    && p.lastError == (if tries == [] then put.error else tries[|tries| - 1].error)
    && p.nextRetryAt == Some(NextTry(put, tries))
  }

  ghost predicate AllRecorded(l: Ledger, ops: seq<Op>) {
    && |Arrivals(ops)| == |l.arrived|
    && forall p <- l.rows ::
         p.id < |l.arrived| && Recorded(p, Arrivals(ops)[p.id], AttemptsOf(l.attempts, p.id))
  }

  lemma PutRecords(l: Ledger, before: seq<Op>, op: Op)
    requires Sound(l) && AllRecorded(l, before) && Allowed(l, op) && op.Put?
    ensures AllRecorded(Apply(l, op), before + [op])
  {
    hide Conserved;
    assert (before + [op])[..|before|] == before;
    var r, arrivals := Apply(l, op), Arrivals(before);
    assert Arrivals(before + [op]) == arrivals + [op];
    var id := |l.arrived|;
    forall p | p in r.rows
      ensures p.id < |r.arrived| && Recorded(p, (arrivals + [op])[p.id], AttemptsOf(r.attempts, p.id))
    {
      if p in l.rows {
        assert (arrivals + [op])[p.id] == arrivals[p.id];
      } else {
        assert p == r.rows[|l.rows|] && p.id == id;
        assert AttemptsOf(l.attempts, id) == [];
      }
    }
  }

  lemma FailureRecords(p: Pending, put: Op, tries: seq<Attempt>, went: Delivery)
    requires put.Put? && Recorded(p, put, tries)
    ensures Recorded(Postponed(p, went.marked, went.error), put, tries + [AttemptOn(p, went)])
  {
  }

  lemma TriedOnce(attempts: seq<Attempt>, a: Attempt, id: nat)
    ensures AttemptsOf(attempts + [a], id) == AttemptsOf(attempts, id) + if a.id == id then [a] else []
  {
    assert (attempts + [a])[..|attempts|] == attempts;
  }

  lemma TryRecords(l: Ledger, before: seq<Op>, op: Op)
    requires Sound(l) && AllRecorded(l, before) && Allowed(l, op) && op.Try?
    ensures AllRecorded(Apply(l, op), before + [op])
  {
    hide Conserved, Counted, Settled, Recorded, Postponed, AttemptsOf, Ordered;
    assert (before + [op])[..|before|] == before;
    var r, q := Apply(l, op), RowWith(l.rows, op.id);
    forall p | p in r.rows
      ensures p.id < |r.arrived| && Recorded(p, Arrivals(before)[p.id], AttemptsOf(r.attempts, p.id))
    {
      SettledRow(l.rows, l.arrived, op.id, op.went, p);
      TriedOnce(l.attempts, AttemptOn(q, op.went), p.id);
      if p !in l.rows || p.id == op.id {
        FailureRecords(q, Arrivals(before)[q.id], AttemptsOf(l.attempts, q.id), op.went);
        PostponedId(q, op.went);
      } else {
        assert AttemptsOf(l.attempts, p.id) + [] == AttemptsOf(l.attempts, p.id);
      }
    }
  }

  lemma PostponedId(p: Pending, went: Delivery)
    ensures Postponed(p, went.marked, went.error).id == p.id
  {
  }

  lemma {:induction false} AlwaysRecorded(l: Ledger, ops: seq<Op>)
    requires Empty(l) && History(l, ops)
    ensures AllRecorded(Replay(l, ops), ops)
  {
    hide Apply, Allowed, Sound, AllRecorded;
    if ops == [] {
      NothingRecorded(l);
    } else {
      var n := |ops| - 1;
      AlwaysRecorded(l, ops[..n]);
      AlwaysSound(l, ops[..n]);
      assert ops == ops[..n] + [ops[n]];
      if ops[n].Put? {
        PutRecords(Replay(l, ops[..n]), ops[..n], ops[n]);
      } else {
        TryRecords(Replay(l, ops[..n]), ops[..n], ops[n]);
      }
    }
  }

  lemma NothingRecorded(l: Ledger)
    requires Empty(l)
    ensures AllRecorded(l, [])
  {
  }

  /** In every reachable table a stored row says when and how its notification arrived,
      how often it was tried and with which error, and its next attempt is set exactly
      120 seconds after the arrival, 120 * 2^(k-1) seconds after the k-th failure; it is
      fetched for that attempt as soon as that instant has come, unless it has failed
      five times. */
  lemma RetriedExactlyWhen(l: Ledger, ops: seq<Op>, p: Pending, now: int)
    requires Empty(l) && History(l, ops) && p in Replay(l, ops).rows
    ensures p.id < |Arrivals(ops)|
    ensures var r, put := Replay(l, ops), Arrivals(ops)[p.id];
            var tries := AttemptsOf(r.attempts, p.id);
            && p.note == put.note && p.createdAt == put.now
            && p.retryCount == |tries|
            && p.lastError == (if tries == [] then put.error else tries[|tries| - 1].error)
            && p.nextRetryAt == Some(NextTry(put, tries))
            && (p in Due(r.rows, now) <==> |tries| < MAX_DLQ_RETRIES && NextTry(put, tries) <= now)
  {
    hide History, Replay, NextTry;
    AlwaysRecorded(l, ops);
  }

  /** No attempt is made before that instant, nor after the fifth failure. */
  lemma NeverTooEarly(l: Ledger, ops: seq<Op>, id: nat, went: Delivery)
    requires Empty(l) && History(l, ops) && Allowed(Replay(l, ops), Try(id, went))
    ensures var tries := AttemptsOf(Replay(l, ops).attempts, id);
            && id < |Arrivals(ops)| && |tries| < MAX_DLQ_RETRIES
            && NextTry(Arrivals(ops)[id], tries) <= went.at
  {
    hide History, Replay, NextTry;
    AlwaysRecorded(l, ops);
  }
}
