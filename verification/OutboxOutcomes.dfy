/** What claiming a batch and recording a result do to a row, told by its columns, and when the row comes up again. */
module OutboxOutcomes {
  import opened Basics
  import opened OutboxLease

  /** A row somebody may claim: waiting and due, or taken more than ten minutes ago and not recorded since. */
  predicate IsOpen(r: Row, now: int) {
    (r.status == Pending && r.nextAttemptAt <= now) || (r.status == Processing && r.updatedAt + 600 < now)
  }

  /**
   * An idle worker may claim exactly such rows, not locked by others, each once, at most as many as it asks
   * for - ten if it asks for none or for more than ten - and it leaves one out only when the batch is full
   * of rows that were due no later.
   */
  lemma ClaimOutcome(sys: System, w: nat, limit: int, ids: seq<nat>, locked: set<nat>, maxRetry: int)
    ensures Allowed(sys, Claims(w, limit, ids, locked)) <==>
              var most := if 1 <= limit <= 10 then limit else 10;
              && w < |sys.workers| && sys.workers[w] == Idle && 1 <= |ids| <= most
              && (forall k | 0 <= k < |ids| ::
                    ids[k] < |sys.rows| && IsOpen(sys.rows[ids[k]], sys.now) && ids[k] !in locked)
              && (forall k, l | 0 <= k < l < |ids| :: ids[k] != ids[l])
              && (forall i | 0 <= i < |sys.rows| && IsOpen(sys.rows[i], sys.now) && i !in locked && i !in ids ::
                    && |ids| == most
                    && forall k | 0 <= k < |ids| :: sys.rows[ids[k]].nextAttemptAt <= sys.rows[i].nextAttemptAt)
    ensures Allowed(sys, Claims(w, limit, ids, locked)) ==>
              var after := Happen(sys, Claims(w, limit, ids, locked), maxRetry);
              && after.now == sys.now && after.log == sys.log && |after.rows| == |sys.rows|
              && (forall i | 0 <= i < |sys.rows| :: after.rows[i] ==
                    if i in ids then Row(Processing, sys.rows[i].attempts, sys.rows[i].nextAttemptAt, sys.now) else sys.rows[i])
              && |after.workers| == |sys.workers| && after.workers[w].Busy? && |after.workers[w].todo| == |ids|
              && (forall k | 0 <= k < |ids| :: after.workers[w].todo[k] == Item(ids[k], sys.rows[ids[k]].attempts))
              && forall v | 0 <= v < |sys.workers| && v != w :: after.workers[v] == sys.workers[v]
  {
    forall r: Row ensures IsOpen(r, sys.now) == IsDue(r, sys.now) {
    }
  }

  /** The seconds a row waits after its n-th failure: 1, 2, 4 and so on, at most an hour. */
  function Wait(n: nat): int {
    if n == 0 then 1 else if 2 * Wait(n - 1) > 3600 then 3600 else 2 * Wait(n - 1)
  }

  lemma {:induction false} WaitDoubles(n: nat)
    ensures Wait(n) == if n < 12 then Pow2(n) else 3600
  {
    assert Pow2(11) == 2048 && Pow2(12) == 4096;
    if n > 0 {
      WaitDoubles(n - 1);
      if n < 12 {
        Pow2Grows(n, 11);
      }
    }
  }

  /** The wait as it comes out of a 64-bit shift, which overflows after 63 failures. */
  function Delay(n: nat): int {
    if n < 63 then Wait(n) else if n == 63 then -0x8000_0000_0000_0000 else 0
  }

  lemma BackoffIsTheDelay(n: nat)
    ensures Backoff(n) == Delay(n)
  {
    WaitDoubles(n);
    BackoffIsPositiveExactlyBelow63(n);
  }

  /** The worker has this row in hand, as it claimed it. */
  ghost predicate InWork(sys: System, w: nat, id: nat) {
    && w < |sys.workers| && sys.workers[w].Busy? && sys.workers[w].todo != [] && sys.workers[w].todo[0].id == id
    && id < |sys.rows| && sys.rows[id].status == Processing && sys.rows[id].attempts == sys.workers[w].todo[0].attempts
  }

  /**
   * A recorded success makes the row sent. A recorded failure is the last one when it is the maxRetry-th;
   * before that the row waits again, with one failure more. The log tells the result, and no other row is
   * touched.
   */
  lemma RecordOutcome(sys: System, w: nat, id: nat, sent: bool, maxRetry: int)
    requires InWork(sys, w, id)
    ensures Allowed(sys, Records(w, sent))
    ensures var after, r := Happen(sys, Records(w, sent), maxRetry), sys.rows[id];
            && after.rows == sys.rows[id :=
                 if sent then Row(Sent, r.attempts, r.nextAttemptAt, sys.now)
                 else if r.attempts + 1 >= maxRetry then Row(Failed, r.attempts, r.nextAttemptAt, sys.now)
                 else Row(Pending, r.attempts + 1, sys.now + Delay(r.attempts), sys.now)]
            && after.log == sys.log + [Entry(id, sent)] && after.now == sys.now
            && |after.workers| == |sys.workers|
            && forall v | 0 <= v < |sys.workers| && v != w :: after.workers[v] == sys.workers[v]
  {
    BackoffIsTheDelay(sys.rows[id].attempts);
  }

  /** Of the batch, the rest is still to do. */
  lemma RestOfTheBatch(sys: System, w: nat, id: nat, h: Happening, maxRetry: int)
    requires InWork(sys, w, id) && (h == FailsToRecord(w) || h == Records(w, true) || h == Records(w, false))
    ensures Allowed(sys, h)
    ensures var before, after := sys.workers[w], Happen(sys, h, maxRetry).workers[w];
            if |before.todo| == 1 then after == Idle
            else && after.Busy? && after.todo == before.todo[1..]
                 && after.claimedAt == before.claimedAt && after.startedAt == sys.now && after.done == before.done + 1
  {
  }

  /** A result that cannot be recorded, and a worker that stops, leave the row taken. */
  lemma UnrecordedOutcome(sys: System, w: nat, h: Happening, maxRetry: int)
    requires Allowed(sys, h) && (h == FailsToRecord(w) || h == Stops(w))
    ensures var after := Happen(sys, h, maxRetry);
            && after.rows == sys.rows && after.log == sys.log && after.now == sys.now && |after.workers| == |sys.workers|
            && (h == Stops(w) ==> after.workers[w] == Idle)
            && forall v | 0 <= v < |sys.workers| && v != w :: after.workers[v] == sys.workers[v]
  {
  }

  /** What is enqueued can be claimed at once. */
  lemma EnqueuedRowsAreOpen(sys: System, maxRetry: int)
    ensures Allowed(sys, Enqueues)
    ensures var rows := Happen(sys, Enqueues, maxRetry).rows;
            |rows| == |sys.rows| + 1 && rows[..|sys.rows|] == sys.rows
            && rows[|sys.rows|] == Row(Pending, 0, sys.now, sys.now) && IsOpen(rows[|sys.rows|], sys.now)
  {
  }

  /** All rows but this one are locked. */
  ghost predicate OthersAreLocked(rows: seq<Row>, id: nat, locked: set<nat>) {
    id !in locked && forall i: nat | i < |rows| && i != id :: i in locked
  }

  /**
   * A failure before the last delays the next try by exactly its wait: an idle worker can claim the row
   * when that much time has passed, and not before.
   */
  lemma FailedRowComesUpAgain(sys: System, w: nat, id: nat, until: int, v: nat, locked: set<nat>, maxRetry: int)
    requires InWork(sys, w, id) && sys.rows[id].attempts + 1 < maxRetry
    requires sys.now <= until && OthersAreLocked(sys.rows, id, locked)
    requires var after := Happen(sys, Records(w, false), maxRetry);
             v < |after.workers| && after.workers[v] == Idle && Allowed(after, TimePasses(until))
    ensures var later := Happen(Happen(sys, Records(w, false), maxRetry), TimePasses(until), maxRetry);
            && later.now == until && later.rows == Happen(sys, Records(w, false), maxRetry).rows
            && (Allowed(later, Claims(v, 1, [id], locked))
                <==> sys.now + Delay(sys.rows[id].attempts) <= until)
  {
    RecordOutcome(sys, w, id, false, maxRetry);
    var later := Happen(Happen(sys, Records(w, false), maxRetry), TimePasses(until), maxRetry);
    OnlyThisRow(later, v, id, locked, maxRetry);
  }

  lemma OnlyThisRow(sys: System, v: nat, id: nat, locked: set<nat>, maxRetry: int)
    requires v < |sys.workers| && sys.workers[v] == Idle && id < |sys.rows| && OthersAreLocked(sys.rows, id, locked)
    ensures Allowed(sys, Claims(v, 1, [id], locked)) <==> IsOpen(sys.rows[id], sys.now)
  {
    ClaimOutcome(sys, v, 1, [id], locked, maxRetry);
    if IsOpen(sys.rows[id], sys.now) {
      assert [id][0] == id;
      forall i: nat | i < |sys.rows| && IsOpen(sys.rows[i], sys.now) && i !in locked ensures i in [id] {
      }
    }
    if Allowed(sys, Claims(v, 1, [id], locked)) {
      assert IsOpen(sys.rows[[id][0]], sys.now);
    }
  }

  /** A row whose worker is gone can be claimed again when it was taken more than ten minutes ago, and not before. */
  lemma AbandonedRowComesUpAgain(sys: System, v: nat, id: nat, locked: set<nat>, maxRetry: int)
    requires v < |sys.workers| && sys.workers[v] == Idle && id < |sys.rows| && sys.rows[id].status == Processing
    requires OthersAreLocked(sys.rows, id, locked)
    ensures Allowed(sys, Claims(v, 1, [id], locked)) <==> sys.now > sys.rows[id].updatedAt + 600
  {
    OnlyThisRow(sys, v, id, locked, maxRetry);
  }

  /** A late result changes nothing: only a row being processed can be sent or fail, only a live one be given up. */
  lemma LateResultsAreIgnored(rows: seq<Row>, id: nat, nextAttemptAt: int, now: int)
    ensures var live := id < |rows| && (rows[id].status == Pending || rows[id].status == Processing);
            && (!live || rows[id].status == Pending ==>
                 AfterSent(rows, id, now) == rows && AfterFailure(rows, id, nextAttemptAt, now) == rows)
            && (if live
                then AfterPermanentFailure(rows, id, now)
                     == rows[id := Row(Failed, rows[id].attempts, rows[id].nextAttemptAt, now)]
                else AfterPermanentFailure(rows, id, now) == rows)
  {
  }

  /**
   * A worker joins idle. Time passes as long as every worker keeps to its time-outs: 43 seconds an item, and
   * 170 more before it starts on the first; it touches nothing else.
   */
  lemma JoiningAndWaiting(sys: System, until: int, maxRetry: int)
    ensures Happen(sys, Joins, maxRetry) == System(sys.now, sys.rows, sys.workers + [Idle], sys.log)
    ensures Allowed(sys, TimePasses(until)) <==>
              && sys.now <= until
              && forall w | 0 <= w < |sys.workers| && sys.workers[w].Busy? ::
                   until <= sys.workers[w].startedAt + (if sys.workers[w].done == 0 then 213 else 43)
    ensures Allowed(sys, TimePasses(until)) ==>
              Happen(sys, TimePasses(until), maxRetry) == System(until, sys.rows, sys.workers, sys.log)
  {
    forall w | 0 <= w < |sys.workers| && sys.workers[w].Busy?
      ensures InTime(sys.workers[w], until) <==>
                until <= sys.workers[w].startedAt + (if sys.workers[w].done == 0 then 213 else 43)
    {
    }
  }
}
