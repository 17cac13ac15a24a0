/** Delivering the outbox: batch claims with a lease, bounded retries, and several workers that may crash. */
module OutboxLease {
  import opened Basics

  datatype Status = Pending | Processing | Sent | Failed

  /** Times are in seconds. */
  datatype Row = Row(status: Status, attempts: nat, nextAttemptAt: int, updatedAt: int)

  /** A claimed row as the worker remembers it. */
  datatype Item = Item(id: nat, attempts: nat)

  const MAX_BATCH := 10
  const SEND_TIMEOUT := 40
  const RECORD_TIMEOUT := 3
  const LEASE := 600
  /** How long a worker may take between claiming a batch and starting on its first item. */
  const SLACK := LEASE - MAX_BATCH * (SEND_TIMEOUT + RECORD_TIMEOUT)

  function BatchLimit(limit: int): nat {
    if limit < 1 || limit > MAX_BATCH then MAX_BATCH else limit
  }

  // ----- the statements on the table

  predicate IsDue(r: Row, now: int) {
    || (r.status == Pending && r.nextAttemptAt <= now)
    || (r.status == Processing && r.updatedAt < now - LEASE)
  }

  /**
   * What the claiming query may return: due rows nobody has locked, at most `limit` of them, and none
   * left out in favour of one that is due later.
   */
  ghost predicate IsPick(rows: seq<Row>, ids: seq<nat>, now: int, limit: nat, locked: set<nat>) {
    && |ids| <= limit
    && (forall k | 0 <= k < |ids| :: ids[k] < |rows| && IsDue(rows[ids[k]], now) && ids[k] !in locked)
    && (forall k, l | 0 <= k < l < |ids| :: ids[k] != ids[l])
    && (forall i | 0 <= i < |rows| && IsDue(rows[i], now) && i !in locked && i !in ids ::
          |ids| == limit && forall k | 0 <= k < |ids| :: rows[ids[k]].nextAttemptAt <= rows[i].nextAttemptAt)
  }

  function Claimed(rows: seq<Row>, ids: seq<nat>, now: int): seq<Row> {
    seq(|rows|, i requires 0 <= i < |rows| =>
      if i in ids then rows[i].(status := Processing, updatedAt := now) else rows[i])
  }

  function ItemsOf(rows: seq<Row>, ids: seq<nat>): seq<Item>
    requires forall k | 0 <= k < |ids| :: ids[k] < |rows|
  {
    seq(|ids|, k requires 0 <= k < |ids| => Item(ids[k], rows[ids[k]].attempts))
  }

  function AfterSent(rows: seq<Row>, id: nat, now: int): seq<Row> {
    if id < |rows| && rows[id].status == Processing then rows[id := rows[id].(status := Sent, updatedAt := now)] else rows
  }

  function AfterFailure(rows: seq<Row>, id: nat, nextAttemptAt: int, now: int): seq<Row> {
    if id < |rows| && rows[id].status == Processing
    then rows[id := Row(Pending, rows[id].attempts + 1, nextAttemptAt, now)]
    else rows
  }

  function AfterPermanentFailure(rows: seq<Row>, id: nat, now: int): seq<Row> {
    if id < |rows| && rows[id].status in {Pending, Processing}
    then rows[id := rows[id].(status := Failed, updatedAt := now)]
    else rows
  }

  // ----- backoff

  function Pow2(n: nat): nat {
    if n == 0 then 1 else 2 * Pow2(n - 1)
  }

  /** Go's 1 << n in a 64-bit int. */
  function ShiftedOne(n: nat): int {
    if n < 63 then Pow2(n) else if n == 63 then -0x8000_0000_0000_0000 else 0
  }

  const MAX_BACKOFF := 3600

  function Backoff(attempts: nat): int {
    var seconds := ShiftedOne(attempts);
    if seconds > MAX_BACKOFF then MAX_BACKOFF else seconds
  }

  /**
   * The wait before the next try is positive if and only if there were fewer than 63 failures before;
   * then it is 2 to the number of failures, at most an hour. The first wait is one second, not two.
   */
  lemma BackoffIsPositiveExactlyBelow63(attempts: nat)
    ensures 0 < Backoff(attempts) <==> attempts < 63
    ensures attempts < 12 ==> Backoff(attempts) == Pow2(attempts)
    ensures 12 <= attempts < 63 ==> Backoff(attempts) == MAX_BACKOFF
    ensures Backoff(0) == 1
  {
    assert Pow2(12) == 4096 && Pow2(11) == 2048;
    if attempts < 12 {
      Pow2Grows(attempts, 11);
    } else if attempts < 63 {
      Pow2Grows(12, attempts);
    }
  }

  lemma {:induction false} Pow2Grows(m: nat, n: nat)
    requires m <= n
    ensures 1 <= Pow2(m) <= Pow2(n)
    decreases n
  {
    if m < n {
      Pow2Grows(m, n - 1);
    } else if n > 0 {
      Pow2Grows(m - 1, n - 1);
    }
  }

  /** Recording one failed send. */
  function RecordFailure(rows: seq<Row>, item: Item, maxRetry: int, now: int): seq<Row> {
    if item.attempts + 1 >= maxRetry then AfterPermanentFailure(rows, item.id, now)
    else AfterFailure(rows, item.id, now + Backoff(item.attempts), now)
  }

  function RecordResult(rows: seq<Row>, item: Item, sent: bool, maxRetry: int, now: int): seq<Row> {
    if sent then AfterSent(rows, item.id, now) else RecordFailure(rows, item, maxRetry, now)
  }

  // ----- workers

  /** A worker between two claims, or working through a batch; `startedAt` is when it took up its current item. */
  datatype Worker = Idle | Busy(claimedAt: int, startedAt: int, done: nat, todo: seq<Item>)

  datatype Entry = Entry(id: nat, sent: bool)

  /** `log` holds the results that were recorded. */
  datatype System = System(now: int, rows: seq<Row>, workers: seq<Worker>, log: seq<Entry>)

  datatype Happening =
    | Enqueues
    | Joins
    | TimePasses(until: int)
    | Claims(w: nat, limit: int, ids: seq<nat>, locked: set<nat>)
    | Records(w: nat, sent: bool)
    | FailsToRecord(w: nat)
    | Stops(w: nat)

  /** The timing assumption: sending and recording an item take at most 40 s and 3 s. */
  predicate InTime(w: Worker, now: int) {
    w.Busy? ==> now <= w.startedAt + (if w.done == 0 then SLACK else 0) + SEND_TIMEOUT + RECORD_TIMEOUT
  }

  ghost predicate Allowed(sys: System, h: Happening) {
    match h
    case TimePasses(until) => sys.now <= until && forall w | 0 <= w < |sys.workers| :: InTime(sys.workers[w], until)
    case Claims(w, limit, ids, locked) =>
      && w < |sys.workers| && sys.workers[w] == Idle && ids != []
      && IsPick(sys.rows, ids, sys.now, BatchLimit(limit), locked)
    case Records(w, _) => w < |sys.workers| && sys.workers[w].Busy? && sys.workers[w].todo != []
    case FailsToRecord(w) => w < |sys.workers| && sys.workers[w].Busy? && sys.workers[w].todo != []
    case Stops(w) => w < |sys.workers|
    case _ => true
  }

  /** The worker after its current item. */
  function NextItem(w: Worker, now: int): Worker
    requires w.Busy?
  {
    if |w.todo| <= 1 then Idle else Busy(w.claimedAt, now, w.done + 1, w.todo[1..])
  }

  ghost function Happen(sys: System, h: Happening, maxRetry: int): System
    requires Allowed(sys, h)
  {
    match h
    case Enqueues => sys.(rows := sys.rows + [Row(Pending, 0, sys.now, sys.now)])
    case Joins => sys.(workers := sys.workers + [Idle])
    case TimePasses(until) => sys.(now := until)
    case Claims(w, _, ids, _) =>
      sys.(rows := Claimed(sys.rows, ids, sys.now),
           workers := sys.workers[w := Busy(sys.now, sys.now, 0, ItemsOf(sys.rows, ids))])
    case Records(w, sent) =>
      var item := sys.workers[w].todo[0];
      System(sys.now, RecordResult(sys.rows, item, sent, maxRetry, sys.now),
             sys.workers[w := NextItem(sys.workers[w], sys.now)], sys.log + [Entry(item.id, sent)])
    case FailsToRecord(w) => sys.(workers := sys.workers[w := NextItem(sys.workers[w], sys.now)])
    case Stops(w) => sys.(workers := sys.workers[w := Idle])
  }

  ghost function Run(start: int, happenings: seq<Happening>, maxRetry: int): Option<System> {
    if happenings == [] then Some(System(start, [], [], []))
    else
      var before := Run(start, happenings[..|happenings| - 1], maxRetry);
      var last := happenings[|happenings| - 1];
      if before.None? || !Allowed(before.value, last) then None else Some(Happen(before.value, last, maxRetry))
  }

  // ----- the lease

  /** The row is still exactly as the worker claimed it. */
  ghost predicate Held(rows: seq<Row>, item: Item, claimedAt: int) {
    && item.id < |rows| && rows[item.id].status == Processing
    && rows[item.id].updatedAt == claimedAt && rows[item.id].attempts == item.attempts
  }

  ghost predicate WorkerInv(rows: seq<Row>, w: Worker, now: int) {
    w.Busy? ==>
      && w.todo != [] && w.done + |w.todo| <= MAX_BATCH
      && w.startedAt <= w.claimedAt + (if w.done == 0 then 0 else SLACK + w.done * (SEND_TIMEOUT + RECORD_TIMEOUT))
      && InTime(w, now)
      && (forall k | 0 <= k < |w.todo| :: Held(rows, w.todo[k], w.claimedAt))
      && (forall k, l | 0 <= k < l < |w.todo| :: w.todo[k].id != w.todo[l].id)
  }

  ghost predicate Has(w: Worker, id: nat) {
    w.Busy? && exists k :: 0 <= k < |w.todo| && w.todo[k].id == id
  }

  ghost predicate LeaseInv(sys: System) {
    && (forall w | 0 <= w < |sys.workers| :: WorkerInv(sys.rows, sys.workers[w], sys.now))
    && (forall v, w, id | 0 <= v < |sys.workers| && 0 <= w < |sys.workers| && v != w ::
          Has(sys.workers[v], id) ==> !Has(sys.workers[w], id))
  }

  /** A batch is recorded before any of its rows can be reclaimed: 10 * 43 s and the slack fit in the lease. */
  lemma HeldRowsAreNotDue(rows: seq<Row>, w: Worker, now: int, id: nat)
    requires WorkerInv(rows, w, now) && Has(w, id)
    ensures id < |rows| && !IsDue(rows[id], now)
  {
    var k :| 0 <= k < |w.todo| && w.todo[k].id == id;
    assert Held(rows, w.todo[k], w.claimedAt);
    assert w.done * (SEND_TIMEOUT + RECORD_TIMEOUT) <= 9 * (SEND_TIMEOUT + RECORD_TIMEOUT);
  }

  /** Rows that a worker does not have may change without its noticing. */
  lemma OtherRowsMayChange(rows: seq<Row>, later: seq<Row>, w: Worker, now: int)
    requires WorkerInv(rows, w, now) && |rows| <= |later|
    requires forall id: nat | id < |rows| && Has(w, id) :: later[id] == rows[id]
    ensures WorkerInv(later, w, now)
  {
    if w.Busy? {
      forall k | 0 <= k < |w.todo| ensures Held(later, w.todo[k], w.claimedAt) {
        assert Held(rows, w.todo[k], w.claimedAt);
        assert Has(w, w.todo[k].id);
      }
    }
  }

  lemma NextItemHas(w: Worker, now: int, id: nat)
    requires w.Busy?
    ensures Has(NextItem(w, now), id) ==> Has(w, id)
    ensures w.todo != [] && (forall k, l | 0 <= k < l < |w.todo| :: w.todo[k].id != w.todo[l].id) ==>
              !Has(NextItem(w, now), w.todo[0].id)
  {
    if |w.todo| > 1 {
      var rest := w.todo[1..];
      assert forall k | 0 <= k < |rest| :: rest[k] == w.todo[k + 1];
    }
  }

  lemma ClaimKeepsLease(sys: System, w: nat, limit: int, ids: seq<nat>, locked: set<nat>, maxRetry: int)
    requires LeaseInv(sys) && Allowed(sys, Claims(w, limit, ids, locked))
    ensures LeaseInv(Happen(sys, Claims(w, limit, ids, locked), maxRetry))
  {
    var after := Happen(sys, Claims(w, limit, ids, locked), maxRetry);
    forall v, id: nat | 0 <= v < |sys.workers| && Has(sys.workers[v], id) ensures id !in ids {
      HeldRowsAreNotDue(sys.rows, sys.workers[v], sys.now, id);
    }
    forall v | 0 <= v < |after.workers| ensures WorkerInv(after.rows, after.workers[v], after.now) {
      if v == w {
        assert forall k | 0 <= k < |ids| :: after.workers[w].todo[k].id == ids[k] && ids[k] in ids;
      } else {
        OtherRowsMayChange(sys.rows, after.rows, sys.workers[v], sys.now);
      }
    }
    forall id: nat | Has(after.workers[w], id) ensures id in ids {
    }
  }

  lemma FinishingKeepsLease(sys: System, w: nat, later: seq<Row>, log: seq<Entry>)
    requires LeaseInv(sys) && w < |sys.workers| && sys.workers[w].Busy?
    requires |later| == |sys.rows|
    requires forall id: nat | id < |sys.rows| && id != sys.workers[w].todo[0].id :: later[id] == sys.rows[id]
    ensures LeaseInv(System(sys.now, later, sys.workers[w := NextItem(sys.workers[w], sys.now)], log))
  {
    var worker := sys.workers[w];
    var next := NextItem(worker, sys.now);
    var workers := sys.workers[w := next];
    assert WorkerInv(sys.rows, worker, sys.now);
    assert Has(worker, worker.todo[0].id);
    forall id: nat ensures Has(next, id) ==> Has(worker, id) && id != worker.todo[0].id {
      NextItemHas(worker, sys.now, id);
    }
    forall v | 0 <= v < |workers| ensures WorkerInv(later, workers[v], sys.now) {
      if v == w {
        if next.Busy? {
          assert forall k | 0 <= k < |next.todo| :: next.todo[k] == worker.todo[k + 1];
        }
      } else {
        OtherRowsMayChange(sys.rows, later, sys.workers[v], sys.now);
      }
    }
  }

  lemma HappeningKeepsLease(sys: System, h: Happening, maxRetry: int)
    requires LeaseInv(sys) && Allowed(sys, h)
    ensures LeaseInv(Happen(sys, h, maxRetry))
  {
    match h {
      case Claims(w, limit, ids, locked) => ClaimKeepsLease(sys, w, limit, ids, locked, maxRetry);
      case Records(w, sent) =>
        var after := Happen(sys, h, maxRetry);
        FinishingKeepsLease(sys, w, after.rows, after.log);
      case FailsToRecord(w) => FinishingKeepsLease(sys, w, sys.rows, sys.log);
      case Enqueues =>
        forall w | 0 <= w < |sys.workers| ensures WorkerInv(Happen(sys, h, maxRetry).rows, sys.workers[w], sys.now) {
          OtherRowsMayChange(sys.rows, Happen(sys, h, maxRetry).rows, sys.workers[w], sys.now);
        }
      case TimePasses(until) =>
        forall w | 0 <= w < |sys.workers| ensures WorkerInv(sys.rows, sys.workers[w], until) {
          assert WorkerInv(sys.rows, sys.workers[w], sys.now);
        }
      case _ =>
    }
  }

  // ----- retries

  function IsFailureOf(id: nat): Entry -> int {
    (e: Entry) => if e.id == id && !e.sent then 1 else 0
  }

  function IsSuccessOf(id: nat): Entry -> int {
    (e: Entry) => if e.id == id && e.sent then 1 else 0
  }

  /** The recorded results of a row, told by its columns. */
  ghost predicate CountInv(rows: seq<Row>, log: seq<Entry>, maxRetry: int, id: nat) {
    if id >= |rows| then Sum(log, IsFailureOf(id)) == 0 && Sum(log, IsSuccessOf(id)) == 0
    else
      var r := rows[id];
      && r.attempts < maxRetry
      && Sum(log, IsFailureOf(id)) == r.attempts + (if r.status == Failed then 1 else 0)
      && Sum(log, IsSuccessOf(id)) == (if r.status == Sent then 1 else 0)
      && (r.status == Failed ==> r.attempts + 1 == maxRetry)
  }

  ghost predicate SystemInv(sys: System, maxRetry: int) {
    LeaseInv(sys) && forall id: nat :: CountInv(sys.rows, sys.log, maxRetry, id)
  }

  /** A result is recorded against the very row the worker claimed, so it always takes effect. */
  lemma RecordingKeepsCounts(rows: seq<Row>, log: seq<Entry>, item: Item, claimedAt: int, sent: bool, maxRetry: int,
                             now: int, id: nat)
    requires Held(rows, item, claimedAt) && maxRetry > 0
    requires CountInv(rows, log, maxRetry, id)
    ensures CountInv(RecordResult(rows, item, sent, maxRetry, now), log + [Entry(item.id, sent)], maxRetry, id)
  {
    SumAppend(log, Entry(item.id, sent), IsFailureOf(id));
    SumAppend(log, Entry(item.id, sent), IsSuccessOf(id));
  }

  lemma HappeningKeepsInv(sys: System, h: Happening, maxRetry: int)
    requires SystemInv(sys, maxRetry) && Allowed(sys, h) && maxRetry > 0
    ensures SystemInv(Happen(sys, h, maxRetry), maxRetry)
  {
    HappeningKeepsLease(sys, h, maxRetry);
    var after := Happen(sys, h, maxRetry);
    forall id: nat ensures CountInv(after.rows, after.log, maxRetry, id) {
      assert CountInv(sys.rows, sys.log, maxRetry, id);
      match h {
        case Records(w, sent) =>
          var worker := sys.workers[w];
          assert WorkerInv(sys.rows, worker, sys.now);
          RecordingKeepsCounts(sys.rows, sys.log, worker.todo[0], worker.claimedAt, sent, maxRetry, sys.now, id);
        case Claims(w, _, ids, _) =>
          if id in ids {
            assert IsDue(sys.rows[id], sys.now);
          }
        case _ =>
      }
    }
  }

  lemma {:induction false} RunsKeepInv(start: int, happenings: seq<Happening>, maxRetry: int)
    requires maxRetry > 0 && Run(start, happenings, maxRetry).Some?
    ensures SystemInv(Run(start, happenings, maxRetry).value, maxRetry)
  {
    if happenings != [] {
      var init, last := happenings[..|happenings| - 1], happenings[|happenings| - 1];
      RunsKeepInv(start, init, maxRetry);
      HappeningKeepsInv(Run(start, init, maxRetry).value, last, maxRetry);
    }
  }

  // ----- the promises

  /** No two workers ever hold the same row, and no row is handed out again while a worker holds it. */
  lemma LeasesAreExclusive(start: int, happenings: seq<Happening>, maxRetry: int, v: nat, w: nat, id: nat)
    requires maxRetry > 0 && Run(start, happenings, maxRetry).Some?
    requires var sys := Run(start, happenings, maxRetry).value;
             v < |sys.workers| && w < |sys.workers| && Has(sys.workers[v], id)
    ensures var sys := Run(start, happenings, maxRetry).value;
            && (Has(sys.workers[w], id) ==> v == w)
            && id < |sys.rows| && !IsDue(sys.rows[id], sys.now)
  {
    RunsKeepInv(start, happenings, maxRetry);
    var sys := Run(start, happenings, maxRetry).value;
    HeldRowsAreNotDue(sys.rows, sys.workers[v], sys.now, id);
  }

  /** The notification a worker has in hand, and may be mailing, when this happens to it. */
  ghost function InHand(sys: System, h: Happening): Option<nat>
    requires Allowed(sys, h)
  {
    if (h.Records? || h.FailsToRecord? || h.Stops?) && sys.workers[h.w].Busy? && sys.workers[h.w].todo != []
    then Some(sys.workers[h.w].todo[0].id) else None
  }

  /** How often a mail for the row may have gone out: a worker was done with it, or stopped over it. */
  ghost function Tries(start: int, happenings: seq<Happening>, maxRetry: int, id: nat): nat
    requires Run(start, happenings, maxRetry).Some?
  {
    if happenings == [] then 0
    else
      var init, last := happenings[..|happenings| - 1], happenings[|happenings| - 1];
      Tries(start, init, maxRetry, id)
      + if InHand(Run(start, init, maxRetry).value, last) == Some(id) then 1 else 0
  }

  /** How many of these tries left no trace: the worker stopped, or could not record the result. */
  ghost function Lost(start: int, happenings: seq<Happening>, maxRetry: int, id: nat): nat
    requires Run(start, happenings, maxRetry).Some?
  {
    if happenings == [] then 0
    else
      var init, last := happenings[..|happenings| - 1], happenings[|happenings| - 1];
      Lost(start, init, maxRetry, id)
      + if InHand(Run(start, init, maxRetry).value, last) == Some(id) && !last.Records? then 1 else 0
  }

  /** One happening more: its try is in the log, or lost. */
  lemma LogGrows(sys: System, h: Happening, maxRetry: int, id: nat)
    requires Allowed(sys, h)
    ensures var log := Happen(sys, h, maxRetry).log;
            Sum(log, IsFailureOf(id)) + Sum(log, IsSuccessOf(id))
            == Sum(sys.log, IsFailureOf(id)) + Sum(sys.log, IsSuccessOf(id))
               + (if InHand(sys, h) == Some(id) && h.Records? then 1 else 0)
  {
    if h.Records? {
      var entry := Entry(sys.workers[h.w].todo[0].id, h.sent);
      SumAppend(sys.log, entry, IsFailureOf(id));
      SumAppend(sys.log, entry, IsSuccessOf(id));
    }
  }

  lemma {:induction false} TriesAreRecordedOrLost(start: int, happenings: seq<Happening>, maxRetry: int, id: nat)
    requires Run(start, happenings, maxRetry).Some?
    ensures var log := Run(start, happenings, maxRetry).value.log;
            Tries(start, happenings, maxRetry, id)
            == Sum(log, IsFailureOf(id)) + Sum(log, IsSuccessOf(id)) + Lost(start, happenings, maxRetry, id)
  {
    if happenings != [] {
      var init, last := happenings[..|happenings| - 1], happenings[|happenings| - 1];
      TriesAreRecordedOrLost(start, init, maxRetry, id);
      LogGrows(Run(start, init, maxRetry).value, last, maxRetry, id);
    }
  }

  /**
   * A notification is recorded as sent at most once and as failed at most maxRetry times; it is given
   * up exactly after maxRetry recorded failures, and one that was sent had fewer. Mail goes out at most
   * maxRetry times, and once more for each time a worker stopped over it or could not record the result.
   */
  lemma RetriesAreBounded(start: int, happenings: seq<Happening>, maxRetry: int, id: nat)
    requires maxRetry > 0 && Run(start, happenings, maxRetry).Some?
    ensures var sys := Run(start, happenings, maxRetry).value;
            && Sum(sys.log, IsFailureOf(id)) <= maxRetry
            && Sum(sys.log, IsSuccessOf(id)) <= 1
            && (id < |sys.rows| ==>
                 && sys.rows[id].attempts < maxRetry
                 && (sys.rows[id].status == Failed <==> Sum(sys.log, IsFailureOf(id)) == maxRetry)
                 && (sys.rows[id].status == Sent <==> Sum(sys.log, IsSuccessOf(id)) == 1))
            && Tries(start, happenings, maxRetry, id) <= maxRetry + Lost(start, happenings, maxRetry, id)
  {
    TriesAreRecordedOrLost(start, happenings, maxRetry, id);
    RunsKeepInv(start, happenings, maxRetry);
    var sys := Run(start, happenings, maxRetry).value;
    assert CountInv(sys.rows, sys.log, maxRetry, id);
  }

  /** Sent and failed are final: no later claim, result or time-out touches such a row. */
  lemma {:induction false} FinalRowsStay(start: int, happenings: seq<Happening>, more: seq<Happening>, maxRetry: int, id: nat)
    requires maxRetry > 0 && Run(start, happenings + more, maxRetry).Some?
    ensures Run(start, happenings, maxRetry).Some?
    ensures var (before, after) :=
              (Run(start, happenings, maxRetry).value.rows, Run(start, happenings + more, maxRetry).value.rows);
            id < |before| && before[id].status in {Sent, Failed} ==> id < |after| && after[id] == before[id]
    decreases |more|
  {
    if more == [] {
      assert happenings + more == happenings;
    } else {
      var n := |more| - 1;
      assert (happenings + more)[..|happenings + more| - 1] == happenings + more[..n];
      FinalRowsStay(start, happenings, more[..n], maxRetry, id);
      RunsKeepInv(start, happenings + more[..n], maxRetry);
      var sys, before := Run(start, happenings + more[..n], maxRetry).value, Run(start, happenings, maxRetry).value;
      if id < |before.rows| && before.rows[id].status in {Sent, Failed} {
        FinalRowStays(sys, more[n], maxRetry, id);
      }
    }
  }

  lemma FinalRowStays(sys: System, h: Happening, maxRetry: int, id: nat)
    requires SystemInv(sys, maxRetry) && Allowed(sys, h)
    requires id < |sys.rows| && sys.rows[id].status in {Sent, Failed}
    ensures var rows := Happen(sys, h, maxRetry).rows;
            id < |rows| && rows[id] == sys.rows[id]
  {
    match h {
      case Records(w, _) =>
        assert WorkerInv(sys.rows, sys.workers[w], sys.now);
        assert Held(sys.rows, sys.workers[w].todo[0], sys.workers[w].claimedAt);
      case Claims(_, _, ids, _) =>
        forall k | 0 <= k < |ids| ensures ids[k] != id {
          assert IsDue(sys.rows[ids[k]], sys.now);
        }
      case _ =>
    }
  }

  // ----- the repository and the worker

  class Outbox {
    var rows: seq<Row>

    /** Claims what the query picked and hands the rows over. */
    method GetPendingDueLimit(limit: int, ghost locked: set<nat>, ids: seq<nat>, now: int) returns (items: seq<Item>)
      requires IsPick(rows, ids, now, BatchLimit(limit), locked)
      modifies this
      ensures rows == Claimed(old(rows), ids, now)
      ensures items == ItemsOf(old(rows), ids)
    {
      ghost var before := rows;
      items := [];
      for k := 0 to |ids|
        invariant rows == Claimed(before, ids[..k], now)
        invariant items == ItemsOf(before, ids[..k])
      {
        var id := ids[k];
        assert ids[..k + 1] == ids[..k] + [id];
        assert id !in ids[..k];
        items := items + [Item(id, rows[id].attempts)];
        rows := rows[id := rows[id].(status := Processing, updatedAt := now)];
      }
      assert ids[..|ids|] == ids;
    }

    method MarkSent(id: nat, now: int)
      modifies this
      ensures rows == AfterSent(old(rows), id, now)
    {
      if id < |rows| && rows[id].status == Processing {
        rows := rows[id := rows[id].(status := Sent, updatedAt := now)];
      }
    }

    /** Tells whether a row was still being processed. */
    method MarkFailed(id: nat, nextAttemptAt: int, now: int) returns (ok: bool)
      modifies this
      ensures rows == AfterFailure(old(rows), id, nextAttemptAt, now)
      ensures ok <==> rows != old(rows)
    {
      ok := id < |rows| && rows[id].status == Processing;
      if ok {
        var r := rows[id];
        rows := rows[id := r.(status := Pending, nextAttemptAt := nextAttemptAt, attempts := r.attempts + 1,
                              updatedAt := now)];
        assert rows[id] != r;
      }
    }

    method MarkPermanentFailure(id: nat, now: int) returns (ok: bool)
      modifies this
      ensures rows == AfterPermanentFailure(old(rows), id, now)
      ensures ok <==> rows != old(rows)
    {
      ok := id < |rows| && rows[id].status in {Pending, Processing};
      if ok {
        ghost var r := rows[id];
        rows := rows[id := rows[id].(status := Failed, updatedAt := now)];
        assert rows[id] != r;
      }
    }
  }

  /** What sending and recording the batch's items does, one after another: results and times are the world's. */
  function RecordAll(rows: seq<Row>, items: seq<Item>, results: seq<bool>, times: seq<int>, maxRetry: int, n: nat)
    : seq<Row>
    requires n <= |items| && |results| == |items| && |times| == |items|
  {
    if n == 0 then rows
    else RecordResult(RecordAll(rows, items, results, times, maxRetry, n - 1), items[n - 1], results[n - 1], maxRetry,
                      times[n - 1])
  }

  class DeliveryWorker {
    const outbox: Outbox
    const maxRetry: int

    constructor (outbox: Outbox, maxRetry: int)
      ensures this.outbox == outbox && this.maxRetry == if maxRetry <= 0 then 5 else maxRetry
    {
      this.outbox := outbox;
      this.maxRetry := if maxRetry <= 0 then 5 else maxRetry;
    }

    method HandleSendFailure(item: Item, now: int)
      modifies outbox
      ensures outbox.rows == RecordFailure(old(outbox.rows), item, maxRetry, now)
    {
      if item.attempts + 1 >= maxRetry {
        var _ := outbox.MarkPermanentFailure(item.id, now);
        return;
      }
      var backoffSeconds := ShiftedOne(item.attempts);
      if backoffSeconds > MAX_BACKOFF {
        backoffSeconds := MAX_BACKOFF;
      }
      var _ := outbox.MarkFailed(item.id, now + backoffSeconds, now);
    }

    method ProcessOne(item: Item, sent: bool, now: int)
      modifies outbox
      ensures outbox.rows == RecordResult(old(outbox.rows), item, sent, maxRetry, now)
    {
      if !sent {
        HandleSendFailure(item, now);
        return;
      }
      outbox.MarkSent(item.id, now);
    }

    /** Works through a claimed batch until it is done or the worker is told to stop after `stopAfter` items. */
    method ProcessBatch(items: seq<Item>, results: seq<bool>, times: seq<int>, stopAfter: nat) returns (done: nat)
      requires |results| == |items| && |times| == |items|
      modifies outbox
      ensures done == if stopAfter < |items| then stopAfter else |items|
      ensures outbox.rows == RecordAll(old(outbox.rows), items, results, times, maxRetry, done)
    {
      done := 0;
      while done < |items|
        invariant done <= |items| && done <= stopAfter
        invariant outbox.rows == RecordAll(old(outbox.rows), items, results, times, maxRetry, done)
      {
        if done == stopAfter {
          return;
        }
        ProcessOne(items[done], results[done], times[done]);
        done := done + 1;
      }
    }
  }
}
