/** Which orders a reservation expiry cancels, in terms of the columns its query reads. */
module ExpiryOutcomes {
  import opened Basics
  import opened Statuses
  import opened Tables
  import opened Orders
  import opened StockInvariant
  import opened ShopInvariant

  /** Neither expired nor failed without an authority: such an attempt may still be, or have been, paid. */
  predicate MayBePaid(a: Attempt) {
    a.status != AttemptExpired && (a.status != AttemptFailed || a.authority.Some?)
  }

  /** A pending, unpaid order from before the cut-off without an attempt that may be paid. */
  predicate IsStale(orders: seq<Order>, attempts: seq<Attempt>, cutoff: int, o: nat) {
    && o < |orders| && orders[o].status == Pending
    && orders[o].payment != Paid && orders[o].payment != Refunded
    && orders[o].createdAt < cutoff
    && forall i | 0 <= i < |attempts| && attempts[i].order == o :: !MayBePaid(attempts[i])
  }

  /** What the expiry query may return: a stale order that nobody has locked. */
  predicate IsCandidate(orders: seq<Order>, seen: seq<Attempt>, cutoff: int, locked: set<nat>, o: nat) {
    IsStale(orders, seen, cutoff, o) && o !in locked
  }

  function Candidates(orders: seq<Order>, seen: seq<Attempt>, cutoff: int, locked: set<nat>, from: nat, to: nat): set<nat> {
    set k: nat | from <= k < to && IsCandidate(orders, seen, cutoff, locked, k)
  }

  lemma BlockedMeansMayBePaid(attempts: seq<Attempt>, o: nat)
    ensures HasBlockingAttempt(attempts, o) <==>
              exists i :: 0 <= i < |attempts| && attempts[i].order == o && MayBePaid(attempts[i])
  {
    if HasBlockingAttempt(attempts, o) {
      var i :| 0 <= i < |attempts| && attempts[i].order == o && Blocks(attempts[i]);
      assert MayBePaid(attempts[i]);
    }
    if i :| 0 <= i < |attempts| && attempts[i].order == o && MayBePaid(attempts[i]) {
      assert Blocks(attempts[i]);
    }
  }

  lemma StaleIsExpirable(orders: seq<Order>, seen: seq<Attempt>, cutoff: int, o: nat)
    ensures IsStale(orders, seen, cutoff, o) <==> Expirable(orders, seen, o, cutoff)
  {
    BlockedMeansMayBePaid(seen, o);
  }

  /** The query returns the first candidates, up to its limit. */
  lemma {:induction false} PicksAreTheFirstCandidates(orders: seq<Order>, seen: seq<Attempt>, cutoff: int, locked: set<nat>,
                                                      from: nat, limit: nat, o: nat)
    ensures o in ExpiryPicks(orders, seen, cutoff, locked, from, limit) <==>
              && from <= o && IsCandidate(orders, seen, cutoff, locked, o)
              && |Candidates(orders, seen, cutoff, locked, from, o)| < limit
    decreases |orders| - from
  {
    if limit > 0 && from < |orders| {
      var isFirst := IsCandidate(orders, seen, cutoff, locked, from);
      StaleIsExpirable(orders, seen, cutoff, from);
      PicksAreTheFirstCandidates(orders, seen, cutoff, locked, from + 1, if isFirst then limit - 1 else limit, o);
      if from < o {
        var rest := Candidates(orders, seen, cutoff, locked, from + 1, o);
        assert Candidates(orders, seen, cutoff, locked, from, o) == (if isFirst then {from} + rest else rest);
      } else {
        assert Candidates(orders, seen, cutoff, locked, from, o) == {};
      }
    }
  }

  lemma {:induction false} ReleasableAre(attempts: seq<Attempt>, picks: seq<nat>, o: nat)
    ensures o in Releasable(attempts, picks) <==> o in picks && !HasBlockingAttempt(attempts, o)
  {
    if picks != [] {
      ReleasableAre(attempts, picks[1..], o);
    }
  }

  /**
   * An accepted expiry run cancels exactly the first twenty unlocked orders that were pending, unpaid and
   * older than the cut-off without a payable attempt in the query's view - except those that have a payable
   * attempt after all, now that they are locked. It touches no other order and counts what it cancels.
   */
  lemma ExpiryOutcome(db: Db, cutoff: int, locked: set<nat>, seen: seq<Attempt>, o: nat)
    requires o < |db.orders|
    requires ExpireReservations(db, cutoff, locked, seen).1.Cancellations?
    ensures var after := ExpireReservations(db, cutoff, locked, seen).0;
            var cancelled := && IsCandidate(db.orders, seen, cutoff, locked, o)
                             && |Candidates(db.orders, seen, cutoff, locked, 0, o)| < 20
                             && IsStale(db.orders, db.attempts, cutoff, o);
            && |after.orders| == |db.orders|
            && after.orders[o] == if cancelled then db.orders[o].(status := Cancelled) else db.orders[o]
  {
    var picks := ExpiryPicks(db.orders, seen, cutoff, locked, 0, EXPIRY_BATCH);
    PicksAreTheFirstCandidates(db.orders, seen, cutoff, locked, 0, EXPIRY_BATCH, o);
    CancelEachCancelsExactly(db, picks, 0);
    ReleasableAre(db.attempts, picks, o);
    BlockedMeansMayBePaid(db.attempts, o);
  }

  // ----- the count

  lemma {:induction false} CancelledOnes(attempts: seq<Attempt>, picks: seq<nat>)
    requires forall i, j | 0 <= i < j < |picks| :: picks[i] < picks[j]
    ensures |Releasable(attempts, picks)| == |set o | o in picks && !HasBlockingAttempt(attempts, o)|
  {
    if picks != [] {
      var first, rest := picks[0], picks[1..];
      CancelledOnes(attempts, rest);
      var others := set o | o in rest && !HasBlockingAttempt(attempts, o);
      assert first !in others;
      assert (set o | o in picks && !HasBlockingAttempt(attempts, o))
             == (if HasBlockingAttempt(attempts, first) then others else {first} + others);
    }
  }

  /** The orders that were live before and are cancelled after. */
  function Newly(before: seq<Order>, after: seq<Order>): set<nat> {
    set o: nat | o < |before| && o < |after| && before[o].status != Cancelled && after[o].status == Cancelled
  }

  lemma ExpiryCounts(db: Db, cutoff: int, locked: set<nat>, seen: seq<Attempt>)
    requires ExpireReservations(db, cutoff, locked, seen).1.Cancellations?
    ensures var (after, reply) := ExpireReservations(db, cutoff, locked, seen);
            reply.count == |Newly(db.orders, after.orders)|
  {
    var picks := ExpiryPicks(db.orders, seen, cutoff, locked, 0, EXPIRY_BATCH);
    CancelEachCancelsExactly(db, picks, 0);
    CancelledOnes(db.attempts, picks);
    var after := ExpireReservations(db, cutoff, locked, seen).0;
    var released := set o | o in picks && !HasBlockingAttempt(db.attempts, o);
    forall o: nat ensures o in released <==> o in Newly(db.orders, after.orders) {
      ReleasableAre(db.attempts, picks, o);
      if o in picks {
        var i :| 0 <= i < |picks| && picks[i] == o;
        assert Expirable(db.orders, seen, o, cutoff);
      }
    }
    assert released == Newly(db.orders, after.orders);
  }

  // ----- refusals

  lemma StockAndHeldStay(products: seq<Product>, orders: seq<Order>, o: nat, p: nat)
    requires o < |orders| && orders[o].status != Cancelled && p < |products|
    ensures Restored(products, orders[o].lines)[p].stock + Held(SetStatus(orders, o, Cancelled), p)
            == products[p].stock + Held(orders, p)
  {
    SumUpdate(orders, o, orders[o].(status := Cancelled), HeldBy(p));
  }

  lemma HeldIsAtLeast(orders: seq<Order>, o: nat, p: nat, productCount: nat)
    requires forall k | 0 <= k < |orders| :: LinesInv(orders[k].lines, productCount)
    requires o < |orders| && orders[o].status != Cancelled
    ensures Quantity(orders[o].lines, p) <= Held(orders, p)
  {
    forall k | 0 <= k < |orders| ensures 0 <= HeldBy(p)(orders[k]) {
      QuantityIsNonNegative(orders[k].lines, p);
    }
    SumNonNegative(orders, HeldBy(p));
    assert HeldBy(p)(orders[o]) == Quantity(orders[o].lines, p);
  }

  /** Stock and reserved units of every product together fit the stock column. */
  ghost predicate StockFits(products: seq<Product>, orders: seq<Order>) {
    forall p | 0 <= p < |products| :: products[p].stock + Held(orders, p) <= 0x7FFF_FFFF
  }

  lemma LiveOrderIsRestorable(db: Db, o: nat)
    requires StockFits(db.products, db.orders) && o < |db.orders| && db.orders[o].status != Cancelled
    requires forall k | 0 <= k < |db.orders| :: LinesInv(db.orders[k].lines, |db.products|)
    ensures Restorable(db.products, db.orders[o].lines)
  {
    forall p | 0 <= p < |db.products| ensures db.products[p].stock + Quantity(db.orders[o].lines, p) <= MAX_INT32 {
      HeldIsAtLeast(db.orders, o, p, |db.products|);
    }
  }

  lemma {:induction false} CancelEachSucceeds(db: Db, picks: seq<nat>, count: nat)
    requires StillPending(db.orders, picks) && forall i, j | 0 <= i < j < |picks| :: picks[i] < picks[j]
    requires StockFits(db.products, db.orders)
    requires forall k | 0 <= k < |db.orders| :: LinesInv(db.orders[k].lines, |db.products|)
    ensures CancelEach(db, picks, count).Some?
    decreases picks
  {
    if picks != [] {
      var o := picks[0];
      CancelEachUnfolds(db, picks, count);
      if HasBlockingAttempt(db.attempts, o) {
        CancelEachSucceeds(db, picks[1..], count);
      } else {
        LiveOrderIsRestorable(db, o);
        var next := CancelOrder(db, o);
        forall p | 0 <= p < |next.products| ensures next.products[p].stock + Held(next.orders, p) <= MAX_INT32 {
          StockAndHeldStay(db.products, db.orders, o, p);
        }
        CancelEachSucceeds(next, picks[1..], count + 1);
      }
    }
  }

  /** An expiry run is accepted whenever stock and reservations together fit the stock column. */
  lemma ExpiryIsAccepted(db: Db, cutoff: int, locked: set<nat>, seen: seq<Attempt>)
    requires Inv(db) && StockFits(db.products, db.orders)
    ensures ExpireReservations(db, cutoff, locked, seen).1.Cancellations?
  {
    var picks := ExpiryPicks(db.orders, seen, cutoff, locked, 0, EXPIRY_BATCH);
    CancelEachSucceeds(db, picks, 0);
  }
}
