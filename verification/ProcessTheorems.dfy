/** End-to-end promises of the payment and refund handlers, under every interleaving, failure and crash. */
module ProcessTheorems {
  import opened Basics
  import opened Statuses
  import opened Tables
  import opened Payments
  import opened PaymentInvariant
  import LedgerInvariant
  import Orders
  import opened ShopInvariant
  import opened Evolution
  import opened ShopTheorems
  import opened Processes
  import opened ProcessInvariant

  ghost predicate ReachedSystem(sys: System) {
    exists notify: bool, happenings: seq<Happening> :: ReachedBy(sys, notify, happenings)
  }

  lemma SystemsKeepInv(sys: System)
    requires ReachedSystem(sys)
    ensures SystemInv(sys) && Reachable(sys.db)
  {
    var notify: bool, happenings: seq<Happening> :| ReachedBy(sys, notify, happenings);
    ReachedSystemsKeepInv(sys, notify, happenings);
  }

  /** An order is settled only after the provider issued a session for its total and confirmed that same total. */
  lemma SettledOrdersWereConfirmed(sys: System, o: nat) returns (i: nat)
    requires ReachedSystem(sys) && o < |sys.db.orders| && Settled(sys.db.orders[o].payment)
    ensures i < |sys.db.attempts|
    ensures var a := sys.db.attempts[i];
            && a.order == o && a.status == AttemptPaid && a.authority.Some? && a.refId.Some? && a.code.Some?
            && Issued(sys.log, i, sys.db.orders[o].total, a.authority.value)
            && Confirmed(sys.log, a.authority.value, sys.db.orders[o].total, a.refId.value, a.code.value)
  {
    SystemsKeepInv(sys);
    SettlementIsUnique(sys.db, o);
    i :| 0 <= i < |sys.db.attempts| && sys.db.attempts[i].order == o && sys.db.attempts[i].status == AttemptPaid;
    assert Evidence(sys.log, i, sys.db.attempts[i]);
    assert AttemptInv(sys.db.orders, sys.db.attempts[i]);
  }

  /** Every recorded success, settled or left for reconciliation, was confirmed by the provider. */
  lemma RecordedSuccessesWereConfirmed(sys: System, i: nat)
    requires ReachedSystem(sys) && i < |sys.db.attempts| && Verified(sys.db.attempts[i].status)
    ensures var a := sys.db.attempts[i];
            && a.authority.Some? && a.refId.Some? && a.code.Some?
            && Confirmed(sys.log, a.authority.value, a.amount, a.refId.value, a.code.value)
  {
    SystemsKeepInv(sys);
    assert Evidence(sys.log, i, sys.db.attempts[i]);
  }

  /** No stored authority is given up on a timeout or an ambiguous answer: only after the provider denied any payment. */
  lemma ExpiredSessionsWereDenied(sys: System, i: nat)
    requires ReachedSystem(sys) && i < |sys.db.attempts| && sys.db.attempts[i].status == AttemptExpired
    ensures sys.db.attempts[i].authority.Some? && Denied(sys.log, sys.db.attempts[i].authority.value)
  {
    SystemsKeepInv(sys);
    assert Evidence(sys.log, i, sys.db.attempts[i]);
  }

  /** No cancellation path and no second session for the order. */
  ghost predicate IsHeld(db: Db, o: nat) {
    && Orders.HasBlockingAttempt(db.attempts, o)
    && Orders.UpdateStatus(db, o, Cancelled).1.Rejected?
    && (forall user :: Orders.CancelOwnOrder(db, user, o).1.Rejected?)
    && (forall cutoff :: !Orders.Expirable(db.orders, db.attempts, o, cutoff))
    && (forall g, user, now :: CreateAttempt(db, g, user, o, now).1.Rejected?)
  }

  lemma BlockingAttemptsHoldTheirOrder(db: Db, o: nat)
    requires Orders.HasBlockingAttempt(db.attempts, o)
    ensures IsHeld(db, o)
  {
  }

  /**
   * As long as a stored authority has not been denied, its order can be cancelled in none of the
   * three ways and no second session can be opened for it.
   */
  lemma UndeniedSessionsHoldTheirOrder(sys: System, i: nat)
    requires ReachedSystem(sys) && i < |sys.db.attempts| && sys.db.attempts[i].authority.Some?
    requires !Denied(sys.log, sys.db.attempts[i].authority.value)
    ensures IsHeld(sys.db, sys.db.attempts[i].order)
  {
    SystemsKeepInv(sys);
    assert Evidence(sys.log, i, sys.db.attempts[i]);
    assert Orders.Blocks(sys.db.attempts[i]);
    BlockingAttemptsHoldTheirOrder(sys.db, sys.db.attempts[i].order);
  }

  /**
   * A customer is only sent to the provider with an authority that the provider issued for the order's
   * total and that has been stored; whatever happens then, the order is held until the provider denies
   * any payment under it.
   */
  lemma RedirectedCustomersHoldTheirOrder(sys: System, c: Call)
    requires ReachedSystem(sys) && c in sys.log && c.Redirect?
    ensures c.attempt < |sys.db.attempts|
    ensures var a := sys.db.attempts[c.attempt];
            && a.authority == Some(c.authority) && a.order < |sys.db.orders|
            && Issued(sys.log, c.attempt, sys.db.orders[a.order].total, c.authority)
            && (Denied(sys.log, c.authority) || IsHeld(sys.db, a.order))
  {
    SystemsKeepInv(sys);
    assert CallInv(sys.db, c);
    assert AttemptInv(sys.db.orders, sys.db.attempts[c.attempt]);
    assert Evidence(sys.log, c.attempt, sys.db.attempts[c.attempt]);
    if !Denied(sys.log, c.authority) {
      UndeniedSessionsHoldTheirOrder(sys, c.attempt);
    }
  }

  /** Without a stored authority, an attempt holds its order exactly as long as it is pending. */
  lemma UnstoredSessionsHoldWhilePending(sys: System, i: nat)
    requires ReachedSystem(sys) && i < |sys.db.attempts| && sys.db.attempts[i].authority.None?
    ensures Orders.Blocks(sys.db.attempts[i]) <==> sys.db.attempts[i].status == AttemptPending
  {
    SystemsKeepInv(sys);
    assert AttemptInv(sys.db.orders, sys.db.attempts[i]);
    assert Evidence(sys.log, i, sys.db.attempts[i]);
  }

  // ----- a session that is issued and never stored

  lemma Continues(sys: System, h: Happening)
    requires ReachedSystem(sys) && Allowed(sys, h)
    ensures ReachedSystem(Happen(sys, h))
  {
    var notify: bool, happenings: seq<Happening> :| ReachedBy(sys, notify, happenings);
    var more := happenings + [h];
    assert more[..|more| - 1] == happenings && more[|more| - 1] == h;
    assert ReachedBy(Happen(sys, h), notify, more);
  }

  /** The system with one more process. */
  function With(db: Db, processes: seq<Process>, log: seq<Call>, p: Process): System {
    System(db, processes + [p], log)
  }

  lemma NewestAdvances(db: Db, processes: seq<Process>, log: seq<Call>, p: Process, answer: Answer)
    requires ReachedSystem(With(db, processes, log, p))
    ensures var (later, reply) := Commit(db, Transaction(p));
            ReachedSystem(With(later, processes, log + Calls(p, answer), After(later, p, reply, answer)))
  {
    var sys, k := With(db, processes, log, p), |processes|;
    Continues(sys, Advances(k, answer));
    var (later, reply) := Commit(db, Transaction(p));
    var next := After(later, p, reply, answer);
    assert (processes + [p])[k := next] == processes + [next];
  }

  lemma RequestOpens(db: Db, g: Gateway, user: nat, o: nat, now: int)
    requires CreateAttempt(db, g, user, o, now).1.NewRow?
    ensures var p := RequestStart(g, user, o, now);
            var (later, reply) := Commit(db, Transaction(p));
            && later == CreateAttempt(db, g, user, o, now).0
            && After(later, p, reply, NoAnswer) == RequestReady(g, |db.attempts|, db.orders[o].total)
  {
    assert Commit(db, Transaction(RequestStart(g, user, o, now))) == CreateAttempt(db, g, user, o, now);
  }

  /** The request is made and answered, but the authority cannot be stored. */
  lemma IssuedButNotStored(sys: System, g: Gateway, user: nat, o: nat, now: int, r: RequestResult) returns (later: System)
    requires ReachedSystem(sys) && CreateAttempt(sys.db, g, user, o, now).1.NewRow?
    ensures ReachedSystem(later)
    ensures later.db == CreateAttempt(sys.db, g, user, o, now).0
    ensures later.log == sys.log + [RequestCall(|sys.db.attempts|, sys.db.orders[o].total, r)]
  {
    var i, total, created := |sys.db.attempts|, sys.db.orders[o].total, CreateAttempt(sys.db, g, user, o, now).0;
    Continues(sys, Arrives(RequestStart(g, user, o, now)));
    NewestAdvances(sys.db, sys.processes, sys.log, RequestStart(g, user, o, now), NoAnswer);
    RequestOpens(sys.db, g, user, o, now);
    assert sys.log + [] == sys.log;
    NewestAdvances(created, sys.processes, sys.log, RequestReady(g, i, total), Requested(r));
    var log := sys.log + [RequestCall(i, total, r)];
    var replied := With(created, sys.processes, log, RequestReplied(g, i, r));
    Continues(replied, Fails(|sys.processes|));
    later := Happen(replied, Fails(|sys.processes|));
  }

  lemma SweepFinds(db: Db, g: Gateway, i: nat, cutoff: int)
    requires Abandoned(db.attempts, g, cutoff, i) && db.attempts[i].authority.None?
    requires db.attempts[i].status == AttemptPending
    ensures AbandonedRows(db.attempts, g, cutoff, [i], SWEEP_BATCH) == [i]
    ensures After(db, SweepStart(g, cutoff), Done, Rows([i])) == SweepNext(g, Sweep(cutoff, [i]))
    ensures After(db, SweepNext(g, Sweep(cutoff, [i])), Done, NoAnswer) == SweepMark(g, i, Sweep(cutoff, []))
  {
    assert [i][1..] == [];
  }

  lemma SweepMarks(db: Db, g: Gateway, i: nat, pending: Sweep)
    requires i < |db.attempts| && db.attempts[i].status == AttemptPending && db.attempts[i].authority.None?
    requires Matches(g, db.attempts[i])
    ensures Commit(db, Transaction(SweepMark(g, i, pending))).0
            == db.(attempts := db.attempts[i := db.attempts[i].(status := AttemptFailed, code := None)])
  {
    assert Commit(db, Transaction(SweepMark(g, i, pending))) == MarkAttemptFailed(db, g, i, None);
  }

  /** The sweep finds attempt i pending without an authority and marks it failed. */
  lemma SweptWithoutAsking(sys: System, g: Gateway, i: nat, cutoff: int) returns (later: System)
    requires ReachedSystem(sys) && Abandoned(sys.db.attempts, g, cutoff, i) && Matches(g, sys.db.attempts[i])
    requires sys.db.attempts[i].status == AttemptPending && sys.db.attempts[i].authority.None?
    ensures ReachedSystem(later) && later.log == sys.log
    ensures later.db == sys.db.(attempts := sys.db.attempts[i := sys.db.attempts[i].(status := AttemptFailed, code := None)])
  {
    var mark := SweepMark(g, i, Sweep(cutoff, []));
    assert sys.log + [] == sys.log;
    Continues(sys, Arrives(SweepStart(g, cutoff)));
    NewestAdvances(sys.db, sys.processes, sys.log, SweepStart(g, cutoff), Rows([i]));
    SweepFinds(sys.db, g, i, cutoff);
    NewestAdvances(sys.db, sys.processes, sys.log, SweepNext(g, Sweep(cutoff, [i])), NoAnswer);
    NewestAdvances(sys.db, sys.processes, sys.log, mark, NoAnswer);
    SweepMarks(sys.db, g, i, Sweep(cutoff, []));
    var (db, reply) := Commit(sys.db, Transaction(mark));
    later := With(db, sys.processes, sys.log, After(db, mark, reply, NoAnswer));
  }

  /**
   * Whenever a payment can be started, its session can get lost: the provider issues it, the authority is
   * not stored, and the sweep releases the order without asking the provider. No customer was sent there.
   */
  lemma AnUnstoredSessionIsReleased(sys: System, g: Gateway, user: nat, o: nat, now: int, r: RequestResult)
    returns (later: System)
    requires ReachedSystem(sys) && CreateAttempt(sys.db, g, user, o, now).1.NewRow? && Issues(r)
    ensures ReachedSystem(later)
    ensures Issued(later.log, |sys.db.attempts|, sys.db.orders[o].total, r.authority)
    ensures later.log == sys.log + [RequestCall(|sys.db.attempts|, sys.db.orders[o].total, r)]
    ensures |later.db.attempts| == |sys.db.attempts| + 1 && later.db.attempts[|sys.db.attempts|].order == o
    ensures !Orders.HasBlockingAttempt(later.db.attempts, o)
  {
    var i := |sys.db.attempts|;
    var issued := IssuedButNotStored(sys, g, user, o, now, r);
    later := SweptWithoutAsking(issued, g, i, now + 1);
    var c := RequestCall(i, sys.db.orders[o].total, r);
    assert c in later.log && Issues(c.request) && c.request.authority == r.authority;
    forall j | 0 <= j < |later.db.attempts| && later.db.attempts[j].order == o
      ensures !Orders.Blocks(later.db.attempts[j])
    {
      assert j < i ==> later.db.attempts[j] == sys.db.attempts[j];
    }
  }

  /** The provider is only ever asked to verify the total of the order behind the authority. */
  lemma VerifiedAmountsAreOrderTotals(sys: System, c: Call, i: nat)
    requires ReachedSystem(sys) && c in sys.log && c.VerifyCall?
    requires i < |sys.db.attempts| && sys.db.attempts[i].authority == Some(c.authority)
    ensures sys.db.attempts[i].order < |sys.db.orders| && c.amount == sys.db.orders[sys.db.attempts[i].order].total
  {
    SystemsKeepInv(sys);
    assert CallInv(sys.db, c);
    BoundAmountIsUnique(sys.db, c.authority, c.amount, i);
    assert AttemptInv(sys.db.orders, sys.db.attempts[i]);
  }

  /** The provider is asked at most once to pay a refund out. */
  lemma RefundProviderIsCalledAtMostOnce(sys: System, i: nat, j: nat)
    requires ReachedSystem(sys) && i < j < |sys.log|
    requires sys.log[i].RefundCall? && sys.log[j].RefundCall?
    ensures sys.log[i].refund != sys.log[j].refund
  {
    SystemsKeepInv(sys);
    var r := sys.log[i].refund;
    if sys.log[j].refund == r {
      assert ClaimInv(sys.db.refunds, sys.processes, sys.log, r);
      SumNonNegative(sys.processes, HoldsClaim(r));
      TwoTermsInTheSum(sys.log, i, j, IsCallFor(r));
      assert false;
    }
  }

  lemma TwoTermsInTheSum<T>(s: seq<T>, i: nat, j: nat, f: T -> int)
    requires i < j < |s| && forall k | 0 <= k < |s| :: 0 <= f(s[k])
    ensures f(s[i]) + f(s[j]) <= Sum(s, f)
  {
    assert s == s[..j] + s[j..];
    SumConcat(s[..j], s[j..], f);
    SumNonNegative(s[..j], f);
    SumNonNegative(s[j..], f);
    assert s[j..][0] == s[j] && s[..j][i] == s[i];
  }

  /** It is asked only for online payments whose goods have come back, for exactly what was paid. */
  lemma RefundCallsAreDue(sys: System, c: Call)
    requires ReachedSystem(sys) && c in sys.log && c.RefundCall?
    ensures c.refund < |sys.db.refunds| && sys.db.refunds[c.refund].order == c.order
    ensures sys.db.refunds[c.refund].payMethod == ZarinPal
    ensures c.order < |sys.db.orders| && c.amount == sys.db.orders[c.order].total
    ensures Settled(sys.db.orders[c.order].payment) && sys.db.orders[c.order].status == Delivered
    ensures CameBack(sys.db, c.order)
  {
    SystemsKeepInv(sys);
    assert CallInv(sys.db, c);
    var q :| 0 <= q < |sys.db.returnRequests| && sys.db.returnRequests[q].order == c.order
             && ReturnReaches(ReturnReceived, sys.db.returnRequests[q].status);
    assert LedgerInvariant.ReturnRowInv(sys.db.orders, sys.db.refunds, sys.db.returnRequests[q]);
  }
}
