/** What each payment transaction does to the columns, and exactly when it does it. */
module PaymentOutcomes {
  import opened Basics
  import opened Statuses
  import opened Tables
  import opened Orders
  import opened Payments
  import opened PaymentInvariant

  /** The attempt was opened through this gateway; test rows from before accounts existed have none. */
  ghost predicate IsOf(g: Gateway, a: Attempt) {
    && a.provider == "zarinpal" && a.environment == g.environment && a.environment != "" && a.environment != "legacy"
    && ((g.identity != "" && a.account == g.identity)
        || (g.environment == "test" && g.identity == "test" && a.account == ""))
  }

  /** Attempt i is the one that carries authority x. */
  ghost predicate Carries(attempts: seq<Attempt>, i: nat, x: string) {
    i < |attempts| && attempts[i].authority == Some(x)
  }

  lemma TheCarrierIsFound(db: Db, i: nat, x: string)
    requires PaymentInv(db.orders, db.attempts) && Carries(db.attempts, i, x)
    ensures FindAttempt(db.attempts, x) == Some(i)
  {
    var j := FindAttempt(db.attempts, x).value;
    var a, b := db.attempts[i], db.attempts[j];
    assert i != j ==> Compatible(a, b);
  }

  // ----- opening a session

  /**
   * An opened attempt is for the order's total in IRR, bound to the gateway's account, pending and without
   * authority, reference or code; the order is from now on one paid online. A refusal changes nothing.
   */
  lemma AttemptEffect(db: Db, g: Gateway, user: nat, o: nat, now: int)
    ensures var (after, reply) := CreateAttempt(db, g, user, o, now);
            if reply.NewRow? then
              && reply.id == |db.attempts| && o < |db.orders|
              && after == db.(
                   attempts := db.attempts + [Attempt(o, "zarinpal", g.environment, g.identity, None, db.orders[o].total,
                                                      "IRR", AttemptPending, None, None, now, NotChecked)],
                   orders := db.orders[o := db.orders[o].(payMethod := ZarinPal)])
            else after == db && reply.Rejected?
  {
  }

  /** Why no session is opened; the first reason that applies. */
  lemma AttemptRefusals(db: Db, g: Gateway, user: nat, o: nat, now: int)
    ensures var reply := CreateAttempt(db, g, user, o, now).1;
            && (reply == Rejected(OrderNotFound) <==> o >= |db.orders| || db.orders[o].user != user)
            && (o < |db.orders| && db.orders[o].user == user ==>
                 var order := db.orders[o];
                 var payable := && order.status == Pending && order.payment in {Unpaid, PaymentFailed}
                                && order.total >= 10000 && order.currency == "IRR";
                 var configured := g.environment != "" && g.environment != "legacy" && g.identity != "";
                 var taken := exists i :: 0 <= i < |db.attempts| && db.attempts[i].order == o
                                          && db.attempts[i].status != AttemptExpired
                                          && !(db.attempts[i].status == AttemptFailed && db.attempts[i].authority.None?);
                 && (reply == Rejected(AlreadyPaid) <==> order.payment == Paid)
                 && (reply == Rejected(NotPayable) <==> order.payment != Paid && !payable)
                 && (reply == Rejected(ProviderMismatch) <==> payable && !configured)
                 && (reply == Rejected(PaymentInProgress) <==> payable && configured && taken)
                 && (reply == NewRow(|db.attempts|) <==> payable && configured && !taken))
  {
    forall i | 0 <= i < |db.attempts|
      ensures Blocks(db.attempts[i]) <==>
                && db.attempts[i].status != AttemptExpired
                && !(db.attempts[i].status == AttemptFailed && db.attempts[i].authority.None?)
    {
    }
  }

  /**
   * An authority is stored exactly when it is 1 to 64 letters and digits that no other attempt carries and the
   * attempt is a pending one of this gateway without a different authority; storing it changes nothing else.
   */
  lemma SetAuthorityOutcome(db: Db, g: Gateway, i: nat, x: string)
    ensures var (after, reply) := SetAuthority(db, g, i, x);
            && (reply == Done <==>
                 && 1 <= |x| <= 64
                 && (forall k | 0 <= k < |x| :: 'a' <= x[k] <= 'z' || 'A' <= x[k] <= 'Z' || '0' <= x[k] <= '9')
                 && i < |db.attempts| && IsOf(g, db.attempts[i]) && db.attempts[i].status == AttemptPending
                 && (db.attempts[i].authority.None? || db.attempts[i].authority.value == x)
                 && forall j | 0 <= j < |db.attempts| && j != i :: db.attempts[j].authority != Some(x))
            && (if reply == Done then after == db.(attempts := db.attempts[i := db.attempts[i].(authority := Some(x))])
                else after == db && reply.Rejected?)
  {
    forall k | 0 <= k < |x|
      ensures IsAlphanumeric(x[k]) <==> 'a' <= x[k] <= 'z' || 'A' <= x[k] <= 'Z' || '0' <= x[k] <= '9'
    {
    }
    if i < |db.attempts| {
      var others := db.attempts[i := db.attempts[i].(authority := None)];
      assert forall j | 0 <= j < |db.attempts| && j != i :: others[j] == db.attempts[j];
    }
  }

  /** An attempt is marked failed exactly when it is pending, of this gateway and without an authority. */
  lemma MarkFailedOutcome(db: Db, g: Gateway, i: nat, code: Option<int>)
    ensures var (after, reply) := MarkAttemptFailed(db, g, i, code);
            && (reply == Done <==>
                 i < |db.attempts| && IsOf(g, db.attempts[i])
                 && db.attempts[i].status == AttemptPending && db.attempts[i].authority.None?)
            && (if reply == Done
                then after == db.(attempts := db.attempts[i := db.attempts[i].(status := AttemptFailed, code := code)])
                else after == db && reply.Rejected?)
  {
  }

  // ----- a confirmed payment

  /** No paid attempt has been credited with this provider reference. */
  ghost predicate ReferenceIsNew(attempts: seq<Attempt>, a: Attempt, refId: int) {
    forall j | 0 <= j < |attempts| && attempts[j].status == AttemptPaid && attempts[j].refId == Some(refId) ::
      attempts[j].provider != a.provider || attempts[j].environment != a.environment || attempts[j].account != a.account
  }

  /**
   * A confirmed payment of a pending attempt with a reference not yet credited makes the attempt paid and its
   * order paid through the gateway; of any other open attempt, it is recorded for reconciliation and leaves the
   * order alone. Either way the attempt keeps the reference and the code.
   */
  lemma ConfirmedOutcome(db: Db, g: Gateway, x: string, i: nat, refId: int, code: int)
    requires PaymentInv(db.orders, db.attempts) && Carries(db.attempts, i, x) && IsOf(g, db.attempts[i])
    requires refId > 0 && code in {100, 101}
    requires db.attempts[i].status !in {AttemptPaid, AttemptReconciliation}
    ensures var a := db.attempts[i];
            var (after, reply) := FinalizeVerified(db, g, x, refId, code);
            && a.order < |db.orders|
            && (if a.status == AttemptPending && ReferenceIsNew(db.attempts, a, refId) then
                  && reply == Settlement(a.order, false, AttemptPaid)
                  && after.attempts == db.attempts[i := a.(status := AttemptPaid, refId := Some(refId),
                                                           code := Some(code), outcome := VerifiedSuccess)]
                  && after.orders == db.orders[a.order := db.orders[a.order].(payment := Paid, payMethod := ZarinPal)]
                else
                  && reply == Settlement(a.order, false, AttemptReconciliation)
                  && after == db.(attempts := db.attempts[i := a.(status := AttemptReconciliation, refId := Some(refId),
                                                                  code := Some(code), outcome := ManualRequired)]))
            && OnlyPaymentsDiffer(db, after)
  {
    TheCarrierIsFound(db, i, x);
    assert AttemptInv(db.orders, db.attempts[i]);
    NewReferences(db, db.attempts[i], refId);
    VerifiedOutcome(db, g, x, refId, code);
    assert FinalizeVerified(db, g, x, refId, code) == RecordVerified(db, i, refId, code);
    RecordedColumns(db, i, refId, code);
  }

  lemma NewReferences(db: Db, a: Attempt, refId: int)
    ensures ReferenceIsNew(db.attempts, a, refId)
            <==> !exists j | 0 <= j < |db.attempts| ::
                   db.attempts[j].status == AttemptPaid && SameReference(db.attempts[j], a, refId)
  {
    if exists j | 0 <= j < |db.attempts| :: db.attempts[j].status == AttemptPaid && SameReference(db.attempts[j], a, refId) {
      var j :| 0 <= j < |db.attempts| && db.attempts[j].status == AttemptPaid && SameReference(db.attempts[j], a, refId);
      assert db.attempts[j].refId == Some(refId) && db.attempts[j].provider == a.provider;
    }
  }

  /** The columns a recorded success writes, by the status the reply reports. */
  lemma RecordedColumns(db: Db, i: nat, refId: int, code: int)
    requires i < |db.attempts| && db.attempts[i].order < |db.orders|
    ensures var a := db.attempts[i];
            var (after, reply) := RecordVerified(db, i, refId, code);
            && (reply == Settlement(a.order, false, AttemptPaid) ==>
                 && after.attempts == db.attempts[i := a.(status := AttemptPaid, refId := Some(refId),
                                                          code := Some(code), outcome := VerifiedSuccess)]
                 && after.orders == db.orders[a.order := db.orders[a.order].(payment := Paid, payMethod := ZarinPal)])
            && (reply == Settlement(a.order, false, AttemptReconciliation) ==>
                 after == db.(attempts := db.attempts[i := a.(status := AttemptReconciliation, refId := Some(refId),
                                                              code := Some(code), outcome := ManualRequired)]))
  {
  }

  /**
   * What a confirmation of attempt i comes to on any tables at all, reachable or not: it is believed for an open
   * attempt with an authority, and settles the order exactly when every check of the order, of the amounts and
   * currencies, and of other paid attempts agrees.
   */
  lemma VerdictOnAnyTables(db: Db, i: nat, refId: int, code: int)
    requires i < |db.attempts| && db.attempts[i].order < |db.orders|
    ensures var a := db.attempts[i];
            var o := db.orders[a.order];
            var open := a.status in {AttemptPending, AttemptFailed, AttemptExpired} && a.authority.Some?;
            var agrees := && a.status != AttemptExpired && o.status in {Pending, Processing, Shipped}
                          && o.payment in {Unpaid, PaymentFailed} && o.total == a.amount && a.amount >= 10000
                          && o.currency == "IRR" && a.currency == "IRR"
                          && forall j | 0 <= j < |db.attempts| && j != i && db.attempts[j].status == AttemptPaid ::
                               && db.attempts[j].order != a.order
                               && !(db.attempts[j].provider == a.provider && db.attempts[j].environment == a.environment
                                    && db.attempts[j].account == a.account && db.attempts[j].refId == Some(refId));
            && (!open ==> RecordVerified(db, i, refId, code) == (db, Rejected(AlreadyProcessed)))
            && (open ==> RecordVerified(db, i, refId, code).1
                         == Settlement(a.order, false, if agrees then AttemptPaid else AttemptReconciliation))
  {
  }

  /** A repeated or malformed confirmation changes nothing and says why. */
  lemma UselessConfirmation(db: Db, g: Gateway, x: string, refId: int, code: int)
    requires PaymentInv(db.orders, db.attempts)
    ensures var (after, reply) := FinalizeVerified(db, g, x, refId, code);
            && (refId <= 0 || code !in {100, 101} ==> (after, reply) == (db, Rejected(InvalidVerification)))
            && (refId > 0 && code in {100, 101} ==>
                 && ((forall i: nat :: !Carries(db.attempts, i, x)) ==>
                       (after, reply) == (db, Rejected(AttemptNotFound)))
                 && forall i: nat | Carries(db.attempts, i, x) ::
                      && (!IsOf(g, db.attempts[i]) ==> (after, reply) == (db, Rejected(ProviderMismatch)))
                      && (IsOf(g, db.attempts[i]) && db.attempts[i].status in {AttemptPaid, AttemptReconciliation} ==>
                            (after, reply) == (db, Settlement(db.attempts[i].order, true, db.attempts[i].status))))
  {
    var found := FindAttempt(db.attempts, x);
    if found.Some? {
      assert Carries(db.attempts, found.value, x);
      assert AttemptInv(db.orders, db.attempts[found.value]);
    }
    forall i: nat | Carries(db.attempts, i, x) ensures found == Some(i) {
      TheCarrierIsFound(db, i, x);
    }
  }

  // ----- a rejected or uncertain check

  /**
   * A rejection is recorded with its code and as definitive; an uncertain check is recorded as such and keeps
   * the code of an earlier rejection. Neither changes the attempt's status, its order or anything else.
   */
  lemma RejectedOutcome(db: Db, g: Gateway, x: string, i: nat, code: Option<int>)
    requires PaymentInv(db.orders, db.attempts) && Carries(db.attempts, i, x) && IsOf(g, db.attempts[i])
    requires db.attempts[i].status !in {AttemptPaid, AttemptReconciliation}
    ensures var a := db.attempts[i];
            FinalizeFailed(db, g, x, code)
            == (db.(attempts := db.attempts[i := match code
                                                 case Some(c) => a.(code := Some(c), outcome := DefinitiveRejection)
                                                 case None => a.(outcome := UncertainOutcome)]),
                Settlement(a.order, false, a.status))
  {
    TheCarrierIsFound(db, i, x);
    assert AttemptInv(db.orders, db.attempts[i]);
  }

  /** Once a payment is verified, no later rejection touches it; without the attempt there is nothing to record. */
  lemma UselessRejection(db: Db, g: Gateway, x: string, code: Option<int>)
    requires PaymentInv(db.orders, db.attempts)
    ensures var (after, reply) := FinalizeFailed(db, g, x, code);
            && ((forall i: nat :: !Carries(db.attempts, i, x)) ==> (after, reply) == (db, Rejected(AttemptNotFound)))
            && forall i: nat | Carries(db.attempts, i, x) ::
                 && (!IsOf(g, db.attempts[i]) ==> (after, reply) == (db, Rejected(ProviderMismatch)))
                 && (IsOf(g, db.attempts[i]) && db.attempts[i].status in {AttemptPaid, AttemptReconciliation} ==>
                       (after, reply) == (db, Settlement(db.attempts[i].order, true, db.attempts[i].status)))
  {
    var found := FindAttempt(db.attempts, x);
    if found.Some? {
      assert Carries(db.attempts, found.value, x);
      assert AttemptInv(db.orders, db.attempts[found.value]);
    }
    forall i: nat | Carries(db.attempts, i, x) ensures found == Some(i) {
      TheCarrierIsFound(db, i, x);
    }
  }

  // ----- releasing a session

  /**
   * An attempt is expired exactly when it is an unverified one of this gateway, not created after the cut-off,
   * with -51 as its recorded code, and its order is still pending and unpaid; nothing but its status changes.
   */
  lemma ExpiryOutcome(db: Db, g: Gateway, i: nat, cutoff: int)
    requires PaymentInv(db.orders, db.attempts)
    ensures var (after, reply) := ExpireRejected(db, g, i, cutoff);
            && (reply == Done <==>
                 && i < |db.attempts| && IsOf(g, db.attempts[i]) && db.attempts[i].createdAt <= cutoff
                 && db.attempts[i].status in {AttemptPending, AttemptFailed} && db.attempts[i].code == Some(-51)
                 && db.attempts[i].order < |db.orders| && db.orders[db.attempts[i].order].status == Pending
                 && db.orders[db.attempts[i].order].payment != Paid)
            && (if reply == Done then after == db.(attempts := db.attempts[i := db.attempts[i].(status := AttemptExpired)])
                else after == db && reply.Rejected?)
  {
  }

  /**
   * The provider says -51 about the pending session of a pending order: the session can be expired from its
   * creation time on, and then nothing blocks the order any more - unless a late success of an earlier,
   * expired session waits for reconciliation.
   */
  lemma RejectedSessionIsReleased(db: Db, g: Gateway, x: string, i: nat, cutoff: int)
    requires PaymentInv(db.orders, db.attempts) && Carries(db.attempts, i, x) && IsOf(g, db.attempts[i])
    requires db.attempts[i].status == AttemptPending && db.attempts[i].createdAt <= cutoff
    ensures var o := db.attempts[i].order;
            var (after, reply) := ExpireRejected(FinalizeFailed(db, g, x, Some(-51)).0, g, i, cutoff);
            && reply == Done && i < |after.attempts| && after.attempts[i].status == AttemptExpired
            && after.orders == db.orders
            && (HasBlockingAttempt(after.attempts, o) <==>
                 exists j :: 0 <= j < |db.attempts| && db.attempts[j].order == o
                             && db.attempts[j].status == AttemptReconciliation)
  {
    var o := db.attempts[i].order;
    var rejected := FinalizeFailed(db, g, x, Some(-51)).0;
    assert AttemptInv(db.orders, db.attempts[i]);
    RejectedOutcome(db, g, x, i, Some(-51));
    FinalizeFailedKeeps(db, g, x, Some(-51));
    ExpiryOutcome(rejected, g, i, cutoff);
    var after := ExpireRejected(rejected, g, i, cutoff).0;
    OnlyLiveAttemptOfItsOrder(db, i);
    BlockedOnlyByReconciliation(db.attempts, after.attempts, i, o);
  }

  /** Beside a pending attempt, its order has no paid one, and failed ones have no authority. */
  lemma OnlyLiveAttemptOfItsOrder(db: Db, i: nat)
    requires PaymentInv(db.orders, db.attempts) && i < |db.attempts| && db.attempts[i].status == AttemptPending
    ensures forall j | 0 <= j < |db.attempts| && j != i && db.attempts[j].order == db.attempts[i].order ::
              db.attempts[j].status in {AttemptExpired, AttemptFailed, AttemptReconciliation}
              && (db.attempts[j].status == AttemptFailed ==> db.attempts[j].authority.None?)
  {
    forall j | 0 <= j < |db.attempts| && j != i && db.attempts[j].order == db.attempts[i].order
      ensures db.attempts[j].status in {AttemptExpired, AttemptFailed, AttemptReconciliation}
      ensures db.attempts[j].status == AttemptFailed ==> db.attempts[j].authority.None?
    {
      var a, b := db.attempts[i], db.attempts[j];
      assert Compatible(a, b) && AttemptInv(db.orders, b);
    }
  }

  lemma BlockedOnlyByReconciliation(before: seq<Attempt>, after: seq<Attempt>, i: nat, o: nat)
    requires i < |before| == |after| && before[i].status == AttemptPending && after[i].status == AttemptExpired
    requires before[i].order == o && forall j | 0 <= j < |before| && j != i :: after[j] == before[j]
    requires forall j | 0 <= j < |before| && j != i && before[j].order == o ::
               before[j].status in {AttemptExpired, AttemptFailed, AttemptReconciliation}
               && (before[j].status == AttemptFailed ==> before[j].authority.None?)
    ensures HasBlockingAttempt(after, o) <==>
              exists j :: 0 <= j < |before| && before[j].order == o && before[j].status == AttemptReconciliation
  {
    if HasBlockingAttempt(after, o) {
      var j :| 0 <= j < |after| && after[j].order == o && Blocks(after[j]);
      assert before[j].status == AttemptReconciliation;
    }
    if j :| 0 <= j < |before| && before[j].order == o && before[j].status == AttemptReconciliation {
      assert after[j] == before[j] && Blocks(after[j]);
    }
  }
}
