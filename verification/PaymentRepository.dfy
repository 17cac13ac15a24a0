/** The payment attempt transactions as they run on the tables. */
module PaymentRepository {
  import opened Basics
  import opened Statuses
  import opened EventKeys
  import opened Tables
  import opened Orders
  import opened Payments
  import opened ShopInvariant
  import opened Database

  class PaymentRepository {
    const db: Database
    const provider: Gateway

    constructor (db: Database, provider: Gateway)
      ensures this.db == db && this.provider == provider
    {
      this.db, this.provider := db, provider;
    }

    method CreateAttemptForOrder(user: nat, o: nat, now: int) returns (reply: Reply)
      requires db.Valid()
      modifies db
      ensures db.Valid()
      ensures (db.Snapshot(), reply) == CreateAttempt(old(db.Snapshot()), provider, user, o, now)
    {
      CreateAttemptKeepsInv(db.Snapshot(), provider, user, o, now);
      if o >= |db.orders| || db.orders[o].user != user {
        return Rejected(OrderNotFound);
      }
      var order := db.orders[o];
      if order.payment == Paid {
        return Rejected(AlreadyPaid);
      }
      if order.status != Pending || (order.payment != Unpaid && order.payment != PaymentFailed)
         || order.total < MINIMUM_AMOUNT || order.currency != "IRR" {
        return Rejected(NotPayable);
      }
      if !MatchesProvider(provider, "zarinpal", provider.environment, provider.identity) {
        return Rejected(ProviderMismatch);
      }
      if HasBlockingAttempt(db.attempts, o) {
        return Rejected(PaymentInProgress);
      }
      reply := NewRow(|db.attempts|);
      db.attempts := db.attempts + [Attempt(o, "zarinpal", provider.environment, provider.identity, None, order.total,
                                            "IRR", AttemptPending, None, None, now, NotChecked)];
      db.orders := db.orders[o := order.(payMethod := ZarinPal)];
    }

    method SetAuthority(i: nat, authority: string) returns (reply: Reply)
      requires db.Valid()
      modifies db
      ensures db.Valid()
      ensures (db.Snapshot(), reply) == Payments.SetAuthority(old(db.Snapshot()), provider, i, authority)
    {
      SetAuthorityKeepsInv(db.Snapshot(), provider, i, authority);
      if |authority| > 64 || !ValidAuthority(authority) {
        return Rejected(InvalidAuthority);
      }
      if i >= |db.attempts| {
        return Rejected(AttemptNotFound);
      }
      var a := db.attempts[i];
      if !Matches(provider, a) {
        return Rejected(ProviderMismatch);
      }
      if a.status != AttemptPending || (a.authority.Some? && a.authority.value != authority) {
        return Rejected(AlreadyProcessed);
      }
      // The unique index on the authority column.
      if FindAttempt(db.attempts[i := a.(authority := None)], authority).Some? {
        return Rejected(DatabaseError);
      }
      db.attempts := db.attempts[i := a.(authority := Some(authority))];
      reply := Done;
    }

    method MarkAttemptFailed(i: nat, code: Option<int>) returns (reply: Reply)
      requires db.Valid()
      modifies db
      ensures db.Valid()
      ensures (db.Snapshot(), reply) == Payments.MarkAttemptFailed(old(db.Snapshot()), provider, i, code)
    {
      MarkFailedKeepsInv(db.Snapshot(), provider, i, code);
      if i >= |db.attempts| {
        return Rejected(AttemptNotFound);
      }
      var a := db.attempts[i];
      if !Matches(provider, a) {
        return Rejected(ProviderMismatch);
      }
      if a.status != AttemptPending || a.authority.Some? {
        return Rejected(AlreadyProcessed);
      }
      db.attempts := db.attempts[i := a.(status := AttemptFailed, code := code)];
      reply := Done;
    }

    /** The second half of FinalizeVerifiedPayment, once the attempt is locked and known to be open. */
    method RecordVerifiedPayment(i: nat, refId: int, code: int) returns (reply: Reply)
      requires i < |db.attempts| && db.attempts[i].order < |db.orders|
      modifies db
      ensures (db.Snapshot(), reply) == RecordVerified(old(db.Snapshot()), i, refId, code)
    {
      var a := db.attempts[i];
      var o := db.orders[a.order];
      var status := VerifiedStatus(o, a, ConflictingPayment(db.attempts, i, refId));
      if a.status !in {AttemptPending, AttemptFailed, AttemptExpired} || a.authority.None? {
        return Rejected(AlreadyProcessed);
      }
      db.attempts := db.attempts[i := WithVerdict(a, status, refId, code)];
      if status == AttemptPaid {
        if o.payment != Unpaid && o.payment != PaymentFailed {
          // The update of the order row would match nothing; VerifiedStatus has ruled that out.
          assert false;
        }
        db.orders := db.orders[a.order := o.(payment := Paid, payMethod := ZarinPal)];
        db.EnqueueTx(OrderEvent(a.order, PaymentSucceeded));
      }
      reply := Settlement(a.order, false, status);
    }

    method FinalizeVerifiedPayment(authority: string, refId: int, code: int) returns (reply: Reply)
      requires db.Valid()
      modifies db
      ensures db.Valid()
      ensures (db.Snapshot(), reply) == FinalizeVerified(old(db.Snapshot()), provider, authority, refId, code)
    {
      FinalizeVerifiedKeepsInv(db.Snapshot(), provider, authority, refId, code);
      if refId <= 0 || (code != CODE_SUCCESS && code != CODE_ALREADY_VERIFIED) {
        return Rejected(InvalidVerification);
      }
      var found := FindAttempt(db.attempts, authority);
      if found.None? {
        return Rejected(AttemptNotFound);
      }
      var a := db.attempts[found.value];
      if a.order >= |db.orders| {
        return Rejected(OrderNotFound);
      }
      if !Matches(provider, a) {
        return Rejected(ProviderMismatch);
      }
      if Verified(a.status) {
        return Settlement(a.order, true, a.status);
      }
      reply := RecordVerifiedPayment(found.value, refId, code);
    }

    method FinalizeFailedPayment(authority: string, code: Option<int>) returns (reply: Reply)
      modifies db
      ensures old(db.Valid()) ==> db.Valid()
      ensures (db.Snapshot(), reply) == FinalizeFailed(old(db.Snapshot()), provider, authority, code)
    {
      ghost var saved := db.Snapshot();
      assert Inv(saved) ==> Inv(FinalizeFailed(saved, provider, authority, code).0) by {
        if Inv(saved) {
          FinalizeFailedKeepsInv(saved, provider, authority, code);
        }
      }
      var found := FindAttempt(db.attempts, authority);
      if found.None? {
        return Rejected(AttemptNotFound);
      }
      var a := db.attempts[found.value];
      if a.order >= |db.orders| {
        return Rejected(OrderNotFound);
      }
      if !Matches(provider, a) {
        return Rejected(ProviderMismatch);
      }
      if Verified(a.status) {
        return Settlement(a.order, true, a.status);
      }
      db.attempts :=
        db.attempts[found.value := a.(code := if code.Some? then code else a.code,
                                      outcome := if code.Some? then DefinitiveRejection else UncertainOutcome)];
      if a.status == AttemptFailed {
        db.EnqueueTx(OrderEvent(a.order, PaymentRejected));
      }
      reply := Settlement(a.order, false, a.status);
    }

    method ExpireRejected(i: nat, cutoff: int) returns (reply: Reply)
      requires db.Valid()
      modifies db
      ensures db.Valid()
      ensures (db.Snapshot(), reply) == Payments.ExpireRejected(old(db.Snapshot()), provider, i, cutoff)
    {
      ExpireRejectedKeepsInv(db.Snapshot(), provider, i, cutoff);
      if i >= |db.attempts| {
        return Rejected(AttemptNotFound);
      }
      var a := db.attempts[i];
      if a.order >= |db.orders| {
        return Rejected(OrderNotFound);
      }
      var o := db.orders[a.order];
      if !Matches(provider, a) || a.createdAt > cutoff || (a.status != AttemptPending && a.status != AttemptFailed)
         || a.code != Some(CODE_NOT_PAID) || o.status != Pending || o.payment == Paid {
        return Rejected(AlreadyProcessed);
      }
      db.attempts := db.attempts[i := a.(status := AttemptExpired)];
      reply := Done;
    }
  }
}
