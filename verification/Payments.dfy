/** The payment attempt transactions: creation, authority, failure, verification and expiry. */
module Payments {
  import opened Basics
  import opened Statuses
  import opened EventKeys
  import opened Tables
  import opened Orders

  const MINIMUM_AMOUNT := 10000
  const CODE_SUCCESS := 100
  const CODE_ALREADY_VERIFIED := 101
  /** The provider's answer for a session that was never paid. */
  const CODE_NOT_PAID := -51

  predicate MatchesProvider(g: Gateway, provider: string, environment: string, account: string) {
    && provider == "zarinpal" && environment == g.environment && environment != "legacy" && environment != ""
    && if g.environment == "test" && g.identity == "test" && account == "" then true
       else g.identity != "" && account == g.identity
  }

  predicate Matches(g: Gateway, a: Attempt) {
    MatchesProvider(g, a.provider, a.environment, a.account)
  }

  predicate IsAlphanumeric(c: char) {
    'a' <= c <= 'z' || 'A' <= c <= 'Z' || '0' <= c <= '9'
  }

  predicate ValidAuthority(authority: string) {
    1 <= |authority| <= 255 && forall i | 0 <= i < |authority| :: IsAlphanumeric(authority[i])
  }

  function FindAttempt(attempts: seq<Attempt>, authority: string): (r: Option<nat>)
    ensures r.Some? ==> r.value < |attempts| && attempts[r.value].authority == Some(authority)
    ensures r.None? ==> forall i | 0 <= i < |attempts| :: attempts[i].authority != Some(authority)
  {
    if attempts == [] then None
    else if attempts[|attempts| - 1].authority == Some(authority) then Some(|attempts| - 1)
    else FindAttempt(attempts[..|attempts| - 1], authority)
  }

  function CreateAttempt(db: Db, g: Gateway, user: nat, o: nat, now: int): (result: (Db, Reply))
    ensures OnlyPaymentsDiffer(db, result.0)
  {
    if o >= |db.orders| || db.orders[o].user != user then (db, Rejected(OrderNotFound))
    else
      var order := db.orders[o];
      if order.payment == Paid then (db, Rejected(AlreadyPaid))
      else if order.status != Pending || (order.payment != Unpaid && order.payment != PaymentFailed)
              || order.total < MINIMUM_AMOUNT || order.currency != "IRR" then (db, Rejected(NotPayable))
      else if !MatchesProvider(g, "zarinpal", g.environment, g.identity) then (db, Rejected(ProviderMismatch))
      else if HasBlockingAttempt(db.attempts, o) then (db, Rejected(PaymentInProgress))
      else
        var attempt := Attempt(o, "zarinpal", g.environment, g.identity, None, order.total, "IRR", AttemptPending,
                               None, None, now, NotChecked);
        (db.(attempts := db.attempts + [attempt], orders := db.orders[o := order.(payMethod := ZarinPal)]),
         NewRow(|db.attempts|))
  }

  function SetAuthority(db: Db, g: Gateway, i: nat, authority: string): (result: (Db, Reply))
    ensures OnlyPaymentsDiffer(db, result.0)
  {
    if |authority| > 64 || !ValidAuthority(authority) then (db, Rejected(InvalidAuthority))
    else if i >= |db.attempts| then (db, Rejected(AttemptNotFound))
    else
      var a := db.attempts[i];
      if !Matches(g, a) then (db, Rejected(ProviderMismatch))
      else if a.status != AttemptPending || (a.authority.Some? && a.authority.value != authority) then
        (db, Rejected(AlreadyProcessed))
      else if FindAttempt(db.attempts[i := a.(authority := None)], authority).Some? then (db, Rejected(DatabaseError))
      else (db.(attempts := db.attempts[i := a.(authority := Some(authority))]), Done)
  }

  function MarkAttemptFailed(db: Db, g: Gateway, i: nat, code: Option<int>): (result: (Db, Reply))
    ensures OnlyPaymentsDiffer(db, result.0)
  {
    if i >= |db.attempts| then (db, Rejected(AttemptNotFound))
    else
      var a := db.attempts[i];
      if !Matches(g, a) then (db, Rejected(ProviderMismatch))
      else if a.status != AttemptPending || a.authority.Some? then (db, Rejected(AlreadyProcessed))
      else (db.(attempts := db.attempts[i := a.(status := AttemptFailed, code := code)]), Done)
  }

  /** Another paid attempt already settles this order or already carries this provider reference. */
  predicate ConflictingPayment(attempts: seq<Attempt>, i: nat, refId: int)
    requires i < |attempts|
  {
    exists j | 0 <= j < |attempts| ::
      && j != i && attempts[j].status == AttemptPaid
      && (attempts[j].order == attempts[i].order || SameReference(attempts[j], attempts[i], refId))
  }

  predicate SameReference(paid: Attempt, a: Attempt, refId: int) {
    && paid.provider == a.provider && paid.environment == a.environment && paid.account == a.account
    && paid.refId == Some(refId)
  }

  function VerifiedStatus(o: Order, a: Attempt, conflicting: bool): AttemptStatus {
    if || a.status == AttemptExpired
       || (o.status != Pending && o.status != Processing && o.status != Shipped)
       || (o.payment != Unpaid && o.payment != PaymentFailed)
       || o.total != a.amount || a.amount < MINIMUM_AMOUNT || o.currency != a.currency || a.currency != "IRR"
       || conflicting
    then AttemptReconciliation
    else AttemptPaid
  }

  /** Attempt i once its verification is recorded with this status. */
  function WithVerdict(a: Attempt, status: AttemptStatus, refId: int, code: int): Attempt {
    a.(status := status, refId := Some(refId), code := Some(code),
       outcome := if status == AttemptPaid then VerifiedSuccess else ManualRequired)
  }

  /** Records a verified payment of attempt i: settles its order, or leaves it for reconciliation. */
  function RecordVerified(db: Db, i: nat, refId: int, code: int): (result: (Db, Reply))
    requires i < |db.attempts| && db.attempts[i].order < |db.orders|
    ensures OnlyPaymentsDiffer(db, result.0)
  {
    var a := db.attempts[i];
    var o := db.orders[a.order];
    var status := VerifiedStatus(o, a, ConflictingPayment(db.attempts, i, refId));
    if a.status !in {AttemptPending, AttemptFailed, AttemptExpired} || a.authority.None? then
      (db, Rejected(AlreadyProcessed))
    else
      var marked := db.(attempts := db.attempts[i := WithVerdict(a, status, refId, code)]);
      if status != AttemptPaid then (marked, Settlement(a.order, false, status))
      else if o.payment != Unpaid && o.payment != PaymentFailed then (db, Rejected(NotPayable))
      else
        (Enqueue(marked.(orders := db.orders[a.order := o.(payment := Paid, payMethod := ZarinPal)]),
                 OrderEvent(a.order, PaymentSucceeded)),
         Settlement(a.order, false, status))
  }

  function FinalizeVerified(db: Db, g: Gateway, authority: string, refId: int, code: int): (result: (Db, Reply))
    ensures OnlyPaymentsDiffer(db, result.0)
  {
    if refId <= 0 || (code != CODE_SUCCESS && code != CODE_ALREADY_VERIFIED) then (db, Rejected(InvalidVerification))
    else
      match FindAttempt(db.attempts, authority)
      case None => (db, Rejected(AttemptNotFound))
      case Some(i) =>
        var a := db.attempts[i];
        if a.order >= |db.orders| then (db, Rejected(OrderNotFound))
        else if !Matches(g, a) then (db, Rejected(ProviderMismatch))
        else if Verified(a.status) then (db, Settlement(a.order, true, a.status))
        else RecordVerified(db, i, refId, code)
  }

  function FinalizeFailed(db: Db, g: Gateway, authority: string, code: Option<int>): (result: (Db, Reply))
    ensures OnlyPaymentsDiffer(db, result.0)
  {
    match FindAttempt(db.attempts, authority)
    case None => (db, Rejected(AttemptNotFound))
    case Some(i) =>
      var a := db.attempts[i];
      if a.order >= |db.orders| then (db, Rejected(OrderNotFound))
      else if !Matches(g, a) then (db, Rejected(ProviderMismatch))
      else if Verified(a.status) then (db, Settlement(a.order, true, a.status))
      else
        var recorded := if code.Some? then code else a.code;
        var outcome := if code.Some? then DefinitiveRejection else UncertainOutcome;
        var marked := db.(attempts := db.attempts[i := a.(code := recorded, outcome := outcome)]);
        (if a.status == AttemptFailed then Enqueue(marked, OrderEvent(a.order, PaymentRejected)) else marked,
         Settlement(a.order, false, a.status))
  }

  function ExpireRejected(db: Db, g: Gateway, i: nat, cutoff: int): (result: (Db, Reply))
    ensures OnlyPaymentsDiffer(db, result.0)
  {
    if i >= |db.attempts| then (db, Rejected(AttemptNotFound))
    else
      var a := db.attempts[i];
      if a.order >= |db.orders| then (db, Rejected(OrderNotFound))
      else if || !Matches(g, a) || a.createdAt > cutoff
              || (a.status != AttemptPending && a.status != AttemptFailed)
              || a.code != Some(CODE_NOT_PAID)
              || db.orders[a.order].status != Pending || db.orders[a.order].payment == Paid
      then (db, Rejected(AlreadyProcessed))
      else (db.(attempts := db.attempts[i := a.(status := AttemptExpired)]), Done)
  }
}
