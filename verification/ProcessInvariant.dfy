/** What the provider's side of the story and the tables agree on, after every happening. */
module ProcessInvariant {
  import opened Basics
  import opened Statuses
  import opened Tables
  import opened Payments
  import opened Refunds
  import opened Shop
  import opened PaymentInvariant
  import opened ShopInvariant
  import opened Evolution
  import LedgerInvariant
  import opened ShopTheorems
  import opened Processes

  // ----- evidence in the log

  /** The provider issued authority x for attempt i and exactly this amount. */
  ghost predicate Issued(log: seq<Call>, i: nat, amount: int, x: string) {
    exists c :: c in log && c.RequestCall? && c.attempt == i && c.amount == amount && Issues(c.request)
                && c.request.authority == x
  }

  /** The provider confirmed a payment of this amount under authority x with this reference and code. */
  ghost predicate Confirmed(log: seq<Call>, x: string, amount: int, refId: int, code: int) {
    VerifyCall(x, amount, VerifyAnswered(code, refId)) in log && Confirms(VerifyAnswered(code, refId))
  }

  /** The provider said that authority x was never paid. */
  ghost predicate Denied(log: seq<Call>, x: string) {
    exists c :: c in log && c.VerifyCall? && c.authority == x && ReconcileCode(c.verify) == Some(CODE_NOT_PAID)
  }

  ghost predicate Evidence(log: seq<Call>, i: nat, a: Attempt) {
    && (a.authority.Some? ==> Issued(log, i, a.amount, a.authority.value))
    && (Verified(a.status) ==>
         && a.authority.Some? && a.refId.Some? && a.code.Some?
         && Confirmed(log, a.authority.value, a.amount, a.refId.value, a.code.value))
    && (a.status == AttemptExpired ==> a.authority.Some? && Denied(log, a.authority.value))
    && (a.authority.Some? && a.code == Some(CODE_NOT_PAID) ==> Denied(log, a.authority.value))
    && (a.authority.None? && a.status == AttemptPending ==> a.code.None?)
  }

  ghost predicate AllEvidence(log: seq<Call>, attempts: seq<Attempt>) {
    forall i | 0 <= i < |attempts| :: Evidence(log, i, attempts[i])
  }

  // ----- what calls and processes know

  /** Some attempt carries authority x and was created for this amount. */
  ghost predicate Bound(attempts: seq<Attempt>, x: string, amount: int) {
    exists i :: 0 <= i < |attempts| && attempts[i].authority == Some(x) && attempts[i].amount == amount
  }

  ghost predicate CameBack(db: Db, o: nat) {
    exists q :: 0 <= q < |db.returnRequests| && db.returnRequests[q].order == o
                && ReturnReaches(ReturnReceived, db.returnRequests[q].status)
  }

  /** Refund r is an online refund of order o, whose goods have come back. */
  ghost predicate Refundable(db: Db, r: nat, o: nat) {
    && r < |db.refunds| && db.refunds[r].order == o && db.refunds[r].payMethod == ZarinPal
    && o < |db.orders| && CameBack(db, o)
  }

  ghost predicate CallInv(db: Db, c: Call) {
    match c
    case RequestCall(i, amount, _) => i < |db.attempts| && db.attempts[i].amount == amount
    case VerifyCall(x, amount, _) => Bound(db.attempts, x, amount)
    case RefundCall(r, o, amount, _) => Refundable(db, r, o) && amount == db.orders[o].total
    case Redirect(i, x) => Stored(db.attempts, i, x)
  }

  /** Attempt i carries authority x. */
  ghost predicate Stored(attempts: seq<Attempt>, i: nat, x: string) {
    i < |attempts| && attempts[i].authority == Some(x)
  }

  ghost predicate HasAuthority(attempts: seq<Attempt>, i: nat) {
    i < |attempts| && attempts[i].authority.Some?
  }

  ghost predicate ProcessInv(db: Db, log: seq<Call>, p: Process) {
    match p
    case RequestReady(_, i, amount) => i < |db.attempts| && db.attempts[i].amount == amount
    case RequestReplied(_, i, r) => i < |db.attempts| && RequestCall(i, db.attempts[i].amount, r) in log
    case RequestStored(i, x) => Stored(db.attempts, i, x)
    case CallbackReady(_, x, amount) => Bound(db.attempts, x, amount)
    case CallbackReplied(_, x, amount, r) => Bound(db.attempts, x, amount) && VerifyCall(x, amount, r) in log
    case ReconcileStart(_, i, sweep) => sweep.Some? ==> HasAuthority(db.attempts, i)
    case ReconcileReady(_, i, x, amount, _) => HasAuthority(db.attempts, i) && Bound(db.attempts, x, amount)
    case ReconcileReplied(_, i, x, amount, r, _) =>
      HasAuthority(db.attempts, i) && Bound(db.attempts, x, amount) && VerifyCall(x, amount, r) in log
    case ReconcileRecheck(_, i, _) => HasAuthority(db.attempts, i)
    case ExpireReady(_, i, _) => HasAuthority(db.attempts, i)
    case ReturnSeen(o, _) => o < |db.orders| && CameBack(db, o)
    case RefundLoaded(r, o) => Refundable(db, r, o)
    case RefundClaimed(r, o) => Refundable(db, r, o)
    case RefundReady(r, o, amount) => Refundable(db, r, o) && amount == db.orders[o].total
    case _ => true
  }

  // ----- the claim on a refund

  /** The processes between claiming refund r and calling the provider, and the calls already made. */
  function HoldsClaim(r: nat): Process -> int {
    (p: Process) => if (p.RefundClaimed? || p.RefundReady?) && p.refund == r then 1 else 0
  }

  function IsCallFor(r: nat): Call -> int {
    (c: Call) => if c.RefundCall? && c.refund == r then 1 else 0
  }

  function Claims(processes: seq<Process>, log: seq<Call>, r: nat): int {
    Sum(processes, HoldsClaim(r)) + Sum(log, IsCallFor(r))
  }

  ghost predicate Unclaimed(refunds: seq<Refund>, r: nat) {
    r >= |refunds| || refunds[r].status == RefundPending
  }

  /** At most one claim per refund, and none while the refund is pending. */
  ghost predicate ClaimInv(refunds: seq<Refund>, processes: seq<Process>, log: seq<Call>, r: nat) {
    Claims(processes, log, r) <= if Unclaimed(refunds, r) then 0 else 1
  }

  ghost predicate SystemInv(sys: System) {
    Inv(sys.db) && Knowledge(sys)
  }

  ghost predicate Knowledge(sys: System) {
    && AllEvidence(sys.log, sys.db.attempts)
    && (forall c | c in sys.log :: CallInv(sys.db, c))
    && (forall k | 0 <= k < |sys.processes| :: ProcessInv(sys.db, sys.log, sys.processes[k]))
    && (forall r: nat :: ClaimInv(sys.db.refunds, sys.processes, sys.log, r))
  }

  // ----- knowledge does not go stale

  lemma CallInvPersists(db: Db, later: Db, c: Call)
    requires Evolves(db, later) && CallInv(db, c)
    ensures CallInv(later, c)
  {
    match c {
      case RequestCall(i, _, _) => assert AttemptEvolves(db.attempts[i], later.attempts[i]);
      case VerifyCall(x, amount, _) => BoundPersists(db, later, x, amount);
      case RefundCall(r, o, _, _) => RefundablePersists(db, later, r, o);
      case Redirect(i, _) => assert AttemptEvolves(db.attempts[i], later.attempts[i]);
    }
  }

  lemma BoundPersists(db: Db, later: Db, x: string, amount: int)
    requires Evolves(db, later) && Bound(db.attempts, x, amount)
    ensures Bound(later.attempts, x, amount)
  {
    var i :| 0 <= i < |db.attempts| && db.attempts[i].authority == Some(x) && db.attempts[i].amount == amount;
    assert AttemptEvolves(db.attempts[i], later.attempts[i]);
  }

  lemma CameBackPersists(db: Db, later: Db, o: nat)
    requires Evolves(db, later) && CameBack(db, o)
    ensures CameBack(later, o)
  {
    var q :| 0 <= q < |db.returnRequests| && db.returnRequests[q].order == o
             && ReturnReaches(ReturnReceived, db.returnRequests[q].status);
    assert ReturnEvolves(db.returnRequests[q], later.returnRequests[q]);
  }

  lemma RefundablePersists(db: Db, later: Db, r: nat, o: nat)
    requires Evolves(db, later) && Refundable(db, r, o)
    ensures Refundable(later, r, o) && later.orders[o].total == db.orders[o].total
  {
    assert RefundEvolves(db.refunds[r], later.refunds[r]);
    assert OrderEvolves(db.orders[o], later.orders[o]);
    CameBackPersists(db, later, o);
  }

  lemma HasAuthorityPersists(db: Db, later: Db, i: nat)
    requires Evolves(db, later) && HasAuthority(db.attempts, i)
    ensures HasAuthority(later.attempts, i)
  {
    assert AttemptEvolves(db.attempts[i], later.attempts[i]);
  }

  lemma ProcessInvPersists(db: Db, later: Db, log: seq<Call>, more: seq<Call>, p: Process)
    requires Evolves(db, later) && ProcessInv(db, log, p)
    ensures ProcessInv(later, log + more, p)
  {
    match p {
      case RequestReady(_, i, _) => assert AttemptEvolves(db.attempts[i], later.attempts[i]);
      case RequestReplied(_, i, _) => assert AttemptEvolves(db.attempts[i], later.attempts[i]);
      case RequestStored(i, _) => assert AttemptEvolves(db.attempts[i], later.attempts[i]);
      case CallbackReady(_, x, amount) => BoundPersists(db, later, x, amount);
      case CallbackReplied(_, x, amount, _) => BoundPersists(db, later, x, amount);
      case ReconcileStart(_, i, sweep) =>
        if sweep.Some? {
          HasAuthorityPersists(db, later, i);
        }
      case ReconcileReady(_, i, x, amount, _) =>
        BoundPersists(db, later, x, amount);
        HasAuthorityPersists(db, later, i);
      case ReconcileReplied(_, i, x, amount, _, _) =>
        BoundPersists(db, later, x, amount);
        HasAuthorityPersists(db, later, i);
      case ReconcileRecheck(_, i, _) => HasAuthorityPersists(db, later, i);
      case ExpireReady(_, i, _) => HasAuthorityPersists(db, later, i);
      case ReturnSeen(o, _) => CameBackPersists(db, later, o);
      case RefundLoaded(r, o) => RefundablePersists(db, later, r, o);
      case RefundClaimed(r, o) => RefundablePersists(db, later, r, o);
      case RefundReady(r, o, _) => RefundablePersists(db, later, r, o);
      case _ =>
    }
  }

  lemma EvidencePersists(log: seq<Call>, more: seq<Call>, i: nat, a: Attempt)
    requires Evidence(log, i, a)
    ensures Evidence(log + more, i, a)
  {
    if a.authority.Some? {
      var x := a.authority.value;
      var c :| c in log && c.RequestCall? && c.attempt == i && c.amount == a.amount && Issues(c.request)
               && c.request.authority == x;
      assert c in log + more;
      if Denied(log, x) {
        var d :| d in log && d.VerifyCall? && d.authority == x && ReconcileCode(d.verify) == Some(CODE_NOT_PAID);
        assert d in log + more;
      }
    }
  }

  // ----- evidence for what the transactions write

  lemma OneAttemptKeepsEvidence(log: seq<Call>, attempts: seq<Attempt>, i: nat, a: Attempt)
    requires AllEvidence(log, attempts) && i < |attempts| && Evidence(log, i, a)
    ensures AllEvidence(log, attempts[i := a])
  {
  }

  lemma CreateAttemptEvidence(db: Db, log: seq<Call>, g: Gateway, user: nat, o: nat, now: int)
    requires AllEvidence(log, db.attempts)
    ensures AllEvidence(log, CreateAttempt(db, g, user, o, now).0.attempts)
  {
  }

  lemma SetAuthorityEvidence(db: Db, log: seq<Call>, g: Gateway, i: nat, r: RequestResult)
    requires AllEvidence(log, db.attempts) && i < |db.attempts|
    requires Issues(r) && RequestCall(i, db.attempts[i].amount, r) in log
    ensures AllEvidence(log, SetAuthority(db, g, i, r.authority).0.attempts)
  {
    var (after, reply) := SetAuthority(db, g, i, r.authority);
    if reply.Done? {
      assert Evidence(log, i, db.attempts[i]);
      var c := RequestCall(i, db.attempts[i].amount, r);
      assert c in log && Issues(c.request) && c.request.authority == r.authority;
      assert Issued(log, i, db.attempts[i].amount, r.authority);
      OneAttemptKeepsEvidence(log, db.attempts, i, after.attempts[i]);
    }
  }

  lemma MarkFailedEvidence(db: Db, log: seq<Call>, g: Gateway, i: nat, code: Option<int>)
    requires AllEvidence(log, db.attempts)
    ensures AllEvidence(log, MarkAttemptFailed(db, g, i, code).0.attempts)
  {
    var (after, reply) := MarkAttemptFailed(db, g, i, code);
    if reply.Done? {
      OneAttemptKeepsEvidence(log, db.attempts, i, after.attempts[i]);
    }
  }

  lemma BoundAmountIsUnique(db: Db, x: string, amount: int, i: nat)
    requires PaymentInv(db.orders, db.attempts) && Bound(db.attempts, x, amount)
    requires i < |db.attempts| && db.attempts[i].authority == Some(x)
    ensures db.attempts[i].amount == amount
  {
    var j :| 0 <= j < |db.attempts| && db.attempts[j].authority == Some(x) && db.attempts[j].amount == amount;
    var a, b := db.attempts[i], db.attempts[j];
    assert i != j ==> Compatible(a, b);
  }

  lemma RecordVerifiedEvidence(db: Db, log: seq<Call>, i: nat, refId: int, code: int)
    requires AllEvidence(log, db.attempts) && i < |db.attempts| && db.attempts[i].order < |db.orders|
    requires db.attempts[i].authority.Some?
    requires Confirmed(log, db.attempts[i].authority.value, db.attempts[i].amount, refId, code)
    ensures AllEvidence(log, RecordVerified(db, i, refId, code).0.attempts)
  {
    var (after, reply) := RecordVerified(db, i, refId, code);
    if reply.Settlement? {
      assert Evidence(log, i, db.attempts[i]);
      OneAttemptKeepsEvidence(log, db.attempts, i, WithVerdict(db.attempts[i], reply.finalStatus, refId, code));
    }
  }

  lemma FinalizeVerifiedEvidence(db: Db, log: seq<Call>, g: Gateway, x: string, amount: int, r: VerifyResult)
    requires PaymentInv(db.orders, db.attempts) && AllEvidence(log, db.attempts)
    requires Bound(db.attempts, x, amount) && VerifyCall(x, amount, r) in log && Confirms(r)
    ensures AllEvidence(log, FinalizeVerified(db, g, x, r.refId, r.code).0.attempts)
  {
    var found := FindAttempt(db.attempts, x);
    if found.Some? && db.attempts[found.value].order < |db.orders| {
      BoundAmountIsUnique(db, x, amount, found.value);
      RecordVerifiedEvidence(db, log, found.value, r.refId, r.code);
    }
  }

  lemma FinalizeFailedEvidence(db: Db, log: seq<Call>, g: Gateway, x: string, code: Option<int>)
    requires PaymentInv(db.orders, db.attempts) && AllEvidence(log, db.attempts)
    requires code == Some(CODE_NOT_PAID) ==> Denied(log, x)
    ensures AllEvidence(log, FinalizeFailed(db, g, x, code).0.attempts)
  {
    FinalizeFailedIsSilent(db, g, x, code);
    var (after, reply) := FinalizeFailed(db, g, x, code);
    if reply.Settlement? && !reply.already {
      var i := FindAttempt(db.attempts, x).value;
      assert Evidence(log, i, db.attempts[i]);
      OneAttemptKeepsEvidence(log, db.attempts, i, after.attempts[i]);
    }
  }

  lemma ExpireRejectedEvidence(db: Db, log: seq<Call>, g: Gateway, i: nat, cutoff: int)
    requires AllEvidence(log, db.attempts) && HasAuthority(db.attempts, i)
    ensures AllEvidence(log, ExpireRejected(db, g, i, cutoff).0.attempts)
  {
    var (after, reply) := ExpireRejected(db, g, i, cutoff);
    if reply.Done? {
      assert Evidence(log, i, db.attempts[i]);
      OneAttemptKeepsEvidence(log, db.attempts, i, after.attempts[i]);
    }
  }

  // ----- one advance of one process

  lemma TransactionEvidence(db: Db, log: seq<Call>, p: Process)
    requires PaymentInv(db.orders, db.attempts) && AllEvidence(log, db.attempts) && ProcessInv(db, log, p)
    ensures AllEvidence(log, Commit(db, Transaction(p)).0.attempts)
  {
    if p.RequestStart? || p.RequestReplied? || p.SweepMark? {
      RequestEvidence(db, log, p);
    } else if p.CallbackReplied? || p.ReconcileReplied? {
      VerdictEvidence(db, log, p);
    } else if p.ExpireReady? {
      ExpireEvidence(db, log, p);
    } else if Transaction(p).Some? {
      OtherStepsLeaveAttempts(db, Transaction(p).value);
    }
  }

  lemma VerdictEvidence(db: Db, log: seq<Call>, p: Process)
    requires PaymentInv(db.orders, db.attempts) && AllEvidence(log, db.attempts) && ProcessInv(db, log, p)
    requires p.CallbackReplied? || p.ReconcileReplied?
    ensures AllEvidence(log, Commit(db, Transaction(p)).0.attempts)
  {
    var code := if p.CallbackReplied? then CallbackCode(p.verify) else ReconcileCode(p.verify);
    assert Transaction(p) == Some(Recording(p.gateway, p.authority, p.verify, code));
    RecordingEvidence(db, log, p.gateway, p.authority, p.amount, p.verify, code);
  }

  lemma RecordingResult(db: Db, g: Gateway, x: string, r: VerifyResult, code: Option<int>)
    ensures Next(db, Recording(g, x, r, code))
            == if Confirms(r) then FinalizeVerified(db, g, x, r.refId, r.code).0 else FinalizeFailed(db, g, x, code).0
  {
  }

  lemma RecordingEvidence(db: Db, log: seq<Call>, g: Gateway, x: string, amount: int, r: VerifyResult, code: Option<int>)
    requires PaymentInv(db.orders, db.attempts) && AllEvidence(log, db.attempts)
    requires Bound(db.attempts, x, amount) && VerifyCall(x, amount, r) in log
    requires code == CallbackCode(r) || code == ReconcileCode(r)
    ensures AllEvidence(log, Next(db, Recording(g, x, r, code)).attempts)
  {
    VerifyEvidence(db, log, g, x, amount, r, code);
    RecordingResult(db, g, x, r, code);
  }

  lemma ExpireEvidence(db: Db, log: seq<Call>, p: Process)
    requires AllEvidence(log, db.attempts) && ProcessInv(db, log, p) && p.ExpireReady?
    ensures AllEvidence(log, Commit(db, Transaction(p)).0.attempts)
  {
    ExpireRejectedEvidence(db, log, p.gateway, p.attempt, p.pending.cutoff);
  }

  lemma RequestEvidence(db: Db, log: seq<Call>, p: Process)
    requires AllEvidence(log, db.attempts) && ProcessInv(db, log, p)
    requires p.RequestStart? || p.RequestReplied? || p.SweepMark?
    ensures AllEvidence(log, Commit(db, Transaction(p)).0.attempts)
  {
    match p {
      case RequestStart(g, user, o, now) =>
        CreateAttemptEvidence(db, log, g, user, o, now);
        assert Commit(db, Transaction(p)) == CreateAttempt(db, g, user, o, now);
      case RequestReplied(g, i, r) => RepliedEvidence(db, log, g, i, r);
      case SweepMark(g, i, _) =>
        MarkFailedEvidence(db, log, g, i, None);
        assert Commit(db, Transaction(p)) == MarkAttemptFailed(db, g, i, None);
    }
  }

  lemma RepliedEvidence(db: Db, log: seq<Call>, g: Gateway, i: nat, r: RequestResult)
    requires AllEvidence(log, db.attempts) && ProcessInv(db, log, RequestReplied(g, i, r))
    ensures AllEvidence(log, Commit(db, Transaction(RequestReplied(g, i, r))).0.attempts)
  {
    if Issues(r) {
      SetAuthorityEvidence(db, log, g, i, r);
      assert Commit(db, Transaction(RequestReplied(g, i, r))) == SetAuthority(db, g, i, r.authority);
    } else {
      var code := if r.RequestFailed? then r.rejection else None;
      MarkFailedEvidence(db, log, g, i, code);
      assert Commit(db, Transaction(RequestReplied(g, i, r))) == MarkAttemptFailed(db, g, i, code);
    }
  }

  /** What the callback and reconciliation do with the provider's verdict. */
  lemma VerifyEvidence(db: Db, log: seq<Call>, g: Gateway, x: string, amount: int, r: VerifyResult, code: Option<int>)
    requires PaymentInv(db.orders, db.attempts) && AllEvidence(log, db.attempts)
    requires Bound(db.attempts, x, amount) && VerifyCall(x, amount, r) in log
    requires code == CallbackCode(r) || code == ReconcileCode(r)
    ensures Confirms(r) ==> AllEvidence(log, FinalizeVerified(db, g, x, r.refId, r.code).0.attempts)
    ensures AllEvidence(log, FinalizeFailed(db, g, x, code).0.attempts)
  {
    if Confirms(r) {
      FinalizeVerifiedEvidence(db, log, g, x, amount, r);
    }
    var c := VerifyCall(x, amount, r);
    assert c in log && c.authority == x;
    FinalizeFailedEvidence(db, log, g, x, code);
  }

  /** If the process has just stored an authority, the attempt carries it. */
  ghost predicate StoredIfDone(db: Db, p: Process, reply: Reply) {
    p.RequestReplied? && Issues(p.request) && reply.Done? ==> Stored(db.attempts, p.attempt, p.request.authority)
  }

  lemma StoringStores(db: Db, p: Process)
    ensures var (later, reply) := Commit(db, Transaction(p));
            StoredIfDone(later, p, reply)
  {
    if p.RequestReplied? && Issues(p.request) {
      assert Commit(db, Transaction(p)) == SetAuthority(db, p.gateway, p.attempt, p.request.authority);
    }
  }

  lemma AfterInv(db: Db, later: Db, log: seq<Call>, p: Process, reply: Reply, answer: Answer)
    requires Evolves(db, later) && ProcessInv(db, log, p)
    requires ReturnRowsKnowTheirOrders(later) && StoredIfDone(later, p, reply)
    ensures ProcessInv(later, log + Calls(p, answer), After(later, p, reply, answer))
  {
    ProcessInvPersists(db, later, log, Calls(p, answer), p);
    AfterKnows(later, log, p, reply, answer);
  }

  /** What a process knows next, given that what it knew is still true. */
  lemma AfterKnows(db: Db, log: seq<Call>, p: Process, reply: Reply, answer: Answer)
    requires ProcessInv(db, log + Calls(p, answer), p) && ReturnRowsKnowTheirOrders(db) && StoredIfDone(db, p, reply)
    ensures ProcessInv(db, log + Calls(p, answer), After(db, p, reply, answer))
  {
    match p {
      case CallbackStart(g, x, _) =>
        var found := FindAttempt(db.attempts, x);
        if found.Some? {
          assert Bound(db.attempts, x, db.attempts[found.value].amount);
        }
      case ReconcileStart(g, i, sweep) =>
        if i < |db.attempts| && db.attempts[i].authority.Some? {
          assert Bound(db.attempts, db.attempts[i].authority.value, db.attempts[i].amount);
        }
      case RefundStart(q, _) =>
        if q < |db.returnRequests| && db.returnRequests[q].status in {ReturnReceived, ReturnRefundPending} {
          assert CameBack(db, db.returnRequests[q].order);
        }
      case _ =>
    }
  }

  predicate ReturnRowsKnowTheirOrders(db: Db) {
    forall q | 0 <= q < |db.returnRequests| :: db.returnRequests[q].order < |db.orders|
  }

  lemma NewCallsInv(db: Db, log: seq<Call>, p: Process, answer: Answer)
    requires ProcessInv(db, log, p)
    ensures forall c | c in Calls(p, answer) :: CallInv(db, c)
  {
  }

  // ----- claims

  /** A move that takes no new claim. */
  lemma ClaimsKeep(refunds: seq<Refund>, later: seq<Refund>, processes: seq<Process>, k: nat, next: Process,
                   log: seq<Call>, more: seq<Call>, r: nat)
    requires RefundsEvolve(refunds, later) && k < |processes|
    requires ClaimInv(refunds, processes, log, r)
    requires HoldsClaim(r)(next) + Sum(more, IsCallFor(r)) <= HoldsClaim(r)(processes[k])
    ensures ClaimInv(later, processes[k := next], log + more, r)
  {
    SumUpdate(processes, k, next, HoldsClaim(r));
    SumConcat(log, more, IsCallFor(r));
    if Unclaimed(later, r) {
      UnclaimedBefore(refunds, later, r);
    }
  }

  lemma UnclaimedBefore(refunds: seq<Refund>, later: seq<Refund>, r: nat)
    requires RefundsEvolve(refunds, later) && Unclaimed(later, r)
    ensures Unclaimed(refunds, r)
  {
    if r < |refunds| {
      assert RefundEvolves(refunds[r], later[r]);
    }
  }

  /** Only the process whose update takes the refund out of pending gets the claim. */
  lemma ClaimTaken(refunds: seq<Refund>, later: seq<Refund>, processes: seq<Process>, k: nat, next: Process,
                   log: seq<Call>, r: nat)
    requires k < |processes| && r < |refunds| && r < |later|
    requires refunds[r].status == RefundPending && later[r].status != RefundPending
    requires ClaimInv(refunds, processes, log, r) && HoldsClaim(r)(processes[k]) == 0
    ensures ClaimInv(later, processes[k := next], log, r)
  {
    SumUpdate(processes, k, next, HoldsClaim(r));
  }

  /** Where the claim on refund r goes when a process moves. */
  lemma MovesOfTheClaim(db: Db, p: Process, reply: Reply, answer: Answer, r: nat)
    ensures HoldsClaim(r)(After(db, p, reply, answer)) + Sum(Calls(p, answer), IsCallFor(r))
            <= HoldsClaim(r)(p) + if p.RefundLoaded? && p.refund == r && reply.Done? then 1 else 0
  {
    assert Sum(Calls(p, answer), IsCallFor(r)) == if p.RefundReady? && p.refund == r then 1 else 0;
  }

  lemma ClaimingUpdatesTheRefund(db: Db, r: nat)
    requires UpdateRefundStatus(db, r, RefundProcessing).1.Done?
    ensures r < |db.refunds| && db.refunds[r].status == RefundPending
    ensures UpdateRefundStatus(db, r, RefundProcessing).0.refunds == db.refunds[r := db.refunds[r].(status := RefundProcessing)]
  {
  }

  lemma AdvanceKeepsClaims(sys: System, k: nat, answer: Answer, r: nat)
    requires k < |sys.processes| && ClaimInv(sys.db.refunds, sys.processes, sys.log, r)
    requires Evolves(sys.db, Commit(sys.db, Transaction(sys.processes[k])).0)
    ensures var after := Happen(sys, Advances(k, answer));
            ClaimInv(after.db.refunds, after.processes, after.log, r)
  {
    var p := sys.processes[k];
    var (later, reply) := Commit(sys.db, Transaction(p));
    var next := After(later, p, reply, answer);
    MovesOfTheClaim(later, p, reply, answer, r);
    if p.RefundLoaded? && p.refund == r && reply.Done? {
      assert (later, reply) == UpdateRefundStatus(sys.db, r, RefundProcessing);
      ClaimingUpdatesTheRefund(sys.db, r);
      assert sys.log + Calls(p, answer) == sys.log;
      ClaimTaken(sys.db.refunds, later.refunds, sys.processes, k, next, sys.log, r);
    } else {
      ClaimsKeep(sys.db.refunds, later.refunds, sys.processes, k, next, sys.log, Calls(p, answer), r);
    }
  }

  // ----- every happening

  lemma CommitKeepsInv(db: Db, t: Option<Step>)
    requires Inv(db)
    ensures var later := Commit(db, t).0;
            Inv(later) && Evolves(db, later) && ReturnRowsKnowTheirOrders(later)
  {
    if t.None? {
      EvolvesReflexive(db);
    } else {
      StepKeepsInv(db, t.value);
      StepEvolves(db, t.value);
    }
    ReturnsKnowTheirOrders(Commit(db, t).0);
  }

  lemma ReturnsKnowTheirOrders(db: Db)
    requires Inv(db)
    ensures ReturnRowsKnowTheirOrders(db)
  {
    forall q | 0 <= q < |db.returnRequests| ensures db.returnRequests[q].order < |db.orders| {
      assert LedgerInvariant.ReturnRowInv(db.orders, db.refunds, db.returnRequests[q]);
    }
  }

  /** Processes, calls and evidence survive any evolution of the tables and any growth of the log. */
  lemma KnowledgePersists(sys: System, later: Db, more: seq<Call>)
    requires Knowledge(sys) && Evolves(sys.db, later)
    requires forall c | c in more :: CallInv(later, c)
    ensures forall c | c in sys.log + more :: CallInv(later, c)
    ensures forall k | 0 <= k < |sys.processes| :: ProcessInv(later, sys.log + more, sys.processes[k])
  {
    forall c | c in sys.log ensures CallInv(later, c) {
      CallInvPersists(sys.db, later, c);
    }
    forall k | 0 <= k < |sys.processes| ensures ProcessInv(later, sys.log + more, sys.processes[k]) {
      ProcessInvPersists(sys.db, later, sys.log, more, sys.processes[k]);
    }
  }

  lemma AdvanceKeepsInv(sys: System, k: nat, answer: Answer)
    requires SystemInv(sys) && k < |sys.processes|
    ensures SystemInv(Happen(sys, Advances(k, answer)))
  {
    var p := sys.processes[k];
    var (later, reply) := Commit(sys.db, Transaction(p));
    var more := Calls(p, answer);
    CommitKeepsInv(sys.db, Transaction(p));
    TransactionEvidence(sys.db, sys.log, p);
    forall i | 0 <= i < |later.attempts| ensures Evidence(sys.log + more, i, later.attempts[i]) {
      EvidencePersists(sys.log, more, i, later.attempts[i]);
    }
    ProcessInvPersists(sys.db, later, sys.log, [], p);
    assert sys.log + [] == sys.log;
    NewCallsInv(later, sys.log, p, answer);
    KnowledgePersists(sys, later, more);
    StoringStores(sys.db, p);
    AfterInv(sys.db, later, sys.log, p, reply, answer);
    var processes, log := sys.processes[k := After(later, p, reply, answer)], sys.log + more;
    forall r: nat ensures ClaimInv(later.refunds, processes, log, r) {
      AdvanceKeepsClaims(sys, k, answer, r);
    }
  }

  /** A process that gives up knows and claims nothing new. */
  lemma RetreatKeepsKnowledge(sys: System, k: nat, next: Process)
    requires Knowledge(sys) && k < |sys.processes| && Evolves(sys.db, sys.db)
    requires next == OnFailure(sys.processes[k]) || next == Finished
    ensures Knowledge(sys.(processes := sys.processes[k := next]))
  {
    var processes := sys.processes[k := next];
    assert sys.log + [] == sys.log;
    forall r: nat ensures ClaimInv(sys.db.refunds, processes, sys.log, r) {
      ClaimsKeep(sys.db.refunds, sys.db.refunds, sys.processes, k, next, sys.log, [], r);
    }
  }

  lemma ArrivalKeepsKnowledge(sys: System, p: Process)
    requires Knowledge(sys) && IsStart(p)
    ensures Knowledge(sys.(processes := sys.processes + [p]))
  {
    var processes := sys.processes + [p];
    forall k | 0 <= k < |processes| ensures ProcessInv(sys.db, sys.log, processes[k]) {
      assert k < |sys.processes| ==> processes[k] == sys.processes[k];
    }
    forall r: nat ensures ClaimInv(sys.db.refunds, processes, sys.log, r) {
      assert ClaimInv(sys.db.refunds, sys.processes, sys.log, r);
      SumAppend(sys.processes, p, HoldsClaim(r));
    }
  }

  lemma TrafficKeepsKnowledge(sys: System, later: Db)
    requires Knowledge(sys) && Evolves(sys.db, later) && later.attempts == sys.db.attempts
    ensures Knowledge(sys.(db := later))
  {
    KnowledgePersists(sys, later, []);
    assert sys.log + [] == sys.log;
    forall r: nat ensures ClaimInv(later.refunds, sys.processes, sys.log, r) {
      assert ClaimInv(sys.db.refunds, sys.processes, sys.log, r);
      if Unclaimed(later.refunds, r) {
        UnclaimedBefore(sys.db.refunds, later.refunds, r);
      }
    }
  }

  lemma TrafficKeepsInv(sys: System, s: Step)
    requires SystemInv(sys) && !IsAttemptStep(s)
    ensures SystemInv(sys.(db := Next(sys.db, s)))
  {
    StepKeepsInv(sys.db, s);
    StepEvolves(sys.db, s);
    OtherStepsLeaveAttempts(sys.db, s);
    TrafficKeepsKnowledge(sys, Next(sys.db, s));
  }

  lemma HappeningKeepsInv(sys: System, h: Happening)
    requires SystemInv(sys) && Allowed(sys, h)
    ensures SystemInv(Happen(sys, h))
  {
    match h {
      case Arrives(p) => ArrivalKeepsKnowledge(sys, p);
      case Advances(k, answer) => AdvanceKeepsInv(sys, k, answer);
      case Fails(k) =>
        EvolvesReflexive(sys.db);
        RetreatKeepsKnowledge(sys, k, OnFailure(sys.processes[k]));
      case Crashes(k) =>
        EvolvesReflexive(sys.db);
        RetreatKeepsKnowledge(sys, k, Finished);
      case Commits(s) => TrafficKeepsInv(sys, s);
    }
  }

  lemma {:induction false} ReachedSystemsKeepInv(sys: System, notify: bool, happenings: seq<Happening>)
    requires ReachedBy(sys, notify, happenings)
    ensures SystemInv(sys) && Reachable(sys.db)
    decreases |happenings|
  {
    if happenings == [] {
      InitialInv(notify);
      assert Run(EmptyDb(notify), []) == EmptyDb(notify);
    } else {
      var init, last := happenings[..|happenings| - 1], happenings[|happenings| - 1];
      var before :| ReachedBy(before, notify, init) && Allowed(before, last) && sys == Happen(before, last);
      ReachedSystemsKeepInv(before, notify, init);
      HappeningKeepsInv(before, last);
      HappeningIsAtMostOneStep(before, last);
    }
  }

  lemma ReachableStep(db: Db, s: Step)
    requires Reachable(db)
    ensures Reachable(Next(db, s))
  {
    var notify: bool, steps: seq<Step> :| db == Run(EmptyDb(notify), steps);
    assert (steps + [s])[..|steps|] == steps;
    assert Next(db, s) == Run(EmptyDb(notify), steps + [s]);
  }

  /** The processes only ever change the tables by the shop's transactions. */
  lemma HappeningIsAtMostOneStep(sys: System, h: Happening)
    requires Reachable(sys.db) && Allowed(sys, h)
    ensures Reachable(Happen(sys, h).db)
  {
    match h {
      case Advances(k, answer) =>
        var t := Transaction(sys.processes[k]);
        if t.Some? {
          ReachableStep(sys.db, t.value);
        }
      case Commits(s) => ReachableStep(sys.db, s);
      case _ =>
    }
  }
}
