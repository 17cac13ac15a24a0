/**
 * The handlers that talk to a provider between transactions, as processes. Every event is one
 * committed transaction, one read or one provider call; processes interleave freely, read data that
 * goes stale, fail and crash anywhere, and all other traffic of the shop runs in between.
 */
module Processes {
  import opened Basics
  import opened Statuses
  import opened Tables
  import opened Payments
  import opened Refunds
  import opened Shop

  // ----- the provider

  datatype RequestResult = RequestFailed(rejection: Option<int>) | RequestAnswered(code: int, authority: string, redirect: string)

  datatype VerifyResult = VerifyFailed(rejection: Option<int>) | VerifyAnswered(code: int, refId: int)

  datatype RefundResult = RefundErrored | RefundAnswered(success: bool, errorMessage: string)

  /** A call that reached the provider, with its result; or an answer that sent a customer there. */
  datatype Call =
    | RequestCall(attempt: nat, amount: int, request: RequestResult)
    | VerifyCall(authority: string, amount: int, verify: VerifyResult)
    | RefundCall(refund: nat, order: nat, amount: int, refundResult: RefundResult)
    | Redirect(attempt: nat, authority: string)

  predicate Confirms(r: VerifyResult) {
    r.VerifyAnswered? && r.code in {CODE_SUCCESS, CODE_ALREADY_VERIFIED} && r.refId > 0
  }

  predicate Issues(r: RequestResult) {
    && r.RequestAnswered? && r.code == CODE_SUCCESS
    && |r.authority| <= 64 && ValidAuthority(r.authority) && r.redirect != ""
  }

  /** The rejection code the callback records; reconciliation also looks inside the error. */
  function CallbackCode(r: VerifyResult): Option<int> {
    if r.VerifyAnswered? && r.code < 0 then Some(r.code) else None
  }

  function ReconcileCode(r: VerifyResult): Option<int> {
    if r.VerifyAnswered? then CallbackCode(r)
    else if r.rejection.Some? && r.rejection.value < 0 then r.rejection else None
  }

  // ----- processes

  /** The rest of a sweep over abandoned attempts. */
  datatype Sweep = Sweep(cutoff: int, rest: seq<nat>)

  datatype Process =
    | RequestStart(gateway: Gateway, user: nat, order: nat, now: int)
    | RequestReady(gateway: Gateway, attempt: nat, amount: int)
    | RequestReplied(gateway: Gateway, attempt: nat, request: RequestResult)
    | RequestStored(attempt: nat, authority: string)
    | CallbackStart(gateway: Gateway, authority: string, statusOk: bool)
    | CallbackReady(gateway: Gateway, authority: string, amount: int)
    | CallbackReplied(gateway: Gateway, authority: string, amount: int, verify: VerifyResult)
    | ReconcileStart(gateway: Gateway, attempt: nat, sweep: Option<Sweep>)
    | ReconcileReady(gateway: Gateway, attempt: nat, authority: string, amount: int, sweep: Option<Sweep>)
    | ReconcileReplied(gateway: Gateway, attempt: nat, authority: string, amount: int, verify: VerifyResult,
                       sweep: Option<Sweep>)
    | ReconcileRecheck(gateway: Gateway, attempt: nat, sweep: Option<Sweep>)
    | ExpireReady(gateway: Gateway, attempt: nat, pending: Sweep)
    | SweepStart(gateway: Gateway, cutoff: int)
    | SweepNext(gateway: Gateway, pending: Sweep)
    | SweepMark(gateway: Gateway, attempt: nat, pending: Sweep)
    | RefundStart(returnId: nat, manual: bool)
    | ReturnSeen(order: nat, manual: bool)
    | RefundLoaded(refund: nat, order: nat)
    | RefundClaimed(refund: nat, order: nat)
    | RefundReady(refund: nat, order: nat, amount: int)
    | RefundReplied(refund: nat, refundResult: RefundResult)
    | ManualLoaded(refund: nat, status: RefundStatus)
    | ManualClaimed(refund: nat)
    | Finished

  predicate IsStart(p: Process) {
    p.RequestStart? || p.CallbackStart? || (p.ReconcileStart? && p.sweep.None?) || p.SweepStart? || p.RefundStart?
  }

  /** What the world contributes to a step: a provider's result, or the rows a query returns first. */
  datatype Answer = NoAnswer | Requested(request: RequestResult) | Verifies(verify: VerifyResult)
                  | RefundOutcome(refundResult: RefundResult) | Rows(ids: seq<nat>)

  function RequestOf(a: Answer): RequestResult {
    if a.Requested? then a.request else RequestFailed(None)
  }

  function VerifyOf(a: Answer): VerifyResult {
    if a.Verifies? then a.verify else VerifyFailed(None)
  }

  function RefundOf(a: Answer): RefundResult {
    if a.RefundOutcome? then a.refundResult else RefundErrored
  }

  // ----- what a process reads

  /** Whether reconciliation may ask the provider about an attempt. */
  predicate Retryable(g: Gateway, a: Attempt) {
    && !Verified(a.status) && Matches(g, a) && a.authority.Some?
    && a.currency == "IRR" && a.amount >= MINIMUM_AMOUNT
    && |a.authority.value| <= 64 && ValidAuthority(a.authority.value)
  }

  const SWEEP_BATCH := 20

  predicate Abandoned(attempts: seq<Attempt>, g: Gateway, cutoff: int, i: nat) {
    && i < |attempts|
    && (attempts[i].status == AttemptPending || (attempts[i].status == AttemptFailed && attempts[i].authority.Some?))
    && attempts[i].createdAt < cutoff
    && attempts[i].environment == g.environment && attempts[i].account == g.identity
  }

  /** The sweep's query, over rows in whatever order they were last updated. */
  function AbandonedRows(attempts: seq<Attempt>, g: Gateway, cutoff: int, ids: seq<nat>, limit: nat): seq<nat> {
    if ids == [] || limit == 0 then []
    else if Abandoned(attempts, g, cutoff, ids[0]) then
      [ids[0]] + AbandonedRows(attempts, g, cutoff, ids[1..], limit - 1)
    else AbandonedRows(attempts, g, cutoff, ids[1..], limit)
  }

  function FindRefund(refunds: seq<Refund>, o: nat): (r: Option<nat>)
    ensures r.Some? ==> r.value < |refunds| && refunds[r.value].order == o
    ensures r.None? ==> !HasRefund(refunds, o)
  {
    if refunds == [] then None
    else if refunds[|refunds| - 1].order == o then Some(|refunds| - 1)
    else FindRefund(refunds[..|refunds| - 1], o)
  }

  function Continue(g: Gateway, sweep: Option<Sweep>): Process {
    match sweep
    case None => Finished
    case Some(s) => SweepNext(g, s)
  }

  /** What the caller of a reconciliation does with the row it gets back. */
  function Checked(attempts: seq<Attempt>, g: Gateway, i: nat, sweep: Option<Sweep>): Process {
    if && sweep.Some? && i < |attempts|
       && (attempts[i].status == AttemptPending || attempts[i].status == AttemptFailed)
       && attempts[i].outcome == DefinitiveRejection && attempts[i].code == Some(CODE_NOT_PAID)
    then ExpireReady(g, i, sweep.value)
    else Continue(g, sweep)
  }

  // ----- one step of a process

  /** The transaction that records a verdict of the provider. */
  function Recording(g: Gateway, x: string, r: VerifyResult, code: Option<int>): Step {
    if Confirms(r) then DoFinalizeVerified(g, x, r.refId, r.code) else DoFinalizeFailed(g, x, code)
  }

  /** The transaction a process commits next. */
  function Transaction(p: Process): Option<Step> {
    match p
    case RequestStart(g, user, o, now) => Some(DoCreateAttempt(g, user, o, now))
    case RequestReplied(g, i, r) =>
      Some(if Issues(r) then DoSetAuthority(g, i, r.authority)
           else DoMarkFailed(g, i, if r.RequestFailed? then r.rejection else None))
    case CallbackReplied(g, authority, _, r) => Some(Recording(g, authority, r, CallbackCode(r)))
    case ReconcileReplied(g, _, authority, _, r, _) => Some(Recording(g, authority, r, ReconcileCode(r)))
    case ExpireReady(g, i, s) => Some(DoExpireRejected(g, i, s.cutoff))
    case SweepMark(g, i, _) => Some(DoMarkFailed(g, i, None))
    case RefundLoaded(r, _) => Some(DoUpdateRefund(r, RefundProcessing))
    case RefundReplied(r, result) =>
      Some(DoUpdateRefund(r, if result.RefundAnswered? && result.success then RefundSucceeded else RefundManualReview))
    case ManualLoaded(r, status) => if status == RefundPending then Some(DoUpdateRefund(r, RefundProcessing)) else None
    case ManualClaimed(r) => Some(DoUpdateRefund(r, RefundSucceeded))
    case _ => None
  }

  /** The provider call a process makes next, or the redirect it answers with. */
  function Calls(p: Process, answer: Answer): seq<Call> {
    match p
    case RequestReady(_, i, amount) => [RequestCall(i, amount, RequestOf(answer))]
    case RequestStored(i, authority) => [Redirect(i, authority)]
    case CallbackReady(_, authority, amount) => [VerifyCall(authority, amount, VerifyOf(answer))]
    case ReconcileReady(_, _, authority, amount, _) => [VerifyCall(authority, amount, VerifyOf(answer))]
    case RefundReady(r, o, amount) => [RefundCall(r, o, amount, RefundOf(answer))]
    case _ => []
  }

  /** Where a process goes from p, given the tables after its transaction, if it made one. */
  function After(db: Db, p: Process, reply: Reply, answer: Answer): Process {
    match p
    case RequestStart(g, _, _, _) =>
      if reply.NewRow? && reply.id < |db.attempts| then RequestReady(g, reply.id, db.attempts[reply.id].amount)
      else Finished
    case RequestReady(g, i, _) => RequestReplied(g, i, RequestOf(answer))
    case RequestReplied(_, i, r) => if Issues(r) && reply.Done? then RequestStored(i, r.authority) else Finished
    case CallbackStart(g, authority, statusOk) =>
      (match FindAttempt(db.attempts, authority)
       case None => Finished
       case Some(i) =>
         var a := db.attempts[i];
         if Verified(a.status) || !Matches(g, a) || a.currency != "IRR" || !statusOk then Finished
         else CallbackReady(g, authority, a.amount))
    case CallbackReady(g, authority, amount) => CallbackReplied(g, authority, amount, VerifyOf(answer))
    case ReconcileStart(g, i, sweep) =>
      if i >= |db.attempts| then Continue(g, sweep)
      else
        var a := db.attempts[i];
        if Retryable(g, a) then ReconcileReady(g, i, a.authority.value, a.amount, sweep)
        else Checked(db.attempts, g, i, sweep)
    case ReconcileReady(g, i, authority, amount, sweep) =>
      ReconcileReplied(g, i, authority, amount, VerifyOf(answer), sweep)
    case ReconcileReplied(g, i, _, _, _, sweep) =>
      if reply.Rejected? then Continue(g, sweep) else ReconcileRecheck(g, i, sweep)
    case ReconcileRecheck(g, i, sweep) => Checked(db.attempts, g, i, sweep)
    case ExpireReady(g, _, s) => SweepNext(g, s)
    case SweepStart(g, cutoff) =>
      SweepNext(g, Sweep(cutoff, AbandonedRows(db.attempts, g, cutoff, if answer.Rows? then answer.ids else [],
                                               SWEEP_BATCH)))
    case SweepNext(g, s) =>
      if s.rest == [] || s.rest[0] >= |db.attempts| then Finished
      else
        var i := s.rest[0];
        var next := Sweep(s.cutoff, s.rest[1..]);
        var a := db.attempts[i];
        if a.authority.None? then
          if a.status == AttemptPending then SweepMark(g, i, next) else SweepNext(g, next)
        else if Retryable(g, a) then ReconcileStart(g, i, Some(next))
        else SweepNext(g, next)
    case SweepMark(g, _, s) => SweepNext(g, s)
    case RefundStart(q, manual) =>
      if q < |db.returnRequests| && db.returnRequests[q].status in {ReturnReceived, ReturnRefundPending}
      then ReturnSeen(db.returnRequests[q].order, manual)
      else Finished
    case ReturnSeen(o, manual) =>
      (match FindRefund(db.refunds, o)
       case None => Finished
       case Some(r) =>
         var refund := db.refunds[r];
         if (refund.payMethod == Manual) != manual || refund.status == RefundSucceeded then Finished
         else if manual then ManualLoaded(r, refund.status)
         else RefundLoaded(r, o))
    case RefundLoaded(r, o) => if reply.Done? then RefundClaimed(r, o) else Finished
    case RefundClaimed(r, o) => if o < |db.orders| then RefundReady(r, o, db.orders[o].total) else Finished
    case RefundReady(r, _, _) => RefundReplied(r, RefundOf(answer))
    case ManualLoaded(r, status) => if status != RefundPending || reply.Done? then ManualClaimed(r) else Finished
    case _ => Finished
  }

  /** Where a process goes when its next transaction or read fails: a sweep carries on with its next row. */
  function OnFailure(p: Process): Process {
    match p
    case ReconcileStart(g, _, sweep) => Continue(g, sweep)
    case ReconcileReplied(g, _, _, _, _, sweep) => Continue(g, sweep)
    case ReconcileRecheck(g, _, sweep) => Continue(g, sweep)
    case ExpireReady(g, _, s) => SweepNext(g, s)
    case SweepMark(g, _, s) => SweepNext(g, s)
    case _ => Finished
  }

  // ----- the system

  datatype System = System(db: Db, processes: seq<Process>, log: seq<Call>)

  datatype Happening =
    | Arrives(process: Process)
    | Advances(k: nat, answer: Answer)
    | Fails(k: nat)
    | Crashes(k: nat)
    | Commits(step: Step)

  /** Traffic that runs no payment handler: everything except the attempt transactions. */
  predicate Allowed(sys: System, h: Happening) {
    match h
    case Arrives(p) => IsStart(p)
    case Advances(k, _) => k < |sys.processes|
    case Fails(k) => k < |sys.processes|
    case Crashes(k) => k < |sys.processes|
    case Commits(s) => !IsAttemptStep(s)
  }

  ghost function Commit(db: Db, t: Option<Step>): (Db, Reply) {
    if t.None? then (db, Done) else Apply(db, t.value)
  }

  ghost function Happen(sys: System, h: Happening): System
    requires Allowed(sys, h)
  {
    match h
    case Arrives(p) => sys.(processes := sys.processes + [p])
    case Advances(k, answer) =>
      var p := sys.processes[k];
      var (db, reply) := Commit(sys.db, Transaction(p));
      System(db, sys.processes[k := After(db, p, reply, answer)], sys.log + Calls(p, answer))
    case Fails(k) => sys.(processes := sys.processes[k := OnFailure(sys.processes[k])])
    case Crashes(k) => sys.(processes := sys.processes[k := Finished])
    case Commits(s) => sys.(db := Next(sys.db, s))
  }

  /** The system after these happenings, if they can happen one after another. */
  ghost function Play(sys: System, happenings: seq<Happening>): Option<System> {
    if happenings == [] then Some(sys)
    else
      var before := Play(sys, happenings[..|happenings| - 1]);
      var last := happenings[|happenings| - 1];
      if before.None? || !Allowed(before.value, last) then None else Some(Happen(before.value, last))
  }

  /** sys can be reached from the empty shop by the happenings. */
  ghost predicate ReachedBy(sys: System, notify: bool, happenings: seq<Happening>)
    decreases |happenings|
  {
    if happenings == [] then sys == System(EmptyDb(notify), [], [])
    else
      var last := happenings[|happenings| - 1];
      exists before :: && ReachedBy(before, notify, happenings[..|happenings| - 1])
                       && Allowed(before, last) && sys == Happen(before, last)
  }
}
