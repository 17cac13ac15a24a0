/** What the handlers bring about when nothing fails: the provider is asked, and its answer is acted upon. */
module ProcessOutcomes {
  import opened Basics
  import opened Statuses
  import EventKeys
  import opened Tables
  import opened Payments
  import opened Refunds
  import opened Shop
  import opened PaymentInvariant
  import opened PaymentOutcomes
  import opened RefundOutcomes
  import opened Processes

  // ----- playing a process

  /** The system with one more process. */
  function With(db: Db, processes: seq<Process>, log: seq<Call>, p: Process): System {
    System(db, processes + [p], log)
  }

  lemma Starts(sys: System, p: Process)
    requires IsStart(p)
    ensures Play(sys, [Arrives(p)]) == Some(With(sys.db, sys.processes, sys.log, p))
  {
    assert [Arrives(p)][..0] == [];
  }

  lemma Moves(sys: System, played: seq<Happening>, db: Db, processes: seq<Process>, log: seq<Call>, p: Process, answer: Answer)
    requires Play(sys, played) == Some(With(db, processes, log, p))
    ensures var (later, reply) := Commit(db, Transaction(p));
            Play(sys, played + [Advances(|processes|, answer)])
            == Some(With(later, processes, log + Calls(p, answer), After(later, p, reply, answer)))
  {
    var h := Advances(|processes|, answer);
    var (later, reply) := Commit(db, Transaction(p));
    var next := After(later, p, reply, answer);
    assert (played + [h])[..|played|] == played;
    assert (processes + [p])[|processes| := next] == processes + [next];
  }

  /** A step that only reads. */
  lemma Reads(sys: System, played: seq<Happening>, db: Db, processes: seq<Process>, log: seq<Call>, p: Process, answer: Answer,
              next: Process)
    requires Play(sys, played) == Some(With(db, processes, log, p))
    requires Transaction(p) == None && Calls(p, answer) == [] && After(db, p, Done, answer) == next
    ensures Play(sys, played + [Advances(|processes|, answer)]) == Some(With(db, processes, log, next))
  {
    Moves(sys, played, db, processes, log, p, answer);
    assert log + [] == log;
  }

  /** A step that calls the provider or answers the customer. */
  lemma Speaks(sys: System, played: seq<Happening>, db: Db, processes: seq<Process>, log: seq<Call>, p: Process,
               answer: Answer, c: Call, next: Process)
    requires Play(sys, played) == Some(With(db, processes, log, p))
    requires Transaction(p) == None && Calls(p, answer) == [c] && After(db, p, Done, answer) == next
    ensures Play(sys, played + [Advances(|processes|, answer)]) == Some(With(db, processes, log + [c], next))
  {
    Moves(sys, played, db, processes, log, p, answer);
  }

  /** A step that commits a transaction. */
  lemma Writes(sys: System, played: seq<Happening>, db: Db, processes: seq<Process>, log: seq<Call>, p: Process,
               later: Db, reply: Reply, next: Process)
    requires Play(sys, played) == Some(With(db, processes, log, p))
    requires Commit(db, Transaction(p)) == (later, reply) && Calls(p, NoAnswer) == []
    requires After(later, p, reply, NoAnswer) == next
    ensures Play(sys, played + [Advances(|processes|, NoAnswer)]) == Some(With(later, processes, log, next))
  {
    Moves(sys, played, db, processes, log, p, NoAnswer);
    assert log + [] == log;
  }

  /** A process that begins with a step that only reads. */
  lemma StartsReading(sys: System, p: Process, answer: Answer, next: Process)
    requires IsStart(p) && Transaction(p) == None && Calls(p, answer) == [] && After(sys.db, p, Done, answer) == next
    ensures Play(sys, [Arrives(p)] + [Advances(|sys.processes|, answer)]) == Some(With(sys.db, sys.processes, sys.log, next))
  {
    Starts(sys, p);
    Reads(sys, [Arrives(p)], sys.db, sys.processes, sys.log, p, answer, next);
  }

  lemma StartsReadingTwice(sys: System, p: Process, second: Process, next: Process)
    requires IsStart(p) && Transaction(p) == None && Calls(p, NoAnswer) == [] && After(sys.db, p, Done, NoAnswer) == second
    requires Transaction(second) == None && Calls(second, NoAnswer) == [] && After(sys.db, second, Done, NoAnswer) == next
    ensures Play(sys, [Arrives(p)] + [Advances(|sys.processes|, NoAnswer)] + [Advances(|sys.processes|, NoAnswer)])
            == Some(With(sys.db, sys.processes, sys.log, next))
  {
    StartsReading(sys, p, NoAnswer, second);
    Reads(sys, [Arrives(p)] + [Advances(|sys.processes|, NoAnswer)], sys.db, sys.processes, sys.log, second, NoAnswer, next);
  }

  // ----- the provider's verdict

  /** What a verdict makes of attempt i: paid or to be reconciled, rejected with a code, or uncertain. */
  ghost predicate VerdictRecorded(before: Db, after: Db, i: nat, r: VerifyResult, code: Option<int>)
    requires i < |before.attempts| && before.attempts[i].order < |before.orders|
  {
    var a := before.attempts[i];
    if r.VerifyAnswered? && r.code in {100, 101} && r.refId > 0 then
      if a.status == AttemptPending && ReferenceIsNew(before.attempts, a, r.refId) then
        && after.attempts == before.attempts[i := a.(status := AttemptPaid, refId := Some(r.refId), code := Some(r.code),
                                                     outcome := VerifiedSuccess)]
        && after.orders == before.orders[a.order := before.orders[a.order].(payment := Paid, payMethod := ZarinPal)]
      else
        after == before.(attempts := before.attempts[i := a.(status := AttemptReconciliation, refId := Some(r.refId),
                                                            code := Some(r.code), outcome := ManualRequired)])
    else
      after == before.(attempts := before.attempts[i := match code
                                                        case Some(c) => a.(code := Some(c), outcome := DefinitiveRejection)
                                                        case None => a.(outcome := UncertainOutcome)])
  }

  /** Attempt i carries authority x, is of this gateway and waits for a verdict. */
  ghost predicate AwaitsVerdict(db: Db, g: Gateway, x: string, i: nat) {
    && Carries(db.attempts, i, x) && IsOf(g, db.attempts[i])
    && db.attempts[i].status != AttemptPaid && db.attempts[i].status != AttemptReconciliation
  }

  lemma ConfirmationIsRecorded(db: Db, g: Gateway, x: string, i: nat, r: VerifyResult, code: Option<int>)
    requires PaymentInv(db.orders, db.attempts) && AwaitsVerdict(db, g, x, i)
    requires r.VerifyAnswered? && r.code in {100, 101} && r.refId > 0
    ensures db.attempts[i].order < |db.orders|
    ensures var (after, reply) := FinalizeVerified(db, g, x, r.refId, r.code);
            VerdictRecorded(db, after, i, r, code) && reply.Settlement?
  {
    ConfirmedOutcome(db, g, x, i, r.refId, r.code);
  }

  lemma RejectionIsRecorded(db: Db, g: Gateway, x: string, i: nat, r: VerifyResult, code: Option<int>)
    requires PaymentInv(db.orders, db.attempts) && AwaitsVerdict(db, g, x, i)
    requires !(r.VerifyAnswered? && r.code in {100, 101} && r.refId > 0)
    ensures db.attempts[i].order < |db.orders|
    ensures var (after, reply) := FinalizeFailed(db, g, x, code);
            VerdictRecorded(db, after, i, r, code) && reply.Settlement?
  {
    assert AttemptInv(db.orders, db.attempts[i]);
    RejectedOutcome(db, g, x, i, code);
  }

  lemma RecordingIs(db: Db, g: Gateway, x: string, r: VerifyResult, code: Option<int>)
    ensures Apply(db, Recording(g, x, r, code))
            == if r.VerifyAnswered? && r.code in {100, 101} && r.refId > 0 then FinalizeVerified(db, g, x, r.refId, r.code)
               else FinalizeFailed(db, g, x, code)
  {
  }

  lemma RecordingDoesIt(db: Db, g: Gateway, x: string, i: nat, r: VerifyResult, code: Option<int>)
    returns (after: Db, reply: Reply)
    requires PaymentInv(db.orders, db.attempts) && AwaitsVerdict(db, g, x, i)
    ensures db.attempts[i].order < |db.orders|
    ensures (after, reply) == Apply(db, Recording(g, x, r, code))
    ensures VerdictRecorded(db, after, i, r, code) && reply.Settlement?
  {
    RecordingIs(db, g, x, r, code);
    if r.VerifyAnswered? && r.code in {100, 101} && r.refId > 0 {
      ConfirmationIsRecorded(db, g, x, i, r, code);
      after, reply := FinalizeVerified(db, g, x, r.refId, r.code).0, FinalizeVerified(db, g, x, r.refId, r.code).1;
    } else {
      RejectionIsRecorded(db, g, x, i, r, code);
      after, reply := FinalizeFailed(db, g, x, code).0, FinalizeFailed(db, g, x, code).1;
    }
  }

  // ----- the callback

  function CallbackRun(k: nat, g: Gateway, x: string, r: VerifyResult): seq<Happening> {
    [Arrives(CallbackStart(g, x, true))] + [Advances(k, NoAnswer)] + [Advances(k, Verifies(r))] + [Advances(k, NoAnswer)]
  }

  /** A negative code is a rejection; anything else that does not confirm leaves the payment uncertain. */
  function RejectionIn(r: VerifyResult): Option<int> {
    if r.VerifyAnswered? && r.code < 0 then Some(r.code) else None
  }

  lemma CallbackReadsTheAttempt(db: Db, g: Gateway, x: string, i: nat, ok: bool)
    requires PaymentInv(db.orders, db.attempts) && AwaitsVerdict(db, g, x, i)
    ensures db.attempts[i].order < |db.orders|
    ensures After(db, CallbackStart(g, x, ok), Done, NoAnswer)
            == if ok then CallbackReady(g, x, db.orders[db.attempts[i].order].total) else Finished
  {
    TheCarrierIsFound(db, i, x);
    assert AttemptInv(db.orders, db.attempts[i]);
  }

  /**
   * A customer who comes back with status OK has the payment verified: the provider is asked once, about the
   * order's total under this authority, and what it answers is recorded.
   */
  lemma CallbackVerifies(sys: System, g: Gateway, x: string, i: nat, r: VerifyResult) returns (after: Db)
    requires PaymentInv(sys.db.orders, sys.db.attempts) && AwaitsVerdict(sys.db, g, x, i)
    ensures sys.db.attempts[i].order < |sys.db.orders|
    ensures VerdictRecorded(sys.db, after, i, r, RejectionIn(r))
    ensures Play(sys, CallbackRun(|sys.processes|, g, x, r))
            == Some(System(after, sys.processes + [Finished],
                           sys.log + [VerifyCall(x, sys.db.orders[sys.db.attempts[i].order].total, r)]))
  {
    var k, start := |sys.processes|, CallbackStart(g, x, true);
    CallbackReadsTheAttempt(sys.db, g, x, i, true);
    var total := sys.db.orders[sys.db.attempts[i].order].total;
    var played := [Arrives(start)];
    StartsReading(sys, start, NoAnswer, CallbackReady(g, x, total));
    played := played + [Advances(k, NoAnswer)];
    Speaks(sys, played, sys.db, sys.processes, sys.log, CallbackReady(g, x, total), Verifies(r), VerifyCall(x, total, r),
           CallbackReplied(g, x, total, r));
    played := played + [Advances(k, Verifies(r))];
    var reply;
    after, reply := RecordingDoesIt(sys.db, g, x, i, r, RejectionIn(r));
    Writes(sys, played, sys.db, sys.processes, sys.log + [VerifyCall(x, total, r)], CallbackReplied(g, x, total, r),
           after, reply, Finished);
  }

  /** With any other status, the callback asks nobody and writes nothing. */
  lemma CallbackWithoutStatusOk(sys: System, g: Gateway, x: string, i: nat)
    requires PaymentInv(sys.db.orders, sys.db.attempts) && AwaitsVerdict(sys.db, g, x, i)
    ensures Play(sys, [Arrives(CallbackStart(g, x, false))] + [Advances(|sys.processes|, NoAnswer)])
            == Some(System(sys.db, sys.processes + [Finished], sys.log))
  {
    CallbackReadsTheAttempt(sys.db, g, x, i, false);
    StartsReading(sys, CallbackStart(g, x, false), NoAnswer, Finished);
  }

  /** Neither does it for an authority that no unverified attempt of this gateway in IRR carries. */
  lemma CallbackWithoutAttempt(sys: System, g: Gateway, x: string, ok: bool)
    requires forall i: nat :: AwaitsVerdict(sys.db, g, x, i) ==> sys.db.attempts[i].currency != "IRR"
    ensures Play(sys, [Arrives(CallbackStart(g, x, ok))] + [Advances(|sys.processes|, NoAnswer)])
            == Some(System(sys.db, sys.processes + [Finished], sys.log))
  {
    CallbackFindsNothing(sys.db, g, x, ok);
    StartsReading(sys, CallbackStart(g, x, ok), NoAnswer, Finished);
  }

  lemma CallbackFindsNothing(db: Db, g: Gateway, x: string, ok: bool)
    requires forall i: nat :: AwaitsVerdict(db, g, x, i) ==> db.attempts[i].currency != "IRR"
    ensures After(db, CallbackStart(g, x, ok), Done, NoAnswer) == Finished
  {
    var found := FindAttempt(db.attempts, x);
    if found.Some? {
      var i := found.value;
      assert Carries(db.attempts, i, x);
      assert AwaitsVerdict(db, g, x, i) ==> db.attempts[i].currency != "IRR";
    }
  }

  // ----- a payment request

  function RequestRun(k: nat, g: Gateway, user: nat, o: nat, now: int, r: RequestResult): seq<Happening> {
    [Arrives(RequestStart(g, user, o, now))] + [Advances(k, NoAnswer)] + [Advances(k, Requested(r))] + [Advances(k, NoAnswer)]
  }

  /** An answer a session can be opened with: success, an authority of 1 to 64 letters and digits, somewhere to go. */
  predicate OpensSession(r: RequestResult) {
    && r.RequestAnswered? && r.code == 100 && 1 <= |r.authority| <= 64 && r.redirect != ""
    && forall k | 0 <= k < |r.authority| ::
         'a' <= r.authority[k] <= 'z' || 'A' <= r.authority[k] <= 'Z' || '0' <= r.authority[k] <= '9'
  }

  lemma OpeningAnswers(r: RequestResult)
    ensures OpensSession(r) <==> Issues(r)
  {
    if r.RequestAnswered? {
      forall k | 0 <= k < |r.authority|
        ensures IsAlphanumeric(r.authority[k])
                <==> 'a' <= r.authority[k] <= 'z' || 'A' <= r.authority[k] <= 'Z' || '0' <= r.authority[k] <= '9'
      {
      }
    }
  }

  lemma RequestReadies(db: Db, g: Gateway, user: nat, o: nat, now: int)
    requires CreateAttempt(db, g, user, o, now).1.NewRow?
    ensures o < |db.orders|
    ensures var (created, reply) := CreateAttempt(db, g, user, o, now);
            && Commit(db, Transaction(RequestStart(g, user, o, now))) == (created, reply)
            && After(created, RequestStart(g, user, o, now), reply, NoAnswer)
               == RequestReady(g, |db.attempts|, db.orders[o].total)
  {
    assert Commit(db, Transaction(RequestStart(g, user, o, now))) == CreateAttempt(db, g, user, o, now);
  }

  /** The first three steps of a request: the attempt is opened and the provider asked for the order's total. */
  lemma RequestAsks(sys: System, g: Gateway, user: nat, o: nat, now: int, r: RequestResult)
    requires CreateAttempt(sys.db, g, user, o, now).1.NewRow?
    ensures o < |sys.db.orders|
    ensures Play(sys, [Arrives(RequestStart(g, user, o, now))] + [Advances(|sys.processes|, NoAnswer)]
                      + [Advances(|sys.processes|, Requested(r))])
            == Some(With(CreateAttempt(sys.db, g, user, o, now).0, sys.processes,
                         sys.log + [RequestCall(|sys.db.attempts|, sys.db.orders[o].total, r)],
                         RequestReplied(g, |sys.db.attempts|, r)))
  {
    var k, i, start := |sys.processes|, |sys.db.attempts|, RequestStart(g, user, o, now);
    var (created, reply) := CreateAttempt(sys.db, g, user, o, now);
    RequestReadies(sys.db, g, user, o, now);
    var total := sys.db.orders[o].total;
    var played := [Arrives(start)];
    Starts(sys, start);
    Writes(sys, played, sys.db, sys.processes, sys.log, start, created, reply, RequestReady(g, i, total));
    played := played + [Advances(k, NoAnswer)];
    Speaks(sys, played, created, sys.processes, sys.log, RequestReady(g, i, total), Requested(r), RequestCall(i, total, r),
           RequestReplied(g, i, r));
  }

  /** The new attempt with the authority stored. */
  function Opened(db: Db, g: Gateway, o: nat, now: int, x: string): Db
    requires o < |db.orders|
  {
    db.(attempts := db.attempts + [Attempt(o, "zarinpal", g.environment, g.identity, Some(x), db.orders[o].total, "IRR",
                                           AttemptPending, None, None, now, NotChecked)],
        orders := db.orders[o := db.orders[o].(payMethod := ZarinPal)])
  }

  lemma StoringSucceeds(db: Db, g: Gateway, user: nat, o: nat, now: int, r: RequestResult)
    requires CreateAttempt(db, g, user, o, now).1.NewRow? && OpensSession(r)
    requires forall j | 0 <= j < |db.attempts| :: db.attempts[j].authority != Some(r.authority)
    ensures o < |db.orders|
    ensures var created := CreateAttempt(db, g, user, o, now).0;
            && Commit(created, Transaction(RequestReplied(g, |db.attempts|, r))) == (Opened(db, g, o, now, r.authority), Done)
            && After(Opened(db, g, o, now, r.authority), RequestReplied(g, |db.attempts|, r), Done, NoAnswer)
               == RequestStored(|db.attempts|, r.authority)
  {
    var i, created := |db.attempts|, CreateAttempt(db, g, user, o, now).0;
    OpeningAnswers(r);
    AttemptEffect(db, g, user, o, now);
    SetAuthorityOutcome(created, g, i, r.authority);
    assert Commit(created, Transaction(RequestReplied(g, i, r))) == SetAuthority(created, g, i, r.authority);
    assert created.attempts[i := created.attempts[i].(authority := Some(r.authority))]
           == Opened(db, g, o, now, r.authority).attempts;
  }

  /**
   * A payment that can be started and whose session the provider issues is opened: the attempt is stored with
   * its authority, and the customer is sent to the provider with it.
   */
  lemma RequestOpensSession(sys: System, g: Gateway, user: nat, o: nat, now: int, r: RequestResult)
    requires CreateAttempt(sys.db, g, user, o, now).1.NewRow? && OpensSession(r)
    requires forall j | 0 <= j < |sys.db.attempts| :: sys.db.attempts[j].authority != Some(r.authority)
    ensures o < |sys.db.orders|
    ensures Play(sys, RequestRun(|sys.processes|, g, user, o, now, r) + [Advances(|sys.processes|, NoAnswer)])
            == Some(System(Opened(sys.db, g, o, now, r.authority), sys.processes + [Finished],
                           sys.log + [RequestCall(|sys.db.attempts|, sys.db.orders[o].total, r)]
                           + [Redirect(|sys.db.attempts|, r.authority)]))
  {
    var k, i := |sys.processes|, |sys.db.attempts|;
    var created := CreateAttempt(sys.db, g, user, o, now).0;
    RequestAsks(sys, g, user, o, now, r);
    StoringSucceeds(sys.db, g, user, o, now, r);
    var stored := Opened(sys.db, g, o, now, r.authority);
    var log := sys.log + [RequestCall(i, sys.db.orders[o].total, r)];
    var played := [Arrives(RequestStart(g, user, o, now))] + [Advances(k, NoAnswer)] + [Advances(k, Requested(r))];
    Writes(sys, played, created, sys.processes, log, RequestReplied(g, i, r), stored, Done, RequestStored(i, r.authority));
    Speaks(sys, played + [Advances(k, NoAnswer)], stored, sys.processes, log, RequestStored(i, r.authority), NoAnswer,
           Redirect(i, r.authority), Finished);
  }

  /** What a refused or unusable answer leaves of the attempt. */
  function Refused(db: Db, g: Gateway, o: nat, now: int, code: Option<int>): Db
    requires o < |db.orders|
  {
    db.(attempts := db.attempts + [Attempt(o, "zarinpal", g.environment, g.identity, None, db.orders[o].total, "IRR",
                                           AttemptFailed, None, code, now, NotChecked)],
        orders := db.orders[o := db.orders[o].(payMethod := ZarinPal)])
  }

  lemma MarkingSucceeds(db: Db, g: Gateway, user: nat, o: nat, now: int, r: RequestResult)
    requires CreateAttempt(db, g, user, o, now).1.NewRow? && !OpensSession(r)
    ensures o < |db.orders|
    ensures var created := CreateAttempt(db, g, user, o, now).0;
            var code := if r.RequestFailed? then r.rejection else None;
            && Commit(created, Transaction(RequestReplied(g, |db.attempts|, r))) == (Refused(db, g, o, now, code), Done)
            && After(Refused(db, g, o, now, code), RequestReplied(g, |db.attempts|, r), Done, NoAnswer) == Finished
  {
    var i, created := |db.attempts|, CreateAttempt(db, g, user, o, now).0;
    var code := if r.RequestFailed? then r.rejection else None;
    OpeningAnswers(r);
    AttemptEffect(db, g, user, o, now);
    MarkFailedOutcome(created, g, i, code);
    assert Commit(created, Transaction(RequestReplied(g, i, r))) == MarkAttemptFailed(created, g, i, code);
    assert created.attempts[i := created.attempts[i].(status := AttemptFailed, code := code)]
           == Refused(db, g, o, now, code).attempts;
  }

  /** Any other answer ends the attempt as failed, with the provider's code if it gave one, and sends nobody anywhere. */
  lemma RequestRefused(sys: System, g: Gateway, user: nat, o: nat, now: int, r: RequestResult)
    requires CreateAttempt(sys.db, g, user, o, now).1.NewRow? && !OpensSession(r)
    ensures o < |sys.db.orders|
    ensures Play(sys, RequestRun(|sys.processes|, g, user, o, now, r))
            == Some(System(Refused(sys.db, g, o, now, if r.RequestFailed? then r.rejection else None),
                           sys.processes + [Finished],
                           sys.log + [RequestCall(|sys.db.attempts|, sys.db.orders[o].total, r)]))
  {
    var k, i := |sys.processes|, |sys.db.attempts|;
    RequestAsks(sys, g, user, o, now, r);
    MarkingSucceeds(sys.db, g, user, o, now, r);
    Writes(sys, [Arrives(RequestStart(g, user, o, now))] + [Advances(k, NoAnswer)] + [Advances(k, Requested(r))],
           CreateAttempt(sys.db, g, user, o, now).0, sys.processes, sys.log + [RequestCall(i, sys.db.orders[o].total, r)],
           RequestReplied(g, i, r), Refused(sys.db, g, o, now, if r.RequestFailed? then r.rejection else None), Done, Finished);
  }

  // ----- reconciliation

  /** 1 to 64 letters and digits. */
  predicate IsUsable(x: string) {
    1 <= |x| <= 64 && forall k | 0 <= k < |x| :: 'a' <= x[k] <= 'z' || 'A' <= x[k] <= 'Z' || '0' <= x[k] <= '9'
  }

  /** A negative code, answered or inside an error. */
  function RejectionInside(r: VerifyResult): Option<int> {
    if r.VerifyAnswered? then (if r.code < 0 then Some(r.code) else None)
    else if r.rejection.Some? && r.rejection.value < 0 then r.rejection else None
  }

  lemma UsableIsRetryable(db: Db, g: Gateway, x: string, i: nat)
    requires PaymentInv(db.orders, db.attempts) && AwaitsVerdict(db, g, x, i) && IsUsable(x)
    ensures Retryable(g, db.attempts[i])
  {
    assert AttemptInv(db.orders, db.attempts[i]);
    forall k | 0 <= k < |x| ensures IsAlphanumeric(x[k]) {
    }
  }

  /** What may be asked about: an unverified attempt of this gateway, in IRR, with a payable amount and a usable authority. */
  ghost predicate MayBeAskedAbout(g: Gateway, a: Attempt) {
    && a.status != AttemptPaid && a.status != AttemptReconciliation && IsOf(g, a)
    && a.authority.Some? && IsUsable(a.authority.value) && a.currency == "IRR" && a.amount >= 10000
  }

  lemma AskableIsRetryable(g: Gateway, a: Attempt)
    ensures MayBeAskedAbout(g, a) <==> Retryable(g, a)
  {
    if a.authority.Some? {
      var x := a.authority.value;
      forall k | 0 <= k < |x|
        ensures IsAlphanumeric(x[k]) <==> 'a' <= x[k] <= 'z' || 'A' <= x[k] <= 'Z' || '0' <= x[k] <= '9'
      {
      }
    }
  }

  /** Reconciliation and sweep ask about exactly these attempts; the sweep passes the others over. */
  lemma OnlyAskableAttemptsAreAskedAbout(db: Db, g: Gateway, i: nat, cutoff: int, rest: seq<nat>)
    requires i < |db.attempts|
    ensures var (a, next) := (db.attempts[i], Sweep(cutoff, rest));
            && After(db, ReconcileStart(g, i, None), Done, NoAnswer)
               == (if MayBeAskedAbout(g, a) then ReconcileReady(g, i, a.authority.value, a.amount, None) else Finished)
            && (a.authority.Some? || a.status != AttemptPending ==>
                 After(db, SweepNext(g, Sweep(cutoff, [i] + rest)), Done, NoAnswer)
                 == if MayBeAskedAbout(g, a) then ReconcileStart(g, i, Some(next)) else SweepNext(g, next))
  {
    AskableIsRetryable(g, db.attempts[i]);
    assert ([i] + rest)[1..] == rest;
  }

  /** What reconciling attempt i goes through up to its re-check, alone or as part of a sweep. */
  function AskingSteps(k: nat, r: VerifyResult): seq<Happening> {
    [Advances(k, NoAnswer)] + [Advances(k, Verifies(r))] + [Advances(k, NoAnswer)]
  }

  lemma ReconcileReads(db: Db, g: Gateway, x: string, i: nat, sweep: Option<Sweep>)
    requires PaymentInv(db.orders, db.attempts) && AwaitsVerdict(db, g, x, i) && IsUsable(x)
    ensures db.attempts[i].order < |db.orders|
    ensures After(db, ReconcileStart(g, i, sweep), Done, NoAnswer)
            == ReconcileReady(g, i, x, db.orders[db.attempts[i].order].total, sweep)
  {
    UsableIsRetryable(db, g, x, i);
    assert AttemptInv(db.orders, db.attempts[i]);
  }

  lemma ReconcileReaches(sys: System, played: seq<Happening>, db: Db, processes: seq<Process>, log: seq<Call>, g: Gateway,
                         x: string, i: nat, sweep: Option<Sweep>, r: VerifyResult)
    requires Play(sys, played) == Some(With(db, processes, log, ReconcileStart(g, i, sweep)))
    requires PaymentInv(db.orders, db.attempts) && AwaitsVerdict(db, g, x, i) && IsUsable(x)
    ensures db.attempts[i].order < |db.orders|
    ensures var total := db.orders[db.attempts[i].order].total;
            Play(sys, played + [Advances(|processes|, NoAnswer)] + [Advances(|processes|, Verifies(r))])
            == Some(With(db, processes, log + [VerifyCall(x, total, r)], ReconcileReplied(g, i, x, total, r, sweep)))
  {
    var k := |processes|;
    ReconcileReads(db, g, x, i, sweep);
    var total := db.orders[db.attempts[i].order].total;
    Reads(sys, played, db, processes, log, ReconcileStart(g, i, sweep), NoAnswer, ReconcileReady(g, i, x, total, sweep));
    Speaks(sys, played + [Advances(k, NoAnswer)], db, processes, log, ReconcileReady(g, i, x, total, sweep), Verifies(r),
           VerifyCall(x, total, r), ReconcileReplied(g, i, x, total, r, sweep));
  }

  lemma RepliedRecords(db: Db, later: Db, g: Gateway, x: string, i: nat, total: int, r: VerifyResult, sweep: Option<Sweep>,
                       reply: Reply)
    requires (later, reply) == Apply(db, Recording(g, x, r, RejectionInside(r))) && reply.Settlement?
    ensures Commit(db, Transaction(ReconcileReplied(g, i, x, total, r, sweep))) == (later, reply)
    ensures Calls(ReconcileReplied(g, i, x, total, r, sweep), NoAnswer) == []
    ensures After(later, ReconcileReplied(g, i, x, total, r, sweep), reply, NoAnswer) == ReconcileRecheck(g, i, sweep)
  {
    assert ReconcileCode(r) == RejectionInside(r);
  }

  lemma ReconcileAsks(sys: System, played: seq<Happening>, db: Db, processes: seq<Process>, log: seq<Call>, g: Gateway,
                      x: string, i: nat, sweep: Option<Sweep>, r: VerifyResult) returns (after: Db)
    requires Play(sys, played) == Some(With(db, processes, log, ReconcileStart(g, i, sweep)))
    requires PaymentInv(db.orders, db.attempts) && AwaitsVerdict(db, g, x, i) && IsUsable(x)
    ensures db.attempts[i].order < |db.orders| && VerdictRecorded(db, after, i, r, RejectionInside(r))
    ensures Play(sys, played + AskingSteps(|processes|, r))
            == Some(With(after, processes, log + [VerifyCall(x, db.orders[db.attempts[i].order].total, r)],
                         ReconcileRecheck(g, i, sweep)))
  {
    var k := |processes|;
    var asked := played + [Advances(k, NoAnswer)] + [Advances(k, Verifies(r))];
    ReconcileReaches(sys, played, db, processes, log, g, x, i, sweep, r);
    var total := db.orders[db.attempts[i].order].total;
    var reply;
    after, reply := RecordingDoesIt(db, g, x, i, r, RejectionInside(r));
    RepliedRecords(db, after, g, x, i, total, r, sweep, reply);
    Writes(sys, asked, db, processes, log + [VerifyCall(x, total, r)], ReconcileReplied(g, i, x, total, r, sweep), after, reply,
           ReconcileRecheck(g, i, sweep));
    assert played + AskingSteps(k, r) == asked + [Advances(k, NoAnswer)];
  }

  /** An admin's reconciliation asks the provider once about the order's total and records the answer. */
  lemma ReconciliationAsks(sys: System, g: Gateway, x: string, i: nat, r: VerifyResult) returns (after: Db)
    requires PaymentInv(sys.db.orders, sys.db.attempts) && AwaitsVerdict(sys.db, g, x, i) && IsUsable(x)
    ensures sys.db.attempts[i].order < |sys.db.orders| && VerdictRecorded(sys.db, after, i, r, RejectionInside(r))
    ensures Play(sys, [Arrives(ReconcileStart(g, i, None))] + AskingSteps(|sys.processes|, r)
                      + [Advances(|sys.processes|, NoAnswer)])
            == Some(System(after, sys.processes + [Finished],
                           sys.log + [VerifyCall(x, sys.db.orders[sys.db.attempts[i].order].total, r)]))
  {
    var k, start := |sys.processes|, ReconcileStart(g, i, None);
    Starts(sys, start);
    after := ReconcileAsks(sys, [Arrives(start)], sys.db, sys.processes, sys.log, g, x, i, None, r);
    Reads(sys, [Arrives(start)] + AskingSteps(k, r), after, sys.processes,
          sys.log + [VerifyCall(x, sys.db.orders[sys.db.attempts[i].order].total, r)], ReconcileRecheck(g, i, None), NoAnswer,
          Finished);
  }

  // ----- the sweep over abandoned attempts

  /** Unfinished since before the cut-off, at exactly this account. */
  predicate IsAbandoned(attempts: seq<Attempt>, g: Gateway, cutoff: int, i: nat) {
    && i < |attempts| && attempts[i].createdAt < cutoff
    && attempts[i].environment == g.environment && attempts[i].account == g.identity
    && (attempts[i].status == AttemptPending || (attempts[i].status == AttemptFailed && attempts[i].authority != None))
  }

  /** The abandoned ones among these rows, in their order. */
  function OnlyAbandoned(attempts: seq<Attempt>, g: Gateway, cutoff: int, ids: seq<nat>): seq<nat> {
    if ids == [] then []
    else (if IsAbandoned(attempts, g, cutoff, ids[0]) then [ids[0]] else [])
         + OnlyAbandoned(attempts, g, cutoff, ids[1..])
  }

  lemma {:induction false} QueryFindsAbandoned(attempts: seq<Attempt>, g: Gateway, cutoff: int, ids: seq<nat>, limit: nat)
    ensures var all := OnlyAbandoned(attempts, g, cutoff, ids);
            AbandonedRows(attempts, g, cutoff, ids, limit) == if |all| <= limit then all else all[..limit]
    decreases ids
  {
    if ids != [] {
      var first := IsAbandoned(attempts, g, cutoff, ids[0]);
      assert first == Abandoned(attempts, g, cutoff, ids[0]);
      if limit > 0 {
        QueryFindsAbandoned(attempts, g, cutoff, ids[1..], if first then limit - 1 else limit);
      }
    }
  }

  /** A sweep starts with the first twenty abandoned attempts of its account. */
  lemma SweepStarts(sys: System, g: Gateway, cutoff: int, ids: seq<nat>)
    ensures var all := OnlyAbandoned(sys.db.attempts, g, cutoff, ids);
            Play(sys, [Arrives(SweepStart(g, cutoff))] + [Advances(|sys.processes|, Rows(ids))])
            == Some(With(sys.db, sys.processes, sys.log,
                         SweepNext(g, Sweep(cutoff, if |all| <= 20 then all else all[..20]))))
  {
    QueryFindsAbandoned(sys.db.attempts, g, cutoff, ids, SWEEP_BATCH);
    SweepQueries(sys.db, g, cutoff, ids);
    StartsReading(sys, SweepStart(g, cutoff), Rows(ids),
                  SweepNext(g, Sweep(cutoff, AbandonedRows(sys.db.attempts, g, cutoff, ids, SWEEP_BATCH))));
  }


  lemma SweepQueries(db: Db, g: Gateway, cutoff: int, ids: seq<nat>)
    ensures After(db, SweepStart(g, cutoff), Done, Rows(ids))
            == SweepNext(g, Sweep(cutoff, AbandonedRows(db.attempts, g, cutoff, ids, SWEEP_BATCH)))
  {
  }

  /** One row of a sweep: the step that takes it up, the reconciliation, and the re-check. */
  function RowSteps(k: nat, r: VerifyResult): seq<Happening> {
    [Advances(k, NoAnswer)] + AskingSteps(k, r) + [Advances(k, NoAnswer)]
  }

  lemma SweepTakesRow(db: Db, g: Gateway, x: string, i: nat, cutoff: int, rest: seq<nat>)
    requires PaymentInv(db.orders, db.attempts) && AwaitsVerdict(db, g, x, i) && IsUsable(x)
    ensures After(db, SweepNext(g, Sweep(cutoff, [i] + rest)), Done, NoAnswer) == ReconcileStart(g, i, Some(Sweep(cutoff, rest)))
  {
    UsableIsRetryable(db, g, x, i);
    assert ([i] + rest)[1..] == rest;
  }

  /** The re-check gives a session up only after a definitive -51 just recorded for an attempt that is still open. */
  lemma RecheckDecides(db: Db, g: Gateway, i: nat, pending: Sweep)
    requires i < |db.attempts|
    ensures After(db, ReconcileRecheck(g, i, Some(pending)), Done, NoAnswer)
            == if db.attempts[i].status in {AttemptPending, AttemptFailed} && db.attempts[i].outcome == DefinitiveRejection
                  && db.attempts[i].code == Some(-51)
               then ExpireReady(g, i, pending) else SweepNext(g, pending)
  {
  }

  lemma RowIsTaken(sys: System, played: seq<Happening>, db: Db, processes: seq<Process>, log: seq<Call>, g: Gateway,
                   x: string, i: nat, cutoff: int, rest: seq<nat>)
    requires Play(sys, played) == Some(With(db, processes, log, SweepNext(g, Sweep(cutoff, [i] + rest))))
    requires PaymentInv(db.orders, db.attempts) && AwaitsVerdict(db, g, x, i) && IsUsable(x)
    ensures Play(sys, played + [Advances(|processes|, NoAnswer)])
            == Some(With(db, processes, log, ReconcileStart(g, i, Some(Sweep(cutoff, rest)))))
  {
    SweepTakesRow(db, g, x, i, cutoff, rest);
    Reads(sys, played, db, processes, log, SweepNext(g, Sweep(cutoff, [i] + rest)), NoAnswer,
          ReconcileStart(g, i, Some(Sweep(cutoff, rest))));
  }

  lemma RowIsChecked(sys: System, played: seq<Happening>, db: Db, processes: seq<Process>, log: seq<Call>, g: Gateway,
                     x: string, i: nat, cutoff: int, rest: seq<nat>, r: VerifyResult) returns (after: Db)
    requires Play(sys, played) == Some(With(db, processes, log, SweepNext(g, Sweep(cutoff, [i] + rest))))
    requires PaymentInv(db.orders, db.attempts) && AwaitsVerdict(db, g, x, i) && IsUsable(x)
    ensures db.attempts[i].order < |db.orders| && VerdictRecorded(db, after, i, r, RejectionInside(r))
    ensures Play(sys, played + [Advances(|processes|, NoAnswer)] + AskingSteps(|processes|, r))
            == Some(With(after, processes, log + [VerifyCall(x, db.orders[db.attempts[i].order].total, r)],
                         ReconcileRecheck(g, i, Some(Sweep(cutoff, rest)))))
  {
    RowIsTaken(sys, played, db, processes, log, g, x, i, cutoff, rest);
    after := ReconcileAsks(sys, played + [Advances(|processes|, NoAnswer)], db, processes, log, g, x, i,
                           Some(Sweep(cutoff, rest)), r);
  }

  /** Attempt i after a recorded -51 and its expiry. */
  function Released(db: Db, i: nat): Db
    requires i < |db.attempts|
  {
    db.(attempts := db.attempts[i := db.attempts[i].(code := Some(-51), outcome := DefinitiveRejection, status := AttemptExpired)])
  }

  lemma ExpiryFollows(later: Db, g: Gateway, i: nat, pending: Sweep)
    ensures Commit(later, Transaction(ExpireReady(g, i, pending))) == ExpireRejected(later, g, i, pending.cutoff)
    ensures forall db, reply :: After(db, ExpireReady(g, i, pending), reply, NoAnswer) == SweepNext(g, pending)
  {
  }

  lemma DeniedIsExpirable(db: Db, later: Db, g: Gateway, x: string, i: nat, cutoff: int, r: VerifyResult)
    requires PaymentInv(db.orders, db.attempts) && AwaitsVerdict(db, g, x, i) && db.attempts[i].status == AttemptPending
    requires db.attempts[i].createdAt <= cutoff && RejectionInside(r) == Some(-51)
    requires db.attempts[i].order < |db.orders| && VerdictRecorded(db, later, i, r, Some(-51))
    ensures ExpireRejected(later, g, i, cutoff) == (Released(db, i), Done)
  {
    assert AttemptInv(db.orders, db.attempts[i]);
    RejectedOutcome(db, g, x, i, Some(-51));
    FinalizeFailedKeeps(db, g, x, Some(-51));
    ExpiryOutcome(later, g, i, cutoff);
    assert later.attempts[i := later.attempts[i].(status := AttemptExpired)] == Released(db, i).attempts;
  }

  lemma ExpiringReleases(db: Db, later: Db, g: Gateway, x: string, i: nat, pending: Sweep, r: VerifyResult)
    requires PaymentInv(db.orders, db.attempts) && AwaitsVerdict(db, g, x, i) && db.attempts[i].status == AttemptPending
    requires db.attempts[i].createdAt <= pending.cutoff && RejectionInside(r) == Some(-51)
    requires db.attempts[i].order < |db.orders| && VerdictRecorded(db, later, i, r, Some(-51))
    ensures Commit(later, Transaction(ExpireReady(g, i, pending))) == (Released(db, i), Done)
    ensures After(Released(db, i), ExpireReady(g, i, pending), Done, NoAnswer) == SweepNext(g, pending)
  {
    ExpiryFollows(later, g, i, pending);
    DeniedIsExpirable(db, later, g, x, i, pending.cutoff, r);
  }

  /** A sweep whose row is answered with -51 releases the session and goes on with the other rows. */
  lemma SweepReleases(sys: System, played: seq<Happening>, db: Db, processes: seq<Process>, log: seq<Call>, g: Gateway,
                      x: string, i: nat, cutoff: int, rest: seq<nat>, r: VerifyResult)
    requires Play(sys, played) == Some(With(db, processes, log, SweepNext(g, Sweep(cutoff, [i] + rest))))
    requires PaymentInv(db.orders, db.attempts) && AwaitsVerdict(db, g, x, i) && IsUsable(x)
    requires db.attempts[i].status == AttemptPending && db.attempts[i].createdAt <= cutoff
    requires RejectionInside(r) == Some(-51)
    ensures db.attempts[i].order < |db.orders|
    ensures Play(sys, played + RowSteps(|processes|, r) + [Advances(|processes|, NoAnswer)])
            == Some(With(Released(db, i), processes, log + [VerifyCall(x, db.orders[db.attempts[i].order].total, r)],
                         SweepNext(g, Sweep(cutoff, rest))))
  {
    var k := |processes|;
    var checked := RowIsChecked(sys, played, db, processes, log, g, x, i, cutoff, rest, r);
    var before := played + [Advances(k, NoAnswer)] + AskingSteps(k, r);
    ExpiringReleases(db, checked, g, x, i, Sweep(cutoff, rest), r);
    DenialIsFinal(db, checked, i, r);
    DeniedRowExpires(sys, before, checked, Released(db, i), processes,
                     log + [VerifyCall(x, db.orders[db.attempts[i].order].total, r)], g, i, Sweep(cutoff, rest));
    assert played + RowSteps(k, r) == before + [Advances(k, NoAnswer)];
  }

  lemma DeniedRowExpires(sys: System, played: seq<Happening>, db: Db, expired: Db, processes: seq<Process>, log: seq<Call>,
                         g: Gateway, i: nat, pending: Sweep)
    requires Play(sys, played) == Some(With(db, processes, log, ReconcileRecheck(g, i, Some(pending))))
    requires i < |db.attempts| && db.attempts[i].status in {AttemptPending, AttemptFailed}
    requires db.attempts[i].outcome == DefinitiveRejection && db.attempts[i].code == Some(-51)
    requires Commit(db, Transaction(ExpireReady(g, i, pending))) == (expired, Done)
    requires After(expired, ExpireReady(g, i, pending), Done, NoAnswer) == SweepNext(g, pending)
    ensures Play(sys, played + [Advances(|processes|, NoAnswer)] + [Advances(|processes|, NoAnswer)])
            == Some(With(expired, processes, log, SweepNext(g, pending)))
  {
    RecheckDecides(db, g, i, pending);
    Reads(sys, played, db, processes, log, ReconcileRecheck(g, i, Some(pending)), NoAnswer, ExpireReady(g, i, pending));
    Writes(sys, played + [Advances(|processes|, NoAnswer)], db, processes, log, ExpireReady(g, i, pending), expired, Done,
           SweepNext(g, pending));
  }

  lemma DenialIsFinal(db: Db, later: Db, i: nat, r: VerifyResult)
    requires i < |db.attempts| && db.attempts[i].order < |db.orders| && VerdictRecorded(db, later, i, r, RejectionInside(r))
    requires RejectionInside(r) == Some(-51)
    ensures |later.attempts| == |db.attempts|
    ensures later.attempts[i] == db.attempts[i].(code := Some(-51), outcome := DefinitiveRejection)
  {
  }

  lemma OtherwiseStillOpen(db: Db, later: Db, i: nat, r: VerifyResult)
    requires i < |db.attempts| && db.attempts[i].order < |db.orders| && VerdictRecorded(db, later, i, r, RejectionInside(r))
    requires RejectionInside(r) != Some(-51)
    ensures |later.attempts| == |db.attempts|
    ensures !(later.attempts[i].status in {AttemptPending, AttemptFailed} && later.attempts[i].outcome == DefinitiveRejection
              && later.attempts[i].code == Some(-51))
  {
  }

  /** Whatever else the provider says is recorded, and the sweep goes on without giving the session up. */
  lemma SweepGoesOn(sys: System, played: seq<Happening>, db: Db, processes: seq<Process>, log: seq<Call>, g: Gateway,
                    x: string, i: nat, cutoff: int, rest: seq<nat>, r: VerifyResult) returns (after: Db)
    requires Play(sys, played) == Some(With(db, processes, log, SweepNext(g, Sweep(cutoff, [i] + rest))))
    requires PaymentInv(db.orders, db.attempts) && AwaitsVerdict(db, g, x, i) && IsUsable(x)
    requires RejectionInside(r) != Some(-51)
    ensures db.attempts[i].order < |db.orders| && VerdictRecorded(db, after, i, r, RejectionInside(r))
    ensures Play(sys, played + RowSteps(|processes|, r))
            == Some(With(after, processes, log + [VerifyCall(x, db.orders[db.attempts[i].order].total, r)],
                         SweepNext(g, Sweep(cutoff, rest))))
  {
    var k, pending := |processes|, Sweep(cutoff, rest);
    after := RowIsChecked(sys, played, db, processes, log, g, x, i, cutoff, rest, r);
    var before := played + [Advances(k, NoAnswer)] + AskingSteps(k, r);
    OtherwiseStillOpen(db, after, i, r);
    OpenRowIsLeft(sys, before, after, processes, log + [VerifyCall(x, db.orders[db.attempts[i].order].total, r)], g, i, pending);
    assert played + RowSteps(k, r) == before + [Advances(k, NoAnswer)];
  }

  lemma OpenRowIsLeft(sys: System, played: seq<Happening>, db: Db, processes: seq<Process>, log: seq<Call>, g: Gateway, i: nat,
                      pending: Sweep)
    requires Play(sys, played) == Some(With(db, processes, log, ReconcileRecheck(g, i, Some(pending))))
    requires i < |db.attempts|
    requires !(db.attempts[i].status in {AttemptPending, AttemptFailed} && db.attempts[i].outcome == DefinitiveRejection
               && db.attempts[i].code == Some(-51))
    ensures Play(sys, played + [Advances(|processes|, NoAnswer)]) == Some(With(db, processes, log, SweepNext(g, pending)))
  {
    RecheckDecides(db, g, i, pending);
    Reads(sys, played, db, processes, log, ReconcileRecheck(g, i, Some(pending)), NoAnswer, SweepNext(g, pending));
  }

  /** A sweep with no row left is done. */
  lemma SweepEnds(sys: System, played: seq<Happening>, db: Db, processes: seq<Process>, log: seq<Call>, g: Gateway, cutoff: int)
    requires Play(sys, played) == Some(With(db, processes, log, SweepNext(g, Sweep(cutoff, []))))
    ensures Play(sys, played + [Advances(|processes|, NoAnswer)]) == Some(System(db, processes + [Finished], log))
  {
    Reads(sys, played, db, processes, log, SweepNext(g, Sweep(cutoff, [])), NoAnswer, Finished);
  }

  /** A pending row without an authority is marked failed without asking anybody, and the sweep goes on. */
  lemma SweepMarksUnstored(sys: System, played: seq<Happening>, db: Db, processes: seq<Process>, log: seq<Call>, g: Gateway,
                           i: nat, cutoff: int, rest: seq<nat>)
    requires Play(sys, played) == Some(With(db, processes, log, SweepNext(g, Sweep(cutoff, [i] + rest))))
    requires i < |db.attempts| && IsOf(g, db.attempts[i])
    requires db.attempts[i].status == AttemptPending && db.attempts[i].authority.None?
    ensures Play(sys, played + [Advances(|processes|, NoAnswer)] + [Advances(|processes|, NoAnswer)])
            == Some(With(db.(attempts := db.attempts[i := db.attempts[i].(status := AttemptFailed, code := None)]), processes, log,
                         SweepNext(g, Sweep(cutoff, rest))))
  {
    var pending := Sweep(cutoff, rest);
    UnstoredRow(db, g, i, cutoff, rest);
    Reads(sys, played, db, processes, log, SweepNext(g, Sweep(cutoff, [i] + rest)), NoAnswer, SweepMark(g, i, pending));
    MarkFailedOutcome(db, g, i, None);
    MarkingIs(db, g, i, pending);
    var (after, reply) := MarkAttemptFailed(db, g, i, None);
    Writes(sys, played + [Advances(|processes|, NoAnswer)], db, processes, log, SweepMark(g, i, pending), after, reply,
           SweepNext(g, pending));
  }

  lemma UnstoredRow(db: Db, g: Gateway, i: nat, cutoff: int, rest: seq<nat>)
    requires i < |db.attempts| && db.attempts[i].status == AttemptPending && db.attempts[i].authority.None?
    ensures After(db, SweepNext(g, Sweep(cutoff, [i] + rest)), Done, NoAnswer) == SweepMark(g, i, Sweep(cutoff, rest))
  {
    assert ([i] + rest)[1..] == rest;
  }

  lemma MarkingIs(db: Db, g: Gateway, i: nat, pending: Sweep)
    ensures Commit(db, Transaction(SweepMark(g, i, pending))) == MarkAttemptFailed(db, g, i, None)
    ensures forall later, reply :: After(later, SweepMark(g, i, pending), reply, NoAnswer) == SweepNext(g, pending)
  {
  }

  /** A failure ends a process, except that a sweep goes on with its next row. */
  lemma FailuresEndAllButSweeps(p: Process, g: Gateway, i: nat, x: string, amount: int, r: VerifyResult, pending: Sweep)
    ensures p in {ReconcileStart(g, i, Some(pending)), ReconcileReplied(g, i, x, amount, r, Some(pending)),
                  ReconcileRecheck(g, i, Some(pending)), ExpireReady(g, i, pending), SweepMark(g, i, pending)} ==>
              OnFailure(p) == SweepNext(g, pending)
    ensures !p.ReconcileStart? && !p.ReconcileReplied? && !p.ReconcileRecheck? && !p.ExpireReady? && !p.SweepMark? ==>
              OnFailure(p) == Finished
  {
  }

  /** A failure or a crash of one process changes no table, no other process and not what has been said. */
  lemma InterruptionOutcome(sys: System, k: nat, crash: bool)
    requires k < |sys.processes|
    ensures var h := if crash then Crashes(k) else Fails(k);
            && Allowed(sys, h)
            && (var after := Happen(sys, h);
                && after.db == sys.db && after.log == sys.log && |after.processes| == |sys.processes|
                && (crash ==> after.processes[k] == Finished)
                && (!crash && !sys.processes[k].ReconcileStart? && !sys.processes[k].ReconcileReplied?
                      && !sys.processes[k].ReconcileRecheck? && !sys.processes[k].ExpireReady? && !sys.processes[k].SweepMark? ==>
                     after.processes[k] == Finished)
                && (!crash ==> after.processes[k] == OnFailure(sys.processes[k]))
                && forall j | 0 <= j < |sys.processes| && j != k :: after.processes[j] == sys.processes[j])
  {
  }

  /** Every transaction but those of the payment handlers may come in between, and does what it does alone. */
  lemma OtherTrafficOutcome(sys: System, s: Step)
    ensures Allowed(sys, Commits(s)) <==>
              && !s.DoCreateAttempt? && !s.DoSetAuthority? && !s.DoMarkFailed?
              && !s.DoFinalizeVerified? && !s.DoFinalizeFailed? && !s.DoExpireRejected?
    ensures Allowed(sys, Commits(s)) ==> Happen(sys, Commits(s)) == System(Apply(sys.db, s).0, sys.processes, sys.log)
  {
  }

  // ----- refunds

  /** A return that has come back, and the refund of its order. */
  ghost predicate CanBeRefunded(db: Db, q: nat, r: nat) {
    && q < |db.returnRequests| && db.returnRequests[q].status in {ReturnReceived, ReturnRefundPending}
    && r < |db.refunds| && db.refunds[r].order == db.returnRequests[q].order
    && db.refunds[r].order < |db.orders|
    && forall k | 0 <= k < |db.refunds| && k != r :: db.refunds[k].order != db.refunds[r].order
  }

  lemma TheRefundIsFound(db: Db, q: nat, r: nat)
    requires CanBeRefunded(db, q, r)
    ensures FindRefund(db.refunds, db.returnRequests[q].order) == Some(r)
  {
    assert HasRefund(db.refunds, db.returnRequests[q].order) by {
      assert db.refunds[r].order == db.returnRequests[q].order;
    }
  }

  /** Refund r in status s, and its paid order refunded when that is success. */
  function Moved(db: Db, r: nat, s: RefundStatus, outbox: map<string, EventKeys.Event>): Db
    requires r < |db.refunds|
  {
    var o := db.refunds[r].order;
    db.(refunds := db.refunds[r := db.refunds[r].(status := s)],
        orders := if s == RefundSucceeded && o < |db.orders| && db.orders[o].payment == Paid
                  then db.orders[o := db.orders[o].(payment := Refunded)] else db.orders,
        outbox := outbox)
  }

  lemma RefundStepIs(db: Db, r: nat, s: RefundStatus) returns (after: Db)
    requires r < |db.refunds| && RefundMoves(db.refunds[r].status, s)
    ensures Apply(db, DoUpdateRefund(r, s)) == (after, Done)
    ensures after == Moved(db, r, s, after.outbox)
  {
    UpdateRefundOutcome(db, r, s);
    after := UpdateRefundStatus(db, r, s).0;
    assert Apply(db, DoUpdateRefund(r, s)) == UpdateRefundStatus(db, r, s);
  }

  lemma RefundReads(db: Db, q: nat, r: nat, manual: bool)
    requires CanBeRefunded(db, q, r)
    requires (db.refunds[r].payMethod == Manual) == manual && db.refunds[r].status != RefundSucceeded
    ensures var o := db.returnRequests[q].order;
            && After(db, RefundStart(q, manual), Done, NoAnswer) == ReturnSeen(o, manual)
            && After(db, ReturnSeen(o, manual), Done, NoAnswer)
               == if manual then ManualLoaded(r, db.refunds[r].status) else RefundLoaded(r, o)
  {
    TheRefundIsFound(db, q, r);
  }

  function OnlineRefundRun(k: nat, q: nat, result: RefundResult): seq<Happening> {
    [Arrives(RefundStart(q, false))] + [Advances(k, NoAnswer)] + [Advances(k, NoAnswer)] + [Advances(k, NoAnswer)]
    + [Advances(k, NoAnswer)] + [Advances(k, RefundOutcome(result))] + [Advances(k, NoAnswer)]
  }

  /** How an online refund ends: paid out, or for a person to look at. */
  function EndOf(result: RefundResult): RefundStatus {
    if result.RefundAnswered? && result.success then RefundSucceeded else RefundManualReview
  }

  /** The first two steps of a refund handler: it reads the return and finds the refund. */
  lemma RefundIsLoaded(sys: System, q: nat, r: nat, manual: bool)
    requires CanBeRefunded(sys.db, q, r)
    requires (sys.db.refunds[r].payMethod == Manual) == manual && sys.db.refunds[r].status != RefundSucceeded
    ensures Play(sys, [Arrives(RefundStart(q, manual))] + [Advances(|sys.processes|, NoAnswer)]
                      + [Advances(|sys.processes|, NoAnswer)])
            == Some(With(sys.db, sys.processes, sys.log,
                         if manual then ManualLoaded(r, sys.db.refunds[r].status)
                         else RefundLoaded(r, sys.db.refunds[r].order)))
  {
    var k, o := |sys.processes|, sys.db.refunds[r].order;
    RefundReads(sys.db, q, r, manual);
    StartsReadingTwice(sys, RefundStart(q, manual), ReturnSeen(o, manual),
                       if manual then ManualLoaded(r, sys.db.refunds[r].status) else RefundLoaded(r, o));
  }

  lemma ClaimedRefundCalls(sys: System, played: seq<Happening>, db: Db, processes: seq<Process>, log: seq<Call>, r: nat,
                           o: nat, result: RefundResult)
    requires Play(sys, played) == Some(With(db, processes, log, RefundClaimed(r, o))) && o < |db.orders|
    ensures Play(sys, played + [Advances(|processes|, NoAnswer)] + [Advances(|processes|, RefundOutcome(result))])
            == Some(With(db, processes, log + [RefundCall(r, o, db.orders[o].total, result)], RefundReplied(r, result)))
  {
    var total := db.orders[o].total;
    Reads(sys, played, db, processes, log, RefundClaimed(r, o), NoAnswer, RefundReady(r, o, total));
    Speaks(sys, played + [Advances(|processes|, NoAnswer)], db, processes, log, RefundReady(r, o, total),
           RefundOutcome(result), RefundCall(r, o, total, result), RefundReplied(r, result));
  }

  lemma OnlineRefundCalls(sys: System, q: nat, r: nat, result: RefundResult) returns (claimed: Db)
    requires CanBeRefunded(sys.db, q, r) && sys.db.refunds[r].payMethod == ZarinPal && sys.db.refunds[r].status == RefundPending
    ensures var (k, o) := (|sys.processes|, sys.db.refunds[r].order);
            && claimed == Moved(sys.db, r, RefundProcessing, claimed.outbox)
            && Play(sys, [Arrives(RefundStart(q, false))] + [Advances(k, NoAnswer)] + [Advances(k, NoAnswer)]
                         + [Advances(k, NoAnswer)] + [Advances(k, NoAnswer)] + [Advances(k, RefundOutcome(result))])
               == Some(With(claimed, sys.processes, sys.log + [RefundCall(r, o, sys.db.orders[o].total, result)],
                            RefundReplied(r, result)))
  {
    var k, o := |sys.processes|, sys.db.refunds[r].order;
    var played := [Arrives(RefundStart(q, false))] + [Advances(k, NoAnswer)] + [Advances(k, NoAnswer)];
    RefundIsLoaded(sys, q, r, false);
    claimed := RefundStepIs(sys.db, r, RefundProcessing);
    Writes(sys, played, sys.db, sys.processes, sys.log, RefundLoaded(r, o), claimed, Done, RefundClaimed(r, o));
    ClaimedRefundCalls(sys, played + [Advances(k, NoAnswer)], claimed, sys.processes, sys.log, r, o, result);
  }

  lemma RefundEnds(sys: System, played: seq<Happening>, db: Db, processes: seq<Process>, log: seq<Call>, r: nat,
                   result: RefundResult) returns (after: Db)
    requires r < |db.refunds| && db.refunds[r].status == RefundProcessing
    requires Play(sys, played) == Some(With(db, processes, log, RefundReplied(r, result)))
    ensures after == Moved(db, r, EndOf(result), after.outbox)
    ensures Play(sys, played + [Advances(|processes|, NoAnswer)]) == Some(With(after, processes, log, Finished))
  {
    after := RefundStepIs(db, r, EndOf(result));
    Writes(sys, played, db, processes, log, RefundReplied(r, result), after, Done, Finished);
  }

  lemma MovedTwice(db: Db, r: nat, s: RefundStatus, outbox: map<string, EventKeys.Event>, later: map<string, EventKeys.Event>)
    requires r < |db.refunds|
    ensures Moved(Moved(db, r, RefundProcessing, outbox), r, s, later) == Moved(db, r, s, later)
  {
    assert Moved(Moved(db, r, RefundProcessing, outbox), r, s, later).refunds == db.refunds[r := db.refunds[r].(status := s)];
  }

  /**
   * An admin's refund of a return that has come back claims the pending online refund, has the provider pay out
   * the order's total, and ends as succeeded with the order refunded, or else under review.
   */
  lemma OnlineRefundOutcome(sys: System, q: nat, r: nat, result: RefundResult) returns (after: Db)
    requires CanBeRefunded(sys.db, q, r) && sys.db.refunds[r].payMethod == ZarinPal && sys.db.refunds[r].status == RefundPending
    ensures after == Moved(sys.db, r, EndOf(result), after.outbox)
    ensures var o := sys.db.refunds[r].order;
            Play(sys, OnlineRefundRun(|sys.processes|, q, result))
            == Some(System(after, sys.processes + [Finished], sys.log + [RefundCall(r, o, sys.db.orders[o].total, result)]))
  {
    var k, o := |sys.processes|, sys.db.refunds[r].order;
    var claimed := OnlineRefundCalls(sys, q, r, result);
    var played := [Arrives(RefundStart(q, false))] + [Advances(k, NoAnswer)] + [Advances(k, NoAnswer)]
                  + [Advances(k, NoAnswer)] + [Advances(k, NoAnswer)] + [Advances(k, RefundOutcome(result))];
    after := RefundEnds(sys, played, claimed, sys.processes,
                        sys.log + [RefundCall(r, o, sys.db.orders[o].total, result)], r, result);
    MovedTwice(sys.db, r, EndOf(result), claimed.outbox, after.outbox);
  }

  function ManualRefundRun(k: nat, q: nat): seq<Happening> {
    [Arrives(RefundStart(q, true))] + [Advances(k, NoAnswer)] + [Advances(k, NoAnswer)] + [Advances(k, NoAnswer)]
    + [Advances(k, NoAnswer)]
  }

  lemma ManualStart(db: Db, r: nat) returns (claimed: Db)
    requires r < |db.refunds| && db.refunds[r].status in {RefundPending, RefundProcessing, RefundManualReview}
    ensures Commit(db, Transaction(ManualLoaded(r, db.refunds[r].status))) == (claimed, Done)
    ensures After(claimed, ManualLoaded(r, db.refunds[r].status), Done, NoAnswer) == ManualClaimed(r)
    ensures claimed == if db.refunds[r].status == RefundPending then Moved(db, r, RefundProcessing, claimed.outbox) else db
  {
    if db.refunds[r].status == RefundPending {
      claimed := RefundStepIs(db, r, RefundProcessing);
    } else {
      claimed := db;
    }
  }

  /** A refund by hand succeeds without the provider, from pending, processing or review alike. */
  lemma ManualRefundOutcome(sys: System, q: nat, r: nat) returns (after: Db)
    requires CanBeRefunded(sys.db, q, r) && sys.db.refunds[r].payMethod == Manual
    requires sys.db.refunds[r].status in {RefundPending, RefundProcessing, RefundManualReview}
    ensures after == Moved(sys.db, r, RefundSucceeded, after.outbox)
    ensures Play(sys, ManualRefundRun(|sys.processes|, q)) == Some(System(after, sys.processes + [Finished], sys.log))
  {
    var k, s := |sys.processes|, sys.db.refunds[r].status;
    var played := [Arrives(RefundStart(q, true))] + [Advances(k, NoAnswer)] + [Advances(k, NoAnswer)];
    RefundIsLoaded(sys, q, r, true);
    var claimed := ManualStart(sys.db, r);
    after := RefundStepIs(claimed, r, RefundSucceeded);
    if s == RefundPending {
      MovedTwice(sys.db, r, RefundSucceeded, claimed.outbox, after.outbox);
    }
    ManualRefundEnds(sys, played, sys.db, claimed, after, sys.processes, sys.log, r, s);
  }

  lemma ManualRefundEnds(sys: System, played: seq<Happening>, db: Db, claimed: Db, after: Db, processes: seq<Process>,
                         log: seq<Call>, r: nat, s: RefundStatus)
    requires Play(sys, played) == Some(With(db, processes, log, ManualLoaded(r, s)))
    requires Commit(db, Transaction(ManualLoaded(r, s))) == (claimed, Done)
    requires After(claimed, ManualLoaded(r, s), Done, NoAnswer) == ManualClaimed(r)
    requires Apply(claimed, DoUpdateRefund(r, RefundSucceeded)) == (after, Done)
    ensures Play(sys, played + [Advances(|processes|, NoAnswer)] + [Advances(|processes|, NoAnswer)])
            == Some(With(after, processes, log, Finished))
  {
    Writes(sys, played, db, processes, log, ManualLoaded(r, s), claimed, Done, ManualClaimed(r));
    Writes(sys, played + [Advances(|processes|, NoAnswer)], claimed, processes, log, ManualClaimed(r), after, Done, Finished);
  }

  /** A handler that cannot claim the refund stops; one by hand needs no claim once the refund has left pending. */
  lemma ClaimsDecide(db: Db, r: nat, o: nat, s: RefundStatus, reply: Reply, answer: Answer)
    ensures After(db, RefundLoaded(r, o), reply, answer) == if reply == Done then RefundClaimed(r, o) else Finished
    ensures After(db, ManualLoaded(r, RefundPending), reply, answer) == if reply == Done then ManualClaimed(r) else Finished
    ensures s != RefundPending ==> After(db, ManualLoaded(r, s), reply, answer) == ManualClaimed(r)
  {
  }

  /** Nothing happens for a return that has not come back, a refund paid in another way, or one that has succeeded. */
  lemma RefundNotDue(sys: System, q: nat, manual: bool)
    ensures var db := sys.db;
            && (q >= |db.returnRequests| || db.returnRequests[q].status !in {ReturnReceived, ReturnRefundPending} ==>
                 After(db, RefundStart(q, manual), Done, NoAnswer) == Finished)
            && (forall o: nat ::
                 (!(exists r :: 0 <= r < |db.refunds| && db.refunds[r].order == o) ==>
                   After(db, ReturnSeen(o, manual), Done, NoAnswer) == Finished))
            && (forall o: nat, r: nat | r < |db.refunds| && FindRefund(db.refunds, o) == Some(r) ::
                 (db.refunds[r].payMethod == Manual) != manual || db.refunds[r].status == RefundSucceeded ==>
                   After(db, ReturnSeen(o, manual), Done, NoAnswer) == Finished)
  {
  }
}
