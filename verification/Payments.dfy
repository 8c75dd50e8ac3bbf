/**
 * The life of outbound payments over runs with duplicates, replays and restarts.
 */
module Payments {
  import opened Wrappers
  import opened Types
  import opened Stores

  /** The stored payments, and the ids the channel manager has reported as sent. */
  datatype State = State(payments: OutboundMap, sent: set<PaymentId>)

  datatype Step =
    | SendPayment(id: PaymentId, info: PaymentInfo, accepted: bool, now: nat)
    | PaymentSent(id: PaymentId, preimage: Preimage, now: nat)
    | PaymentFailed(id: PaymentId, now: nat)
    | Restart(recent: set<PaymentId>, now: nat)

  /**
   * New payments are stored as pending; events name stored payments; the channel manager
   * reports a failure only for payments it has not reported as sent.
   */
  predicate Enabled(s: State, step: Step) {
    match step
    case SendPayment(_, info, _, _) => info.status == HtlcStatus.Pending
    case PaymentSent(id, _, _) => id in s.payments
    case PaymentFailed(id, _) => id in s.payments && id !in s.sent
    case Restart(_, _) => true
  }

  function WithStatus(payments: OutboundMap, id: PaymentId, status: HtlcStatus, now: nat): OutboundMap
    requires id in payments
  {
    payments[id := payments[id].(status := status, updatedAt := now)]
  }

  function Apply(s: State, step: Step): State
    requires Enabled(s, step)
  {
    match step
    case SendPayment(id, info, accepted, now) =>
      if !MayAdd(s.payments, id) then s
      else
        var payments: OutboundMap := s.payments[id := info];
        s.(payments := if accepted then payments else WithStatus(payments, id, HtlcStatus.Failed, now))
    case PaymentSent(id, preimage, now) =>
      var info := s.payments[id].(status := HtlcStatus.Succeeded, preimage := Some(preimage), updatedAt := now);
      State(s.payments[id := info], s.sent + {id})
    case PaymentFailed(id, now) =>
      s.(payments := WithStatus(s.payments, id, HtlcStatus.Failed, now))
    case Restart(recent, now) =>
      s.(payments := Reconciled(s.payments, recent, now))
  }

  /** The handler of a payment request: adds the payment, then hands it to the channel manager. */
  method Send(app: UnlockedAppState, id: PaymentId, info: PaymentInfo, accepted: bool, now: nat)
    returns (r: Result<HtlcStatus, HtlcStatus>)
    requires app.Valid() && info.status == HtlcStatus.Pending
    modifies app`outboundPayments, app`outboundFile
    ensures app.Valid()
    ensures forall sent ::
              State(app.outboundPayments, sent)
              == Apply(State(old(app.outboundPayments), sent), SendPayment(id, info, accepted, now))
    ensures r == if !MayAdd(old(app.outboundPayments), id) then Err(old(app.outboundPayments)[id].status)
                 else Ok(app.outboundPayments[id].status)
  {
    var added := app.AddOutboundPayment(id, info);
    if added.Err? {
      return Err(added.error);
    }
    if accepted {
      return Ok(HtlcStatus.Pending);
    }
    var panic := app.UpdateOutboundPaymentStatus(id, HtlcStatus.Failed, now);
    return Ok(HtlcStatus.Failed);
  }

  /** A run of enabled steps from a state. */
  function Run(s: State, steps: seq<Step>): Option<State>
    decreases |steps|
  {
    if steps == [] then Some(s)
    else if !Enabled(s, steps[0]) then None
    else Run(Apply(s, steps[0]), steps[1..])
  }

  /** Sent payments are stored, and succeeded payments are exactly the sent ones. */
  ghost predicate SentIsSucceeded(s: State) {
    forall id :: (id in s.payments && s.payments[id].status == HtlcStatus.Succeeded) <==> id in s.sent
  }

  /**
   * Over every run: Succeeded is exactly what the channel manager reported as sent, so a
   * payment that has succeeded stays so, whatever is re-added, reported or restarted.
   */
  lemma {:induction false} SucceededIsAbsorbing(s: State, steps: seq<Step>)
    requires SentIsSucceeded(s) && Run(s, steps).Some?
    decreases |steps|
    ensures var s' := Run(s, steps).value;
            && SentIsSucceeded(s') && s.sent <= s'.sent
            && forall id | id in s.payments && s.payments[id].status == HtlcStatus.Succeeded ::
                 id in s'.payments && s'.payments[id].status == HtlcStatus.Succeeded
  {
    if steps != [] {
      SucceededIsAbsorbing(Apply(s, steps[0]), steps[1..]);
    }
  }

  /** A request replaces a stored payment only if there was none or it had failed. */
  lemma ReaddedOnlyWhenFailed(s: State, id: PaymentId, info: PaymentInfo, accepted: bool, now: nat, other: PaymentId)
    requires Enabled(s, SendPayment(id, info, accepted, now))
    ensures var s' := Apply(s, SendPayment(id, info, accepted, now));
            && (other != id ==> (other in s'.payments <==> other in s.payments))
            && (other in s.payments && s'.payments[other] != s.payments[other] ==>
                  other == id && s.payments[id].status == HtlcStatus.Failed)
            && (MayAdd(s.payments, id) ==>
                  && id in s'.payments
                  && s'.payments[id] == if accepted then info else info.(status := HtlcStatus.Failed, updatedAt := now))
            && s'.sent == s.sent
  {
  }

  /** Startup fails exactly the pending payments the channel manager does not know. */
  lemma ReconciliationIsExact(payments: OutboundMap, recent: set<PaymentId>, now: nat, id: PaymentId)
    requires id in payments
    ensures var after := Reconciled(payments, recent, now);
            && after.Keys == payments.Keys
            && (payments[id].status != HtlcStatus.Failed ==>
                  (after[id].status == HtlcStatus.Failed
                   <==> payments[id].status == HtlcStatus.Pending && id !in recent))
            && (after[id] != payments[id] ==>
                  after[id] == payments[id].(status := HtlcStatus.Failed, updatedAt := now))
            && Reconciled(after, recent, now) == after
  {
    assert Reconciled(Reconciled(payments, recent, now), recent, now).Keys == payments.Keys;
  }

  /** A report changes the payment it names, and of it the status, the time and, when sent, the preimage. */
  lemma ReportsAreStored(s: State, id: PaymentId, preimage: Preimage, now: nat)
    requires id in s.payments
    ensures Apply(s, PaymentSent(id, preimage, now)).payments
            == s.payments[id := s.payments[id].(status := HtlcStatus.Succeeded, preimage := Some(preimage),
                                                updatedAt := now)]
    ensures id !in s.sent ==>
              Apply(s, PaymentFailed(id, now))
              == s.(payments := s.payments[id := s.payments[id].(status := HtlcStatus.Failed, updatedAt := now)])
  {
  }
}
