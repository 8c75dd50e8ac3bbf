/** The API calls and event handlers that touch swaps, on the stores of the node. */
module SwapHandlers {
  import opened Wrappers
  import opened Types
  import opened SwapOffer
  import opened SwapRoute
  import opened Stores
  import opened SwapMachine

  /** The swaps of the node, given the HTLCs it has forwarded. */
  ghost function SwapsOf(app: UnlockedAppState, forwarded: seq<Forward>): Swaps
    reads app
  {
    Swaps(app.makerSwaps, app.takerSwaps, forwarded)
  }

  /** The handler took the machine's step, or panicked as the machine does. */
  ghost predicate Took(outcome: Outcome, app: UnlockedAppState, panic: Option<Panic>, forwarded: seq<Forward>)
    reads app
  {
    match outcome
    case Next(swaps) => panic == None && SwapsOf(app, forwarded) == swaps
    case Panicked(swaps, e) => panic == Some(e) && SwapsOf(app, forwarded) == swaps
  }

  method MakerInitSwap(app: UnlockedAppState, hash: PaymentHash, req: InitRequest, now: nat, maxBalance: u64)
    returns (created: bool)
    requires app.Valid()
    modifies app`makerSwaps, app`makerFile
    ensures app.Valid() && Took(Apply(old(SwapsOf(app, [])), MakerInit(hash, req, now, maxBalance)), app, None, [])
    ensures created <==> !InitRefused(req, maxBalance)
  {
    if req.fromAsset.None? && req.toAsset.None? {
      return false;
    }
    if req.fromAsset == req.toAsset {
      return false;
    }
    if req.toAsset.Some? && req.qtyTo > maxBalance {
      return false;
    }
    app.AddMakerSwap(hash, NewSwap(InitInfo(req, now), now));
    return true;
  }

  method TakeSwap(app: UnlockedAppState, offer: Option<(PaymentHash, SwapInfo)>, now: nat, maxBalance: u64)
    returns (taken: bool)
    requires app.Valid() && Enabled(Taker(offer, now, maxBalance))
    modifies app`takerSwaps, app`takerFile
    ensures app.Valid() && Took(Apply(old(SwapsOf(app, [])), Taker(offer, now, maxBalance)), app, None, [])
    ensures taken <==> offer.Some? && !TakeRefused(offer.value.1, now, maxBalance)
  {
    if offer.None? {
      return false;
    }
    var (hash, info) := offer.value;
    if now > info.expiry {
      return false;
    }
    if info.fromAsset.Some? && info.qtyFrom > maxBalance {
      return false;
    }
    app.AddTakerSwap(hash, NewSwap(info, now));
    return true;
  }

  method MakerExecuteSwap(app: UnlockedAppState, exec: ExecuteRequest, now: nat)
    returns (route: Option<seq<RouteHop>>, panic: Option<Panic>)
    requires app.Valid() && exec.WellFormed()
    modifies app`makerSwaps, app`makerFile
    ensures app.Valid() && Took(Apply(old(SwapsOf(app, [])), MakerExecute(exec, now)), app, panic, [])
    ensures route.Some? <==>
              && exec.RequestOk() && exec.Payable() && now <= exec.offer.value.1.expiry
              && exec.offer.value.0 in old(app.makerSwaps) && exec.sendOk
    ensures route.Some? ==>
              route.value == Composed(exec.legs.value.0, exec.legs.value.1, exec.offer.value.1)
  {
    route := None;
    if !(exec.offer.Some? && exec.secretOk && exec.pubkeyOk) {
      return None, None;
    }
    var (hash, info) := exec.offer.value;
    if now > info.expiry {
      panic := app.UpdateMakerSwapStatus(hash, Expired, now);
      return;
    }
    if !exec.preimageKnown {
      return None, None;
    }
    if !HintsReady(exec.channels, info) {
      return None, Some(MissingRoutingInfo);
    }
    if exec.legs.None? {
      return None, None;
    }
    var (leg1, leg2) := exec.legs.value;
    var first := new RouteHop[|leg1|](i requires 0 <= i < |leg1| => leg1[i]);
    var second := new RouteHop[|leg2|](i requires 0 <= i < |leg2| => leg2[i]);
    assert first[..] == leg1 && second[..] == leg2;
    var r := ComposeRoute(first, second, info);
    if r.Err? {
      return None, None;
    }
    panic := app.UpdateMakerSwapStatus(hash, SwapStatus.Pending, now);
    if panic.Some? {
      return;
    }
    if !exec.sendOk {
      panic := app.UpdateMakerSwapStatus(hash, SwapStatus.Failed, now);
      return;
    }
    route := Some(r.value);
  }

  method HandlePaymentClaimed(app: UnlockedAppState, hash: PaymentHash, preimage: Option<Preimage>,
                              secret: Option<Secret>,
                              amountMsat: u64, receiver: Option<NodeId>, now: nat)
    returns (panic: Option<Panic>)
    requires app.Valid()
    modifies app`makerSwaps, app`makerFile, app`inboundPayments, app`inboundFile
    ensures app.Valid() && Took(Apply(old(SwapsOf(app, [])), PaymentClaimed(hash, receiver.Some?, now)), app, panic, [])
    ensures old(hash in app.makerSwaps) || receiver.None? ==> app.inboundPayments == old(app.inboundPayments)
    ensures old(hash !in app.makerSwaps) && receiver.Some? ==>
              && app.inboundPayments - {hash} == old(app.inboundPayments) - {hash} && hash in app.inboundPayments
              && var was := old(app.inboundPayments);
              && var info := app.inboundPayments[hash];
              && info.preimage == preimage && info.secret == secret && info.status == HtlcStatus.Succeeded
              && info.updatedAt == now
              && (hash in was ==>
                    info.amtMsat == was[hash].amtMsat && info.createdAt == was[hash].createdAt
                    && info.payee == was[hash].payee)
              && (hash !in was ==>
                    info.amtMsat == Some(amountMsat) && info.createdAt == now && info.payee == receiver.value)
  {
    if hash in app.makerSwaps {
      panic := app.UpdateMakerSwapStatus(hash, SwapStatus.Succeeded, now);
    } else if receiver.None? {
      panic := Some(MissingEntry);
    } else {
      app.UpsertInboundPayment(hash, HtlcStatus.Succeeded, preimage, secret, Some(amountMsat), receiver.value, now);
      panic := None;
    }
  }

  /** Panics when a payment that is no maker swap is not stored under the id the event names. */
  method HandlePaymentSent(app: UnlockedAppState, hash: PaymentHash, id: Option<PaymentId>,
                           preimage: Preimage, now: nat)
    returns (panic: Option<Panic>)
    requires app.Valid()
    modifies app`makerSwaps, app`makerFile, app`outboundPayments, app`outboundFile
    ensures var known := id.Some? && id.value in old(app.outboundPayments);
            && app.Valid() && Took(Apply(old(SwapsOf(app, [])), PaymentSent(hash, known, now)), app, panic, [])
            && (old(hash in app.makerSwaps) || !known ==> app.outboundPayments == old(app.outboundPayments))
            && (old(hash !in app.makerSwaps) && known ==>
                  app.outboundPayments
                  == old(app.outboundPayments)[id.value := old(app.outboundPayments)[id.value].(
                       status := HtlcStatus.Succeeded, preimage := Some(preimage), updatedAt := now)])
  {
    if hash in app.makerSwaps {
      panic := app.UpdateMakerSwapStatus(hash, SwapStatus.Succeeded, now);
    } else if id.None? {
      panic := Some(MissingEntry);
    } else {
      var r := app.UpdateOutboundPayment(id.value, HtlcStatus.Succeeded, Some(preimage), now);
      panic := if r.Err? then Some(r.error) else None;
    }
  }

  /** Panics when a payment that is no maker swap is not stored under the id the event names. */
  method HandlePaymentFailed(app: UnlockedAppState, hash: Option<PaymentHash>, id: PaymentId, now: nat)
    returns (panic: Option<Panic>)
    requires app.Valid()
    modifies app`makerSwaps, app`makerFile, app`outboundPayments, app`outboundFile
    ensures var known := id in old(app.outboundPayments);
            var swap := old(hash.Some? && hash.value in app.makerSwaps);
            && app.Valid() && Took(Apply(old(SwapsOf(app, [])), PaymentFailed(hash, known, now)), app, panic, [])
            && (swap || !known ==> app.outboundPayments == old(app.outboundPayments))
            && (!swap && known ==>
                  app.outboundPayments
                  == old(app.outboundPayments)[id := old(app.outboundPayments)[id].(
                       status := HtlcStatus.Failed, updatedAt := now)])
  {
    if hash.Some? && hash.value in app.makerSwaps {
      panic := app.UpdateMakerSwapStatus(hash.value, SwapStatus.Failed, now);
    } else {
      panic := app.UpdateOutboundPaymentStatus(id, HtlcStatus.Failed, now);
    }
  }

  /** Panics, before it touches the swap, when the event does not name both channels. */
  method HandlePaymentForwarded(app: UnlockedAppState, hash: PaymentHash, prev: Option<ChannelId>,
                                next: Option<ChannelId>, now: nat)
    returns (panic: Option<Panic>)
    requires app.Valid()
    modifies app`takerSwaps, app`takerFile
    ensures app.Valid()
    ensures Took(Apply(old(SwapsOf(app, [])), PaymentForwarded(hash, prev.Some? && next.Some?, now)), app, panic, [])
  {
    if prev.None? || next.None? {
      return Some(MissingEntry);
    }
    panic := None;
    if hash in app.takerSwaps {
      panic := app.UpdateTakerSwapStatus(hash, SwapStatus.Succeeded, now);
    }
  }

  /** Fails or forwards an intercepted HTLC; the forwarded ones are the machine's. */
  method HandleHtlcIntercepted(app: UnlockedAppState, hash: PaymentHash, e: Interception, now: nat)
    returns (forward: bool, panic: Option<Panic>)
    requires app.Valid()
    modifies app`takerSwaps, app`takerFile
    ensures app.Valid() && (forward ==> hash in old(app.takerSwaps) && e.Sound())
    ensures Took(Apply(old(SwapsOf(app, [])), HtlcIntercepted(hash, e, now)), app, panic,
                 if forward then [Forward(hash, old(app.takerSwaps)[hash].info, e.Htlc())] else [])
  {
    if !e.isSwap && !e.refusalTaken {
      return false, Some(NotRelayed);
    }
    var inbound, outbound := FindChannel(e.channels, e.prev), FindChannel(e.channels, e.next);
    if inbound.None? || outbound.None? {
      return false, Some(UnknownChannel);
    }
    if hash !in app.takerSwaps {
      return false, if e.decisionTaken then None else Some(NotRelayed);
    }
    var info := app.takerSwaps[hash].info;
    var fail := FailsWhitelist(info, e.Htlc());
    if fail {
      panic := app.UpdateTakerSwapStatus(hash, SwapStatus.Failed, now);
      return false, if e.decisionTaken then panic else Some(NotRelayed);
    }
    panic := app.UpdateTakerSwapStatus(hash, SwapStatus.Pending, now);
    if !e.decisionTaken {
      return false, Some(NotRelayed);
    }
    forward := true;
  }

  /** The three-case comparison of an HTLC with an offer. */
  method FailsWhitelist(info: SwapInfo, htlc: InterceptedHtlc) returns (fail: bool)
    ensures fail <==> !Whitelisted(info, htlc)
  {
    fail := false;
    if info.IsFromBtc() {
      var netMsatDiff := CheckedSub(htlc.expectedOutboundMsat, htlc.inboundMsat);
      if htlc.inboundRgb != Some(info.qtyTo) || htlc.inboundContract != info.toAsset
         || netMsatDiff != Some(info.qtyFrom) {
        fail := true;
      }
    } else if info.IsToBtc() {
      var netMsatDiff := SaturatingSub(htlc.inboundMsat, htlc.expectedOutboundMsat);
      if || RgbAmount(htlc.expectedOutboundRgb) != Some(info.qtyFrom)
         || htlc.outboundContract != info.fromAsset || netMsatDiff != info.qtyTo {
        fail := true;
      }
    } else {
      var netMsatDiff := CheckedSub(htlc.inboundMsat, htlc.expectedOutboundMsat);
      if || netMsatDiff != Some(0)
         || RgbAmount(htlc.expectedOutboundRgb) != Some(info.qtyFrom) || htlc.outboundContract != info.fromAsset
         || htlc.inboundRgb != Some(info.qtyTo) || htlc.inboundContract != info.toAsset {
        fail := true;
      }
    }
  }

  /** A swap as a query shows it: the current status with the time stamps of the snapshot. */
  function Shown(swap: SwapData, now: nat): SwapData
    requires Stamped(swap)
  {
    swap.(status := CurrentStatus(swap, now))
  }

  /** Shows one swap of a snapshot, writing a lazily changed status back to the live store. */
  method MapSwap(app: UnlockedAppState, hash: PaymentHash, swap: SwapData, taker: bool, now: nat)
    returns (shown: SwapData)
    requires app.Valid() && Stamped(swap)
    requires taker ==> hash in app.takerSwaps && app.takerSwaps[hash] == swap
    requires !taker ==> hash in app.makerSwaps && app.makerSwaps[hash] == swap
    modifies app`makerSwaps, app`makerFile, app`takerSwaps, app`takerFile
    ensures app.Valid() && shown == Shown(swap, now)
    ensures app.takerSwaps == if taker then old(app.takerSwaps)[hash := Swept(swap, now)] else old(app.takerSwaps)
    ensures app.makerSwaps == if taker then old(app.makerSwaps) else old(app.makerSwaps)[hash := Swept(swap, now)]
  {
    var status := swap.status;
    if status == Waiting && now > swap.info.expiry {
      status := Expired;
    } else if status == SwapStatus.Pending && now > swap.initiatedAt.value + PENDING_TIMEOUT_SEC {
      status := SwapStatus.Failed;
    }
    if status != swap.status {
      if taker {
        var _ := app.UpdateTakerSwapStatus(hash, status, now);
      } else {
        var _ := app.UpdateMakerSwapStatus(hash, status, now);
      }
    }
    return swap.(status := status);
  }

  /** Partly swept: the swaps still to do are as they were. */
  ghost predicate SweptExcept(was: SwapMap, live: SwapMap, todo: set<PaymentHash>, now: nat)
    requires Queryable(was)
  {
    live.Keys == was.Keys && forall h | h in was :: live[h] == if h in todo then was[h] else SweptMap(was, now)[h]
  }

  ghost predicate ShownExcept(was: SwapMap, shown: SwapMap, todo: set<PaymentHash>, now: nat)
    requires Queryable(was)
  {
    shown.Keys == was.Keys - todo && forall h | h in shown :: shown[h] == Shown(was[h], now)
  }

  lemma OneLess(was: SwapMap, live: SwapMap, shown: SwapMap, todo: set<PaymentHash>, h: PaymentHash, now: nat)
    requires Queryable(was) && h in todo && todo <= was.Keys
    requires SweptExcept(was, live, todo, now) && ShownExcept(was, shown, todo, now)
    ensures SweptExcept(was, live[h := Swept(was[h], now)], todo - {h}, now)
    ensures ShownExcept(was, shown[h := Shown(was[h], now)], todo - {h}, now)
  {
  }

  lemma NoneLeft(was: SwapMap, live: SwapMap, shown: SwapMap, now: nat)
    requires Queryable(was) && SweptExcept(was, live, {}, now) && ShownExcept(was, shown, {}, now)
    ensures live == SweptMap(was, now) && shown == map h | h in was :: Shown(was[h], now)
  {
  }

  /** Lists a snapshot of the store, in whatever order it yields, while updating the live store. */
  method ListTakerSwaps(app: UnlockedAppState, now: nat) returns (shown: SwapMap)
    requires app.Valid() && Queryable(app.takerSwaps)
    modifies app`makerSwaps, app`makerFile, app`takerSwaps, app`takerFile
    ensures app.Valid() && app.takerSwaps == SweptMap(old(app.takerSwaps), now) && app.makerSwaps == old(app.makerSwaps)
    ensures shown == map h | h in old(app.takerSwaps) :: Shown(old(app.takerSwaps)[h], now)
  {
    var snapshot := app.takerSwaps;
    shown := map[];
    var todo := snapshot.Keys;
    while todo != {}
      invariant app.Valid() && todo <= snapshot.Keys && app.makerSwaps == old(app.makerSwaps)
      invariant SweptExcept(snapshot, app.takerSwaps, todo, now)
      invariant ShownExcept(snapshot, shown, todo, now)
    {
      var h :| h in todo;
      OneLess(snapshot, app.takerSwaps, shown, todo, h, now);
      var swap := MapSwap(app, h, snapshot[h], true, now);
      shown := shown[h := swap];
      todo := todo - {h};
    }
    NoneLeft(snapshot, app.takerSwaps, shown, now);
  }

  /** Lists a snapshot of the store, in whatever order it yields, while updating the live store. */
  method ListMakerSwaps(app: UnlockedAppState, now: nat) returns (shown: SwapMap)
    requires app.Valid() && Queryable(app.makerSwaps)
    modifies app`makerSwaps, app`makerFile, app`takerSwaps, app`takerFile
    ensures app.Valid() && app.makerSwaps == SweptMap(old(app.makerSwaps), now) && app.takerSwaps == old(app.takerSwaps)
    ensures shown == map h | h in old(app.makerSwaps) :: Shown(old(app.makerSwaps)[h], now)
  {
    var snapshot := app.makerSwaps;
    shown := map[];
    var todo := snapshot.Keys;
    while todo != {}
      invariant app.Valid() && todo <= snapshot.Keys && app.takerSwaps == old(app.takerSwaps)
      invariant SweptExcept(snapshot, app.makerSwaps, todo, now)
      invariant ShownExcept(snapshot, shown, todo, now)
    {
      var h :| h in todo;
      OneLess(snapshot, app.makerSwaps, shown, todo, h, now);
      var swap := MapSwap(app, h, snapshot[h], false, now);
      shown := shown[h := swap];
      todo := todo - {h};
    }
    NoneLeft(snapshot, app.makerSwaps, shown, now);
  }

  method ListAllSwaps(app: UnlockedAppState, now: nat) returns (taker: SwapMap, maker: SwapMap)
    requires app.Valid() && Queryable(app.takerSwaps) && Queryable(app.makerSwaps)
    modifies app`makerSwaps, app`makerFile, app`takerSwaps, app`takerFile
    ensures app.Valid() && Took(Apply(old(SwapsOf(app, [])), ListSwaps(now)), app, None, [])
    ensures taker == map h | h in old(app.takerSwaps) :: Shown(old(app.takerSwaps)[h], now)
    ensures maker == map h | h in old(app.makerSwaps) :: Shown(old(app.makerSwaps)[h], now)
  {
    taker := ListTakerSwaps(app, now);
    maker := ListMakerSwaps(app, now);
  }

  method GetOneSwap(app: UnlockedAppState, hash: PaymentHash, taker: bool, now: nat) returns (r: Option<SwapData>)
    requires app.Valid() && Queryable(app.takerSwaps) && Queryable(app.makerSwaps)
    modifies app`makerSwaps, app`makerFile, app`takerSwaps, app`takerFile
    ensures app.Valid() && Took(Apply(old(SwapsOf(app, [])), GetSwap(hash, taker, now)), app, None, [])
    ensures var swaps := if taker then old(app.takerSwaps) else old(app.makerSwaps);
            r == if hash in swaps then Some(Shown(swaps[hash], now)) else None
  {
    if taker {
      if hash in app.takerSwaps {
        var shown := MapSwap(app, hash, app.takerSwaps[hash], true, now);
        return Some(shown);
      }
    } else {
      if hash in app.makerSwaps {
        var shown := MapSwap(app, hash, app.makerSwaps[hash], false, now);
        return Some(shown);
      }
    }
    return None;
  }

  /** A listing and a single query at the same time show the same. */
  lemma ShownIsStored(swap: SwapData, now: nat)
    requires WellTimed(swap)
    ensures Shown(swap, now).status == Swept(swap, now).status
    ensures Shown(Swept(swap, now), now) == Swept(swap, now)
    ensures Shown(swap, now) == Swept(swap, now) <==> !Overdue(swap, now) || swap.completedAt == Some(now)
  {
  }
}
