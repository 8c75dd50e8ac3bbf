/**
 * The stores of the unlocked node: five maps in memory, each written to its own file
 * whenever it changes. A handler is one atomic step on them.
 */
module Stores {
  import opened Wrappers
  import opened Types
  import opened SwapOffer

  datatype SwapStatus = Waiting | Pending | Succeeded | Expired | Failed

  datatype SwapData = SwapData(
    info: SwapInfo, status: SwapStatus,
    requestedAt: nat, initiatedAt: Option<nat>, completedAt: Option<nat>)

  datatype HtlcStatus = Pending | Succeeded | Failed

  type PaymentId = nat
  type Preimage = nat
  type Secret = nat

  datatype PaymentInfo = PaymentInfo(
    preimage: Option<Preimage>, secret: Option<Secret>, status: HtlcStatus,
    amtMsat: Option<u64>, createdAt: nat, updatedAt: nat, payee: NodeId)

  type SwapMap = map<PaymentHash, SwapData>
  type InboundMap = map<PaymentHash, PaymentInfo>
  type OutboundMap = map<PaymentId, PaymentInfo>
  type ChannelIdsMap = map<ChannelId, ChannelId>

  /** Why a handler panics: what it unwraps is not there, or it is asked for the impossible. */
  datatype Panic = MissingEntry | WaitingStatus | MissingTimestamp | MissingRoutingInfo | UnknownChannel | NotRelayed

  /** A store file, absent until it is first written; its bytes decode to what was encoded. */
  type File<T> = Option<T>

  /** A swap that moves to another status. */
  function StatusUpdated(swap: SwapData, status: SwapStatus, now: nat): SwapData
    requires status != Waiting
  {
    if status == SwapStatus.Pending then swap.(status := status, initiatedAt := Some(now))
    else swap.(status := status, completedAt := Some(now))
  }

  /** The swaps after a status update, which panics on unknown swaps and on Waiting. */
  function SwapsUpdated(swaps: SwapMap, hash: PaymentHash, status: SwapStatus, now: nat): Result<SwapMap, Panic> {
    if hash !in swaps then Err(MissingEntry)
    else if status == Waiting then Err(WaitingStatus)
    else Ok(swaps[hash := StatusUpdated(swaps[hash], status, now)])
  }

  /** An outbound payment may be added when there is none under its id or that one failed. */
  predicate MayAdd(payments: OutboundMap, id: PaymentId) {
    id in payments ==> payments[id].status == HtlcStatus.Failed
  }

  predicate Abandoned(payments: OutboundMap, id: PaymentId, recent: set<PaymentId>)
    requires id in payments
  {
    payments[id].status == HtlcStatus.Pending && id !in recent
  }

  /** Startup: the payments in flight that the channel manager does not know have failed. */
  function Reconciled(payments: OutboundMap, recent: set<PaymentId>, now: nat): OutboundMap {
    map id | id in payments ::
      if Abandoned(payments, id, recent) then payments[id].(status := HtlcStatus.Failed, updatedAt := now)
      else payments[id]
  }

  class UnlockedAppState {
    var makerSwaps: SwapMap
    var takerSwaps: SwapMap
    var inboundPayments: InboundMap
    var outboundPayments: OutboundMap
    var channelIds: ChannelIdsMap

    var makerFile: File<SwapMap>
    var takerFile: File<SwapMap>
    var inboundFile: File<InboundMap>
    var outboundFile: File<OutboundMap>
    var channelIdsFile: File<ChannelIdsMap>

    /** A restart would load exactly what is in memory. */
    ghost predicate Valid()
      reads this
    {
      && Loaded(makerFile) == makerSwaps
      && Loaded(takerFile) == takerSwaps
      && Loaded(inboundFile) == inboundPayments
      && Loaded(outboundFile) == outboundPayments
      && Loaded(channelIdsFile) == channelIds
    }

    static function Loaded<K, V>(file: File<map<K, V>>): map<K, V> {
      match file
      case None => map[]
      case Some(m) => m
    }

    constructor (maker: File<SwapMap>, taker: File<SwapMap>, inbound: File<InboundMap>,
                 outbound: File<OutboundMap>, channels: File<ChannelIdsMap>)
      ensures Valid()
      ensures makerFile == maker && takerFile == taker && inboundFile == inbound
      ensures outboundFile == outbound && channelIdsFile == channels
    {
      makerFile, takerFile, inboundFile, outboundFile, channelIdsFile := maker, taker, inbound, outbound, channels;
      makerSwaps, takerSwaps := Loaded(maker), Loaded(taker);
      inboundPayments, outboundPayments, channelIds := Loaded(inbound), Loaded(outbound), Loaded(channels);
    }

    /** Locking and unlocking again, or a crash between two handlers, changes nothing. */
    method Restart()
      requires Valid()
      modifies this
      ensures Valid()
      ensures makerSwaps == old(makerSwaps) && takerSwaps == old(takerSwaps)
      ensures inboundPayments == old(inboundPayments) && outboundPayments == old(outboundPayments)
      ensures channelIds == old(channelIds)
    {
      makerSwaps, takerSwaps := Loaded(makerFile), Loaded(takerFile);
      inboundPayments, outboundPayments := Loaded(inboundFile), Loaded(outboundFile);
      channelIds := Loaded(channelIdsFile);
    }

    method AddMakerSwap(hash: PaymentHash, swap: SwapData)
      requires Valid()
      modifies `makerSwaps, `makerFile
      ensures Valid() && makerSwaps == old(makerSwaps)[hash := swap]
    {
      makerSwaps := makerSwaps[hash := swap];
      makerFile := Some(makerSwaps);
    }

    method UpdateMakerSwapStatus(hash: PaymentHash, status: SwapStatus, now: nat) returns (panic: Option<Panic>)
      requires Valid()
      modifies `makerSwaps, `makerFile
      ensures Valid()
      ensures match SwapsUpdated(old(makerSwaps), hash, status, now)
              case Ok(swaps) => panic == None && makerSwaps == swaps
              case Err(e) => panic == Some(e) && makerSwaps == old(makerSwaps)
    {
      if hash !in makerSwaps {
        return Some(MissingEntry);
      }
      var swap := makerSwaps[hash];
      match status {
        case Succeeded | Failed | Expired => swap := swap.(completedAt := Some(now));
        case Pending => swap := swap.(initiatedAt := Some(now));
        case Waiting => return Some(WaitingStatus);
      }
      makerSwaps := makerSwaps[hash := swap.(status := status)];
      makerFile := Some(makerSwaps);
      return None;
    }

    method AddTakerSwap(hash: PaymentHash, swap: SwapData)
      requires Valid()
      modifies `takerSwaps, `takerFile
      ensures Valid() && takerSwaps == old(takerSwaps)[hash := swap]
    {
      takerSwaps := takerSwaps[hash := swap];
      takerFile := Some(takerSwaps);
    }

    method UpdateTakerSwapStatus(hash: PaymentHash, status: SwapStatus, now: nat) returns (panic: Option<Panic>)
      requires Valid()
      modifies `takerSwaps, `takerFile
      ensures Valid()
      ensures match SwapsUpdated(old(takerSwaps), hash, status, now)
              case Ok(swaps) => panic == None && takerSwaps == swaps
              case Err(e) => panic == Some(e) && takerSwaps == old(takerSwaps)
    {
      if hash !in takerSwaps {
        return Some(MissingEntry);
      }
      var swap := takerSwaps[hash];
      match status {
        case Succeeded | Failed | Expired => swap := swap.(completedAt := Some(now));
        case Pending => swap := swap.(initiatedAt := Some(now));
        case Waiting => return Some(WaitingStatus);
      }
      takerSwaps := takerSwaps[hash := swap.(status := status)];
      takerFile := Some(takerSwaps);
      return None;
    }

    method AddInboundPayment(hash: PaymentHash, info: PaymentInfo)
      requires Valid()
      modifies `inboundPayments, `inboundFile
      ensures Valid() && inboundPayments == old(inboundPayments)[hash := info]
    {
      inboundPayments := inboundPayments[hash := info];
      inboundFile := Some(inboundPayments);
    }

    /** Updates a known payment in place, keeping its amount and creation time; adds an unknown one. */
    method UpsertInboundPayment(hash: PaymentHash, status: HtlcStatus, preimage: Option<Preimage>,
                                secret: Option<Secret>, amtMsat: Option<u64>, payee: NodeId, now: nat)
      requires Valid()
      modifies `inboundPayments, `inboundFile
      ensures Valid() && hash in inboundPayments
      ensures inboundPayments - {hash} == old(inboundPayments) - {hash}
      ensures var was := old(inboundPayments);
              var fallback := PaymentInfo(preimage, secret, status, amtMsat, now, now, payee);
              var base := if hash in was then was[hash] else fallback;
              inboundPayments[hash]
              == PaymentInfo(preimage, secret, status, base.amtMsat, base.createdAt, now, base.payee)
    {
      if hash in inboundPayments {
        var info := inboundPayments[hash];
        info := info.(status := status, preimage := preimage, secret := secret, updatedAt := now);
        inboundPayments := inboundPayments[hash := info];
      } else {
        inboundPayments := inboundPayments[hash := PaymentInfo(preimage, secret, status, amtMsat, now, now, payee)];
      }
      inboundFile := Some(inboundPayments);
    }

    /** Refuses a duplicate with the status of the payment that is there. */
    method AddOutboundPayment(id: PaymentId, info: PaymentInfo) returns (r: Result<(), HtlcStatus>)
      requires Valid()
      modifies `outboundPayments, `outboundFile
      ensures Valid()
      ensures r.Ok? <==> MayAdd(old(outboundPayments), id)
      ensures r.Ok? ==> outboundPayments == old(outboundPayments)[id := info]
      ensures r.Err? ==> outboundPayments == old(outboundPayments) && r.error == outboundPayments[id].status
    {
      if id in outboundPayments && outboundPayments[id].status != HtlcStatus.Failed {
        return Err(outboundPayments[id].status);
      }
      outboundPayments := outboundPayments[id := info];
      outboundFile := Some(outboundPayments);
      return Ok(());
    }

    /** Saves only if a payment failed. */
    method FailOutboundPendingPayments(recent: set<PaymentId>, now: nat)
      requires Valid()
      modifies `outboundPayments, `outboundFile
      ensures Valid() && outboundPayments == Reconciled(old(outboundPayments), recent, now)
    {
      var failed := false;
      ghost var was := outboundPayments;
      var todo := outboundPayments.Keys;
      while todo != {}
        invariant todo <= was.Keys && outboundPayments.Keys == was.Keys
        invariant forall id | id in was ::
                    outboundPayments[id] == if id in todo then was[id] else Reconciled(was, recent, now)[id]
        invariant !failed ==> outboundPayments == was
        invariant outboundFile == old(outboundFile)
      {
        var id :| id in todo;
        var info := outboundPayments[id];
        if info.status == HtlcStatus.Pending && id !in recent {
          outboundPayments := outboundPayments[id := info.(status := HtlcStatus.Failed, updatedAt := now)];
          failed := true;
        }
        todo := todo - {id};
      }
      if failed {
        outboundFile := Some(outboundPayments);
      }
    }

    method UpdateOutboundPayment(id: PaymentId, status: HtlcStatus, preimage: Option<Preimage>, now: nat)
      returns (r: Result<PaymentInfo, Panic>)
      requires Valid()
      modifies `outboundPayments, `outboundFile
      ensures Valid()
      ensures r.Ok? <==> id in old(outboundPayments)
      ensures r.Err? ==> r.error == MissingEntry && outboundPayments == old(outboundPayments)
      ensures r.Ok? ==>
                && r.value == old(outboundPayments)[id].(status := status, preimage := preimage, updatedAt := now)
                && outboundPayments == old(outboundPayments)[id := r.value]
    {
      if id !in outboundPayments {
        return Err(MissingEntry);
      }
      var info := outboundPayments[id].(status := status, preimage := preimage, updatedAt := now);
      outboundPayments := outboundPayments[id := info];
      outboundFile := Some(outboundPayments);
      return Ok(info);
    }

    method UpdateOutboundPaymentStatus(id: PaymentId, status: HtlcStatus, now: nat) returns (panic: Option<Panic>)
      requires Valid()
      modifies `outboundPayments, `outboundFile
      ensures Valid()
      ensures panic == if id in old(outboundPayments) then None else Some(MissingEntry)
      ensures panic.Some? ==> outboundPayments == old(outboundPayments)
      ensures panic.None? ==>
                outboundPayments
                == old(outboundPayments)[id := old(outboundPayments)[id].(status := status, updatedAt := now)]
    {
      if id !in outboundPayments {
        return Some(MissingEntry);
      }
      outboundPayments := outboundPayments[id := outboundPayments[id].(status := status, updatedAt := now)];
      outboundFile := Some(outboundPayments);
      return None;
    }

    method AddChannelId(temporary: ChannelId, channel: ChannelId)
      requires Valid()
      modifies `channelIds, `channelIdsFile
      ensures Valid() && channelIds == old(channelIds)[temporary := channel]
    {
      channelIds := channelIds[temporary := channel];
      channelIdsFile := Some(channelIds);
    }

    /** Removes one temporary id of the channel, whichever the map yields first, and saves only then. */
    method DeleteChannelId(channel: ChannelId)
      requires Valid()
      modifies `channelIds, `channelIdsFile
      ensures Valid()
      ensures channel !in old(channelIds).Values ==> channelIds == old(channelIds)
      ensures channel in old(channelIds).Values ==>
                exists temporary ::
                  && temporary in old(channelIds) && old(channelIds)[temporary] == channel
                  && channelIds == old(channelIds) - {temporary}
    {
      var todo := channelIds.Keys;
      while todo != {}
        invariant todo <= channelIds.Keys && channelIds == old(channelIds)
        invariant forall t | t in channelIds && t !in todo :: channelIds[t] != channel
      {
        var temporary :| temporary in todo;
        if channelIds[temporary] == channel {
          channelIds := channelIds - {temporary};
          channelIdsFile := Some(channelIds);
          return;
        }
        todo := todo - {temporary};
      }
    }
  }
}
