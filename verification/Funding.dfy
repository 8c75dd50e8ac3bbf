/**
 * Funding an RGB channel: a one-slot record of the pending transfer, a broadcast that
 * gates the contract transfer, and the lock that keeps a second opening out. Every step
 * that leaves the process may fail or crash, before or after it took effect, and events
 * that failed are replayed.
 */
module Funding {
  import opened Wrappers
  import opened Types

  type Txid = nat

  datatype Output = Output(value: u64, opReturn: bool)

  datatype FundingTx = FundingTx(txid: Txid, outputs: seq<Output>)

  datatype Transfer = Transfer(contract: ContractId, amount: u64)

  datatype Outpoint = Outpoint(txid: Txid, vout: nat)

  /** One call of the contract's transfer method: whether it took effect, and whether it reported success. */
  datatype Invocation = Invocation(txid: Txid, transfer: Transfer, executed: bool, reported: bool)

  /** What becomes of one step that leaves the process. */
  datatype Effect = Happens | Fails | FailsAfter | Crashes | CrashesAfter
  {
    predicate Done() { Happens? || FailsAfter? || CrashesAfter? }
    predicate Crash() { Crashes? || CrashesAfter? }
  }

  /** The fate of each step of one attempt; `reaccepts` if the network accepts a known transaction again. */
  datatype Faults = Faults(
    read: Effect, psbt: Effect, broadcast: Effect, reaccepts: bool,
    prepare: Effect, transfer: Effect, save: Effect, track: Effect, cleanup: Effect)

  datatype Outcome = Completed | Failed | Crashed

  /** What survives the process: the slot, the broadcasts that were accepted, the calls, the locked outputs. */
  datatype Wallet = Wallet(
    slot: Option<Transfer>, accepted: seq<Txid>, invoked: seq<Invocation>, locked: map<Outpoint, Transfer>)

  /** The last of the largest outputs that are not OP_RETURN. */
  function FundingVout(outputs: seq<Output>): (r: Option<nat>)
    ensures r.None? <==> forall i | 0 <= i < |outputs| :: outputs[i].opReturn
    ensures r.Some? ==>
              && r.value < |outputs| && !outputs[r.value].opReturn
              && (forall i | 0 <= i < |outputs| && !outputs[i].opReturn :: outputs[i].value <= outputs[r.value].value)
              && (forall i | r.value < i < |outputs| && !outputs[i].opReturn ::
                    outputs[i].value < outputs[r.value].value)
  {
    if outputs == [] then None
    else
      var k := |outputs| - 1;
      var best := FundingVout(outputs[..k]);
      if outputs[k].opReturn then best
      else if best.None? || outputs[best.value].value <= outputs[k].value then Some(k)
      else best
  }

  function Stopped(effect: Effect): Outcome {
    if effect.Crash() then Crashed else Failed
  }

  /** Removing the slot file: its failure is ignored. */
  function CleanedUp(w: Wallet, cleanup: Effect): (Wallet, Outcome) {
    (if cleanup.Done() then w.(slot := None) else w, if cleanup.Crash() then Crashed else Completed)
  }

  /** The contract transfer and what follows it, after a first broadcast. */
  function Transferred(w: Wallet, txid: Txid, vout: nat, pending: Transfer, f: Faults): (Wallet, Outcome) {
    if !f.prepare.Happens? then (w, Stopped(f.prepare))
    else if f.transfer.Crashes? then (w, Crashed)
    else
      var call := Invocation(txid, pending, f.transfer.Done(), f.transfer.Happens?);
      var w1 := w.(invoked := w.invoked + [call]);
      if !f.transfer.Happens? then (w1, Stopped(f.transfer))
      else if !f.save.Happens? then (w1, Stopped(f.save))
      else
        var w2 := if f.track.Done() then w1.(locked := w1.locked[Outpoint(txid, vout) := pending]) else w1;
        if !f.track.Happens? then (w2, Stopped(f.track)) else CleanedUp(w2, f.cleanup)
  }

  /** One attempt to complete a funding. */
  function SentEnd(w: Wallet, tx: FundingTx, f: Faults): (Wallet, Outcome) {
    if !f.read.Happens? then (w, Stopped(f.read))
    else if w.slot.None? then (w, Failed)
    else if !f.psbt.Happens? then (w, Stopped(f.psbt))
    else
      match FundingVout(tx.outputs)
      case None => (w, Failed)
      case Some(vout) =>
        if tx.txid in w.accepted && !f.reaccepts then
          if !f.broadcast.Happens? then (w, Stopped(f.broadcast)) else CleanedUp(w, f.cleanup)
        else
          var w1 := if f.broadcast.Done() then w.(accepted := w.accepted + [tx.txid]) else w;
          if !f.broadcast.Happens? then (w1, Stopped(f.broadcast))
          else Transferred(w1, tx.txid, vout, w.slot.value, f)
  }

  /** Without RGB there is only the broadcast. */
  function SentBtcEnd(w: Wallet, tx: FundingTx, f: Faults): (Wallet, Outcome) {
    (if f.broadcast.Done() then w.(accepted := w.accepted + [tx.txid]) else w,
     if f.broadcast.Happens? then Completed else Stopped(f.broadcast))
  }

  datatype Schema = Nia | Cfa | Uda

  /** What a channel is asked to be opened with. */
  datatype Request = Request(contract: ContractId, schema: Schema, amount: u64)

  /** A transfer of what was asked: the contract, and the amount of a fungible asset or one of a unique one. */
  predicate Moves(t: Transfer, req: Request) {
    && t.contract == req.contract
    && match req.schema
       case Nia => t.amount == req.amount
       case Cfa => t.amount == req.amount
       case Uda => t.amount == 1
  }

  function TransferOf(req: Request): (t: Transfer)
    ensures Moves(t, req)
  {
    Transfer(req.contract, if req.schema == Uda then 1 else req.amount)
  }

  /** What the slot records for a channel, with RGB or without. */
  function Recorded(rgb: Option<Request>): Option<Transfer> {
    if rgb.None? then None else Some(TransferOf(rgb.value))
  }

  /** A channel this node is opening. */
  datatype Opening = Opening(rgb: Option<Request>, txid: Option<Txid>)

  /** The funding transaction kept for a channel. */
  datatype Psbt = Psbt(channel: ChannelId, rgb: Option<Request>)

  datatype Node = Node(
    sendLock: bool, opening: map<ChannelId, Opening>, psbts: map<Txid, Psbt>, wallet: Wallet)

  datatype Step =
    | OpenChannel(channel: ChannelId, rgb: Option<Request>, created: bool)
    | FundingGenerationReady(channel: ChannelId, txid: Txid, posted: bool, accepted: bool)
    | ChannelPending(tx: FundingTx, faults: Faults)
    | DiscardFunding(channel: ChannelId)
    | Restart

  /**
   * Channel ids are new; events name what the channel manager knows. A replay may build the
   * transaction that is already kept for the channel; it is not broadcast before the manager has it.
   */
  predicate Enabled(n: Node, step: Step) {
    match step
    case OpenChannel(channel, _, _) => channel !in n.opening
    case FundingGenerationReady(channel, txid, _, _) =>
      && channel in n.opening && n.opening[channel].txid.None? && txid !in n.wallet.accepted
      && (txid in n.psbts ==> n.psbts[txid] == Psbt(channel, n.opening[channel].rgb))
    case ChannelPending(_, _) => true
    case DiscardFunding(_) => true
    case Restart => true
  }

  function Opened(n: Node, channel: ChannelId, rgb: Option<Request>, created: bool): Node {
    if n.sendLock then n
    else
      var wallet := if rgb.Some? then n.wallet.(slot := Recorded(rgb)) else n.wallet;
      if created then n.(sendLock := true, opening := n.opening[channel := Opening(rgb, None)], wallet := wallet)
      else n.(wallet := wallet)
  }

  function Generated(n: Node, channel: ChannelId, txid: Txid, posted: bool, accepted: bool): Node
    requires channel in n.opening
  {
    var rgb := n.opening[channel].rgb;
    var n1 := n.(psbts := n.psbts[txid := Psbt(channel, rgb)],
                 wallet := if rgb.Some? then n.wallet.(slot := Recorded(rgb)) else n.wallet);
    if rgb.Some? && !posted then n1
    else if accepted then n1.(opening := n.opening[channel := Opening(rgb, Some(txid))])
    else n1.(sendLock := false, opening := n.opening - {channel})
  }

  /** Without a transaction kept, the node is the acceptor of the channel and transfers nothing. */
  function Completing(n: Node, tx: FundingTx, f: Faults): Node {
    if tx.txid !in n.psbts then n
    else
      var psbt := n.psbts[tx.txid];
      var (wallet, outcome) := if psbt.rgb.Some? then SentEnd(n.wallet, tx, f) else SentBtcEnd(n.wallet, tx, f);
      if outcome == Completed then n.(sendLock := false, opening := n.opening - {psbt.channel}, wallet := wallet)
      else n.(wallet := wallet)
  }

  function Apply(n: Node, step: Step): Node
    requires Enabled(n, step)
  {
    match step
    case OpenChannel(channel, rgb, created) => Opened(n, channel, rgb, created)
    case FundingGenerationReady(channel, txid, posted, accepted) => Generated(n, channel, txid, posted, accepted)
    case ChannelPending(tx, f) => Completing(n, tx, f)
    case DiscardFunding(channel) => n.(sendLock := false, opening := n.opening - {channel})
    case Restart => n.(sendLock := false)
  }

  /** The node that does all this. */
  class FundingNode {
    var sendLock: bool
    var opening: map<ChannelId, Opening>
    var psbts: map<Txid, Psbt>
    var slot: Option<Transfer>
    var accepted: seq<Txid>
    var invoked: seq<Invocation>
    var locked: map<Outpoint, Transfer>

    ghost function Value(): Node
      reads this
    {
      Node(sendLock, opening, psbts, Wallet(slot, accepted, invoked, locked))
    }

    method SendBegin(req: Request)
      modifies `slot
      ensures slot.Some? && slot.value.contract == req.contract
      ensures slot.value.amount == if req.schema == Nia || req.schema == Cfa then req.amount else 1
    {
      var rgbAmount := match req.schema
        case Nia => req.amount
        case Cfa => req.amount
        case Uda => 1;
      slot := Some(Transfer(req.contract, rgbAmount));
    }

    method SendEnd(tx: FundingTx, f: Faults) returns (outcome: Outcome)
      modifies `slot, `accepted, `invoked, `locked
      ensures (Value().wallet, outcome) == SentEnd(old(Value().wallet), tx, f)
    {
      if !f.read.Happens? {
        return Stopped(f.read);
      }
      if slot.None? {
        return Failed;
      }
      var pending := slot.value;
      if !f.psbt.Happens? {
        return Stopped(f.psbt);
      }
      var vout := FundingVout(tx.outputs);
      if vout.None? {
        return Failed;
      }
      var alreadyBroadcast := tx.txid in accepted && !f.reaccepts;
      if !alreadyBroadcast && f.broadcast.Done() {
        accepted := accepted + [tx.txid];
      }
      if !f.broadcast.Happens? {
        return Stopped(f.broadcast);
      }
      if !alreadyBroadcast {
        if !f.prepare.Happens? {
          return Stopped(f.prepare);
        }
        if f.transfer.Crashes? {
          return Crashed;
        }
        invoked := invoked + [Invocation(tx.txid, pending, f.transfer.Done(), f.transfer.Happens?)];
        if !f.transfer.Happens? {
          return Stopped(f.transfer);
        }
        if !f.save.Happens? {
          return Stopped(f.save);
        }
        if f.track.Done() {
          locked := locked[Outpoint(tx.txid, vout.value) := pending];
        }
        if !f.track.Happens? {
          return Stopped(f.track);
        }
      }
      if f.cleanup.Done() {
        slot := None;
      }
      return if f.cleanup.Crash() then Crashed else Completed;
    }

    /** Opens a channel, with a first send_begin that only checks that the transfer can be built. */
    method Open(channel: ChannelId, rgb: Option<Request>, created: bool) returns (ok: bool)
      requires channel !in opening
      modifies this
      ensures Value() == Apply(old(Value()), OpenChannel(channel, rgb, created))
      ensures ok <==> !old(sendLock) && created
    {
      if sendLock {
        return false;
      }
      if rgb.Some? {
        SendBegin(rgb.value);
      }
      sendLock := true;
      if !created {
        sendLock := false;
        return false;
      }
      opening := opening[channel := Opening(rgb, None)];
      return true;
    }

    /** Writes the slot again, now for the real funding output, and keeps the transaction. */
    method HandleFundingGenerationReady(channel: ChannelId, rgb: Option<Request>, txid: Txid,
                                        posted: bool, acceptedByManager: bool)
      returns (replay: bool)
      requires Enabled(Value(), FundingGenerationReady(channel, txid, posted, acceptedByManager))
      requires opening[channel].rgb == rgb
      modifies this
      ensures Value() == Apply(old(Value()), FundingGenerationReady(channel, txid, posted, acceptedByManager))
      ensures replay <==> rgb.Some? && !posted
    {
      if rgb.Some? {
        SendBegin(rgb.value);
      }
      psbts := psbts[txid := Psbt(channel, rgb)];
      if rgb.Some? && !posted {
        return true;
      }
      if !acceptedByManager {
        sendLock := false;
        opening := opening - {channel};
      } else {
        opening := opening[channel := opening[channel].(txid := Some(txid))];
      }
      return false;
    }

    method HandleChannelPending(tx: FundingTx, f: Faults) returns (replay: bool)
      modifies this
      ensures Value() == Apply(old(Value()), ChannelPending(tx, f))
      ensures tx.txid in old(psbts) && !replay ==> !sendLock && old(psbts)[tx.txid].channel !in opening
      ensures tx.txid !in old(psbts) ==> !replay && Value() == old(Value())
    {
      if tx.txid !in psbts {
        return false;
      }
      var psbt := psbts[tx.txid];
      var outcome;
      if psbt.rgb.Some? {
        outcome := SendEnd(tx, f);
      } else {
        if f.broadcast.Done() {
          accepted := accepted + [tx.txid];
        }
        outcome := if f.broadcast.Happens? then Completed else Stopped(f.broadcast);
      }
      if outcome != Completed {
        return true;
      }
      sendLock := false;
      opening := opening - {psbt.channel};
      return false;
    }
  }

  // What becomes of the lock, the slot and the channel, event by event.

  /**
   * Opening is refused under the lock; otherwise it records the slot and, if the channel is
   * created, takes the lock.
   */
  lemma OpeningBecomes(n: Node, channel: ChannelId, rgb: Option<Request>, created: bool)
    requires channel !in n.opening
    ensures var n' := Apply(n, OpenChannel(channel, rgb, created));
            && (n.sendLock ==> n' == n)
            && (!n.sendLock ==>
                  && n'.sendLock == created
                  && n'.opening == (if created then n.opening[channel := Opening(rgb, None)] else n.opening)
                  && (rgb.Some? ==> n'.wallet.slot.Some? && Moves(n'.wallet.slot.value, rgb.value))
                  && (rgb.None? ==> n'.wallet == n.wallet)
                  && n'.psbts == n.psbts && n'.wallet.(slot := n.wallet.slot) == n.wallet)
  {
  }

  /**
   * The funding transaction is kept and the slot recorded again in any case; a consignment
   * that cannot be posted is replayed with the lock held, a channel the manager refuses
   * frees the lock.
   */
  lemma GenerationBecomes(n: Node, channel: ChannelId, txid: Txid, posted: bool, accepted: bool)
    requires Enabled(n, FundingGenerationReady(channel, txid, posted, accepted))
    ensures var rgb := n.opening[channel].rgb;
            var n' := Apply(n, FundingGenerationReady(channel, txid, posted, accepted));
            && n'.psbts == n.psbts[txid := Psbt(channel, rgb)] && n'.wallet.(slot := n.wallet.slot) == n.wallet
            && (rgb.Some? ==> n'.wallet.slot.Some? && Moves(n'.wallet.slot.value, rgb.value))
            && (rgb.None? ==> n'.wallet == n.wallet)
            && (rgb.Some? && !posted ==> n'.sendLock == n.sendLock && n'.opening == n.opening)
            && ((rgb.None? || posted) && accepted ==>
                  n'.sendLock == n.sendLock && n'.opening == n.opening[channel := Opening(rgb, Some(txid))])
            && ((rgb.None? || posted) && !accepted ==> !n'.sendLock && n'.opening == n.opening - {channel})
  {
  }

  /** A funding without RGB is broadcast and nothing else, and completes if that is reported. */
  lemma BtcCompletes(n: Node, tx: FundingTx, f: Faults)
    requires tx.txid in n.psbts && n.psbts[tx.txid].rgb.None?
    ensures var n' := Apply(n, ChannelPending(tx, f));
            && n'.psbts == n.psbts && n'.wallet.(accepted := n.wallet.accepted) == n.wallet
            && n'.wallet.accepted == n.wallet.accepted + (if f.broadcast.Done() then [tx.txid] else [])
            && (f.broadcast.Happens? ==> !n'.sendLock && n'.opening == n.opening - {n.psbts[tx.txid].channel})
            && (!f.broadcast.Happens? ==> n'.sendLock == n.sendLock && n'.opening == n.opening)
  {
  }

  /** A funding with RGB frees the lock exactly if the attempt completes. */
  lemma RgbCompletes(n: Node, tx: FundingTx, f: Faults)
    requires tx.txid in n.psbts && n.psbts[tx.txid].rgb.Some?
    ensures var n' := Apply(n, ChannelPending(tx, f));
            var (wallet, outcome) := SentEnd(n.wallet, tx, f);
            && n'.wallet == wallet && n'.psbts == n.psbts
            && (outcome == Completed ==> !n'.sendLock && n'.opening == n.opening - {n.psbts[tx.txid].channel})
            && (outcome != Completed ==> n'.sendLock == n.sendLock && n'.opening == n.opening)
  {
  }

  // Every run.

  function Run(n: Node, steps: seq<Step>): Option<Node>
    decreases |steps|
  {
    if steps == [] then Some(n)
    else if !Enabled(n, steps[0]) then None
    else Run(Apply(n, steps[0]), steps[1..])
  }

  const FRESH: Node := Node(false, map[], map[], Wallet(None, [], [], map[]))

  function Acceptances(w: Wallet, txid: Txid): nat {
    multiset(w.accepted)[txid]
  }

  function Invocations(calls: seq<Invocation>, txid: Txid): nat {
    if calls == [] then 0
    else Invocations(calls[..|calls| - 1], txid) + if calls[|calls| - 1].txid == txid then 1 else 0
  }

  /** Calls are gated by accepted broadcasts; locked outputs stem from calls that reported success. */
  ghost predicate Gated(w: Wallet) {
    && (forall txid :: Invocations(w.invoked, txid) <= Acceptances(w, txid))
    && (forall o | o in w.locked :: Invocation(o.txid, w.locked[o], true, true) in w.invoked)
  }

  lemma InvocationsAppend(calls: seq<Invocation>, call: Invocation, txid: Txid)
    ensures Invocations(calls + [call], txid) == Invocations(calls, txid) + if call.txid == txid then 1 else 0
  {
    assert (calls + [call])[..|calls|] == calls;
  }

  /** One more call, no more in total than the accepted broadcasts, keeps the gate. */
  lemma CallKeepsGated(w: Wallet, call: Invocation)
    requires Gated(w) && Invocations(w.invoked, call.txid) < Acceptances(w, call.txid)
    ensures Gated(w.(invoked := w.invoked + [call]))
  {
    var w1 := w.(invoked := w.invoked + [call]);
    forall t ensures Invocations(w1.invoked, t) <= Acceptances(w1, t) {
      InvocationsAppend(w.invoked, call, t);
    }
    forall o | o in w1.locked ensures Invocation(o.txid, w1.locked[o], true, true) in w1.invoked {
      assert Invocation(o.txid, w.locked[o], true, true) in w.invoked;
    }
  }

  /** Locking an output after a successful call for its transaction keeps the gate. */
  lemma LockKeepsGated(w: Wallet, o: Outpoint, pending: Transfer)
    requires Gated(w) && Invocation(o.txid, pending, true, true) in w.invoked
    ensures Gated(w.(locked := w.locked[o := pending]))
  {
    var w1 := w.(locked := w.locked[o := pending]);
    assert forall t :: Acceptances(w1, t) == Acceptances(w, t);
  }

  lemma TransferredKeepsGated(w: Wallet, txid: Txid, vout: nat, pending: Transfer, f: Faults)
    requires Gated(w) && Invocations(w.invoked, txid) < Acceptances(w, txid)
    ensures Gated(Transferred(w, txid, vout, pending, f).0)
  {
    if f.prepare.Happens? && !f.transfer.Crashes? {
      var call := Invocation(txid, pending, f.transfer.Done(), f.transfer.Happens?);
      var w1 := w.(invoked := w.invoked + [call]);
      CallKeepsGated(w, call);
      if f.transfer.Happens? && f.save.Happens? && f.track.Done() {
        assert call == w1.invoked[|w.invoked|];
        LockKeepsGated(w1, Outpoint(txid, vout), pending);
      }
    }
  }

  lemma AttemptKeepsGated(w: Wallet, tx: FundingTx, f: Faults)
    requires Gated(w)
    ensures Gated(SentEnd(w, tx, f).0) && Gated(SentBtcEnd(w, tx, f).0)
  {
    var w1 := w.(accepted := w.accepted + [tx.txid]);
    assert forall t :: Acceptances(w1, t) == Acceptances(w, t) + if t == tx.txid then 1 else 0;
    var vout := FundingVout(tx.outputs);
    if vout.Some? && w.slot.Some? {
      TransferredKeepsGated(w1, tx.txid, vout.value, w.slot.value, f);
    }
  }

  /**
   * Over every run, whatever fails, crashes, is replayed or released: the contract is called
   * at most as often as the network accepted the transaction, so at most once on a network
   * that accepts it once; and an output is locked only after a call for that transaction
   * with the same contract and amount reported success.
   */
  lemma {:induction false} TransfersAreGated(n: Node, steps: seq<Step>)
    requires Gated(n.wallet) && Run(n, steps).Some?
    ensures var w := Run(n, steps).value.wallet;
            && Gated(w)
            && forall txid | Acceptances(w, txid) <= 1 :: Invocations(w.invoked, txid) <= 1
    decreases |steps|
  {
    if steps != [] {
      if steps[0].ChannelPending? {
        AttemptKeepsGated(n.wallet, steps[0].tx, steps[0].faults);
      }
      TransfersAreGated(Apply(n, steps[0]), steps[1..]);
    }
  }

  /** The network refuses the broadcast as known, so the transfer is skipped. */
  predicate Known(w: Wallet, tx: FundingTx, f: Faults) {
    tx.txid in w.accepted && !f.reaccepts
  }

  /**
   * What one attempt can do. The slot goes only when the attempt succeeded, or crashed
   * while removing it; on a network that refuses the transaction as known nothing else
   * changes; and the contract is called exactly on an accepted broadcast with everything ready.
   */
  lemma AttemptEffects(w: Wallet, tx: FundingTx, f: Faults)
    ensures var (w', outcome) := SentEnd(w, tx, f);
            && (w'.slot == w.slot || (w'.slot == None && (outcome == Completed || f.cleanup == CrashesAfter)))
            && (outcome == Completed ==> tx.txid in w'.accepted)
            && (Known(w, tx, f) ==> w'.(slot := w.slot) == w)
            && (w'.invoked != w.invoked <==>
                  && !Known(w, tx, f) && w.slot.Some? && f.read.Happens? && f.psbt.Happens?
                  && FundingVout(tx.outputs).Some? && f.broadcast.Happens?
                  && f.prepare.Happens? && !f.transfer.Crashes?)
            && (w'.invoked != w.invoked ==>
                  w'.invoked == w.invoked + [Invocation(tx.txid, w.slot.value, f.transfer.Done(), f.transfer.Happens?)])
            && (outcome == Completed && !Known(w, tx, f) ==>
                  Outpoint(tx.txid, FundingVout(tx.outputs).value) in w'.locked
                  && w'.locked[Outpoint(tx.txid, FundingVout(tx.outputs).value)] == w.slot.value)
  {
  }

  /** Every external step succeeds. */
  const FINE: Faults := Faults(Happens, Happens, Happens, false, Happens, Happens, Happens, Happens, Happens)

  /**
   * Not exactly once: a transfer that fails after the broadcast is skipped by the replay,
   * which completes without any transfer.
   */
  lemma SkippedTransfer(tx: FundingTx, pending: Transfer)
    requires FundingVout(tx.outputs).Some?
    ensures var (w1, o1) := SentEnd(Wallet(Some(pending), [], [], map[]), tx, FINE.(transfer := Fails));
            var (w2, o2) := SentEnd(w1, tx, FINE);
            o1 == Failed && o2 == Completed && w2.locked == map[]
            && w2.invoked == [Invocation(tx.txid, pending, false, false)]
  {
  }

  /** The replays of one funding, with nothing else going on. */
  function Attempts(w: Wallet, tx: FundingTx, fs: seq<Faults>): Wallet
    decreases |fs|
  {
    if fs == [] then w else Attempts(SentEnd(w, tx, fs[0]).0, tx, fs[1..])
  }

  /** An attempt that gets as far as the broadcast, given the slot. */
  predicate Broadcasts(f: Faults) {
    f.read.Happens? && f.psbt.Happens?
  }

  /** An attempt whose broadcast is accepted and reported, and whose transfer then succeeds. */
  predicate GoesThrough(f: Faults) {
    f.broadcast.Happens? && f.prepare.Happens? && f.transfer.Happens?
  }

  /**
   * Whether some attempt goes through that the network does not refuse as known, before one
   * that it does refuse removes the slot; `known` if the network knows the transaction.
   */
  predicate FollowsThrough(known: bool, fs: seq<Faults>)
    decreases |fs|
  {
    && fs != []
    && var f := fs[0];
       if !Broadcasts(f) then FollowsThrough(known, fs[1..])
       else if known && !f.reaccepts then
         !(f.broadcast.Happens? && f.cleanup.Done()) && FollowsThrough(known, fs[1..])
       else GoesThrough(f) || FollowsThrough(known || f.broadcast.Done(), fs[1..])
  }

  lemma {:induction false} NothingWithoutSlot(w: Wallet, tx: FundingTx, fs: seq<Faults>)
    requires w.slot.None?
    ensures Attempts(w, tx, fs) == w
    decreases |fs|
  {
    if fs != [] { NothingWithoutSlot(w, tx, fs[1..]); }
  }

  lemma {:induction false} CallsStay(w: Wallet, tx: FundingTx, fs: seq<Faults>, call: Invocation)
    requires call in w.invoked
    ensures call in Attempts(w, tx, fs).invoked
    decreases |fs|
  {
    if fs != [] {
      AttemptEffects(w, tx, fs[0]);
      CallsStay(SentEnd(w, tx, fs[0]).0, tx, fs[1..], call);
    }
  }

  /**
   * When the transfer happens, for any failures, crashes and replays, on any network: it is
   * reported exactly if the attempts follow through.
   */
  lemma {:induction false} TransferredIffFollowedThrough(w: Wallet, tx: FundingTx, fs: seq<Faults>)
    requires w.slot.Some? && FundingVout(tx.outputs).Some?
    requires Invocation(tx.txid, w.slot.value, true, true) !in w.invoked
    ensures Invocation(tx.txid, w.slot.value, true, true) in Attempts(w, tx, fs).invoked
            <==> FollowsThrough(tx.txid in w.accepted, fs)
    decreases |fs|
  {
    if fs != [] {
      var f, w' := fs[0], SentEnd(w, tx, fs[0]).0;
      var call := Invocation(tx.txid, w.slot.value, true, true);
      AttemptEffects(w, tx, f);
      if call in w'.invoked {
        CallsStay(w', tx, fs[1..], call);
      } else if w'.slot.None? {
        NothingWithoutSlot(w', tx, fs[1..]);
      } else {
        TransferredIffFollowedThrough(w', tx, fs[1..]);
      }
    }
  }

  /** The first attempt whose broadcast the network accepts. */
  function FirstAccepting(fs: seq<Faults>): Option<Faults> {
    if fs == [] then None
    else if Broadcasts(fs[0]) && fs[0].broadcast.Done() then Some(fs[0])
    else FirstAccepting(fs[1..])
  }

  lemma {:induction false} KnownNeverFollows(fs: seq<Faults>)
    requires forall f | f in fs :: !f.reaccepts
    ensures !FollowsThrough(true, fs)
  {
    if fs != [] { KnownNeverFollows(fs[1..]); }
  }

  /**
   * On a network that accepts a transaction once, only the attempt whose broadcast was
   * accepted counts: it must have gone through. No replay makes up for it.
   */
  lemma {:induction false} OneChanceOnly(fs: seq<Faults>)
    requires forall f | f in fs :: !f.reaccepts
    ensures FollowsThrough(false, fs) <==> FirstAccepting(fs).Some? && GoesThrough(FirstAccepting(fs).value)
  {
    if fs != [] {
      if Broadcasts(fs[0]) && fs[0].broadcast.Done() {
        KnownNeverFollows(fs[1..]);
      } else {
        OneChanceOnly(fs[1..]);
      }
    }
  }

  /** An attempt whose contract transfer, if it is not skipped, is carried through to the locked output. */
  predicate ReachesCleanup(known: bool, f: Faults) {
    && Broadcasts(f) && f.broadcast.Happens?
    && ((known && !f.reaccepts) || (GoesThrough(f) && f.save.Happens? && f.track.Happens?))
  }

  /** The first attempt that gets to remove the slot and does not crash before it did; `known` as above. */
  function Finisher(known: bool, fs: seq<Faults>): Option<Faults>
    decreases |fs|
  {
    if fs == [] then None
    else if ReachesCleanup(known, fs[0]) && !fs[0].cleanup.Crashes? then Some(fs[0])
    else Finisher(known || (Broadcasts(fs[0]) && fs[0].broadcast.Done()), fs[1..])
  }

  /** Some attempt of a sequence completes. */
  predicate Completes(w: Wallet, tx: FundingTx, fs: seq<Faults>)
    decreases |fs|
  {
    fs != [] && (SentEnd(w, tx, fs[0]).1 == Completed || Completes(SentEnd(w, tx, fs[0]).0, tx, fs[1..]))
  }

  lemma {:induction false} NeverWithoutSlot(w: Wallet, tx: FundingTx, fs: seq<Faults>)
    requires w.slot.None?
    ensures !Completes(w, tx, fs)
    decreases |fs|
  {
    if fs != [] { NeverWithoutSlot(w, tx, fs[1..]); }
  }

  /**
   * Recovery, for any failures, crashes and replays on any network: the attempts complete if
   * and only if the first one that removes the slot, or tries to in vain, does not crash
   * right after removing it. After such a crash no replay ever completes.
   */
  lemma {:induction false} CompletesIff(w: Wallet, tx: FundingTx, fs: seq<Faults>)
    requires w.slot.Some? && FundingVout(tx.outputs).Some?
    ensures Completes(w, tx, fs)
            <==> var f := Finisher(tx.txid in w.accepted, fs); f.Some? && !f.value.cleanup.CrashesAfter?
    decreases |fs|
  {
    if fs != [] {
      var (w', outcome) := SentEnd(w, tx, fs[0]);
      if outcome != Completed {
        if w'.slot.None? {
          NeverWithoutSlot(w', tx, fs[1..]);
        } else {
          CompletesIff(w', tx, fs[1..]);
        }
      }
    }
  }

  /** The crash after which the opening stays as it is: after a restart every replay fails on the missing slot. */
  lemma LostSlotIsStuck(n: Node, tx: FundingTx, f: Faults)
    requires tx.txid in n.psbts && n.psbts[tx.txid].rgb.Some?
    requires n.wallet.slot.Some? && FundingVout(tx.outputs).Some?
    ensures var stuck := Apply(Apply(n, ChannelPending(tx, FINE.(cleanup := CrashesAfter))), Restart);
            && stuck.wallet.slot == None && stuck.opening == n.opening && tx.txid in stuck.wallet.accepted
            && Apply(stuck, ChannelPending(tx, f)) == stuck
  {
  }

  /** k attempts that fail to save, on a network that accepts the transaction each time. */
  function Unsaved(k: nat): seq<Faults> {
    seq(k, _ => FINE.(reaccepts := true, save := Fails))
  }

  /**
   * The bound of `TransfersAreGated` is reached, for every number of acceptances: each
   * unsaved transfer is made again when the network accepts the broadcast again.
   */
  lemma {:induction false} GateIsTight(w: Wallet, tx: FundingTx, k: nat)
    requires w.slot.Some? && FundingVout(tx.outputs).Some?
    ensures var w' := Attempts(w, tx, Unsaved(k));
            && Invocations(w'.invoked, tx.txid) == Invocations(w.invoked, tx.txid) + k
            && Acceptances(w', tx.txid) == Acceptances(w, tx.txid) + k
            && w'.locked == w.locked
    decreases k
  {
    if k > 0 {
      assert Unsaved(k)[1..] == Unsaved(k - 1);
      assert Unsaved(k)[0] == FINE.(reaccepts := true, save := Fails);
      InvocationsAppend(w.invoked, Invocation(tx.txid, w.slot.value, true, true), tx.txid);
      GateIsTight(SentEnd(w, tx, FINE.(reaccepts := true, save := Fails)).0, tx, k - 1);
    }
  }

  // Runs in which only the channel being opened releases the lock.

  /** Only events of the channel being opened release the lock. */
  predicate OwnRelease(n: Node, step: Step) {
    match step
    case ChannelPending(tx, _) =>
      tx.txid in n.psbts ==>
      && n.psbts[tx.txid].channel in n.opening
      && n.opening[n.psbts[tx.txid].channel].txid == Some(tx.txid)
    case DiscardFunding(channel) => n.sendLock ==> channel in n.opening
    case Restart => !n.sendLock
    case _ => true
  }

  predicate OwnReleases(n: Node, steps: seq<Step>)
    decreases |steps|
  {
    steps == [] || (Enabled(n, steps[0]) && OwnRelease(n, steps[0]) && OwnReleases(Apply(n, steps[0]), steps[1..]))
  }

  /**
   * The lock is held exactly while one channel is being opened; from its funding on, the
   * slot describes that channel, unless a crash removed it after the broadcast; every call
   * was for the channel it funded.
   */
  ghost predicate Exclusive(n: Node) {
    && (n.sendLock <==> n.opening != map[])
    && (forall c, d | c in n.opening && d in n.opening :: c == d)
    && (forall c | c in n.opening && n.opening[c].txid.Some? ::
          && n.opening[c].txid.value in n.psbts
          && n.psbts[n.opening[c].txid.value] == Psbt(c, n.opening[c].rgb)
          && (n.opening[c].rgb.Some? ==>
                || n.wallet.slot == Recorded(n.opening[c].rgb)
                || (n.wallet.slot == None && n.opening[c].txid.value in n.wallet.accepted)))
    && (forall call | call in n.wallet.invoked ::
          && call.txid in n.psbts && n.psbts[call.txid].rgb.Some?
                       && Moves(call.transfer, n.psbts[call.txid].rgb.value))
  }

  lemma StepKeepsExclusive(n: Node, step: Step)
    requires Exclusive(n) && Enabled(n, step) && OwnRelease(n, step)
    ensures Exclusive(Apply(n, step))
  {
    match step {
      case ChannelPending(tx, f) =>
        if tx.txid in n.psbts { CompletingKeepsExclusive(n, tx, f); }
      case OpenChannel(channel, rgb, created) =>
      case FundingGenerationReady(channel, txid, posted, accepted) =>
        assert Apply(n, step).opening != map[] <==> Apply(n, step).sendLock by {
          assert channel in n.opening && n.opening.Keys == {channel};
        }
      case DiscardFunding(channel) =>
        assert channel in n.opening ==> n.opening.Keys == {channel};
      case Restart =>
    }
  }

  lemma CallIsOwn(w: Wallet, tx: FundingTx, f: Faults)
    ensures var w' := SentEnd(w, tx, f).0;
            && (w'.slot == w.slot || (w'.slot == None && tx.txid in w'.accepted))
            && (forall txid | txid in w.accepted :: txid in w'.accepted)
            && forall call | call in w'.invoked ::
                 call in w.invoked || (call.txid == tx.txid && w.slot == Some(call.transfer))
  {
  }

  lemma CompletingKeepsExclusive(n: Node, tx: FundingTx, f: Faults)
    requires Exclusive(n) && tx.txid in n.psbts && OwnRelease(n, ChannelPending(tx, f))
    ensures Exclusive(Completing(n, tx, f))
  {
    CallIsOwn(n.wallet, tx, f);
    var channel := n.psbts[tx.txid].channel;
    assert n.opening.Keys == {channel};
  }

  /**
   * Over every run in which the lock is released only by the channel being opened, each
   * contract call moves the contract and amount of the channel its transaction funds.
   */
  lemma {:induction false} CallsMatchTheirChannel(n: Node, steps: seq<Step>)
    requires Exclusive(n) && OwnReleases(n, steps)
    ensures Run(n, steps).Some? && Exclusive(Run(n, steps).value)
    decreases |steps|
  {
    if steps != [] {
      StepKeepsExclusive(n, steps[0]);
      CallsMatchTheirChannel(Apply(n, steps[0]), steps[1..]);
    }
  }

  /**
   * From a fresh node, over every run: calls are gated by accepted broadcasts; and if only the
   * channel being opened releases the lock, each call is for the channel its transaction funds.
   */
  lemma FundingFromFresh(steps: seq<Step>)
    requires Run(FRESH, steps).Some?
    ensures var n := Run(FRESH, steps).value;
            && Gated(n.wallet)
            && (forall txid | Acceptances(n.wallet, txid) <= 1 :: Invocations(n.wallet.invoked, txid) <= 1)
            && (OwnReleases(FRESH, steps) ==>
                  && Exclusive(n)
                  && forall call | call in n.wallet.invoked ::
                       && call.txid in n.psbts && n.psbts[call.txid].rgb.Some?
                       && Moves(call.transfer, n.psbts[call.txid].rgb.value))
  {
    TransfersAreGated(FRESH, steps);
    if OwnReleases(FRESH, steps) { CallsMatchTheirChannel(FRESH, steps); }
  }

  /** A channel whose RGB funding is on its way to the network. */
  predicate Underway(n: Node, c: ChannelId, tx: FundingTx) {
    && c in n.opening && n.opening[c].rgb.Some? && n.opening[c].txid == Some(tx.txid)
    && tx.txid !in n.wallet.accepted && FundingVout(tx.outputs).Some?
  }

  /**
   * Without that assumption the slot becomes another channel's. Whatever kind of step it is
   * that releases the lock of a channel underway without being its own event - a restart, a
   * discarded funding or a replayed ChannelPending of another channel - opening one more RGB
   * channel makes the first one's completion move the second one's contract and amount.
   */
  lemma ForeignReleaseMisdirects(n: Node, c: ChannelId, tx: FundingTx, release: Step, d: ChannelId, b: Request)
    requires Exclusive(n) && Underway(n, c, tx)
    requires Enabled(n, release) && !OwnRelease(n, release) && !Apply(n, release).sendLock
    requires d !in n.opening
    ensures var released := Apply(n, release);
            && Enabled(released, OpenChannel(d, Some(b), true))
            && var later := Apply(released, OpenChannel(d, Some(b), true));
            && Enabled(later, ChannelPending(tx, FINE))
            && var done := Apply(later, ChannelPending(tx, FINE));
            && done.wallet.invoked == released.wallet.invoked + [Invocation(tx.txid, TransferOf(b), true, true)]
            && (!Moves(TransferOf(b), n.opening[c].rgb.value) ==> !Exclusive(done))
  {
    var released := Apply(n, release);
    var later := Apply(released, OpenChannel(d, Some(b), true));
    assert tx.txid in released.psbts && released.psbts[tx.txid] == Psbt(c, n.opening[c].rgb);
    assert tx.txid !in released.wallet.accepted;
    assert later.wallet.slot == Some(TransferOf(b)) && !(tx.txid in later.wallet.accepted);
    var done := Apply(later, ChannelPending(tx, FINE));
    assert done.wallet.invoked[|released.wallet.invoked|] == Invocation(tx.txid, TransferOf(b), true, true);
  }

  /**
   * A replayed ChannelPending of another channel that the network accepts (again) need not
   * wait for that: it moves the contract and amount of the channel underway itself, takes
   * the slot, and leaves that channel's own completion nothing to do.
   */
  lemma ReplayTakesSlot(n: Node, c: ChannelId, tx: FundingTx, earlier: FundingTx, f: Faults)
    requires Exclusive(n) && Underway(n, c, tx)
    requires earlier.txid in n.psbts && n.psbts[earlier.txid].rgb.Some? && n.psbts[earlier.txid].channel != c
    requires FundingVout(earlier.outputs).Some? && (earlier.txid in n.wallet.accepted ==> f.reaccepts)
    requires f == FINE.(reaccepts := f.reaccepts)
    ensures var taken := Apply(n, ChannelPending(earlier, f));
            && var underway := TransferOf(n.opening[c].rgb.value);
            && taken.wallet.invoked == n.wallet.invoked + [Invocation(earlier.txid, underway, true, true)]
            && taken.wallet.slot == None && !taken.sendLock
            && (!Moves(underway, n.psbts[earlier.txid].rgb.value) ==> !Exclusive(taken))
            && forall g :: Apply(taken, ChannelPending(tx, g)) == taken
  {
    var taken := Apply(n, ChannelPending(earlier, f));
    assert taken.wallet.invoked[|n.wallet.invoked|].transfer == TransferOf(n.opening[c].rgb.value);
  }
}
