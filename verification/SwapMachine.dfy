/**
 * The swaps a node makes and takes, as a machine over API calls and events, with the
 * HTLCs it forwarded as a taker.
 */
module SwapMachine {
  import opened Wrappers
  import opened Types
  import opened SwapOffer
  import opened SwapRoute
  import opened Stores

  const PENDING_TIMEOUT_SEC: nat := 86400

  datatype Forward = Forward(hash: PaymentHash, info: SwapInfo, htlc: InterceptedHtlc)

  datatype Swaps = Swaps(maker: SwapMap, taker: SwapMap, forwarded: seq<Forward>)

  /** A handler leaves stores behind, which the node restarts from if it panicked. */
  datatype Outcome = Next(swaps: Swaps) | Panicked(swaps: Swaps, panic: Panic)

  datatype InitRequest = InitRequest(
    fromAsset: Option<ContractId>, toAsset: Option<ContractId>, qtyFrom: u64, qtyTo: u64, timeoutSec: nat)

  /** A usable channel as the maker sees it: its asset, and what the channel manager knows about routing over it. */
  datatype UsableChannel = UsableChannel(contract: Option<ContractId>, forwardingInfo: bool, shortId: bool)

  /** The channels the second leg may come back over: all of them for BTC, those of the asset otherwise. */
  predicate TakesBack(channel: UsableChannel, info: SwapInfo) {
    info.IsFromBtc() || (channel.contract.Some? && channel.contract == info.fromAsset)
  }

  /** The route hints unwrap what is known about every such channel. */
  predicate HintsReady(channels: seq<UsableChannel>, info: SwapInfo) {
    forall ch | ch in channels && TakesBack(ch, info) :: ch.forwardingInfo && ch.shortId
  }

  /** What the maker finds out while executing a swap. */
  datatype ExecuteRequest = ExecuteRequest(
    offer: Option<(PaymentHash, SwapInfo)>, secretOk: bool, pubkeyOk: bool, preimageKnown: bool,
    channels: seq<UsableChannel>, legs: Option<(seq<RouteHop>, seq<RouteHop>)>, sendOk: bool)
  {
    predicate RequestOk() { offer.Some? && secretOk && pubkeyOk }

    /** The offer was parsed, and routes are not empty. */
    predicate WellFormed() {
      && (offer.Some? ==> offer.value.1.Acceptable())
      && (legs.Some? ==> 0 < |legs.value.0| && 0 < |legs.value.1|)
    }

    /** The preimage, the route hints, the legs and an acceptable fee are there. */
    predicate Payable()
      requires offer.Some? && WellFormed()
    {
      && preimageKnown && HintsReady(channels, offer.value.1) && legs.Some?
      && TotalFee(Composed(legs.value.0, legs.value.1, offer.value.1)) < MAX_SWAP_FEE_MSAT
    }
  }

  type ShortId = nat

  datatype LocalChannel = LocalChannel(shortId: Option<ShortId>, contract: Option<ContractId>)

  /** No channel before the i-th has the short id it has. */
  ghost predicate IsFirst(channels: seq<LocalChannel>, i: nat, id: ShortId)
    requires i < |channels|
  {
    channels[i].shortId == Some(id) && forall j | 0 <= j < i :: channels[j].shortId != Some(id)
  }

  /** The first channel with a short id. */
  function FindChannel(channels: seq<LocalChannel>, id: ShortId): (r: Option<LocalChannel>)
    ensures r.None? <==> forall ch | ch in channels :: ch.shortId != Some(id)
    ensures r.Some? ==> exists i | 0 <= i < |channels| :: channels[i] == r.value && IsFirst(channels, i, id)
  {
    if channels == [] then None
    else if channels[0].shortId == Some(id) then Some(channels[0])
    else
      var r := FindChannel(channels[1..], id);
      assert r.Some? ==> exists i | 0 < i < |channels| :: channels[i] == r.value && IsFirst(channels, i, id) by {
        if r.Some? {
          var i :| 0 <= i < |channels[1..]| && channels[1..][i] == r.value && IsFirst(channels[1..], i, id);
          assert channels[i + 1] == r.value && IsFirst(channels, i + 1, id);
        }
      }
      r
  }

  /**
   * An intercepted HTLC, flagged as a swap or not, with the node's channels, and whether the
   * channel manager takes the early refusal of an unflagged one and the final decision.
   */
  datatype Interception = Interception(
    isSwap: bool, inboundMsat: nat, expectedOutboundMsat: nat,
    inboundRgb: Option<u64>, expectedOutboundRgb: Option<(ContractId, u64)>,
    prev: ShortId, next: ShortId, channels: seq<LocalChannel>, refusalTaken: bool, decisionTaken: bool)
  {
    predicate ChannelsKnown() {
      FindChannel(channels, prev).Some? && FindChannel(channels, next).Some?
    }

    /** What the check is about. */
    function Htlc(): InterceptedHtlc
      requires ChannelsKnown()
    {
      InterceptedHtlc(inboundMsat, expectedOutboundMsat, inboundRgb, expectedOutboundRgb,
                      FindChannel(channels, prev).value.contract, FindChannel(channels, next).value.contract)
    }

    /** Everything the handler unwraps is there. */
    predicate Sound() {
      (isSwap || refusalTaken) && ChannelsKnown() && decisionTaken
    }
  }

  /**
   * API calls and events; `known` tells whether the payment of an event about no maker swap
   * is stored under the id it names; for a claim, whether the event names its receiver; for
   * a forwarding, whether it names both channels.
   */
  datatype Step =
    | MakerInit(hash: PaymentHash, req: InitRequest, now: nat, maxBalance: u64)
    | Taker(offer: Option<(PaymentHash, SwapInfo)>, now: nat, maxBalance: u64)
    | MakerExecute(exec: ExecuteRequest, now: nat)
    | PaymentClaimed(hash: PaymentHash, known: bool, now: nat)
    | PaymentSent(hash: PaymentHash, known: bool, now: nat)
    | PaymentFailed(failedHash: Option<PaymentHash>, known: bool, now: nat)
    | PaymentForwarded(hash: PaymentHash, known: bool, now: nat)
    | HtlcIntercepted(hash: PaymentHash, htlc: Interception, now: nat)
    | ListSwaps(now: nat)
    | GetSwap(hash: PaymentHash, taker: bool, now: nat)

  /** Offers come out of the parser. */
  predicate Enabled(step: Step) {
    match step
    case Taker(offer, _, _) => offer.Some? ==> offer.value.1.Acceptable()
    case MakerExecute(exec, _) => exec.WellFormed()
    case _ => true
  }

  function NewSwap(info: SwapInfo, now: nat): SwapData {
    SwapData(info, Waiting, now, None, None)
  }

  function InitInfo(req: InitRequest, now: nat): SwapInfo {
    SwapInfo(req.qtyFrom, req.qtyTo, req.fromAsset, req.toAsset, (now + req.timeoutSec) % U64_SIZE)
  }

  /** Swaps between the same asset, BTC included, and of more than the node holds are refused. */
  predicate InitRefused(req: InitRequest, maxBalance: u64) {
    || (req.fromAsset.None? && req.toAsset.None?)
    || req.fromAsset == req.toAsset
    || (req.toAsset.Some? && req.qtyTo > maxBalance)
  }

  predicate TakeRefused(info: SwapInfo, now: nat, maxBalance: u64) {
    || now > info.expiry
    || (info.fromAsset.Some? && info.qtyFrom > maxBalance)
  }

  function MakerUpdated(s: Swaps, hash: PaymentHash, status: SwapStatus, now: nat): Outcome {
    match SwapsUpdated(s.maker, hash, status, now)
    case Err(e) => Panicked(s, e)
    case Ok(maker) => Next(s.(maker := maker))
  }

  function TakerUpdated(s: Swaps, hash: PaymentHash, status: SwapStatus, now: nat): Outcome {
    match SwapsUpdated(s.taker, hash, status, now)
    case Err(e) => Panicked(s, e)
    case Ok(taker) => Next(s.(taker := taker))
  }

  function Executed(s: Swaps, req: ExecuteRequest, now: nat): Outcome
    requires req.WellFormed()
  {
    if !req.RequestOk() then Next(s)
    else
      var (hash, info) := req.offer.value;
      if now > info.expiry then MakerUpdated(s, hash, Expired, now)
      else if !req.preimageKnown then Next(s)
      else if !HintsReady(req.channels, info) then Panicked(s, MissingRoutingInfo)
      else if !req.Payable() then Next(s)
      else
        var pending := MakerUpdated(s, hash, SwapStatus.Pending, now);
        if pending.Panicked? || req.sendOk then pending
        else MakerUpdated(pending.swaps, hash, SwapStatus.Failed, now)
  }

  /** What the taker makes of an HTLC: it fails the swap, or agrees to forward. */
  function Decided(s: Swaps, hash: PaymentHash, htlc: InterceptedHtlc, now: nat): (Outcome, bool) {
    if hash !in s.taker then (Next(s), false)
    else if !Whitelisted(s.taker[hash].info, htlc) then (TakerUpdated(s, hash, SwapStatus.Failed, now), false)
    else
      var pending := TakerUpdated(s, hash, SwapStatus.Pending, now);
      (pending, pending.Next?)
  }

  /** An unflagged HTLC is refused first, but the handler goes on. */
  function Intercepted(s: Swaps, hash: PaymentHash, e: Interception, now: nat): Outcome {
    if !e.isSwap && !e.refusalTaken then Panicked(s, NotRelayed)
    else if !e.ChannelsKnown() then Panicked(s, UnknownChannel)
    else
      var (decided, forward) := Decided(s, hash, e.Htlc(), now);
      if decided.Panicked? then decided
      else if !e.decisionTaken then Panicked(decided.swaps, NotRelayed)
      else if !forward then decided
      else Next(decided.swaps.(forwarded := s.forwarded + [Forward(hash, s.taker[hash].info, e.Htlc())]))
  }

  /** A pending swap has the time stamp a query unwraps. */
  predicate Stamped(swap: SwapData) {
    swap.status == SwapStatus.Pending ==> swap.initiatedAt.Some?
  }

  /** The status a query reports: lazily expired or failed. */
  function CurrentStatus(swap: SwapData, now: nat): SwapStatus
    requires Stamped(swap)
  {
    if swap.status == Waiting && now > swap.info.expiry then Expired
    else if swap.status == SwapStatus.Pending && now > swap.initiatedAt.value + PENDING_TIMEOUT_SEC
    then SwapStatus.Failed
    else swap.status
  }

  predicate Queryable(swaps: SwapMap) {
    forall h | h in swaps :: Stamped(swaps[h])
  }

  /** A swap as a query writes it back. */
  function Swept(swap: SwapData, now: nat): SwapData
    requires Stamped(swap)
  {
    var status := CurrentStatus(swap, now);
    if status == swap.status then swap else StatusUpdated(swap, status, now)
  }

  function SweptMap(swaps: SwapMap, now: nat): SwapMap
    requires Queryable(swaps)
  {
    map h | h in swaps :: Swept(swaps[h], now)
  }

  /** An event about a payment that is not a maker swap. */
  function Elsewhere(s: Swaps, known: bool): Outcome {
    if known then Next(s) else Panicked(s, MissingEntry)
  }

  function Apply(s: Swaps, step: Step): Outcome
    requires Enabled(step)
  {
    match step
    case MakerInit(hash, req, now, maxBalance) =>
      if InitRefused(req, maxBalance) then Next(s)
      else Next(s.(maker := s.maker[hash := NewSwap(InitInfo(req, now), now)]))
    case Taker(offer, now, maxBalance) =>
      if offer.None? || TakeRefused(offer.value.1, now, maxBalance) then Next(s)
      else Next(s.(taker := s.taker[offer.value.0 := NewSwap(offer.value.1, now)]))
    case MakerExecute(exec, now) => Executed(s, exec, now)
    case PaymentClaimed(hash, known, now) =>
      if hash in s.maker then MakerUpdated(s, hash, SwapStatus.Succeeded, now) else Elsewhere(s, known)
    case PaymentSent(hash, known, now) =>
      if hash in s.maker then MakerUpdated(s, hash, SwapStatus.Succeeded, now) else Elsewhere(s, known)
    case PaymentFailed(hash, known, now) =>
      if hash.Some? && hash.value in s.maker then MakerUpdated(s, hash.value, SwapStatus.Failed, now)
      else Elsewhere(s, known)
    case PaymentForwarded(hash, known, now) =>
      if !known then Panicked(s, MissingEntry)
      else if hash in s.taker then TakerUpdated(s, hash, SwapStatus.Succeeded, now) else Next(s)
    case HtlcIntercepted(hash, htlc, now) => Intercepted(s, hash, htlc, now)
    case ListSwaps(now) =>
      if Queryable(s.taker) && Queryable(s.maker)
      then Next(s.(taker := SweptMap(s.taker, now), maker := SweptMap(s.maker, now)))
      else Panicked(s, MissingTimestamp)
    case GetSwap(hash, taker, now) =>
      var swaps := if taker then s.taker else s.maker;
      if hash !in swaps then Next(s)
      else if !Stamped(swaps[hash]) then Panicked(s, MissingTimestamp)
      else
        var swaps' := swaps[hash := Swept(swaps[hash], now)];
        Next(if taker then s.(taker := swaps') else s.(maker := swaps'))
  }

  /**
   * What a run of handlers leaves behind. Restarts, after a panic or at will, reload the
   * stores and change nothing.
   */
  function Run(s: Swaps, steps: seq<Step>): Swaps
    requires forall step | step in steps :: Enabled(step)
    decreases |steps|
  {
    if steps == [] then s else Run(Apply(s, steps[0]).swaps, steps[1..])
  }

  // What every run keeps.

  /** Which time stamps a status comes with. */
  predicate WellTimed(swap: SwapData) {
    match swap.status
    case Waiting => swap.initiatedAt.None? && swap.completedAt.None?
    case Pending => swap.initiatedAt.Some?
    case Succeeded | Expired | Failed => swap.completedAt.Some?
  }

  /**
   * Time stamps fit statuses; offers taken are acceptable ones; every forwarded HTLC has
   * an offer stored under its hash and realises exactly the two legs that were agreed.
   */
  predicate Consistent(s: Swaps) {
    && (forall h | h in s.maker :: WellTimed(s.maker[h]))
    && (forall h | h in s.taker :: WellTimed(s.taker[h]) && s.taker[h].info.Acceptable())
    && (forall f | f in s.forwarded :: f.hash in s.taker && f.info.Acceptable() && RealisesLegs(f.info, f.htlc))
  }

  /**
   * The ways to panic. The maker panics when it executes an offer it did not make, once that
   * is expired or payable, and when it executes any offer, its own included, while a channel
   * the payment may come back over lacks routing information. An event must name a maker
   * swap or a payment that is stored, and a forwarding its two channels. An interception must
   * find both channels, and the channel manager must take each decision.
   */
  predicate Panics(s: Swaps, step: Step)
    requires Enabled(step)
  {
    match step
    case MakerExecute(exec, now) =>
      && exec.RequestOk()
      && var (hash, info) := exec.offer.value;
         if now > info.expiry then hash !in s.maker
         else exec.preimageKnown && (!HintsReady(exec.channels, info) || (hash !in s.maker && exec.Payable()))
    case PaymentClaimed(hash, known, _) => hash !in s.maker && !known
    case PaymentSent(hash, known, _) => hash !in s.maker && !known
    case PaymentFailed(hash, known, _) => (hash.None? || hash.value !in s.maker) && !known
    case PaymentForwarded(_, known, _) => !known
    case HtlcIntercepted(_, htlc, _) => !htlc.Sound()
    case _ => false
  }

  /** The panics of queries and status updates that never happen. */
  predicate Impossible(panic: Panic) {
    panic == MissingTimestamp || panic == WaitingStatus
  }

  lemma DecidedKeepsConsistent(s: Swaps, hash: PaymentHash, htlc: InterceptedHtlc, now: nat)
    requires Consistent(s)
    ensures var (o, forward) := Decided(s, hash, htlc, now);
            && o.Next? && Consistent(o.swaps) && o.swaps.forwarded == s.forwarded
            && (forward ==> hash in s.taker && s.taker[hash].info.Acceptable() && hash in o.swaps.taker
                            && RealisesLegs(s.taker[hash].info, htlc))
  {
    if hash in s.taker {
      CheckIsExact(s.taker[hash].info, htlc);
    }
  }

  lemma InterceptKeepsConsistent(s: Swaps, hash: PaymentHash, e: Interception, now: nat)
    requires Consistent(s)
    ensures Consistent(Intercepted(s, hash, e, now).swaps)
    ensures Intercepted(s, hash, e, now).Panicked? <==> !e.Sound()
    ensures Intercepted(s, hash, e, now).Panicked? ==> !Impossible(Intercepted(s, hash, e, now).panic)
  {
    if e.ChannelsKnown() { DecidedKeepsConsistent(s, hash, e.Htlc(), now); }
  }

  lemma ExecuteKeepsConsistent(s: Swaps, exec: ExecuteRequest, now: nat)
    requires Consistent(s) && exec.WellFormed()
    ensures Consistent(Executed(s, exec, now).swaps)
    ensures Executed(s, exec, now).Panicked? <==> Panics(s, MakerExecute(exec, now))
    ensures Executed(s, exec, now).Panicked? ==> !Impossible(Executed(s, exec, now).panic)
  {
  }

  lemma SweepKeepsWellTimed(swaps: SwapMap, now: nat)
    requires forall h | h in swaps :: WellTimed(swaps[h])
    ensures Queryable(swaps) && SweptMap(swaps, now).Keys == swaps.Keys
    ensures forall h | h in swaps ::
              WellTimed(SweptMap(swaps, now)[h]) && SweptMap(swaps, now)[h].info == swaps[h].info
  {
  }

  lemma QueryKeepsConsistent(s: Swaps, step: Step)
    requires Consistent(s) && (step.ListSwaps? || step.GetSwap?)
    ensures Apply(s, step).Next? && Consistent(Apply(s, step).swaps)
  {
    SweepKeepsWellTimed(s.maker, step.now);
    SweepKeepsWellTimed(s.taker, step.now);
  }

  lemma StepKeepsConsistent(s: Swaps, step: Step)
    requires Consistent(s) && Enabled(step)
    ensures Consistent(Apply(s, step).swaps)
    ensures Apply(s, step).Panicked? <==> Panics(s, step)
    ensures Apply(s, step).Panicked? ==> !Impossible(Apply(s, step).panic)
  {
    match step {
      case HtlcIntercepted(hash, htlc, now) => InterceptKeepsConsistent(s, hash, htlc, now);
      case MakerExecute(exec, now) => ExecuteKeepsConsistent(s, exec, now);
      case ListSwaps(_) => QueryKeepsConsistent(s, step);
      case GetSwap(_, _, _) => QueryKeepsConsistent(s, step);
      case _ =>
    }
  }

  /**
   * Over every run, panics and restarts included, the stores stay consistent; every step
   * panics exactly as told, and none because a query misses a time stamp or a status is set
   * back to Waiting.
   */
  lemma {:induction false} RunsAreConsistent(s: Swaps, steps: seq<Step>, m: nat)
    requires Consistent(s) && forall step | step in steps :: Enabled(step)
    requires m < |steps|
    ensures Consistent(Run(s, steps)) && Consistent(Run(s, steps[..m]))
    ensures var before := Run(s, steps[..m]);
            var o := Apply(before, steps[m]);
            (o.Panicked? <==> Panics(before, steps[m])) && (o.Panicked? ==> !Impossible(o.panic))
    decreases |steps|
  {
    StepKeepsConsistent(s, steps[0]);
    var s', rest := Apply(s, steps[0]).swaps, steps[1..];
    if rest != [] { RunsAreConsistent(s', rest, if m == 0 then 0 else m - 1); }
    if m > 0 {
      assert steps[..m][1..] == rest[..m - 1];
    }
  }

  /**
   * A run in which this node executes an offer of its own and panics, for want of a
   * counterparty's forwarding information.
   */
  lemma OwnOfferPanics(hash: PaymentHash, asset: ContractId)
    ensures var req := InitRequest(Some(asset), None, 5, 7, 3600);
            var exec := ExecuteRequest(Some((hash, InitInfo(req, 100))), true, true, true,
                                       [UsableChannel(Some(asset), false, true)], None, true);
            var made := Run(Swaps(map[], map[], []), [MakerInit(hash, req, 100, 0)]);
            && hash in made.maker && made.maker[hash].info == exec.offer.value.1
            && Enabled(MakerExecute(exec, 200))
            && Apply(made, MakerExecute(exec, 200)) == Panicked(made, MissingRoutingInfo)
  {
    var req := InitRequest(Some(asset), None, 5, 7, 3600);
    var step := MakerInit(hash, req, 100, 0);
    var made := Apply(Swaps(map[], map[], []), step).swaps;
    assert [step][1..] == [];
    assert UsableChannel(Some(asset), false, true) in [UsableChannel(Some(asset), false, true)];
    assert Run(Swaps(map[], map[], []), [step]) == made;
  }

  /**
   * In every consistent state an HTLC is forwarded exactly when an offer is stored under its
   * hash, the HTLC realises the legs of that offer, and everything the handler unwraps is
   * there; the offer is then pending, and failed if the legs are not realised.
   */
  lemma ForwardsExactlyAgreedSwaps(s: Swaps, hash: PaymentHash, e: Interception, now: nat)
    requires Consistent(s)
    ensures var o := Intercepted(s, hash, e, now).swaps;
            && (o.forwarded != s.forwarded <==>
                  e.Sound() && hash in s.taker && RealisesLegs(s.taker[hash].info, e.Htlc()))
            && (hash in s.taker && (e.isSwap || e.refusalTaken) && e.ChannelsKnown() ==>
                  && hash in o.taker && o.taker[hash].info == s.taker[hash].info
                  && o.taker[hash].status
                     == if RealisesLegs(s.taker[hash].info, e.Htlc()) then SwapStatus.Pending else SwapStatus.Failed)
  {
    if hash in s.taker && e.ChannelsKnown() {
      CheckIsExact(s.taker[hash].info, e.Htlc());
    }
  }

  // What becomes of a swap, event by event.

  /** The first channel with a short id carries a contract, or none. */
  ghost predicate Over(channels: seq<LocalChannel>, id: ShortId, contract: Option<ContractId>) {
    exists i | 0 <= i < |channels| :: IsFirst(channels, i, id) && channels[i].contract == contract
  }

  ghost predicate Listed(channels: seq<LocalChannel>, id: ShortId) {
    exists ch | ch in channels :: ch.shortId == Some(id)
  }

  /**
   * An HTLC comes in and would go out as agreed: a to-asset comes in, in full, over a channel
   * of it; a from-asset goes out, in full, over a channel of it; BTC is what lies between.
   */
  ghost predicate ArrivesAsAgreed(info: SwapInfo, e: Interception) {
    && e.inboundMsat - e.expectedOutboundMsat
       == (if info.toAsset.None? then info.qtyTo else 0) - (if info.fromAsset.None? then info.qtyFrom else 0)
    && (info.toAsset.Some? ==> e.inboundRgb == Some(info.qtyTo) && Over(e.channels, e.prev, info.toAsset))
    && (info.fromAsset.Some? ==>
          && e.expectedOutboundRgb.Some? && e.expectedOutboundRgb.value.1 == info.qtyFrom
          && Over(e.channels, e.next, info.fromAsset))
  }

  lemma FoundIsOver(channels: seq<LocalChannel>, id: ShortId, contract: Option<ContractId>)
    ensures FindChannel(channels, id).Some? <==> Listed(channels, id)
    ensures FindChannel(channels, id).Some? ==>
              (Over(channels, id, contract) <==> FindChannel(channels, id).value.contract == contract)
  {
  }

  lemma RealisedIfArrivesAsAgreed(info: SwapInfo, e: Interception)
    requires e.ChannelsKnown()
    ensures RealisesLegs(info, e.Htlc()) <==> ArrivesAsAgreed(info, e)
  {
    FoundIsOver(e.channels, e.prev, info.toAsset);
    FoundIsOver(e.channels, e.next, info.fromAsset);
  }

  lemma DecidedBecomes(s: Swaps, hash: PaymentHash, htlc: InterceptedHtlc, now: nat)
    requires hash in s.taker && s.taker[hash].info.Acceptable()
    ensures var swap := s.taker[hash];
            var agreed := RealisesLegs(swap.info, htlc);
            Decided(s, hash, htlc, now)
            == (Next(s.(taker := s.taker[hash := if agreed
                                                 then swap.(status := SwapStatus.Pending, initiatedAt := Some(now))
                                                 else swap.(status := SwapStatus.Failed, completedAt := Some(now))])),
                agreed)
  {
    CheckIsExact(s.taker[hash].info, htlc);
  }

  /**
   * What becomes of an interception that gets to the stored offer: the HTLC is forwarded as
   * it came, exactly if it arrives as agreed and the channel manager takes the decision; the
   * swap is then pending from now on, and otherwise failed; nothing else changes.
   */
  lemma InterceptedBecomes(s: Swaps, hash: PaymentHash, e: Interception, now: nat)
    requires hash in s.taker && s.taker[hash].info.Acceptable() && (e.isSwap || e.refusalTaken)
    requires Listed(e.channels, e.prev) && Listed(e.channels, e.next)
    ensures var o := Intercepted(s, hash, e, now).swaps;
            var swap := s.taker[hash];
            && o.maker == s.maker
            && o.taker == s.taker[hash := if ArrivesAsAgreed(swap.info, e)
                                          then swap.(status := SwapStatus.Pending, initiatedAt := Some(now))
                                          else swap.(status := SwapStatus.Failed, completedAt := Some(now))]
            && (ArrivesAsAgreed(swap.info, e) && e.decisionTaken ==>
                  && o.forwarded != [] && o.forwarded[..|o.forwarded| - 1] == s.forwarded
                  && var f := o.forwarded[|o.forwarded| - 1];
                  && f.hash == hash && f.info == swap.info
                  && f.htlc.inboundMsat == e.inboundMsat && f.htlc.expectedOutboundMsat == e.expectedOutboundMsat
                  && f.htlc.inboundRgb == e.inboundRgb && f.htlc.expectedOutboundRgb == e.expectedOutboundRgb)
            && (!(ArrivesAsAgreed(swap.info, e) && e.decisionTaken) ==> o.forwarded == s.forwarded)
  {
    FoundIsOver(e.channels, e.prev, None);
    FoundIsOver(e.channels, e.next, None);
    RealisedIfArrivesAsAgreed(s.taker[hash].info, e);
    DecidedBecomes(s, hash, e.Htlc(), now);
  }

  /** Otherwise nothing changes: no offer is stored, a channel is not found, or the early refusal is not taken. */
  lemma InterceptedElsewhere(s: Swaps, hash: PaymentHash, e: Interception, now: nat)
    requires hash !in s.taker || !(e.isSwap || e.refusalTaken)
             || !Listed(e.channels, e.prev) || !Listed(e.channels, e.next)
    ensures Intercepted(s, hash, e, now).swaps == s
  {
    FoundIsOver(e.channels, e.prev, None);
    FoundIsOver(e.channels, e.next, None);
  }

  /**
   * From the maker's route to the taker's decision: the composed HTLC, arriving over channels
   * of the agreed assets and flagged as its hop says, is forwarded if and only if the BTC
   * quantity does not wrap, and makes the swap pending or failed.
   */
  lemma ComposedIsForwarded(s: Swaps, hash: PaymentHash, e: Interception, now: nat,
                            first: seq<RouteHop>, second: seq<RouteHop>)
    requires hash in s.taker && s.taker[hash].info.Acceptable()
    requires Listed(e.channels, e.prev) && Listed(e.channels, e.next) && e.decisionTaken
    requires IsComposedArrival(s.taker[hash].info, e, first, second)
    ensures var o := Apply(s, HtlcIntercepted(hash, e, now)).swaps;
            var swap := s.taker[hash];
            if QuantityFits(swap.info) then
              |o.forwarded| == |s.forwarded| + 1
              && o.taker == s.taker[hash := swap.(status := SwapStatus.Pending, initiatedAt := Some(now))]
            else
              o.forwarded == s.forwarded
              && o.taker == s.taker[hash := swap.(status := SwapStatus.Failed, completedAt := Some(now))]
  {
    ComposedArrivesAsAgreed(s.taker[hash].info, e, first, second);
    InterceptedBecomes(s, hash, e, now);
  }

  /**
   * The HTLC of the composed route, as the node where the legs join is shown it, over
   * channels of the agreed assets.
   */
  ghost predicate IsComposedArrival(info: SwapInfo, e: Interception, first: seq<RouteHop>, second: seq<RouteHop>) {
    && IsLeg(first, FirstLegValue(info)) && IsLeg(second, SecondLegValue(info))
    && (info.toAsset.Some? ==> Over(e.channels, e.prev, info.toAsset))
    && (info.fromAsset.Some? ==> Over(e.channels, e.next, info.fromAsset))
    && var full := Composed(first, second, info);
    && e.inboundMsat == HtlcMsat(full, |first| - 1) && e.expectedOutboundMsat == HtlcMsat(full, |first|)
    && e.inboundRgb == RgbAmount(full[|first| - 1].rgb) && e.expectedOutboundRgb == full[|first|].rgb
    && e.isSwap == full[|first|].swapFlag
  }

  lemma ComposedArrivesAsAgreed(info: SwapInfo, e: Interception, first: seq<RouteHop>, second: seq<RouteHop>)
    requires info.Acceptable() && IsComposedArrival(info, e, first, second)
    requires Listed(e.channels, e.prev) && Listed(e.channels, e.next)
    ensures e.isSwap && (ArrivesAsAgreed(info, e) <==> QuantityFits(info))
  {
    FoundIsOver(e.channels, e.prev, info.toAsset);
    FoundIsOver(e.channels, e.next, info.fromAsset);
    var htlc := e.Htlc();
    assert htlc == AtTaker(Composed(first, second, info), |first|, htlc.inboundContract, htlc.outboundContract);
    ComposedRoutePasses(first, second, info, htlc.inboundContract, htlc.outboundContract);
    CheckIsExact(info, htlc);
    RealisedIfArrivesAsAgreed(info, e);
  }

  /** A maker swap succeeds when its payment is claimed or reported as sent; nothing else changes. */
  lemma ClaimedOrSentSucceeds(s: Swaps, hash: PaymentHash, known: bool, now: nat)
    requires hash in s.maker || known
    ensures var done := if hash !in s.maker then s
                        else
                          var swap := s.maker[hash].(status := SwapStatus.Succeeded, completedAt := Some(now));
                          s.(maker := s.maker[hash := swap]);
            && Apply(s, PaymentClaimed(hash, known, now)) == Next(done)
            && Apply(s, PaymentSent(hash, known, now)) == Next(done)
  {
  }

  /** A maker swap fails when its payment does; nothing else changes. */
  lemma FailedFails(s: Swaps, hash: Option<PaymentHash>, known: bool, now: nat)
    requires (hash.Some? && hash.value in s.maker) || known
    ensures Apply(s, PaymentFailed(hash, known, now))
            == if hash.Some? && hash.value in s.maker then
                 var swap := s.maker[hash.value].(status := SwapStatus.Failed, completedAt := Some(now));
                 Next(s.(maker := s.maker[hash.value := swap]))
               else
                 Next(s)
  {
  }

  /** A taker swap succeeds when its payment is forwarded; nothing else changes. */
  lemma ForwardedSucceeds(s: Swaps, hash: PaymentHash, now: nat)
    ensures Apply(s, PaymentForwarded(hash, true, now))
            == if hash in s.taker then
                 var swap := s.taker[hash].(status := SwapStatus.Succeeded, completedAt := Some(now));
                 Next(s.(taker := s.taker[hash := swap]))
               else
                 Next(s)
  {
  }

  /**
   * What becomes of a swap of its own that the maker executes: expired after its expiry;
   * pending from now on, or failed if sending fails, once the preimage, the routing
   * information of all channels it may come back over and two legs with a fee below 3000000
   * msat are there; unchanged otherwise.
   */
  lemma ExecutedBecomes(s: Swaps, exec: ExecuteRequest, now: nat)
    requires exec.WellFormed() && exec.offer.Some? && exec.secretOk && exec.pubkeyOk
    requires exec.offer.value.0 in s.maker
    ensures var (hash, info) := exec.offer.value;
            var swap := s.maker[hash];
            var ready := forall ch | ch in exec.channels && (info.fromAsset.None? || ch.contract == info.fromAsset) ::
                           ch.forwardingInfo && ch.shortId;
            var routed := exec.legs.Some? && TotalFee(Composed(exec.legs.value.0, exec.legs.value.1, info)) < 3_000_000;
            var o := Apply(s, MakerExecute(exec, now));
            && (now > info.expiry ==>
                  o == Next(s.(maker := s.maker[hash := swap.(status := Expired, completedAt := Some(now))])))
            && (now <= info.expiry && exec.preimageKnown && ready && routed ==>
                  var pending := swap.(status := SwapStatus.Pending, initiatedAt := Some(now));
                  var failed := pending.(status := SwapStatus.Failed, completedAt := Some(now));
                  o == Next(s.(maker := s.maker[hash := if exec.sendOk then pending else failed])))
            && (now <= info.expiry && !(exec.preimageKnown && ready && routed) ==> o.swaps == s)
  {
  }

  /**
   * Making an offer stores exactly what was asked for, waiting and to expire after the
   * timeout, unless it is refused.
   */
  lemma InitStores(s: Swaps, hash: PaymentHash, req: InitRequest, now: nat, maxBalance: u64)
    ensures Apply(s, MakerInit(hash, req, now, maxBalance))
            == if req.fromAsset == req.toAsset || (req.toAsset.Some? && req.qtyTo > maxBalance) then Next(s)
               else
                 var expiry := (now + req.timeoutSec) % 0x1_0000_0000_0000_0000;
                 var info := SwapInfo(req.qtyFrom, req.qtyTo, req.fromAsset, req.toAsset, expiry);
                 Next(s.(maker := s.maker[hash := SwapData(info, Waiting, now, None, None)]))
  {
  }

  /** Taking an offer stores it waiting, unless it is expired or more than the taker has. */
  lemma TakenStores(s: Swaps, hash: PaymentHash, info: SwapInfo, now: nat, maxBalance: u64)
    requires info.Acceptable()
    ensures Apply(s, Taker(Some((hash, info)), now, maxBalance))
            == if now > info.expiry || (info.fromAsset.Some? && info.qtyFrom > maxBalance) then Next(s)
               else Next(s.(taker := s.taker[hash := SwapData(info, Waiting, now, None, None)]))
  {
  }

  /** A pending swap is given a day, to the second. */
  lemma PendingLastsADay(swap: SwapData, since: nat)
    requires swap.status == SwapStatus.Pending && swap.initiatedAt == Some(since)
    ensures CurrentStatus(swap, since + 86400) == SwapStatus.Pending
    ensures CurrentStatus(swap, since + 86401) == SwapStatus.Failed
  {
  }

  /** The same interception, k times. */
  function Repeated(hash: PaymentHash, e: Interception, now: nat, k: nat): seq<Step> {
    seq(k, _ => HtlcIntercepted(hash, e, now))
  }

  /**
   * What it costs the taker that no status is absorbing and that the handler looks at no
   * expiry: it forwards every HTLC that realises a stored offer, at any time, in any status
   * of the swap, and as often as one comes.
   */
  lemma {:induction false} ForwardsAgainAndAgain(s: Swaps, hash: PaymentHash, e: Interception, now: nat, k: nat)
    requires Consistent(s) && hash in s.taker && e.Sound() && RealisesLegs(s.taker[hash].info, e.Htlc())
    ensures Run(s, Repeated(hash, e, now, k)).forwarded
            == s.forwarded + seq(k, _ => Forward(hash, s.taker[hash].info, e.Htlc()))
    decreases k
  {
    if k > 0 {
      var step := HtlcIntercepted(hash, e, now);
      var s' := Apply(s, step).swaps;
      CheckIsExact(s.taker[hash].info, e.Htlc());
      StepKeepsConsistent(s, step);
      assert Repeated(hash, e, now, k)[0] == step && Repeated(hash, e, now, k)[1..] == Repeated(hash, e, now, k - 1);
      ForwardsAgainAndAgain(s', hash, e, now, k - 1);
    }
  }

  // The lazy sweep.

  predicate Overdue(swap: SwapData, now: nat) {
    || (swap.status == Waiting && now > swap.info.expiry)
    || (swap.status == SwapStatus.Pending && swap.initiatedAt.Some?
        && now > swap.initiatedAt.value + PENDING_TIMEOUT_SEC)
  }

  /** One swap before and after the sweep. */
  predicate SweptFrom(before: SwapData, after: SwapData, now: nat) {
    && !Overdue(after, now)
    && (!Overdue(before, now) ==> after == before)
    && (Overdue(before, now) ==>
          after == before.(status := if before.status == Waiting then Expired else SwapStatus.Failed,
                           completedAt := Some(now)))
  }

  lemma SweepSettles(swaps: SwapMap, now: nat)
    requires forall h | h in swaps :: WellTimed(swaps[h])
    ensures Queryable(swaps) && SweptMap(swaps, now).Keys == swaps.Keys
    ensures forall h | h in swaps :: SweptFrom(swaps[h], SweptMap(swaps, now)[h], now)
    ensures Queryable(SweptMap(swaps, now)) && SweptMap(SweptMap(swaps, now), now) == SweptMap(swaps, now)
    ensures forall h | h in swaps :: Swept(SweptMap(swaps, now)[h], now) == SweptMap(swaps, now)[h]
  {
    SweepKeepsWellTimed(swaps, now);
    SweepKeepsWellTimed(SweptMap(swaps, now), now);
  }

  /**
   * After listing at `now` nothing stored is overdue, what was not overdue is untouched,
   * what was has completed now, listing again changes nothing, and asking for any single
   * swap finds what the list reported and changes nothing.
   */
  lemma ListingSweeps(s: Swaps, now: nat)
    requires Consistent(s)
    ensures var o := Apply(s, ListSwaps(now));
            && o.Next?
            && var s' := o.swaps;
            && s'.taker.Keys == s.taker.Keys && s'.maker.Keys == s.maker.Keys
            && (forall h | h in s.taker :: SweptFrom(s.taker[h], s'.taker[h], now))
            && (forall h | h in s.maker :: SweptFrom(s.maker[h], s'.maker[h], now))
            && Apply(s', ListSwaps(now)) == o
            && (forall h, taker :: Apply(s', GetSwap(h, taker, now)) == o)
  {
    SweepSettles(s.taker, now);
    SweepSettles(s.maker, now);
    var s' := Apply(s, ListSwaps(now)).swaps;
    forall h, taker ensures Apply(s', GetSwap(h, taker, now)) == Next(s') {
      var swaps := if taker then s'.taker else s'.maker;
      if h in swaps {
        assert swaps[h := Swept(swaps[h], now)] == swaps;
      }
    }
  }

  /** Asking for one swap sweeps that swap as listing would, and no other. */
  lemma GettingAgreesWithListing(s: Swaps, hash: PaymentHash, taker: bool, now: nat)
    requires Consistent(s) && hash in (if taker then s.taker else s.maker)
    ensures var got := Apply(s, GetSwap(hash, taker, now));
            var listed := Apply(s, ListSwaps(now));
            && got.Next? && listed.Next?
            && (taker ==>
                  && hash in got.swaps.taker && hash in listed.swaps.taker
                  && got.swaps.taker[hash] == listed.swaps.taker[hash]
                  && got.swaps == s.(taker := s.taker[hash := listed.swaps.taker[hash]]))
            && (!taker ==>
                  && hash in got.swaps.maker && hash in listed.swaps.maker
                  && got.swaps.maker[hash] == listed.swaps.maker[hash]
                  && got.swaps == s.(maker := s.maker[hash := listed.swaps.maker[hash]]))
  {
  }

  /**
   * Why a query must be one step: the write-back does not look at the live status. If a
   * payment is reported as sent after a query has read an overdue swap, and before it writes
   * back, the swap ends up failed although it succeeded.
   */
  lemma WriteBackOverwrites(s: Swaps, hash: PaymentHash, sentAt: nat, known: bool, now: nat)
    requires Consistent(s) && hash in s.maker
    requires s.maker[hash].status == SwapStatus.Pending && Overdue(s.maker[hash], now)
    ensures var sent := Apply(s, PaymentSent(hash, known, sentAt)).swaps;
            var written := MakerUpdated(sent, hash, CurrentStatus(s.maker[hash], now), now).swaps;
            && hash in sent.maker && sent.maker[hash].status == SwapStatus.Succeeded
            && hash in written.maker && written.maker[hash].status == SwapStatus.Failed
  {
  }
}
