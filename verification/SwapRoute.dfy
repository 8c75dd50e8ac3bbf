/**
 * The circular route the maker builds from two legs, and the check the taker makes on
 * the HTLC that reaches it where the legs join.
 */
module SwapRoute {
  import opened Wrappers
  import opened Types
  import opened SwapOffer

  const HTLC_MIN_MSAT: u64 := 3_000_000
  const MAX_SWAP_FEE_MSAT: u64 := HTLC_MIN_MSAT

  /**
   * A hop as the router returns it: `value` is the amount the route was requested for,
   * `feeMsat` the fee of the hop's node (in the last hop, the amount itself).
   */
  datatype RouteHop = RouteHop(
    swapFlag: bool, value: nat, feeMsat: nat, rgb: Option<(ContractId, u64)>)

  /** A leg routed for `value`. */
  ghost predicate IsLeg(hops: seq<RouteHop>, value: nat) {
    && 0 < |hops|
    && forall i | 0 <= i < |hops| :: hops[i].value == value && !hops[i].swapFlag
  }

  /** The amounts requested from the router, as 64-bit sums. */
  function FirstLegValue(info: SwapInfo): u64 {
    if info.IsToBtc() then (info.qtyTo + HTLC_MIN_MSAT) % U64_SIZE else HTLC_MIN_MSAT
  }

  function SecondLegValue(info: SwapInfo): u64 {
    if info.IsToBtc() || info.IsAssetAsset() then HTLC_MIN_MSAT
    else (info.qtyFrom + HTLC_MIN_MSAT) % U64_SIZE
  }

  /** The route: RGB amounts on the hops of each leg, no fee at the joint, swap flag on the second leg. */
  function Composed(first: seq<RouteHop>, second: seq<RouteHop>, info: SwapInfo): (full: seq<RouteHop>)
    requires 0 < |first| && 0 < |second|
    ensures |full| == |first| + |second|
  {
    seq(|first| + |second|, i requires 0 <= i < |first| + |second| =>
      if i < |first| then
        RouteHop(first[i].swapFlag, first[i].value,
                 if i == |first| - 1 then 0 else first[i].feeMsat,
                 if info.IsToAsset() then Some((info.toAsset.value, info.qtyTo)) else first[i].rgb)
      else
        var hop := second[i - |first|];
        RouteHop(i == |first| || hop.swapFlag, hop.value, hop.feeMsat,
                 if info.IsFromAsset() then Some((info.fromAsset.value, info.qtyFrom)) else hop.rgb))
  }

  /** The sum of all fees of a list of hops, first to last. */
  function SumFees(hops: seq<RouteHop>): nat {
    if hops == [] then 0 else hops[0].feeMsat + SumFees(hops[1..])
  }

  function Reversed(hops: seq<RouteHop>): (r: seq<RouteHop>)
    ensures |r| == |hops|
  {
    if hops == [] then [] else Reversed(hops[1..]) + [hops[0]]
  }

  /** The fee fold over the hops last to first, without the last one. */
  function TotalFee(full: seq<RouteHop>): nat
    requires 0 < |full|
  {
    SumFees(Reversed(full)[1..])
  }

  /**
   * Builds the route in place from the legs, or reports the fee that is too high.
   */
  method ComposeRoute(first: array<RouteHop>, second: array<RouteHop>, info: SwapInfo)
    returns (r: Result<seq<RouteHop>, nat>)
    requires first != second && 0 < first.Length && 0 < second.Length
    modifies first, second
    ensures var full := Composed(old(first[..]), old(second[..]), info);
            r == if TotalFee(full) >= MAX_SWAP_FEE_MSAT then Err(TotalFee(full)) else Ok(full)
  {
    ghost var route := Composed(first[..], second[..], info);
    second[0] := second[0].(swapFlag := true);
    first[first.Length - 1] := first[first.Length - 1].(feeMsat := 0);
    var full: seq<RouteHop> := [];
    var i := 0;
    while i < first.Length
      invariant 0 <= i <= first.Length
      invariant full == route[..i]
    {
      var hop := first[i];
      if info.IsToAsset() {
        hop := hop.(rgb := Some((info.toAsset.value, info.qtyTo)));
      }
      full := full + [hop];
      i := i + 1;
    }
    i := 0;
    while i < second.Length
      invariant 0 <= i <= second.Length
      invariant full == route[..first.Length + i]
    {
      var hop := second[i];
      if info.IsFromAsset() {
        hop := hop.(rgb := Some((info.fromAsset.value, info.qtyFrom)));
      }
      assert hop == route[first.Length + i];
      full := full + [hop];
      i := i + 1;
    }
    assert full == route;
    var totalFee := TotalFee(full);
    if totalFee >= MAX_SWAP_FEE_MSAT {
      return Err(totalFee);
    }
    return Ok(full);
  }

  // The amounts on the wire.

  /** The fees of the nodes from hop i to the last but one. */
  function FeesFrom(full: seq<RouteHop>, i: nat): nat
    decreases |full| - i
  {
    if i + 1 >= |full| then 0 else full[i].feeMsat + FeesFrom(full, i + 1)
  }

  /** The HTLC of hop i carries its leg's value and the fees of the nodes it still has to pay. */
  function HtlcMsat(full: seq<RouteHop>, i: nat): nat
    requires i < |full|
  {
    full[i].value + FeesFrom(full, i)
  }

  lemma {:induction false} SumFeesOfConcat(a: seq<RouteHop>, b: seq<RouteHop>)
    ensures SumFees(a + b) == SumFees(a) + SumFees(b)
  {
    if a == [] {
      assert a + b == b;
    } else {
      assert (a + b)[1..] == a[1..] + b;
      SumFeesOfConcat(a[1..], b);
    }
  }

  lemma {:induction false} ReversedTail(hops: seq<RouteHop>)
    requires 0 < |hops|
    ensures Reversed(hops)[1..] == Reversed(hops[..|hops| - 1])
  {
    if |hops| > 1 {
      ReversedTail(hops[1..]);
      assert hops[1..][..|hops| - 2] == hops[..|hops| - 1][1..];
      assert Reversed(hops)[1..] == Reversed(hops[1..])[1..] + [hops[0]];
    }
  }

  lemma {:induction false} SumFeesReversed(hops: seq<RouteHop>)
    ensures SumFees(Reversed(hops)) == SumFees(hops)
  {
    if hops != [] {
      SumFeesReversed(hops[1..]);
      SumFeesOfConcat(Reversed(hops[1..]), [hops[0]]);
    }
  }

  lemma {:induction false} FeesFromIsSum(full: seq<RouteHop>, i: nat)
    requires i < |full|
    ensures FeesFrom(full, i) == SumFees(full[i..|full| - 1])
    decreases |full| - i
  {
    if i + 1 < |full| {
      FeesFromIsSum(full, i + 1);
      assert full[i..|full| - 1][1..] == full[i + 1..|full| - 1];
    }
  }

  /** What the maker sends above the first leg's value is the fee fold. */
  lemma OverpaymentIsTotalFee(full: seq<RouteHop>)
    requires 0 < |full|
    ensures HtlcMsat(full, 0) - full[0].value == TotalFee(full)
  {
    ReversedTail(full);
    SumFeesReversed(full[..|full| - 1]);
    FeesFromIsSum(full, 0);
    assert full[0..|full| - 1] == full[..|full| - 1];
  }

  /**
   * What each node of the route keeps: an intermediate node of a leg exactly its fee, the
   * taker exactly the difference of the legs' values and no fee.
   */
  lemma NodesKeepTheirFees(first: seq<RouteHop>, second: seq<RouteHop>, info: SwapInfo, i: nat)
    requires IsLeg(first, FirstLegValue(info)) && IsLeg(second, SecondLegValue(info))
    requires i + 1 < |first| + |second|
    ensures var full := Composed(first, second, info);
            HtlcMsat(full, i) - HtlcMsat(full, i + 1)
            == if i == |first| - 1 then FirstLegValue(info) - SecondLegValue(info)
               else if i < |first| then first[i].feeMsat else second[i - |first|].feeMsat
  {
    var full := Composed(first, second, info);
    assert FeesFrom(full, i) == full[i].feeMsat + FeesFrom(full, i + 1);
  }

  // The taker's check.

  /** What the node that intercepts an HTLC is shown, with the contracts of the two channels. */
  datatype InterceptedHtlc = InterceptedHtlc(
    inboundMsat: nat, expectedOutboundMsat: nat,
    inboundRgb: Option<u64>, expectedOutboundRgb: Option<(ContractId, u64)>,
    inboundContract: Option<ContractId>, outboundContract: Option<ContractId>)

  function CheckedSub(a: nat, b: nat): Option<nat> {
    if a >= b then Some(a - b) else None
  }

  function SaturatingSub(a: nat, b: nat): nat {
    if a >= b then a - b else 0
  }

  function RgbAmount(rgb: Option<(ContractId, u64)>): Option<u64> {
    match rgb
    case None => None
    case Some((_, amount)) => Some(amount)
  }

  /** The three cases of the whitelist check. */
  predicate Whitelisted(info: SwapInfo, htlc: InterceptedHtlc) {
    if info.IsFromBtc() then
      && htlc.inboundRgb == Some(info.qtyTo)
      && htlc.inboundContract == info.toAsset
      && CheckedSub(htlc.expectedOutboundMsat, htlc.inboundMsat) == Some(info.qtyFrom)
    else if info.IsToBtc() then
      && RgbAmount(htlc.expectedOutboundRgb) == Some(info.qtyFrom)
      && htlc.outboundContract == info.fromAsset
      && SaturatingSub(htlc.inboundMsat, htlc.expectedOutboundMsat) == info.qtyTo
    else
      && CheckedSub(htlc.inboundMsat, htlc.expectedOutboundMsat) == Some(0)
      && RgbAmount(htlc.expectedOutboundRgb) == Some(info.qtyFrom)
      && htlc.outboundContract == info.fromAsset
      && htlc.inboundRgb == Some(info.qtyTo)
      && htlc.inboundContract == info.toAsset
  }

  /**
   * The two agreed legs, seen from the taker: it receives qtyTo of the to-asset and gives
   * qtyFrom of the from-asset, BTC being the difference of the msat amounts.
   */
  predicate RealisesLegs(info: SwapInfo, htlc: InterceptedHtlc) {
    && (info.IsToAsset() ==> htlc.inboundRgb == Some(info.qtyTo) && htlc.inboundContract == info.toAsset)
    && (info.IsFromAsset() ==>
          RgbAmount(htlc.expectedOutboundRgb) == Some(info.qtyFrom) && htlc.outboundContract == info.fromAsset)
    && htlc.inboundMsat - htlc.expectedOutboundMsat
       == (if info.IsToBtc() then info.qtyTo else 0) - (if info.IsFromBtc() then info.qtyFrom else 0)
  }

  /** For every offer the parser accepts, the check passes exactly the HTLCs that realise the legs. */
  lemma CheckIsExact(info: SwapInfo, htlc: InterceptedHtlc)
    requires info.Acceptable()
    ensures Whitelisted(info, htlc) <==> RealisesLegs(info, htlc)
  {
  }

  /**
   * Positive quantities are what makes the saturating comparison exact: among offers of
   * different assets, the check admits only agreed legs if and only if it is not a sale
   * of assets for nothing.
   */
  lemma CheckSoundIffPriced(info: SwapInfo)
    requires !info.SameAsset()
    ensures (forall htlc :: Whitelisted(info, htlc) ==> RealisesLegs(info, htlc))
            <==> !(info.IsToBtc() && info.qtyTo == 0)
  {
    if info.IsToBtc() && info.qtyTo == 0 {
      var htlc := InterceptedHtlc(0, 1, None, Some((0, info.qtyFrom)), None, info.fromAsset);
      assert Whitelisted(info, htlc) && !RealisesLegs(info, htlc);
    }
  }

  /**
   * The taker gives nothing beyond the agreed legs: what leaves carries qtyFrom of the
   * from-asset, or no RGB at all when BTC is given.
   */
  predicate GivesOnlyAgreed(info: SwapInfo, htlc: InterceptedHtlc) {
    && RealisesLegs(info, htlc)
    && htlc.expectedOutboundRgb
       == if info.IsFromAsset() then Some((info.fromAsset.value, info.qtyFrom)) else None
  }

  /** What leaves is RGB only when an asset is given, and of the outgoing channel's contract. */
  predicate OutgoingFits(info: SwapInfo, htlc: InterceptedHtlc) {
    htlc.expectedOutboundRgb.Some? ==>
      info.IsFromAsset() && Some(htlc.expectedOutboundRgb.value.0) == htlc.outboundContract
  }

  /**
   * The check says nothing about RGB that leaves when BTC is given, nor about the contract
   * named beside an RGB amount; these two are exactly what it lacks.
   */
  lemma GivesOnlyAgreedIff(info: SwapInfo, htlc: InterceptedHtlc)
    requires info.Acceptable()
    ensures GivesOnlyAgreed(info, htlc) <==> Whitelisted(info, htlc) && OutgoingFits(info, htlc)
  {
    CheckIsExact(info, htlc);
  }

  /**
   * What the check lets through, for every acceptable offer: with BTC given, an HTLC that
   * takes any amount of any contract along; with an asset given, one that names any contract.
   */
  lemma CheckLetsMoreThrough(info: SwapInfo, c: ContractId, a: u64)
    requires info.Acceptable()
    ensures exists htlc ::
              && Whitelisted(info, htlc) && RealisesLegs(info, htlc)
              && htlc.expectedOutboundRgb == Some((c, if info.IsFromBtc() then a else info.qtyFrom))
              && (GivesOnlyAgreed(info, htlc) <==> info.fromAsset == Some(c))
  {
    var to := if info.IsToBtc() then info.qtyTo else 0;
    var from := if info.IsFromBtc() then info.qtyFrom else 0;
    var htlc := InterceptedHtlc(to, from, if info.IsToBtc() then None else Some(info.qtyTo),
                                Some((c, if info.IsFromBtc() then a else info.qtyFrom)), info.toAsset, info.fromAsset);
    assert Whitelisted(info, htlc) && RealisesLegs(info, htlc);
  }

  /** The HTLC that reaches the taker over the composed route. */
  function AtTaker(full: seq<RouteHop>, k: nat, inboundContract: Option<ContractId>,
                   outboundContract: Option<ContractId>): InterceptedHtlc
    requires 0 < k < |full|
  {
    InterceptedHtlc(HtlcMsat(full, k - 1), HtlcMsat(full, k), RgbAmount(full[k - 1].rgb), full[k].rgb,
                    inboundContract, outboundContract)
  }

  /** The BTC quantity fits next to the minimum HTLC amount in 64 bits. */
  predicate QuantityFits(info: SwapInfo) {
    && (info.IsToBtc() ==> info.qtyTo + HTLC_MIN_MSAT < U64_SIZE)
    && (info.IsFromBtc() ==> info.qtyFrom + HTLC_MIN_MSAT < U64_SIZE)
  }

  /** At an actual offer: the largest quantity of BTC for one unit of an asset does not fit, and its HTLC is refused. */
  lemma LargestQuantityFails(asset: ContractId)
    ensures var info := SwapInfo(1, U64_SIZE - 1, Some(asset), None, 1);
            var first := [RouteHop(false, FirstLegValue(info), FirstLegValue(info), None)];
            var second := [RouteHop(false, SecondLegValue(info), SecondLegValue(info), None)];
            && info.Acceptable() && IsLeg(first, FirstLegValue(info)) && IsLeg(second, SecondLegValue(info))
            && FirstLegValue(info) == HTLC_MIN_MSAT - 1
            && !Whitelisted(info, AtTaker(Composed(first, second, info), 1, None, Some(asset)))
  {
    var info := SwapInfo(1, U64_SIZE - 1, Some(asset), None, 1);
    ComposedRoutePasses([RouteHop(false, FirstLegValue(info), FirstLegValue(info), None)],
                        [RouteHop(false, SecondLegValue(info), SecondLegValue(info), None)], info, None, Some(asset));
  }

  /**
   * For every acceptable offer and every pair of legs, with channels of the agreed assets
   * at the taker: the composed HTLC passes the taker's check if and only if the BTC
   * quantity does not wrap, and then gives only what was agreed unless the router itself put
   * RGB on the BTC leg; it is flagged as a swap there and nowhere else, and what the maker
   * sends above the first leg's value is the total fee.
   */
  lemma ComposedRoutePasses(first: seq<RouteHop>, second: seq<RouteHop>, info: SwapInfo,
                            inboundContract: Option<ContractId>, outboundContract: Option<ContractId>)
    requires info.Acceptable()
    requires IsLeg(first, FirstLegValue(info)) && IsLeg(second, SecondLegValue(info))
    requires info.IsToAsset() ==> inboundContract == info.toAsset
    requires info.IsFromAsset() ==> outboundContract == info.fromAsset
    ensures var full := Composed(first, second, info);
            var htlc := AtTaker(full, |first|, inboundContract, outboundContract);
            && (Whitelisted(info, htlc) <==> QuantityFits(info))
            && (GivesOnlyAgreed(info, htlc) <==> QuantityFits(info) && (info.IsFromBtc() ==> second[0].rgb.None?))
            && (forall i | 0 <= i < |full| :: full[i].swapFlag <==> i == |first|)
            && HtlcMsat(full, 0) == FirstLegValue(info) + TotalFee(full)
            && HtlcMsat(full, |full| - 1) == SecondLegValue(info)
            && (QuantityFits(info) ==>
                  && FirstLegValue(info) == 3_000_000 + (if info.toAsset.None? then info.qtyTo else 0)
                  && SecondLegValue(info) == 3_000_000 + if info.fromAsset.None? then info.qtyFrom else 0)
  {
    var full := Composed(first, second, info);
    NodesKeepTheirFees(first, second, info, |first| - 1);
    OverpaymentIsTotalFee(full);
    GivesOnlyAgreedIff(info, AtTaker(full, |first|, inboundContract, outboundContract));
  }

  /**
   * What the three parties end up with in msat when the quantity fits: the maker pays all
   * fees, less than MAX_SWAP_FEE_MSAT, the taker pays none.
   */
  lemma SwapMsatBalance(first: seq<RouteHop>, second: seq<RouteHop>, info: SwapInfo)
    requires info.Acceptable() && QuantityFits(info)
    requires IsLeg(first, FirstLegValue(info)) && IsLeg(second, SecondLegValue(info))
    requires TotalFee(Composed(first, second, info)) < MAX_SWAP_FEE_MSAT
    ensures var full := Composed(first, second, info);
            var to := if info.IsToBtc() then info.qtyTo else 0;
            var from := if info.IsFromBtc() then info.qtyFrom else 0;
            && HtlcMsat(full, |first| - 1) - HtlcMsat(full, |first|) == to - from
            && from - to - MAX_SWAP_FEE_MSAT < HtlcMsat(full, |full| - 1) - HtlcMsat(full, 0) <= from - to
  {
    NodesKeepTheirFees(first, second, info, |first| - 1);
    OverpaymentIsTotalFee(Composed(first, second, info));
  }

  /**
   * What composing changes, hop by hop: the RGB of each hop of a leg that carries an asset,
   * the fee of the hop into the joint and the flag of the hop out of it, and nothing else.
   */
  lemma ComposedHops(first: seq<RouteHop>, second: seq<RouteHop>, info: SwapInfo, i: nat)
    requires 0 < |first| && 0 < |second| && i < |first| + |second|
    ensures var hop := Composed(first, second, info)[i];
            i < |first| ==>
              && hop.value == first[i].value && hop.swapFlag == first[i].swapFlag
              && hop.feeMsat == (if i == |first| - 1 then 0 else first[i].feeMsat)
              && hop.rgb == if info.toAsset.Some? then Some((info.toAsset.value, info.qtyTo)) else first[i].rgb
    ensures var hop := Composed(first, second, info)[i];
            i >= |first| ==>
              var was := second[i - |first|];
              && hop.value == was.value && hop.swapFlag == (i == |first| || was.swapFlag)
              && hop.feeMsat == was.feeMsat
              && hop.rgb == if info.fromAsset.Some? then Some((info.fromAsset.value, info.qtyFrom)) else was.rgb
  {
    assert info.IsFromAsset() <==> info.fromAsset.Some?;
  }
}
