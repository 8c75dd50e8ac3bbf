/** From the offer to the channels: the route the maker composes, settled by every node's own events. */
module SwapSettlement {
  import opened Wrappers
  import opened Types
  import opened Sums
  import opened SwapOffer
  import opened SwapRoute
  import opened Ledger
  import opened Conservation

  /** The payment a composed route makes along nodes and channels. */
  function OnChannels(full: seq<RouteHop>, hash: PaymentHash, nodes: seq<NodeId>, channels: seq<ChannelId>): Payment
    requires |nodes| == |full| + 1 && |channels| == |full|
  {
    Payment(hash, true, seq(|full|, i requires 0 <= i < |full| =>
                              Hop(channels[i], nodes[i], nodes[i + 1], RgbAmount(full[i].rgb))))
  }

  /** The router put no RGB on the BTC leg. */
  predicate BtcLegIsPlain(first: seq<RouteHop>, second: seq<RouteHop>, info: SwapInfo) {
    && (info.IsToBtc() ==> forall i | 0 <= i < |first| :: first[i].rgb.None?)
    && (info.IsFromBtc() ==> forall i | 0 <= i < |second| :: second[i].rgb.None?)
  }

  /** Each leg runs over channels of its asset. */
  ghost predicate ChannelsFit(first: seq<RouteHop>, full: seq<RouteHop>, info: SwapInfo,
                              ids: seq<ChannelId>, channels: seq<Channel>)
    requires |ids| == |full|
  {
    forall i | 0 <= i < |full| ::
      var asset := if i < |first| then info.toAsset else info.fromAsset;
      asset.Some? ==> ids[i] < |channels| && channels[ids[i]].contract == asset.value
  }

  lemma ComposedIsSwapRoute(first: seq<RouteHop>, second: seq<RouteHop>, info: SwapInfo, hash: PaymentHash,
                            nodes: seq<NodeId>, ids: seq<ChannelId>, channels: seq<Channel>)
    requires 0 < |first| && 0 < |second| && BtcLegIsPlain(first, second, info)
    requires |nodes| == |first| + |second| + 1 && |ids| == |first| + |second|
    requires ChannelsFit(first, Composed(first, second, info), info, ids, channels)
    ensures IsSwapRoute(OnChannels(Composed(first, second, info), hash, nodes, ids), channels, |first|,
                        info.toAsset, info.qtyTo, info.fromAsset, info.qtyFrom)
  {
  }

  /** What the offer promises node n in asset x. */
  function Agreed(info: SwapInfo, maker: NodeId, taker: NodeId, n: NodeId, x: ContractId): int {
    var to := if info.toAsset == Some(x) then info.qtyTo else 0;
    var from := if info.fromAsset == Some(x) then info.qtyFrom else 0;
    if n == taker then to - from else if n == maker then from - to else 0
  }

  /** Payment i of the network is the composed route of the offer, over channels of its assets. */
  ghost predicate IsComposedSwap(net: Network, i: nat, first: seq<RouteHop>, second: seq<RouteHop>, info: SwapInfo,
                                 hash: PaymentHash, nodes: seq<NodeId>, ids: seq<ChannelId>)
  {
    && 0 < |first| && 0 < |second| && BtcLegIsPlain(first, second, info)
    && |nodes| == |first| + |second| + 1 && |ids| == |first| + |second|
    && ChannelsFit(first, Composed(first, second, info), info, ids, net.channels)
    && i < |net.payments| && net.payments[i] == OnChannels(Composed(first, second, info), hash, nodes, ids)
  }

  lemma DeltaIsAgreed(net: Network, i: nat, first: seq<RouteHop>, second: seq<RouteHop>, info: SwapInfo,
                      hash: PaymentHash, nodes: seq<NodeId>, ids: seq<ChannelId>, n: NodeId, x: ContractId)
    requires WellFormed(net) && IsComposedSwap(net, i, first, second, info, hash, nodes, ids)
    ensures var p := net.payments[i];
            SwapDelta(n, NodeAt(p, 0), NodeAt(p, |first|), x, info.toAsset, info.qtyTo, info.fromAsset, info.qtyFrom)
            == Agreed(info, nodes[0], nodes[|first|], n, x)
  {
    var p := net.payments[i];
    assert NodeAt(p, 0) == nodes[0] && NodeAt(p, |first|) == nodes[|first|];
    assert NodeAt(p, |first|) != NodeAt(p, 0);
  }

  /**
   * End to end, in every run with right scans: once every node of a composed swap has handled
   * its event, in whatever order and whatever else was opened, started or settled, each node owns in each
   * asset what it put in, what other payments brought it, and what the offer agreed: the
   * taker plus qtyTo minus qtyFrom, the maker the opposite, the nodes in between nothing.
   */
  lemma AgreedSwapSettles(nodeCount: nat, steps: seq<Step>, i: nat,
                          first: seq<RouteHop>, second: seq<RouteHop>, info: SwapInfo, hash: PaymentHash,
                          nodes: seq<NodeId>, ids: seq<ChannelId>, n: NodeId, x: ContractId)
    requires Run(nodeCount, steps).Some? && RightlyScanned(nodeCount, steps) && n < nodeCount
    requires var net := Run(nodeCount, steps).value;
             && IsComposedSwap(net, i, first, second, info, hash, nodes, ids)
             && i < |net.done| && forall pos | 0 <= pos < |net.done[i]| :: net.done[i][pos]
    ensures var net := Run(nodeCount, steps).value;
            Wealth(net, n, x)
            == Sum(|net.channels|, OwnFunding(net, n, x)) + OthersBrought(net, i, n, x)
               + Agreed(info, nodes[0], nodes[|first|], n, x)
  {
    var net := Run(nodeCount, steps).value;
    ReachableViews(nodeCount, steps);
    ComposedIsSwapRoute(first, second, info, hash, nodes, ids, net.channels);
    SwapSettles(nodeCount, steps, i, |first|, info.toAsset, info.qtyTo, info.fromAsset, info.qtyFrom, n, x);
    DeltaIsAgreed(net, i, first, second, info, hash, nodes, ids, n, x);
  }

  lemma NothingElseBrought(net: Network, net': Network, i: nat, n: NodeId, x: ContractId)
    requires WellFormed(net) && WellFormed(net') && i < |net.payments|
    requires net' == net.(nodes := net'.nodes, done := net'.done)
    requires forall j | 0 <= j < |net.payments| && j != i :: net'.done[j] == net.done[j]
    ensures OthersBrought(net', i, n, x) == OthersBrought(net, i, n, x)
    ensures Sum(|net'.channels|, OwnFunding(net', n, x)) == Sum(|net.channels|, OwnFunding(net, n, x))
  {
    assert Unsettled(net', i).done == Unsettled(net, i).done;
    SumSame(|net.payments|, PaymentDeltas(Unsettled(net', i), n, x), PaymentDeltas(Unsettled(net, i), n, x));
    SumSame(|net.channels|, OwnFunding(net', n, x), OwnFunding(net, n, x));
  }

  /** With nothing else going on between two states, the swap changes what each node owns by what was agreed. */
  lemma AgreedSwapAlone(net: Network, net': Network, i: nat,
                        first: seq<RouteHop>, second: seq<RouteHop>, info: SwapInfo, hash: PaymentHash,
                        nodes: seq<NodeId>, ids: seq<ChannelId>, n: NodeId, x: ContractId)
    requires WellFormed(net) && ViewsAsExpected(net) && WellFormed(net') && ViewsAsExpected(net')
    requires net' == net.(nodes := net'.nodes, done := net'.done) && |net'.nodes| == |net.nodes| && n < |net.nodes|
    requires IsComposedSwap(net, i, first, second, info, hash, nodes, ids)
    requires forall pos | 0 <= pos < |net.done[i]| :: !net.done[i][pos] && net'.done[i][pos]
    requires forall j | 0 <= j < |net.payments| && j != i :: net'.done[j] == net.done[j]
    ensures Wealth(net', n, x) - Wealth(net, n, x) == Agreed(info, nodes[0], nodes[|first|], n, x)
  {
    ComposedIsSwapRoute(first, second, info, hash, nodes, ids, net.channels);
    SwapMovesAgreedLegs(net, net', i, |first|, info.toAsset, info.qtyTo, info.fromAsset, info.qtyFrom, n, x);
    DeltaIsAgreed(net, i, first, second, info, hash, nodes, ids, n, x);
    NothingElseBrought(net, net', i, n, x);
  }
}
