/**
 * What holds between the views of the network: the gap between the two ends of a
 * channel, the totals per asset, and what a payment or a swap does to each node.
 */
module Conservation {
  import opened Wrappers
  import opened Types
  import opened Sums
  import opened Ledger

  // The gap between the two views of a channel.

  /** What a hop on channel c contributes to the gap: it was handled at one end only. */
  function HopGaps(p: Payment, done: seq<bool>, c: ChannelId): nat -> int {
    (j: nat) =>
      if j < |p.hops| && j + 1 < |done| && p.hops[j].rgb.Some? && p.hops[j].channel == c then
        if done[j + 1] && !done[j] then p.hops[j].rgb.value
        else if done[j] && !done[j + 1] then -(p.hops[j].rgb.value as int)
        else 0
      else 0
  }

  function PaymentGaps(net: Network, c: ChannelId): nat -> int {
    (i: nat) =>
      if i < |net.payments| && i < |net.done|
      then Sum(|net.payments[i].hops|, HopGaps(net.payments[i], net.done[i], c)) else 0
  }

  /** The HTLC amounts of channel c that only the receiving end has handled, less those only the offering end has. */
  function InFlight(net: Network, c: ChannelId): int {
    Sum(|net.payments|, PaymentGaps(net, c))
  }

  /** The events of both ends of c, up to position m, against the hops up to m. */
  lemma {:induction false} EventsAgainstHops(p: Payment, done: seq<bool>, c: ChannelId,
                                          channels: seq<Channel>, nodeCount: nat, m: nat)
    requires WellRouted(p, channels, nodeCount) && |done| == |p.hops| + 1 && m <= |p.hops|
    requires c < |channels| && channels[c].opener != channels[c].acceptor
    ensures Sum(m + 1, EventFlow(p, done, c, channels[c].opener))
            + Sum(m + 1, EventFlow(p, done, c, channels[c].acceptor))
            == Sum(m, HopGaps(p, done, c)) - if done[m] then Offered(p, m, c) else 0
  {
    var a, b := channels[c].opener, channels[c].acceptor;
    if m > 0 {
      EventsAgainstHops(p, done, c, channels, nodeCount, m - 1);
    }
    assert Received(p, m, c) + Offered(p, m, c) > 0 ==> NodeAt(p, m) == a || NodeAt(p, m) == b;
    assert EventFlow(p, done, c, a)(m) + EventFlow(p, done, c, b)(m)
           == if done[m] then Received(p, m, c) - Offered(p, m, c) else 0;
  }

  lemma GapOfFlows(net: Network, c: ChannelId)
    requires WellFormed(net) && c < |net.channels|
    ensures Flow(net, c, net.channels[c].opener) + Flow(net, c, net.channels[c].acceptor) == InFlight(net, c)
  {
    var a, b := net.channels[c].opener, net.channels[c].acceptor;
    forall i: nat | i < |net.payments|
      ensures PaymentGaps(net, c)(i) == PaymentFlows(net, c, a)(i) + PaymentFlows(net, c, b)(i)
    {
      EventsAgainstHops(net.payments[i], net.done[i], c, net.channels, |net.nodes|, |net.payments[i].hops|);
    }
    SumPlus(|net.payments|, PaymentFlows(net, c, a), PaymentFlows(net, c, b), PaymentGaps(net, c));
  }

  /** Every payment has been handled at all its nodes or at none. */
  ghost predicate Quiescent(net: Network) {
    forall i, pos | 0 <= i < |net.done| && 0 < pos < |net.done[i]| :: net.done[i][pos] == net.done[i][0]
  }

  lemma QuiescentHasNoGap(net: Network, c: ChannelId)
    requires WellFormed(net) && Quiescent(net)
    ensures InFlight(net, c) == 0
  {
    forall i: nat | i < |net.payments| ensures PaymentGaps(net, c)(i) == 0 {
      forall j: nat | j < |net.payments[i].hops| ensures HopGaps(net.payments[i], net.done[i], c)(j) == 0 {
        assert net.done[i][j] == net.done[i][0] && net.done[i][j + 1] == net.done[i][0];
      }
      SumZero(|net.payments[i].hops|, HopGaps(net.payments[i], net.done[i], c));
    }
    SumZero(|net.payments|, PaymentGaps(net, c));
  }

  /**
   * Over every run with right scans, for every channel: each view keeps the amount the
   * channel was opened with, the views differ by exactly the HTLCs handled at one end only,
   * and they mirror each other whenever no payment is half handled.
   */
  lemma ViewsMirror(nodeCount: nat, steps: seq<Step>, c: ChannelId)
    requires Run(nodeCount, steps).Some? && RightlyScanned(nodeCount, steps)
    requires c < |Run(nodeCount, steps).value.channels|
    ensures var net := Run(nodeCount, steps).value;
            var ch := net.channels[c];
            && ch.opener < |net.nodes| && ch.acceptor < |net.nodes|
            && c in net.nodes[ch.opener] && c in net.nodes[ch.acceptor]
            && var mine, theirs := net.nodes[ch.opener][c], net.nodes[ch.acceptor][c];
            && mine.contract == theirs.contract == ch.contract
            && mine.local + mine.remote == ch.amount && theirs.local + theirs.remote == ch.amount
            && mine.local - theirs.remote == InFlight(net, c)
            && theirs.local - mine.remote == InFlight(net, c)
            && (Quiescent(net) ==> mine.local == theirs.remote && mine.remote == theirs.local)
  {
    ReachableViews(nodeCount, steps);
    var net := Run(nodeCount, steps).value;
    assert ViewAsExpected(net, net.channels[c].opener, c) && ViewAsExpected(net, net.channels[c].acceptor, c);
    GapOfFlows(net, c);
    if Quiescent(net) { QuiescentHasNoGap(net, c); }
  }

  // Totals per asset.

  /** n's local amount of asset x in channel c. */
  function LocalAmounts(net: Network, x: ContractId): (nat, nat) -> int {
    (n: nat, c: nat) =>
      if n < |net.nodes| && c in net.nodes[n] && net.nodes[n][c].contract == x then net.nodes[n][c].local else 0
  }

  /** What node n owns of asset x over all its channels. */
  function Wealth(net: Network, n: NodeId, x: ContractId): int {
    Sum(|net.channels|, (c: nat) => LocalAmounts(net, x)(n, c))
  }

  function TotalWealth(net: Network, x: ContractId): int {
    Sum(|net.nodes|, Row(|net.channels|, LocalAmounts(net, x)))
  }

  /** What channel c was opened with, in asset x. */
  function Funding(net: Network, x: ContractId): nat -> int {
    (c: nat) => if c < |net.channels| && net.channels[c].contract == x then net.channels[c].amount else 0
  }

  function Gaps(net: Network, x: ContractId): nat -> int {
    (c: nat) => if c < |net.channels| && net.channels[c].contract == x then InFlight(net, c) else 0
  }

  lemma ChannelTotal(net: Network, x: ContractId, c: ChannelId)
    requires WellFormed(net) && ViewsAsExpected(net) && c < |net.channels|
    ensures Row(|net.nodes|, Flip(LocalAmounts(net, x)))(c) == Funding(net, x)(c) + Gaps(net, x)(c)
  {
    var ch := net.channels[c];
    var byChannel := Flip(LocalAmounts(net, x));
    var column := (n: nat) => byChannel(c, n);
    forall n: NodeId | n < |net.nodes| && n != ch.opener && n != ch.acceptor ensures column(n) == 0 {
      assert ViewAsExpected(net, n, c);
    }
    var zero := (n: nat) => 0;
    SumTwoPoints(|net.nodes|, ch.opener, ch.acceptor, column, zero);
    SumZero(|net.nodes|, zero);
    assert ViewAsExpected(net, ch.opener, c) && ViewAsExpected(net, ch.acceptor, c);
    GapOfFlows(net, c);
  }

  /**
   * Conservation, over every run with right scans: the nodes together own what the channels
   * were opened with plus what is in flight, and exactly the former when no payment is half
   * handled.
   */
  lemma TotalsConserved(nodeCount: nat, steps: seq<Step>, x: ContractId)
    requires Run(nodeCount, steps).Some? && RightlyScanned(nodeCount, steps)
    ensures var net := Run(nodeCount, steps).value;
            && TotalWealth(net, x) == Sum(|net.channels|, Funding(net, x)) + Sum(|net.channels|, Gaps(net, x))
            && (Quiescent(net) ==> TotalWealth(net, x) == Sum(|net.channels|, Funding(net, x)))
  {
    ReachableViews(nodeCount, steps);
    var net := Run(nodeCount, steps).value;
    var perChannel := Row(|net.nodes|, Flip(LocalAmounts(net, x)));
    SumSwap(|net.nodes|, |net.channels|, LocalAmounts(net, x));
    forall c: ChannelId | c < |net.channels| ensures perChannel(c) == Funding(net, x)(c) + Gaps(net, x)(c) {
      ChannelTotal(net, x, c);
    }
    SumPlus(|net.channels|, Funding(net, x), Gaps(net, x), perChannel);
    if Quiescent(net) {
      forall c: ChannelId | c < |net.channels| ensures Gaps(net, x)(c) == 0 {
        QuiescentHasNoGap(net, c);
      }
      SumZero(|net.channels|, Gaps(net, x));
    }
  }

  // What payments do to each node.

  /** The amount of asset x on hop j. */
  function HopAsset(p: Payment, j: int, x: ContractId, channels: seq<Channel>): nat {
    if 0 <= j < |p.hops| && p.hops[j].rgb.Some?
       && p.hops[j].channel < |channels| && channels[p.hops[j].channel].contract == x
    then p.hops[j].rgb.value else 0
  }

  /** What the handled event at a position brings node n in asset x. */
  function EventDelta(p: Payment, done: seq<bool>, n: NodeId, x: ContractId, channels: seq<Channel>): nat -> int {
    (pos: nat) =>
      if pos < |done| && done[pos] && pos <= |p.hops| && 0 < |p.hops| && NodeAt(p, pos) == n
      then HopAsset(p, pos - 1, x, channels) - HopAsset(p, pos, x, channels) else 0
  }

  function PaymentDelta(p: Payment, done: seq<bool>, n: NodeId, x: ContractId, channels: seq<Channel>): int {
    Sum(|p.hops| + 1, EventDelta(p, done, n, x, channels))
  }

  function PaymentDeltas(net: Network, n: NodeId, x: ContractId): nat -> int {
    (i: nat) =>
      if i < |net.payments| && i < |net.done|
      then PaymentDelta(net.payments[i], net.done[i], n, x, net.channels) else 0
  }

  /** What node n itself put into channels of asset x. */
  function OwnFunding(net: Network, n: NodeId, x: ContractId): nat -> int {
    (c: nat) =>
      if c < |net.channels| && net.channels[c].contract == x && net.channels[c].opener == n
      then net.channels[c].amount else 0
  }

  /** The flow of one payment in channel c, where c carries asset x. */
  function AssetEvents(p: Payment, done: seq<bool>, n: NodeId, x: ContractId,
                       channels: seq<Channel>): (nat, nat) -> int {
    (c: nat, pos: nat) =>
      if c < |channels| && channels[c].contract == x then EventFlow(p, done, c, n)(pos) else 0
  }

  function AssetFlows(net: Network, n: NodeId, x: ContractId): (nat, nat) -> int {
    (c: nat, i: nat) =>
      if c < |net.channels| && net.channels[c].contract == x then PaymentFlows(net, c, n)(i) else 0
  }

  /** What hop j moves in each channel of asset x. */
  function HopAmounts(p: Payment, j: int, x: ContractId, channels: seq<Channel>): nat -> int {
    (c: nat) =>
      if 0 <= j < |p.hops| && p.hops[j].rgb.Some?
         && p.hops[j].channel == c && c < |channels| && channels[c].contract == x
      then p.hops[j].rgb.value else 0
  }

  lemma HopOverChannels(p: Payment, j: int, x: ContractId, channels: seq<Channel>)
    ensures Sum(|channels|, HopAmounts(p, j, x, channels)) == HopAsset(p, j, x, channels)
  {
    var amounts := HopAmounts(p, j, x, channels);
    if 0 <= j < |p.hops| && p.hops[j].channel < |channels| {
      SumSingle(|channels|, p.hops[j].channel, amounts);
    } else {
      SumZero(|channels|, amounts);
    }
  }

  lemma EventOverChannels(p: Payment, done: seq<bool>, n: NodeId, x: ContractId, channels: seq<Channel>, pos: nat)
    requires 0 < |p.hops| && |done| == |p.hops| + 1 && pos <= |p.hops|
    ensures Row(|channels|, Flip(AssetEvents(p, done, n, x, channels)))(pos) == EventDelta(p, done, n, x, channels)(pos)
  {
    var events := Flip(AssetEvents(p, done, n, x, channels));
    var byChannel := (c: nat) => events(pos, c);
    if done[pos] && NodeAt(p, pos) == n {
      var ins, outs := HopAmounts(p, pos - 1, x, channels), HopAmounts(p, pos, x, channels);
      forall c: nat | c < |channels| ensures ins(c) == byChannel(c) + outs(c) {
        assert EventFlow(p, done, c, n)(pos) == Received(p, pos, c) - Offered(p, pos, c);
      }
      SumPlus(|channels|, byChannel, outs, ins);
      HopOverChannels(p, pos - 1, x, channels);
      HopOverChannels(p, pos, x, channels);
    } else {
      forall c: nat | c < |channels| ensures byChannel(c) == 0 {
        assert EventFlow(p, done, c, n)(pos) == 0;
      }
      SumZero(|channels|, byChannel);
    }
    SumSame(|channels|, byChannel, (c: nat) => events(pos, c));
  }

  lemma PaymentOverChannels(p: Payment, done: seq<bool>, n: NodeId, x: ContractId,
                            channels: seq<Channel>, nodeCount: nat)
    requires WellRouted(p, channels, nodeCount) && |done| == |p.hops| + 1
    ensures Sum(|channels|, Row(|p.hops| + 1, AssetEvents(p, done, n, x, channels)))
            == PaymentDelta(p, done, n, x, channels)
  {
    SumSwap(|channels|, |p.hops| + 1, AssetEvents(p, done, n, x, channels));
    forall pos: nat | pos < |p.hops| + 1
      ensures Row(|channels|, Flip(AssetEvents(p, done, n, x, channels)))(pos)
              == EventDelta(p, done, n, x, channels)(pos)
    {
      EventOverChannels(p, done, n, x, channels, pos);
    }
    SumSame(|p.hops| + 1, Row(|channels|, Flip(AssetEvents(p, done, n, x, channels))),
            EventDelta(p, done, n, x, channels));
  }

  lemma FlowsOverChannels(net: Network, n: NodeId, x: ContractId)
    requires WellFormed(net)
    ensures Sum(|net.channels|, Row(|net.payments|, AssetFlows(net, n, x)))
            == Sum(|net.payments|, PaymentDeltas(net, n, x))
  {
    SumSwap(|net.channels|, |net.payments|, AssetFlows(net, n, x));
    var byPayment := Flip(AssetFlows(net, n, x));
    var perPayment := Row(|net.channels|, byPayment);
    forall i: nat | i < |net.payments| ensures perPayment(i) == PaymentDeltas(net, n, x)(i) {
      var p, done := net.payments[i], net.done[i];
      var all := AssetEvents(p, done, n, x, net.channels);
      var events := Row(|p.hops| + 1, all);
      forall c: nat | c < |net.channels| ensures byPayment(i, c) == events(c) {
        var row := (pos: nat) => all(c, pos);
        assert events(c) == Sum(|p.hops| + 1, row);
        assert PaymentFlows(net, c, n)(i) == PaymentFlow(p, done, c, n);
        if net.channels[c].contract == x {
          SumSame(|p.hops| + 1, row, EventFlow(p, done, c, n));
        } else {
          SumZero(|p.hops| + 1, row);
        }
      }
      SumSame(|net.channels|, (c: nat) => byPayment(i, c), events);
      PaymentOverChannels(p, done, n, x, net.channels, |net.nodes|);
    }
    SumSame(|net.payments|, perPayment, PaymentDeltas(net, n, x));
  }

  /** What a node owns is what it put in plus what its handled events brought it. */
  lemma WealthOfEvents(net: Network, n: NodeId, x: ContractId)
    requires WellFormed(net) && ViewsAsExpected(net) && n < |net.nodes|
    ensures Wealth(net, n, x)
            == Sum(|net.channels|, OwnFunding(net, n, x)) + Sum(|net.payments|, PaymentDeltas(net, n, x))
  {
    var amounts := LocalAmounts(net, x);
    var locals := (c: nat) => amounts(n, c);
    var all := AssetFlows(net, n, x);
    var flows := Row(|net.payments|, all);
    forall c: ChannelId | c < |net.channels| ensures locals(c) == OwnFunding(net, n, x)(c) + flows(c) {
      assert ViewAsExpected(net, n, c);
      var row := (i: nat) => all(c, i);
      assert flows(c) == Sum(|net.payments|, row);
      if net.channels[c].contract == x {
        SumSame(|net.payments|, row, PaymentFlows(net, c, n));
        if !IsEnd(net.channels[c], n) { NoFlowElsewhere(net, c, n); }
      } else {
        SumZero(|net.payments|, row);
      }
    }
    SumPlus(|net.channels|, OwnFunding(net, n, x), flows, locals);
    FlowsOverChannels(net, n, x);
  }

  // Swaps.

  /** The first k hops carry what the maker gives, the others what the maker gets. */
  ghost predicate IsSwapRoute(p: Payment, channels: seq<Channel>, k: nat,
                              toAsset: Option<ContractId>, qtyTo: nat, fromAsset: Option<ContractId>, qtyFrom: nat)
  {
    && p.swap && 0 < k < |p.hops|
    && (forall j | 0 <= j < |p.hops| ::
          var asset := if j < k then toAsset else fromAsset;
          && (p.hops[j].rgb == if asset.None? then None else Some(if j < k then qtyTo else qtyFrom))
          && (asset.Some? ==> p.hops[j].channel < |channels| && channels[p.hops[j].channel].contract == asset.value))
  }

  /** What the agreed swap brings node n in asset x. */
  function SwapDelta(n: NodeId, maker: NodeId, taker: NodeId, x: ContractId,
                     toAsset: Option<ContractId>, qtyTo: nat, fromAsset: Option<ContractId>, qtyFrom: nat): int
  {
    var to := if toAsset == Some(x) then qtyTo else 0;
    var from := if fromAsset == Some(x) then qtyFrom else 0;
    (if n == taker then to - from else 0) + (if n == maker then from - to else 0)
  }

  /** Events of a completed swap up to position m. */
  lemma {:induction false} SwapPrefix(p: Payment, done: seq<bool>, channels: seq<Channel>, k: nat,
                                      toAsset: Option<ContractId>, qtyTo: nat,
                                      fromAsset: Option<ContractId>, qtyFrom: nat,
                                      n: NodeId, x: ContractId, m: nat)
    requires IsSwapRoute(p, channels, k, toAsset, qtyTo, fromAsset, qtyFrom)
    requires |done| == |p.hops| + 1 && (forall pos | 0 <= pos < |done| :: done[pos])
    requires m < |p.hops|
    ensures var to := if toAsset == Some(x) then qtyTo else 0;
            var from := if fromAsset == Some(x) then qtyFrom else 0;
            Sum(m + 1, EventDelta(p, done, n, x, channels))
            == (if n == NodeAt(p, 0) then -to else 0) + if m >= k && n == NodeAt(p, k) then to - from else 0
  {
    if m > 0 {
      SwapPrefix(p, done, channels, k, toAsset, qtyTo, fromAsset, qtyFrom, n, x, m - 1);
    }
  }

  lemma SwapPaymentDelta(p: Payment, done: seq<bool>, channels: seq<Channel>, nodeCount: nat, k: nat,
                         toAsset: Option<ContractId>, qtyTo: nat, fromAsset: Option<ContractId>, qtyFrom: nat,
                         n: NodeId, x: ContractId)
    requires WellRouted(p, channels, nodeCount)
    requires IsSwapRoute(p, channels, k, toAsset, qtyTo, fromAsset, qtyFrom)
    requires |done| == |p.hops| + 1 && (forall pos | 0 <= pos < |done| :: done[pos])
    ensures PaymentDelta(p, done, n, x, channels)
            == SwapDelta(n, NodeAt(p, 0), NodeAt(p, k), x, toAsset, qtyTo, fromAsset, qtyFrom)
  {
    SwapPrefix(p, done, channels, k, toAsset, qtyTo, fromAsset, qtyFrom, n, x, |p.hops| - 1);
  }

  /** The network as if no node had handled payment i. */
  function Unsettled(net: Network, i: nat): Network
    requires i < |net.done|
  {
    net.(done := net.done[i := seq(|net.done[i]|, _ => false)])
  }

  /** What every payment but i brought node n, in asset x. */
  function OthersBrought(net: Network, i: nat, n: NodeId, x: ContractId): int
    requires i < |net.done|
  {
    Sum(|net.payments|, PaymentDeltas(Unsettled(net, i), n, x))
  }

  lemma WealthWithSwap(net: Network, i: nat, k: nat,
                       toAsset: Option<ContractId>, qtyTo: nat, fromAsset: Option<ContractId>, qtyFrom: nat,
                       n: NodeId, x: ContractId)
    requires WellFormed(net) && ViewsAsExpected(net) && n < |net.nodes| && i < |net.payments|
    requires IsSwapRoute(net.payments[i], net.channels, k, toAsset, qtyTo, fromAsset, qtyFrom)
    requires forall pos | 0 <= pos < |net.done[i]| :: net.done[i][pos]
    ensures var p := net.payments[i];
            Wealth(net, n, x)
            == Sum(|net.channels|, OwnFunding(net, n, x)) + OthersBrought(net, i, n, x)
               + SwapDelta(n, NodeAt(p, 0), NodeAt(p, k), x, toAsset, qtyTo, fromAsset, qtyFrom)
  {
    var p := net.payments[i];
    var others := Unsettled(net, i);
    WealthOfEvents(net, n, x);
    SwapPaymentDelta(p, net.done[i], net.channels, |net.nodes|, k, toAsset, qtyTo, fromAsset, qtyFrom, n, x);
    SumZero(|p.hops| + 1, EventDelta(p, others.done[i], n, x, net.channels));
    SumPoint(|net.payments|, i, PaymentDeltas(net, n, x), PaymentDeltas(others, n, x));
  }

  lemma WealthWithoutSwap(net: Network, i: nat, n: NodeId, x: ContractId)
    requires WellFormed(net) && ViewsAsExpected(net) && n < |net.nodes| && i < |net.payments|
    requires forall pos | 0 <= pos < |net.done[i]| :: !net.done[i][pos]
    ensures Wealth(net, n, x) == Sum(|net.channels|, OwnFunding(net, n, x)) + OthersBrought(net, i, n, x)
  {
    WealthOfEvents(net, n, x);
    assert Unsettled(net, i).done[i] == net.done[i];
    assert Unsettled(net, i) == net;
  }

  /**
   * In every run with right scans, once every node of a swap has handled its event, in
   * whatever order and whatever channels were opened and other payments started or settled
   * meanwhile: each node owns, in each asset, what it put in, what the other payments brought it, and what
   * the swap agreed. The taker has gained qtyTo and given qtyFrom, the maker the opposite,
   * and every other node nets zero.
   */
  lemma SwapSettles(nodeCount: nat, steps: seq<Step>, i: nat, k: nat,
                    toAsset: Option<ContractId>, qtyTo: nat, fromAsset: Option<ContractId>, qtyFrom: nat,
                    n: NodeId, x: ContractId)
    requires Run(nodeCount, steps).Some? && RightlyScanned(nodeCount, steps) && n < nodeCount
    requires var net := Run(nodeCount, steps).value;
             && i < |net.payments| && i < |net.done|
             && IsSwapRoute(net.payments[i], net.channels, k, toAsset, qtyTo, fromAsset, qtyFrom)
             && forall pos | 0 <= pos < |net.done[i]| :: net.done[i][pos]
    ensures var net := Run(nodeCount, steps).value;
            var p := net.payments[i];
            Wealth(net, n, x)
            == Sum(|net.channels|, OwnFunding(net, n, x)) + OthersBrought(net, i, n, x)
               + SwapDelta(n, NodeAt(p, 0), NodeAt(p, k), x, toAsset, qtyTo, fromAsset, qtyFrom)
  {
    ReachableViews(nodeCount, steps);
    WealthWithSwap(Run(nodeCount, steps).value, i, k, toAsset, qtyTo, fromAsset, qtyFrom, n, x);
  }

  /**
   * The same as a change of wealth between any two reachable states, before the swap and
   * after it: beyond new funding and what other payments brought, it is what was agreed.
   */
  lemma SwapMovesAgreedLegs(net: Network, net': Network, i: nat, k: nat,
                            toAsset: Option<ContractId>, qtyTo: nat, fromAsset: Option<ContractId>, qtyFrom: nat,
                            n: NodeId, x: ContractId)
    requires WellFormed(net) && ViewsAsExpected(net) && WellFormed(net') && ViewsAsExpected(net')
    requires n < |net.nodes| && n < |net'.nodes| && i < |net.payments| && i < |net'.payments|
    requires IsSwapRoute(net'.payments[i], net'.channels, k, toAsset, qtyTo, fromAsset, qtyFrom)
    requires forall pos | 0 <= pos < |net.done[i]| :: !net.done[i][pos]
    requires forall pos | 0 <= pos < |net'.done[i]| :: net'.done[i][pos]
    ensures var p := net'.payments[i];
            Wealth(net', n, x) - Wealth(net, n, x)
            == SwapDelta(n, NodeAt(p, 0), NodeAt(p, k), x, toAsset, qtyTo, fromAsset, qtyFrom)
               + Sum(|net'.channels|, OwnFunding(net', n, x)) - Sum(|net.channels|, OwnFunding(net, n, x))
               + OthersBrought(net', i, n, x) - OthersBrought(net, i, n, x)
  {
    WealthWithoutSwap(net, i, n, x);
    WealthWithSwap(net', i, k, toAsset, qtyTo, fromAsset, qtyFrom, n, x);
  }
}
