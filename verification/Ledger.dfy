/**
 * One node's RGB amounts per channel, and the network of such nodes.
 *
 * A node moves amounts in its own view of a channel, and only when it handles
 * PaymentClaimed, PaymentSent or PaymentForwarded. Nothing synchronises the two
 * views of a channel, so the network theorems are about every interleaving.
 */
module Ledger {
  import opened Wrappers
  import opened Types
  import opened Sums

  /** The RGB part of a channel as one of its ends sees it. */
  datatype RgbInfo = RgbInfo(contract: ContractId, local: int, remote: int)

  datatype PaymentRecord = PaymentRecord(amount: nat, inbound: bool, swapPayment: bool)

  /** The directory holds one record per payment and one per HTLC of a payment on a channel. */
  datatype DirEntry =
    | PaymentFile(hash: PaymentHash, info: PaymentRecord)
    | HtlcFile(channel: ChannelId, hash: PaymentHash, info: PaymentRecord)
    | OtherFile(name: string)

  type Views = map<ChannelId, RgbInfo>

  /** Moves `offered` from local to remote and `received` from remote to local. */
  function Moved(views: Views, channel: ChannelId, offered: nat, received: nat): Views {
    if channel in views then
      var info := views[channel];
      views[channel := RgbInfo(info.contract,
                               info.local - offered + received,
                               info.remote + offered - received)]
    else
      views
  }

  /** Whether the scan for `hash` stops at this entry. */
  predicate Eligible(entry: DirEntry, hash: PaymentHash, receiver: bool) {
    && entry.HtlcFile?
    && entry.hash == hash
    && !(entry.info.swapPayment && receiver != entry.info.inbound)
  }

  /** The first entry of the listing the scan stops at. */
  function FirstEligible(listing: seq<DirEntry>, hash: PaymentHash, receiver: bool): (r: Option<DirEntry>)
    ensures r.Some? ==> r.value in listing && Eligible(r.value, hash, receiver)
    ensures r.None? ==> forall e | e in listing :: !Eligible(e, hash, receiver)
    ensures r.Some? ==> exists i | 0 <= i < |listing| :: listing[i] == r.value && NoneBefore(listing, i, hash, receiver)
  {
    if listing == [] then None
    else if Eligible(listing[0], hash, receiver) then
      assert NoneBefore(listing, 0, hash, receiver);
      Some(listing[0])
    else
      var r := FirstEligible(listing[1..], hash, receiver);
      assert r.Some? ==> r.value in listing by {
        if r.Some? {
          var i :| 0 <= i < |listing[1..]| && listing[1..][i] == r.value && NoneBefore(listing[1..], i, hash, receiver);
          assert listing[i + 1] == r.value && NoneBefore(listing, i + 1, hash, receiver);
        }
      }
      r
  }

  /** The scan has passed the first i entries. */
  ghost predicate NoneBefore(listing: seq<DirEntry>, i: nat, hash: PaymentHash, receiver: bool)
    requires i <= |listing|
  {
    forall j | 0 <= j < i :: !Eligible(listing[j], hash, receiver)
  }

  /**
   * Which entry a scan stops at: the first HTLC record of the payment, unless it is a swap's
   * of the other direction. It moves the record's amount in the record's channel, from remote
   * to local for the receiver and from local to remote for the sender.
   */
  lemma ScanStopsAt(views: Views, listing: seq<DirEntry>, i: nat, hash: PaymentHash, receiver: bool)
    requires i < |listing| && listing[i].HtlcFile? && listing[i].hash == hash
    requires listing[i].info.swapPayment ==> listing[i].info.inbound == receiver
    requires forall j | 0 <= j < i ::
               listing[j].HtlcFile? && listing[j].hash == hash ==>
                 listing[j].info.swapPayment && listing[j].info.inbound != receiver
    ensures var e := listing[i];
            var views' := ScanUpdate(views, listing, hash, receiver);
            && views'.Keys == views.Keys && (forall c | c in views && c != e.channel :: views'[c] == views[c])
            && (e.channel in views ==>
                  var gain := if receiver then e.info.amount else -(e.info.amount as int);
                  && views'[e.channel].contract == views[e.channel].contract
                  && views'[e.channel].local == views[e.channel].local + gain
                  && views'[e.channel].remote == views[e.channel].remote - gain)
  {
    StopsAtFirst(listing, i, hash, receiver);
  }

  lemma {:induction false} StopsAtFirst(listing: seq<DirEntry>, i: nat, hash: PaymentHash, receiver: bool)
    requires i < |listing| && Eligible(listing[i], hash, receiver) && NoneBefore(listing, i, hash, receiver)
    ensures FirstEligible(listing, hash, receiver) == Some(listing[i])
  {
    if i > 0 {
      assert NoneBefore(listing[1..], i - 1, hash, receiver);
      StopsAtFirst(listing[1..], i - 1, hash, receiver);
    }
  }

  /** Moves the amount at one end of a hop: received, or offered. */
  function MovedAmount(views: Views, channel: ChannelId, amount: nat, receiver: bool): Views {
    if receiver then Moved(views, channel, 0, amount) else Moved(views, channel, amount, 0)
  }

  function ScanUpdate(views: Views, listing: seq<DirEntry>, hash: PaymentHash, receiver: bool): Views {
    match FirstEligible(listing, hash, receiver)
    case None => views
    case Some(e) => MovedAmount(views, e.channel, e.info.amount, receiver)
  }

  /** The events that move RGB amounts. */
  datatype Event =
    | PaymentClaimed(hash: PaymentHash)
    | PaymentSent(hash: PaymentHash)
    | PaymentForwarded(prev: Option<ChannelId>, next: Option<ChannelId>, outbound: Option<nat>, inbound: Option<nat>)
  {
    /** The handler unwraps both channel ids before it moves anything. */
    predicate NamesChannels() {
      PaymentForwarded? ==> prev.Some? && next.Some?
    }
  }

  function Handled(views: Views, event: Event, listing: seq<DirEntry>): Views {
    match event
    case PaymentClaimed(hash) => ScanUpdate(views, listing, hash, true)
    case PaymentSent(hash) => ScanUpdate(views, listing, hash, false)
    case PaymentForwarded(prev, next, outbound, inbound) =>
      if prev.None? || next.None? then views
      else
        var v := if outbound.Some? then Moved(views, next.value, outbound.value, 0) else views;
        if inbound.Some? then Moved(v, prev.value, 0, inbound.value) else v
  }

  /** The channel information files of one node. */
  class NodeLedger {
    var views: Views

    constructor ()
      ensures views == map[]
    {
      views := map[];
    }

    method UpdateRgbChannelAmount(channel: ChannelId, offered: nat, received: nat)
      modifies this
      ensures views == Moved(old(views), channel, offered, received)
    {
      if channel in views {
        var info := views[channel];
        info := info.(local := info.local - offered, remote := info.remote + offered);
        info := info.(local := info.local + received, remote := info.remote - received);
        views := views[channel := info];
      }
    }

    /** Scans the directory, in whatever order it is listed, for the HTLC record of `hash`. */
    method UpdateForPayment(listing: seq<DirEntry>, hash: PaymentHash, receiver: bool)
      modifies this
      ensures views == ScanUpdate(old(views), listing, hash, receiver)
    {
      var i := 0;
      while i < |listing|
        invariant 0 <= i <= |listing|
        invariant views == old(views)
        invariant FirstEligible(listing, hash, receiver) == FirstEligible(listing[i..], hash, receiver)
      {
        var entry := listing[i];
        i := i + 1;
        if entry.HtlcFile? && entry.hash == hash {
          if entry.info.swapPayment && receiver != entry.info.inbound {
            continue;
          }
          var offered, received := entry.info.amount, 0;
          if receiver {
            offered, received := 0, entry.info.amount;
          }
          UpdateRgbChannelAmount(entry.channel, offered, received);
          break;
        }
      }
    }

    method Handle(event: Event, listing: seq<DirEntry>) returns (panicked: bool)
      modifies this
      ensures views == Handled(old(views), event, listing)
      ensures panicked <==> !event.NamesChannels()
    {
      panicked := false;
      match event {
        case PaymentClaimed(hash) =>
          UpdateForPayment(listing, hash, true);
        case PaymentSent(hash) =>
          UpdateForPayment(listing, hash, false);
        case PaymentForwarded(prev, next, outbound, inbound) =>
          if prev.None? || next.None? {
            return true;
          }
          if outbound.Some? {
            UpdateRgbChannelAmount(next.value, outbound.value, 0);
          }
          if inbound.Some? {
            UpdateRgbChannelAmount(prev.value, 0, inbound.value);
          }
      }
    }
  }

  /** One hop of a payment: an HTLC on `channel`, carrying RGB or not. */
  datatype Hop = Hop(channel: ChannelId, src: NodeId, dst: NodeId, rgb: Option<nat>)

  /** A payment along a chain of hops. A swap is a circular payment. */
  datatype Payment = Payment(hash: PaymentHash, swap: bool, hops: seq<Hop>)

  /** An RGB channel, funded by its opener. */
  datatype Channel = Channel(contract: ContractId, opener: NodeId, acceptor: NodeId, amount: nat)

  /**
   * The network. Channel ids index `channels` (larger ids are channels without RGB),
   * node ids index `nodes`. done[i][pos] says whether the node at position pos of
   * payment i has handled its event for that payment.
   */
  datatype Network = Network(
    channels: seq<Channel>,
    nodes: seq<Views>,
    payments: seq<Payment>,
    done: seq<seq<bool>>)

  predicate IsEnd(ch: Channel, n: NodeId) {
    n == ch.opener || n == ch.acceptor
  }

  predicate Joins(ch: Channel, n: NodeId, m: NodeId) {
    n != m && IsEnd(ch, n) && IsEnd(ch, m)
  }

  /** The node at a position of a payment: 0 is the sender, |hops| the receiver. */
  function NodeAt(p: Payment, pos: nat): NodeId
    requires 0 < |p.hops| && pos <= |p.hops|
  {
    if pos == 0 then p.hops[0].src else p.hops[pos - 1].dst
  }

  /** What the router and the channels guarantee about a payment that was sent. */
  ghost predicate WellRouted(p: Payment, channels: seq<Channel>, nodeCount: nat) {
    && 0 < |p.hops|
    && (forall j | 0 <= j < |p.hops| ::
          && p.hops[j].src < nodeCount && p.hops[j].dst < nodeCount
          && (p.hops[j].rgb.Some? ==>
                p.hops[j].channel < |channels| && Joins(channels[p.hops[j].channel], p.hops[j].src, p.hops[j].dst)))
    && (forall j | 0 < j < |p.hops| :: p.hops[j].src == p.hops[j - 1].dst)
    && (forall pos | 0 < pos < |p.hops| ::
          NodeAt(p, pos) != NodeAt(p, 0) && NodeAt(p, pos) != NodeAt(p, |p.hops|))
    && (p.swap <==> NodeAt(p, 0) == NodeAt(p, |p.hops|))
  }

  /** The event the node at a position gets. */
  function EventAt(p: Payment, pos: nat): Event
    requires 0 < |p.hops| && pos <= |p.hops|
  {
    if pos == 0 then PaymentSent(p.hash)
    else if pos == |p.hops| then PaymentClaimed(p.hash)
    else
      var prev, next := p.hops[pos - 1], p.hops[pos];
      PaymentForwarded(Some(prev.channel), Some(next.channel), next.rgb, prev.rgb)
  }

  /** The HTLC record of hop j at one of the hop's ends. */
  function RecordOf(p: Payment, j: nat, inbound: bool): DirEntry
    requires j < |p.hops| && p.hops[j].rgb.Some?
  {
    HtlcFile(p.hops[j].channel, p.hash, PaymentRecord(p.hops[j].rgb.value, inbound, p.swap))
  }

  predicate IsRecord(e: DirEntry, p: Payment, j: nat, inbound: bool, n: NodeId)
    requires j < |p.hops|
  {
    && p.hops[j].rgb.Some?
    && n == (if inbound then p.hops[j].dst else p.hops[j].src)
    && e == RecordOf(p, j, inbound)
  }

  /** The hop at one end of a payment. */
  function EndHop(p: Payment, receiver: bool): Hop
    requires 0 < |p.hops|
  {
    if receiver then p.hops[|p.hops| - 1] else p.hops[0]
  }

  /** What this end's own hop moves. */
  function OwnMove(views: Views, p: Payment, receiver: bool): Views
    requires 0 < |p.hops|
  {
    var hop := EndHop(p, receiver);
    if hop.rgb.None? then views else MovedAmount(views, hop.channel, hop.rgb.value, receiver)
  }

  /** An amount moves only in a channel with RGB information. */
  function Effective(views: Views, channel: ChannelId, amount: nat): nat {
    if channel in views then amount else 0
  }

  function OwnAmount(views: Views, p: Payment, receiver: bool): nat
    requires 0 < |p.hops|
  {
    var hop := EndHop(p, receiver);
    if hop.rgb.None? then 0 else Effective(views, hop.channel, hop.rgb.value)
  }

  /** A record with the amount of this end's own hop, on the same channel unless nothing moves. */
  predicate Fits(views: Views, e: DirEntry, p: Payment, receiver: bool)
    requires e.HtlcFile? && 0 < |p.hops|
  {
    var amount := Effective(views, e.channel, e.info.amount);
    amount == OwnAmount(views, p, receiver) && (amount > 0 ==> e.channel == EndHop(p, receiver).channel)
  }

  /** The entry the scan stops at fits; without one, nothing is to be moved. */
  predicate FirstFits(views: Views, listing: seq<DirEntry>, p: Payment, receiver: bool)
    requires 0 < |p.hops|
  {
    match FirstEligible(listing, p.hash, receiver)
    case None => OwnAmount(views, p, receiver) == 0
    case Some(e) => Fits(views, e, p, receiver)
  }

  /** Every entry the scan might stop at fits, and there is one if anything is to be moved. */
  ghost predicate Unmistakable(views: Views, listing: seq<DirEntry>, p: Payment, receiver: bool)
    requires 0 < |p.hops|
  {
    && (forall e | e in listing && Eligible(e, p.hash, receiver) :: Fits(views, e, p, receiver))
    && (OwnAmount(views, p, receiver) > 0 ==> exists e :: e in listing && Eligible(e, p.hash, receiver))
  }

  /**
   * The directory of the node at one end of p when there was a single attempt under p's
   * hash: under it there are records of p's own hops at that node only, and the one of
   * this end if its hop carries RGB. Anything may be listed under other hashes.
   */
  ghost predicate Lists(listing: seq<DirEntry>, p: Payment, receiver: bool)
    requires 0 < |p.hops|
  {
    var n := NodeAt(p, if receiver then |p.hops| else 0);
    var own := if receiver then |p.hops| - 1 else 0;
    && (forall e | e in listing && e.HtlcFile? && e.hash == p.hash ::
          exists j, inbound :: 0 <= j < |p.hops| && IsRecord(e, p, j, inbound, n))
    && (p.hops[own].rgb.Some? ==> RecordOf(p, own, receiver) in listing)
  }

  datatype Step =
    | Open(channel: Channel)
    | Start(payment: Payment)
    | Settle(i: nat, pos: nat, listing: seq<DirEntry>)

  ghost predicate Enabled(net: Network, step: Step) {
    match step
    case Open(ch) =>
      ch.opener < |net.nodes| && ch.acceptor < |net.nodes| && ch.opener != ch.acceptor
    case Start(p) =>
      WellRouted(p, net.channels, |net.nodes|)
    case Settle(i, pos, listing) =>
      && i < |net.payments| && i < |net.done|
      && pos <= |net.payments[i].hops| && 0 < |net.payments[i].hops|
      && pos < |net.done[i]| && !net.done[i][pos]
      && NodeAt(net.payments[i], pos) < |net.nodes|
  }

  function WithView(nodes: seq<Views>, n: NodeId, channel: ChannelId, info: RgbInfo): seq<Views>
    requires n < |nodes|
  {
    var views: Views := nodes[n];
    nodes[n := views[channel := info]]
  }

  function Apply(net: Network, step: Step): Network
    requires Enabled(net, step)
  {
    match step
    case Open(ch) =>
      var nodes := WithView(net.nodes, ch.opener, |net.channels|, RgbInfo(ch.contract, ch.amount, 0));
      net.(channels := net.channels + [ch],
           nodes := WithView(nodes, ch.acceptor, |net.channels|, RgbInfo(ch.contract, 0, ch.amount)))
    case Start(p) =>
      net.(payments := net.payments + [p],
           done := net.done + [seq(|p.hops| + 1, _ => false)])
    case Settle(i, pos, listing) =>
      var n := NodeAt(net.payments[i], pos);
      net.(nodes := net.nodes[n := Handled(net.nodes[n], EventAt(net.payments[i], pos), listing)],
           done := net.done[i := net.done[i][pos := true]])
  }

  /** The scan of this step, if it makes one, stops at a record that fits. */
  ghost predicate ScansRight(net: Network, step: Step)
    requires Enabled(net, step)
  {
    step.Settle? ==>
      var p := net.payments[step.i];
      step.pos == 0 || step.pos == |p.hops| ==>
        FirstFits(net.nodes[NodeAt(p, step.pos)], step.listing, p, step.pos > 0)
  }

  /** The network a run ends in, if each of its steps was enabled; runs start without channels. */
  ghost function Run(nodeCount: nat, steps: seq<Step>): Option<Network> {
    if steps == [] then
      Some(Network([], seq(nodeCount, _ => map[]), [], []))
    else
      match Run(nodeCount, steps[..|steps| - 1])
      case None => None
      case Some(net) =>
        if Enabled(net, steps[|steps| - 1]) then Some(Apply(net, steps[|steps| - 1])) else None
  }

  ghost predicate RightlyScanned(nodeCount: nat, steps: seq<Step>)
    requires Run(nodeCount, steps).Some?
  {
    steps != [] ==>
      var k := |steps| - 1;
      RightlyScanned(nodeCount, steps[..k]) && ScansRight(Run(nodeCount, steps[..k]).value, steps[k])
  }

  // The expected amounts.

  /** What the event at a position takes from, or adds to, a channel of its node. */
  function Received(p: Payment, pos: nat, c: ChannelId): nat {
    if 0 < pos <= |p.hops| && p.hops[pos - 1].rgb.Some? && p.hops[pos - 1].channel == c
    then p.hops[pos - 1].rgb.value else 0
  }

  function Offered(p: Payment, pos: nat, c: ChannelId): nat {
    if pos < |p.hops| && p.hops[pos].rgb.Some? && p.hops[pos].channel == c
    then p.hops[pos].rgb.value else 0
  }

  /** What the handled events of a payment moved into n's local amount of channel c. */
  function EventFlow(p: Payment, done: seq<bool>, c: ChannelId, n: NodeId): nat -> int {
    (pos: nat) =>
      if pos < |done| && done[pos] && pos <= |p.hops| && 0 < |p.hops| && NodeAt(p, pos) == n
      then Received(p, pos, c) - Offered(p, pos, c) else 0
  }

  function PaymentFlow(p: Payment, done: seq<bool>, c: ChannelId, n: NodeId): int {
    Sum(|p.hops| + 1, EventFlow(p, done, c, n))
  }

  function PaymentFlows(net: Network, c: ChannelId, n: NodeId): nat -> int {
    (i: nat) =>
      if i < |net.payments| && i < |net.done| then PaymentFlow(net.payments[i], net.done[i], c, n) else 0
  }

  function Flow(net: Network, c: ChannelId, n: NodeId): int {
    Sum(|net.payments|, PaymentFlows(net, c, n))
  }

  /** n's view of c: what the channel was opened with and what handled events moved. */
  function Expected(net: Network, c: ChannelId, n: NodeId): RgbInfo
    requires c < |net.channels|
  {
    var ch := net.channels[c];
    var flow := Flow(net, c, n);
    if n == ch.opener then RgbInfo(ch.contract, ch.amount + flow, 0 - flow)
    else RgbInfo(ch.contract, flow, ch.amount - flow)
  }

  ghost predicate WellFormed(net: Network) {
    && |net.done| == |net.payments|
    && (forall c | 0 <= c < |net.channels| ::
          && net.channels[c].opener < |net.nodes| && net.channels[c].acceptor < |net.nodes|
          && net.channels[c].opener != net.channels[c].acceptor)
    && (forall i | 0 <= i < |net.payments| ::
          && WellRouted(net.payments[i], net.channels, |net.nodes|)
          && |net.done[i]| == |net.payments[i].hops| + 1)
  }

  ghost predicate ViewAsExpected(net: Network, n: NodeId, c: ChannelId)
    requires n < |net.nodes|
  {
    && (c in net.nodes[n] <==> c < |net.channels| && IsEnd(net.channels[c], n))
    && (c in net.nodes[n] ==> net.nodes[n][c] == Expected(net, c, n))
  }

  ghost predicate ViewsAsExpected(net: Network) {
    forall n: NodeId, c: ChannelId | n < |net.nodes| :: ViewAsExpected(net, n, c)
  }

  // What one event does.

  lemma FitsIff(views: Views, e: DirEntry, p: Payment, receiver: bool)
    requires e.HtlcFile? && 0 < |p.hops|
    ensures MovedAmount(views, e.channel, e.info.amount, receiver) == OwnMove(views, p, receiver)
            <==> Fits(views, e, p, receiver)
  {
    var moved, own := MovedAmount(views, e.channel, e.info.amount, receiver), OwnMove(views, p, receiver);
    var hop := EndHop(p, receiver);
    assert Effective(views, e.channel, e.info.amount) == 0 ==> moved == views;
    assert OwnAmount(views, p, receiver) == 0 ==> own == views;
    var sign := if receiver then 1 else -1;
    assert e.channel in views ==> moved[e.channel].local - views[e.channel].local == sign * e.info.amount;
    assert OwnAmount(views, p, receiver) > 0 ==>
             own[hop.channel].local - views[hop.channel].local == sign * hop.rgb.value;
  }

  /** Exactly when a scan moves what it should, for any directory, payment and end of it. */
  lemma ScanIsRightIff(views: Views, listing: seq<DirEntry>, p: Payment, receiver: bool)
    requires 0 < |p.hops|
    ensures ScanUpdate(views, listing, p.hash, receiver) == OwnMove(views, p, receiver)
            <==> FirstFits(views, listing, p, receiver)
  {
    match FirstEligible(listing, p.hash, receiver)
    case Some(e) => FitsIff(views, e, p, receiver);
    case None =>
      var hop := EndHop(p, receiver);
      assert OwnAmount(views, p, receiver) > 0 ==> OwnMove(views, p, receiver)[hop.channel] != views[hop.channel];
  }

  ghost predicate Reordering(order: seq<DirEntry>, listing: seq<DirEntry>) {
    multiset(order) == multiset(listing)
  }

  /** Any entry may be listed first. */
  lemma ListedFirst(listing: seq<DirEntry>, e: DirEntry) returns (order: seq<DirEntry>)
    requires e in listing
    ensures Reordering(order, listing) && order != [] && order[0] == e
  {
    var k :| 0 <= k < |listing| && listing[k] == e;
    order := [e] + (listing[..k] + listing[k + 1..]);
    assert listing == listing[..k] + [e] + listing[k + 1..];
  }

  lemma ReorderingHolds(order: seq<DirEntry>, listing: seq<DirEntry>, e: DirEntry)
    requires Reordering(order, listing)
    ensures e in order <==> e in listing
  {
    assert e in order <==> e in multiset(order);
    assert e in listing <==> e in multiset(listing);
  }

  /** Exactly when the order of the listing does not matter: whatever is listed first, the scan is right. */
  lemma RightInAnyOrderIff(views: Views, listing: seq<DirEntry>, p: Payment, receiver: bool)
    requires 0 < |p.hops|
    ensures (forall order | Reordering(order, listing) ::
               ScanUpdate(views, order, p.hash, receiver) == OwnMove(views, p, receiver))
            <==> Unmistakable(views, listing, p, receiver)
  {
    if Unmistakable(views, listing, p, receiver) {
      forall order | Reordering(order, listing)
        ensures ScanUpdate(views, order, p.hash, receiver) == OwnMove(views, p, receiver)
      {
        forall e ensures e in order <==> e in listing { ReorderingHolds(order, listing, e); }
        ScanIsRightIff(views, order, p, receiver);
      }
    } else {
      var order := MisleadingOrder(views, listing, p, receiver);
    }
  }

  /** Whenever a listing can be mistaken, some order of it makes the scan wrong. */
  lemma MisleadingOrder(views: Views, listing: seq<DirEntry>, p: Payment, receiver: bool)
    returns (order: seq<DirEntry>)
    requires 0 < |p.hops| && !Unmistakable(views, listing, p, receiver)
    ensures Reordering(order, listing)
    ensures ScanUpdate(views, order, p.hash, receiver) != OwnMove(views, p, receiver)
  {
    order := listing;
    if e :| e in listing && Eligible(e, p.hash, receiver) && !Fits(views, e, p, receiver) {
      order := ListedFirst(listing, e);
    }
    ScanIsRightIff(views, order, p, receiver);
  }

  /**
   * With the record of a single attempt the scan is right in any order: at an end of a
   * payment the entries it may stop at are that end's own record. For a swap, whose two
   * ends share a directory, the direction selects it.
   */
  lemma ScanFindsOwnRecord(p: Payment, channels: seq<Channel>, nodeCount: nat, listing: seq<DirEntry>, receiver: bool,
                           views: Views)
    requires WellRouted(p, channels, nodeCount) && Lists(listing, p, receiver)
    ensures var j := if receiver then |p.hops| - 1 else 0;
            FirstEligible(listing, p.hash, receiver)
            == if p.hops[j].rgb.Some? then Some(RecordOf(p, j, receiver)) else None
    ensures Unmistakable(views, listing, p, receiver)
  {
    var last := if receiver then |p.hops| - 1 else 0;
    var n := NodeAt(p, if receiver then |p.hops| else 0);
    forall e | e in listing && Eligible(e, p.hash, receiver)
      ensures p.hops[last].rgb.Some? && e == RecordOf(p, last, receiver)
    {
      var j: nat, inbound :| j < |p.hops| && IsRecord(e, p, j, inbound, n);
      assert IsRecord(e, p, j, inbound, n);
      OwnEndOnly(p, j, inbound, channels, nodeCount, receiver);
    }
    if p.hops[last].rgb.Some? {
      assert RecordOf(p, last, receiver) in listing;
      assert Eligible(RecordOf(p, last, receiver), p.hash, receiver);
    }
  }

  /**
   * Beside the record of an earlier attempt under the same hash that does not fit, the
   * order of the listing decides: with its own record there, some order makes the scan
   * right and some order makes it wrong, at either end of any payment, swaps included.
   */
  lemma StaleRecordMisleads(views: Views, listing: seq<DirEntry>, p: Payment, receiver: bool, stale: DirEntry)
    requires 0 < |p.hops| && EndHop(p, receiver).rgb.Some?
    requires RecordOf(p, if receiver then |p.hops| - 1 else 0, receiver) in listing
    requires stale in listing && Eligible(stale, p.hash, receiver) && !Fits(views, stale, p, receiver)
    ensures exists order :: Reordering(order, listing)
                            && ScanUpdate(views, order, p.hash, receiver) == OwnMove(views, p, receiver)
    ensures exists order :: Reordering(order, listing)
                            && ScanUpdate(views, order, p.hash, receiver) != OwnMove(views, p, receiver)
  {
    var right := ListedFirst(listing, RecordOf(p, if receiver then |p.hops| - 1 else 0, receiver));
    ScanIsRightIff(views, right, p, receiver);
    var wrong := ListedFirst(listing, stale);
    ScanIsRightIff(views, wrong, p, receiver);
  }

  /** A hop with an end at the sender (or receiver) is the first (or last), unless the payment is a swap. */
  lemma OwnEndOnly(p: Payment, j: nat, inbound: bool, channels: seq<Channel>, nodeCount: nat, receiver: bool)
    requires WellRouted(p, channels, nodeCount) && j < |p.hops|
    requires (if inbound then p.hops[j].dst else p.hops[j].src) == NodeAt(p, if receiver then |p.hops| else 0)
    requires !(p.swap && receiver != inbound)
    ensures inbound == receiver && j == if receiver then |p.hops| - 1 else 0
  {
    var pos := if inbound then j + 1 else j;
    assert NodeAt(p, pos) == if inbound then p.hops[j].dst else p.hops[j].src;
  }

  /** The view of c after an event that moved `received` and `offered`. */
  predicate MovedAt(views: Views, views': Views, c: ChannelId, received: nat, offered: nat) {
    && (c in views' <==> c in views)
    && (c in views ==>
          views'[c] == RgbInfo(views[c].contract, views[c].local + received - offered,
                             views[c].remote - received + offered))
  }

  lemma ForwardMoves(views: Views, p: Payment, pos: nat, listing: seq<DirEntry>, c: ChannelId)
    requires 0 < pos < |p.hops|
    ensures MovedAt(views, Handled(views, EventAt(p, pos), listing), c, Received(p, pos, c), Offered(p, pos, c))
  {
    var next, prev := p.hops[pos], p.hops[pos - 1];
    var views1 := if next.rgb.Some? then Moved(views, next.channel, next.rgb.value, 0) else views;
    assert MovedAt(views, views1, c, 0, Offered(p, pos, c));
    var views2 := if prev.rgb.Some? then Moved(views1, prev.channel, 0, prev.rgb.value) else views1;
    assert MovedAt(views1, views2, c, Received(p, pos, c), 0);
    assert Handled(views, EventAt(p, pos), listing) == views2;
  }

  lemma EndMoves(views: Views, p: Payment, receiver: bool, c: ChannelId)
    requires 0 < |p.hops|
    ensures var pos := if receiver then |p.hops| else 0;
            MovedAt(views, OwnMove(views, p, receiver), c, Received(p, pos, c), Offered(p, pos, c))
  {
  }

  /** What the event at a position should move. */
  function Rightly(views: Views, p: Payment, pos: nat): Views
    requires 0 < |p.hops| && pos <= |p.hops|
  {
    if pos == 0 || pos == |p.hops| then OwnMove(views, p, pos > 0) else Handled(views, EventAt(p, pos), [])
  }

  lemma RightlyMoves(views: Views, p: Payment, pos: nat, c: ChannelId)
    requires 0 < |p.hops| && pos <= |p.hops|
    ensures MovedAt(views, Rightly(views, p, pos), c, Received(p, pos, c), Offered(p, pos, c))
  {
    if pos == 0 || pos == |p.hops| {
      EndMoves(views, p, pos > 0, c);
    } else {
      ForwardMoves(views, p, pos, [], c);
    }
  }

  /** Handling a position moves exactly that position's amounts, if and only if the scan is right. */
  lemma HandledMoves(net: Network, i: nat, pos: nat, listing: seq<DirEntry>)
    requires Enabled(net, Settle(i, pos, listing))
    ensures var p := net.payments[i];
            var views := net.nodes[NodeAt(p, pos)];
            Handled(views, EventAt(p, pos), listing) == Rightly(views, p, pos)
            <==> ScansRight(net, Settle(i, pos, listing))
  {
    var p := net.payments[i];
    if pos == 0 || pos == |p.hops| {
      ScanIsRightIff(net.nodes[NodeAt(p, pos)], listing, p, pos > 0);
    }
  }

  /** Marking a position as handled adds its amounts to the flow of its node and to no other. */
  lemma FlowOfSettle(net: Network, i: nat, pos: nat, net': Network, c: ChannelId, n: NodeId)
    requires WellFormed(net) && i < |net.payments|
    requires pos <= |net.payments[i].hops| && !net.done[i][pos]
    requires net'.payments == net.payments && net'.done == net.done[i := net.done[i][pos := true]]
    ensures var p := net.payments[i];
            Flow(net', c, n) == Flow(net, c, n)
                                + if NodeAt(p, pos) == n then Received(p, pos, c) - Offered(p, pos, c) else 0
  {
    var p := net.payments[i];
    SumPoint(|p.hops| + 1, pos, EventFlow(p, net'.done[i], c, n), EventFlow(p, net.done[i], c, n));
    SumPoint(|net.payments|, i, PaymentFlows(net', c, n), PaymentFlows(net, c, n));
  }

  lemma FlowOfStart(net: Network, p: Payment, net': Network, c: ChannelId, n: NodeId)
    requires |net.done| == |net.payments|
    requires net'.payments == net.payments + [p] && net'.done == net.done + [seq(|p.hops| + 1, _ => false)]
    ensures Flow(net', c, n) == Flow(net, c, n)
  {
    var untouched := seq(|p.hops| + 1, _ => false);
    SumZero(|p.hops| + 1, EventFlow(p, untouched, c, n));
    SumSame(|net.payments|, PaymentFlows(net', c, n), PaymentFlows(net, c, n));
  }

  /** Events of a payment touch only RGB channels of its nodes. */
  lemma NoFlowElsewhere(net: Network, c: ChannelId, n: NodeId)
    requires WellFormed(net)
    requires c >= |net.channels| || !IsEnd(net.channels[c], n)
    ensures Flow(net, c, n) == 0
  {
    forall i: nat | i < |net.payments| ensures PaymentFlows(net, c, n)(i) == 0 {
      var p := net.payments[i];
      SumZero(|p.hops| + 1, EventFlow(p, net.done[i], c, n));
    }
    SumZero(|net.payments|, PaymentFlows(net, c, n));
  }

  // The invariant.

  lemma OpenKeepsViews(net: Network, ch: Channel)
    requires WellFormed(net) && ViewsAsExpected(net) && Enabled(net, Open(ch))
    ensures WellFormed(Apply(net, Open(ch))) && ViewsAsExpected(Apply(net, Open(ch)))
  {
    var net' := Apply(net, Open(ch));
    forall n: NodeId, c: ChannelId | n < |net.nodes| ensures ViewAsExpected(net', n, c) {
      assert ViewAsExpected(net, n, c);
      SumSame(|net.payments|, PaymentFlows(net', c, n), PaymentFlows(net, c, n));
      if c == |net.channels| { NoFlowElsewhere(net, c, n); }
    }
  }

  lemma StartKeepsViews(net: Network, p: Payment)
    requires WellFormed(net) && ViewsAsExpected(net) && Enabled(net, Start(p))
    ensures WellFormed(Apply(net, Start(p))) && ViewsAsExpected(Apply(net, Start(p)))
  {
    var net' := Apply(net, Start(p));
    forall n: NodeId, c: ChannelId | n < |net.nodes| ensures ViewAsExpected(net', n, c) {
      assert ViewAsExpected(net, n, c);
      FlowOfStart(net, p, net', c, n);
    }
  }

  lemma SettledView(net: Network, i: nat, pos: nat, views: Views, net': Network, n: NodeId, c: ChannelId)
    requires WellFormed(net) && n < |net.nodes| && ViewAsExpected(net, n, c)
    requires i < |net.payments| && pos <= |net.payments[i].hops| && !net.done[i][pos]
    requires NodeAt(net.payments[i], pos) < |net.nodes|
    requires var p := net.payments[i];
             MovedAt(net.nodes[NodeAt(p, pos)], views, c, Received(p, pos, c), Offered(p, pos, c))
    requires net' == net.(nodes := net.nodes[NodeAt(net.payments[i], pos) := views],
                          done := net.done[i := net.done[i][pos := true]])
    ensures ViewAsExpected(net', n, c)
  {
    FlowOfSettle(net, i, pos, net', c, n);
  }

  /** A settled position keeps all views as expected if and only if its scan is right. */
  lemma SettleKeepsViews(net: Network, i: nat, pos: nat, listing: seq<DirEntry>)
    requires WellFormed(net) && ViewsAsExpected(net) && Enabled(net, Settle(i, pos, listing))
    ensures var net' := Apply(net, Settle(i, pos, listing));
            && WellFormed(net')
            && (ViewsAsExpected(net') <==> ScansRight(net, Settle(i, pos, listing)))
  {
    var net' := Apply(net, Settle(i, pos, listing));
    var p := net.payments[i];
    var n := NodeAt(p, pos);
    var views := Rightly(net.nodes[n], p, pos);
    forall c: ChannelId ensures MovedAt(net.nodes[n], views, c, Received(p, pos, c), Offered(p, pos, c)) {
      RightlyMoves(net.nodes[n], p, pos, c);
    }
    var right := net'.(nodes := net.nodes[n := views]);
    SettledViews(net, i, pos, views, right);
    HandledMoves(net, i, pos, listing);
    if ScansRight(net, Settle(i, pos, listing)) {
      assert net' == right;
    }
    if ViewsAsExpected(net') {
      ExpectationDetermines(net', right, n);
    }
  }

  /** There is one way for a node's views to be as expected. */
  lemma ExpectationDetermines(net: Network, net': Network, n: NodeId)
    requires net' == net.(nodes := net'.nodes) && |net'.nodes| == |net.nodes| && n < |net.nodes|
    requires ViewsAsExpected(net) && ViewsAsExpected(net')
    ensures net'.nodes[n] == net.nodes[n]
  {
    forall c: ChannelId
      ensures c in net'.nodes[n] <==> c in net.nodes[n]
      ensures c in net.nodes[n] ==> net'.nodes[n][c] == net.nodes[n][c]
    {
      assert ViewAsExpected(net, n, c) && ViewAsExpected(net', n, c);
      SumSame(|net.payments|, PaymentFlows(net', c, n), PaymentFlows(net, c, n));
    }
  }

  lemma SettledViews(net: Network, i: nat, pos: nat, views: Views, net': Network)
    requires WellFormed(net) && ViewsAsExpected(net)
    requires i < |net.payments| && pos <= |net.payments[i].hops| && !net.done[i][pos]
    requires NodeAt(net.payments[i], pos) < |net.nodes|
    requires forall c: ChannelId ::
               MovedAt(net.nodes[NodeAt(net.payments[i], pos)], views, c,
                       Received(net.payments[i], pos, c), Offered(net.payments[i], pos, c))
    requires net' == net.(nodes := net.nodes[NodeAt(net.payments[i], pos) := views],
                          done := net.done[i := net.done[i][pos := true]])
    ensures WellFormed(net') && ViewsAsExpected(net')
  {
    forall n: NodeId, c: ChannelId | n < |net.nodes| ensures ViewAsExpected(net', n, c) {
      assert ViewAsExpected(net, n, c);
      SettledView(net, i, pos, views, net', n, c);
    }
  }

  /**
   * Over every run in which each scan is right: each view holds what its channel was opened
   * with plus what the events handled so far moved, whatever the interleaving.
   */
  lemma {:induction false} ReachableViews(nodeCount: nat, steps: seq<Step>)
    requires Run(nodeCount, steps).Some? && RightlyScanned(nodeCount, steps)
    ensures var net := Run(nodeCount, steps).value;
            WellFormed(net) && ViewsAsExpected(net) && |net.nodes| == nodeCount
  {
    if steps == [] {
      var net := Run(nodeCount, steps).value;
      assert forall n: NodeId | n < nodeCount :: net.nodes[n] == map[];
    } else {
      ReachableViews(nodeCount, steps[..|steps| - 1]);
      var before := Run(nodeCount, steps[..|steps| - 1]).value;
      match steps[|steps| - 1] {
        case Open(ch) => OpenKeepsViews(before, ch);
        case Start(p) => StartKeepsViews(before, p);
        case Settle(i, pos, listing) => SettleKeepsViews(before, i, pos, listing);
      }
    }
  }

  ghost predicate RightAllAlong(nodeCount: nat, steps: seq<Step>)
    requires Run(nodeCount, steps).Some?
  {
    && ViewsAsExpected(Run(nodeCount, steps).value)
    && (steps != [] ==> RightAllAlong(nodeCount, steps[..|steps| - 1]))
  }

  /**
   * That condition is exact: all views are as expected at every point of a run if and only
   * if every scan in it is right.
   */
  lemma {:induction false} RightIffRightlyScanned(nodeCount: nat, steps: seq<Step>)
    requires Run(nodeCount, steps).Some?
    ensures RightAllAlong(nodeCount, steps) <==> RightlyScanned(nodeCount, steps)
  {
    if steps == [] {
      ReachableViews(nodeCount, steps);
    } else {
      var k := |steps| - 1;
      RightIffRightlyScanned(nodeCount, steps[..k]);
      if RightlyScanned(nodeCount, steps[..k]) {
        ReachableViews(nodeCount, steps[..k]);
        if steps[k].Settle? {
          SettleKeepsViews(Run(nodeCount, steps[..k]).value, steps[k].i, steps[k].pos, steps[k].listing);
        } else {
          ReachableViews(nodeCount, steps);
        }
      }
    }
  }

  /** Every directory that is scanned holds the records of a single attempt under the payment's hash. */
  ghost predicate SingleAttempts(nodeCount: nat, steps: seq<Step>)
    requires Run(nodeCount, steps).Some?
  {
    steps != [] ==>
      var k := |steps| - 1;
      && SingleAttempts(nodeCount, steps[..k])
      && (steps[k].Settle? ==>
            var p := Run(nodeCount, steps[..k]).value.payments[steps[k].i];
            steps[k].pos == 0 || steps[k].pos == |p.hops| ==> Lists(steps[k].listing, p, steps[k].pos > 0))
  }

  /** Without records of earlier attempts, every scan is right, whatever the order of the listings. */
  lemma {:induction false} SingleAttemptsScanRight(nodeCount: nat, steps: seq<Step>)
    requires Run(nodeCount, steps).Some? && SingleAttempts(nodeCount, steps)
    ensures RightlyScanned(nodeCount, steps)
  {
    if steps != [] {
      var k := |steps| - 1;
      SingleAttemptsScanRight(nodeCount, steps[..k]);
      ReachableViews(nodeCount, steps[..k]);
      var net := Run(nodeCount, steps[..k]).value;
      if steps[k].Settle? && (steps[k].pos == 0 || steps[k].pos == |net.payments[steps[k].i].hops|) {
        var p := net.payments[steps[k].i];
        var views := net.nodes[NodeAt(p, steps[k].pos)];
        ScanFindsOwnRecord(p, net.channels, |net.nodes|, steps[k].listing, steps[k].pos > 0, views);
      }
    }
  }

  // What every scan keeps, right or wrong.

  /** A node's views are of the channels it is an end of, with their contract and the amount they were opened with. */
  ghost predicate KeepsAmounts(net: Network) {
    forall n: NodeId, c: ChannelId | n < |net.nodes| :: KeepsAmount(net, n, c)
  }

  ghost predicate KeepsAmount(net: Network, n: NodeId, c: ChannelId)
    requires n < |net.nodes|
  {
    && (c in net.nodes[n] <==> c < |net.channels| && IsEnd(net.channels[c], n))
    && (c in net.nodes[n] ==>
          && net.nodes[n][c].contract == net.channels[c].contract
          && net.nodes[n][c].local + net.nodes[n][c].remote == net.channels[c].amount)
  }

  lemma StepKeepsAmounts(net: Network, step: Step)
    requires KeepsAmounts(net) && Enabled(net, step)
    ensures KeepsAmounts(Apply(net, step))
  {
    var net' := Apply(net, step);
    forall n: NodeId, c: ChannelId | n < |net.nodes| ensures KeepsAmount(net', n, c) {
      assert KeepsAmount(net, n, c);
    }
  }

  /** Over every run, whatever the directories hold: no node's view of a channel gains or loses an amount in total. */
  lemma {:induction false} AmountsKept(nodeCount: nat, steps: seq<Step>)
    requires Run(nodeCount, steps).Some?
    ensures KeepsAmounts(Run(nodeCount, steps).value)
  {
    if steps == [] {
      var net := Run(nodeCount, steps).value;
      assert forall n: NodeId | n < nodeCount :: net.nodes[n] == map[];
    } else {
      AmountsKept(nodeCount, steps[..|steps| - 1]);
      StepKeepsAmounts(Run(nodeCount, steps[..|steps| - 1]).value, steps[|steps| - 1]);
    }
  }
}
