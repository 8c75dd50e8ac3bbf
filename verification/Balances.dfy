/** What the node reports as its RGB balances: amounts in channels and outputs locked by them. */
module Balances {
  import opened Wrappers
  import opened Types

  /** The RGB part of a channel; channels without one have no information file. */
  datatype ChannelRgb = ChannelRgb(contract: ContractId, local: nat, remote: nat)

  type Channels = seq<Option<ChannelRgb>>

  predicate Carries(channel: Option<ChannelRgb>, c: ContractId) {
    channel.Some? && channel.value.contract == c
  }

  /** Local and remote amounts of one contract over a list of channels. */
  function Amounts(channels: Channels, c: ContractId): (nat, nat) {
    if channels == [] then (0, 0)
    else
      var k := |channels| - 1;
      var (out, inb) := Amounts(channels[..k], c);
      if Carries(channels[k], c) then (out + channels[k].value.local, inb + channels[k].value.remote) else (out, inb)
  }

  /** The balance of one contract: a pass over the channels that skips the others. */
  method AssetBalance(channels: Channels, c: ContractId) returns (outbound: nat, inbound: nat)
    ensures (outbound, inbound) == Amounts(channels, c)
  {
    outbound, inbound := 0, 0;
    var i := 0;
    while i < |channels|
      invariant 0 <= i <= |channels| && (outbound, inbound) == Amounts(channels[..i], c)
    {
      var channel := channels[i];
      assert channels[..i + 1][..i] == channels[..i];
      i := i + 1;
      if channel.None? {
        continue;
      }
      if channel.value.contract == c {
        outbound := outbound + channel.value.local;
        inbound := inbound + channel.value.remote;
      }
    }
    assert channels[..|channels|] == channels;
  }

  /** The balances of all contracts in one pass, grouped; each is the one its own pass would give. */
  method OffchainBalances(channels: Channels) returns (balances: map<ContractId, (nat, nat)>)
    ensures forall c :: c in balances <==> exists i | 0 <= i < |channels| :: Carries(channels[i], c)
    ensures forall c: ContractId :: (if c in balances then balances[c] else (0, 0)) == Amounts(channels, c)
  {
    balances := map[];
    var i := 0;
    while i < |channels|
      invariant 0 <= i <= |channels|
      invariant forall c :: c in balances <==> exists k | 0 <= k < i :: Carries(channels[k], c)
      invariant forall c: ContractId :: (if c in balances then balances[c] else (0, 0)) == Amounts(channels[..i], c)
    {
      var channel := channels[i];
      assert channels[..i + 1][..i] == channels[..i];
      i := i + 1;
      if channel.None? {
        continue;
      }
      var info := channel.value;
      assert Carries(channels[i - 1], info.contract);
      if info.contract in balances {
        var (out, inb) := balances[info.contract];
        balances := balances[info.contract := (out + info.local, inb + info.remote)];
      } else {
        balances := balances[info.contract := (info.local, info.remote)];
      }
    }
    assert channels[..|channels|] == channels;
  }

  /** The largest local amount of a contract in one channel. */
  method MaxLocalRgbAmount(channels: Channels, c: ContractId) returns (max: nat)
    ensures forall i | 0 <= i < |channels| && Carries(channels[i], c) :: channels[i].value.local <= max
    ensures max > 0 ==> exists i | 0 <= i < |channels| :: Carries(channels[i], c) && channels[i].value.local == max
  {
    max := 0;
    for i := 0 to |channels|
      invariant forall k | 0 <= k < i && Carries(channels[k], c) :: channels[k].value.local <= max
      invariant max > 0 ==> exists k | 0 <= k < i :: Carries(channels[k], c) && channels[k].value.local == max
    {
      if channels[i].Some? {
        var info := channels[i].value;
        if info.contract == c && info.local > max {
          max := info.local;
          assert Carries(channels[i], c);
        }
      }
    }
  }

  // Outputs locked in channels.

  type Outpoint = (nat, nat)

  datatype LockedUtxo = LockedUtxo(contract: ContractId, amount: nat)

  type LockedMap = map<Outpoint, LockedUtxo>

  function AmountAt(locked: LockedMap, o: Outpoint, c: ContractId): nat {
    if o in locked && locked[o].contract == c then locked[o].amount else 0
  }

  /** The locked amount of a contract. */
  ghost function LockedTotal(locked: LockedMap, c: ContractId): nat {
    if locked == map[] then 0
    else
      var o :| o in locked;
      AmountAt(locked, o, c) + LockedTotal(locked - {o}, c)
  }

  /** The total does not depend on the order of the entries. */
  lemma {:induction false} TotalWithout(locked: LockedMap, o: Outpoint, c: ContractId)
    requires o in locked
    ensures LockedTotal(locked, c) == AmountAt(locked, o, c) + LockedTotal(locked - {o}, c)
    decreases |locked|
  {
    var p :| p in locked && LockedTotal(locked, c) == AmountAt(locked, p, c) + LockedTotal(locked - {p}, c);
    if p != o {
      TotalWithout(locked - {p}, o, c);
      TotalWithout(locked - {o}, p, c);
      assert (locked - {p}) - {o} == (locked - {o}) - {p};
      assert AmountAt(locked - {p}, o, c) == AmountAt(locked, o, c);
      assert AmountAt(locked - {o}, p, c) == AmountAt(locked, p, c);
    }
  }

  class LockedUtxos {
    var file: Option<LockedMap>

    ghost function Value(): LockedMap
      reads this
    {
      if file.None? then map[] else file.value
    }

    method Track(o: Outpoint, utxo: LockedUtxo)
      modifies this
      ensures Value() == old(Value())[o := utxo]
    {
      var locked := if file.None? then map[] else file.value;
      file := Some(locked[o := utxo]);
    }

    method Release(o: Outpoint)
      modifies this
      ensures Value() == old(Value()) - {o}
    {
      if file.Some? {
        file := Some(file.value - {o});
      }
    }

    method GetLockedAmount(c: ContractId) returns (total: nat)
      ensures total == LockedTotal(Value(), c)
    {
      total := 0;
      if file.None? {
        return;
      }
      var left := file.value;
      while left != map[]
        invariant total + LockedTotal(left, c) == LockedTotal(Value(), c)
        decreases |left|
      {
        var o :| o in left;
        TotalWithout(left, o, c);
        if left[o].contract == c {
          total := total + left[o].amount;
        }
        left := left - {o};
      }
    }
  }

  datatype Operation = Tracking(outpoint: Outpoint, utxo: LockedUtxo) | Releasing(outpoint: Outpoint)

  function OnMap(ops: seq<Operation>): LockedMap {
    if ops == [] then map[]
    else
      match ops[|ops| - 1]
      case Tracking(o, utxo) => OnMap(ops[..|ops| - 1])[o := utxo]
      case Releasing(o) => OnMap(ops[..|ops| - 1]) - {o}
  }

  /** Read from the last operation back: what was tracked for outputs that nothing touched later. */
  function StillTracked(ops: seq<Operation>, later: set<Outpoint>, c: ContractId): nat {
    if ops == [] then 0
    else
      var op := ops[|ops| - 1];
      StillTracked(ops[..|ops| - 1], later + {op.outpoint}, c)
      + if op.Tracking? && op.outpoint !in later && op.utxo.contract == c then op.utxo.amount else 0
  }

  lemma {:induction false} TotalOfOperations(ops: seq<Operation>, later: set<Outpoint>, c: ContractId)
    ensures LockedTotal(OnMap(ops) - later, c) == StillTracked(ops, later, c)
  {
    if ops == [] {
      assert OnMap(ops) - later == map[];
    } else {
      var op := ops[|ops| - 1];
      var before := ops[..|ops| - 1];
      TotalOfOperations(before, later + {op.outpoint}, c);
      var rest := OnMap(before) - (later + {op.outpoint});
      if op.Tracking? && op.outpoint !in later {
        assert (OnMap(ops) - later) - {op.outpoint} == rest;
        TotalWithout(OnMap(ops) - later, op.outpoint, c);
      } else {
        assert OnMap(ops) - later == rest;
      }
    }
  }

  /** After any operations the locked amount is what is tracked and neither released nor replaced since. */
  lemma LockedIsStillTracked(ops: seq<Operation>, c: ContractId)
    ensures LockedTotal(OnMap(ops), c) == StillTracked(ops, {}, c)
  {
    TotalOfOperations(ops, {}, c);
    assert OnMap(ops) - {} == OnMap(ops);
  }

  /** Outbound is what is local, inbound what is remote; lists add up, and other contracts do not count. */
  lemma {:induction false} AmountsAre(a: Channels, b: Channels, info: ChannelRgb, c: ContractId)
    ensures Amounts([Some(info)], c) == if info.contract == c then (info.local, info.remote) else (0, 0)
    ensures Amounts([None], c) == (0, 0)
    ensures Amounts(a + b, c) == (Amounts(a, c).0 + Amounts(b, c).0, Amounts(a, c).1 + Amounts(b, c).1)
    decreases |b|
  {
    var one: Channels, none: Channels := [Some(info)], [None];
    assert one[..0] == [] && none[..0] == [];
    if b == [] {
      assert a + b == a;
    } else {
      AmountsAre(a, b[..|b| - 1], info, c);
      assert (a + b)[..|a + b| - 1] == a + b[..|b| - 1];
    }
  }
}
