/**
 * Spending the outputs of closed channels: outputs are grouped by RGB contract, each
 * contract gets one recipient output, and the transaction is kept per descriptor list.
 */
module Sweep {
  import opened Wrappers
  import opened Types

  type Txid = nat
  type RecipientId = nat

  const DUST_LIMIT_MSAT: nat := 546_000

  datatype TransferInfo = TransferInfo(contract: ContractId, amount: u64)

  datatype TxOut = TxOut(valueSat: nat, recipient: RecipientId)

  /** What is recorded per contract: its index, its amount and who receives it. */
  datatype AssetInfo = AssetInfo(vout: nat, amount: nat, recipient: RecipientId)

  type AssetMap = map<ContractId, AssetInfo>

  /** What the sweep finds on disk and on chain about the transactions that close channels. */
  datatype Env = Env(transfers: map<Txid, TransferInfo>, witnessFails: set<Txid>)

  datatype SweepTx =
    | VanillaTx(id: nat)
    | ColoredTx(txouts: seq<TxOut>, coloring: map<ContractId, (nat, nat)>)

  /** The RGB transfer a descriptor brings, if it brings any. */
  function Brought(env: Env, txid: Txid): Option<TransferInfo> {
    if txid in env.transfers && env.transfers[txid].amount > 0 then Some(env.transfers[txid]) else None
  }

  /** The contracts of a descriptor list in the order they are first seen. */
  function FirstSeen(env: Env, descriptors: seq<Txid>): (r: seq<ContractId>)
    ensures forall i, j | 0 <= i < j < |r| :: r[i] != r[j]
  {
    if descriptors == [] then []
    else
      var k := |descriptors| - 1;
      var before := FirstSeen(env, descriptors[..k]);
      match Brought(env, descriptors[k])
      case None => before
      case Some(info) => if info.contract in before then before else before + [info.contract]
  }

  predicate BringsContract(env: Env, txid: Txid, c: ContractId) {
    Brought(env, txid).Some? && Brought(env, txid).value.contract == c
  }

  /** The sum a descriptor list brings of one contract. */
  function SumOf(env: Env, descriptors: seq<Txid>, c: ContractId): nat {
    if descriptors == [] then 0
    else
      var k := |descriptors| - 1;
      SumOf(env, descriptors[..k], c)
      + if BringsContract(env, descriptors[k], c) then Brought(env, descriptors[k]).value.amount else 0
  }

  function SumOfAll(env: Env, descriptors: seq<Txid>): nat {
    if descriptors == [] then 0
    else
      var k := |descriptors| - 1;
      SumOfAll(env, descriptors[..k])
      + if Brought(env, descriptors[k]).Some? then Brought(env, descriptors[k]).value.amount else 0
  }

  /**
   * The grouping of a descriptor list: one entry per contract, indexed in first-seen order,
   * with the contract's sum; its recipient's dust output stands at |outputs| + index.
   */
  ghost predicate Groups(assets: AssetMap, txouts: seq<TxOut>, env: Env, descriptors: seq<Txid>, outputs: seq<TxOut>) {
    var order := FirstSeen(env, descriptors);
    && (forall c :: c in assets <==> c in order)
    && |txouts| == |outputs| + |order| && outputs <= txouts
    && (forall v | 0 <= v < |order| ::
          var info := assets[order[v]];
          && info.vout == v && info.amount == SumOf(env, descriptors, order[v])
          && txouts[|outputs| + v] == TxOut(DUST_LIMIT_MSAT / 1000, info.recipient))
  }

  /** A grouping with one more transfer. */
  function Grown(assets: AssetMap, txouts: seq<TxOut>, vout: nat, info: TransferInfo,
                 recipient: RecipientId): (AssetMap, seq<TxOut>) {
    if info.contract in assets then
      (assets[info.contract := assets[info.contract].(amount := assets[info.contract].amount + info.amount)], txouts)
    else
      (assets[info.contract := AssetInfo(vout, info.amount, recipient)],
       txouts + [TxOut(DUST_LIMIT_MSAT / 1000, recipient)])
  }

  /** The grouping of a descriptor list, one descriptor at a time; `base` is the first new recipient. */
  function Grouping(env: Env, descriptors: seq<Txid>, outputs: seq<TxOut>, base: RecipientId):
    (g: (AssetMap, seq<TxOut>))
    ensures |g.1| >= |outputs|
  {
    if descriptors == [] then (map[], outputs)
    else
      var k := |descriptors| - 1;
      var (assets, txouts) := Grouping(env, descriptors[..k], outputs, base);
      match Brought(env, descriptors[k])
      case None => (assets, txouts)
      case Some(info) => Grown(assets, txouts, |txouts| - |outputs|, info, base + |txouts| - |outputs|)
  }

  /** Each contract has a recipient of its own, handed out from `base` on. */
  ghost predicate NewRecipients(assets: AssetMap, base: RecipientId) {
    forall c | c in assets :: assets[c].recipient == base + assets[c].vout
  }

  /** What a transaction is coloured with: per contract one output index and the whole amount. */
  function Coloring(assets: AssetMap): map<ContractId, (nat, nat)> {
    map c | c in assets :: (assets[c].vout, assets[c].amount)
  }

  /** A coloured transaction that carries a grouping of the descriptors. */
  ghost predicate Sweeps(tx: SweepTx, env: Env, descriptors: seq<Txid>, outputs: seq<TxOut>)
    requires tx.ColoredTx?
  {
    exists assets: AssetMap :: Groups(assets, tx.txouts, env, descriptors, outputs) && tx.coloring == Coloring(assets)
  }

  /** What becomes of posting each contract's consignment: its task may die, or posting may return an error. */
  datatype Posting = Posting(dies: set<ContractId>, errs: set<ContractId>)

  /** What is posted for a contract: to whom, and the index behind the OP_RETURN output. */
  function Consignment(info: AssetInfo): (RecipientId, nat) {
    (info.recipient, info.vout + 1)
  }

  /** Only consignments of contracts whose posting returned no error are among these, and none still to do. */
  ghost predicate OnlyPosts(added: seq<(RecipientId, nat)>, assets: AssetMap, errs: set<ContractId>,
                            todo: set<ContractId>)
  {
    forall q | q in added :: exists c :: c in assets && c !in todo && c !in errs && Consignment(assets[c]) == q
  }

  ghost predicate AllPosted(added: seq<(RecipientId, nat)>, assets: AssetMap, errs: set<ContractId>,
                            todo: set<ContractId>)
  {
    forall c | c in assets && c !in todo && c !in errs :: Consignment(assets[c]) in added
  }

  lemma OnlyPostsWidens(added: seq<(RecipientId, nat)>, assets: AssetMap, errs: set<ContractId>, todo: set<ContractId>)
    requires OnlyPosts(added, assets, errs, todo)
    ensures OnlyPosts(added, assets, errs, {})
  {
  }

  /** The recipient of a contract's output, and its index on the final transaction. */
  function ConsignmentOf(tx: SweepTx, asked: nat, c: ContractId): (RecipientId, nat)
    requires tx.ColoredTx? && c in tx.coloring && asked + tx.coloring[c].0 < |tx.txouts|
  {
    (tx.txouts[asked + tx.coloring[c].0].recipient, tx.coloring[c].0 + 1)
  }

  /** The consignments of all contracts of a transaction but some are posted, and those are not. */
  ghost predicate PostedBut(tx: SweepTx, asked: nat, posted: seq<(RecipientId, nat)>, errs: set<ContractId>,
                            next: RecipientId)
    requires tx.ColoredTx?
  {
    forall c | c in tx.coloring ::
      && asked + tx.coloring[c].0 < |tx.txouts|
      && ConsignmentOf(tx, asked, c).0 < next
      && (ConsignmentOf(tx, asked, c) in posted <==> c !in errs)
  }

  class RgbOutputSpender {
    const hasher: seq<Txid> -> nat
    var txes: map<nat, SweepTx>
    var txesFile: Option<map<nat, SweepTx>>
    var nextRecipient: RecipientId
    var posted: seq<(RecipientId, nat)>

    ghost predicate Valid()
      reads this
    {
      && txes == (if txesFile.None? then map[] else txesFile.value)
      && forall q | q in posted :: q.0 < nextRecipient
    }

    constructor (hasher: seq<Txid> -> nat, file: Option<map<nat, SweepTx>>)
      ensures Valid() && this.hasher == hasher && txesFile == file
    {
      this.hasher := hasher;
      txesFile := file;
      txes := if file.None? then map[] else file.value;
      nextRecipient, posted := 0, [];
    }

    /** A new recipient for the wallet, never handed out before. */
    method WitnessReceive() returns (recipient: RecipientId)
      modifies `nextRecipient
      ensures recipient == old(nextRecipient) && nextRecipient == recipient + 1
    {
      recipient := nextRecipient;
      nextRecipient := nextRecipient + 1;
    }

    /** Adds to the contract's entry, or makes one with a new recipient and its dust output. */
    method AddTransfer(assets: AssetMap, txouts: seq<TxOut>, vout: nat, info: TransferInfo)
      returns (assets': AssetMap, txouts': seq<TxOut>, vout': nat)
      modifies `nextRecipient
      ensures (assets', txouts') == Grown(assets, txouts, vout, info, old(nextRecipient))
      ensures vout' - vout == nextRecipient - old(nextRecipient) == |txouts'| - |txouts|
    {
      assets', txouts', vout' := assets, txouts, vout;
      if info.contract in assets {
        var entry := assets[info.contract];
        assets' := assets[info.contract := entry.(amount := entry.amount + info.amount)];
      } else {
        var recipient := WitnessReceive();
        txouts' := txouts + [TxOut(DUST_LIMIT_MSAT / 1000, recipient)];
        assets' := assets[info.contract := AssetInfo(vout, info.amount, recipient)];
        vout' := vout + 1;
      }
    }

    /** The grouping loop; fails when the witness of a coloured transaction cannot be updated. */
    method GroupByContract(descriptors: seq<Txid>, outputs: seq<TxOut>, env: Env)
      returns (r: Option<(AssetMap, seq<TxOut>)>)
      modifies `nextRecipient
      ensures r.None? <==> exists i | 0 <= i < |descriptors| ::
                             Brought(env, descriptors[i]).Some? && descriptors[i] in env.witnessFails
      ensures nextRecipient >= old(nextRecipient)
      ensures r.Some? ==>
                && r.value == Grouping(env, descriptors, outputs, old(nextRecipient))
                && nextRecipient == old(nextRecipient) + |r.value.1| - |outputs|
    {
      var vout := 0;
      var txouts := outputs;
      var assets: AssetMap := map[];
      var i := 0;
      while i < |descriptors|
        invariant 0 <= i <= |descriptors|
        invariant (assets, txouts) == Grouping(env, descriptors[..i], outputs, old(nextRecipient))
        invariant |txouts| == |outputs| + vout && nextRecipient == old(nextRecipient) + vout
        invariant forall k | 0 <= k < i :: Brought(env, descriptors[k]).None? || descriptors[k] !in env.witnessFails
      {
        var txid := descriptors[i];
        assert descriptors[..i + 1][..i] == descriptors[..i];
        i := i + 1;
        if txid !in env.transfers {
          continue;
        }
        var info := env.transfers[txid];
        if info.amount == 0 {
          continue;
        }
        if txid in env.witnessFails {
          return None;
        }
        assets, txouts, vout := AddTransfer(assets, txouts, vout, info);
      }
      assert descriptors[..|descriptors|] == descriptors;
      return Some((assets, txouts));
    }

    /**
     * Posts one consignment per contract, to its recipient, at its index after the OP_RETURN
     * output. Stops when a posting task dies; an error that posting returns is dropped.
     */
    method PostConsignments(assets: AssetMap, posting: Posting) returns (ok: bool, ghost added: seq<(RecipientId, nat)>)
      modifies `posted
      ensures ok <==> assets.Keys !! posting.dies
      ensures posted == old(posted) + added && OnlyPosts(added, assets, posting.errs, {})
      ensures ok ==> AllPosted(added, assets, posting.errs, {})
    {
      var todo := assets.Keys;
      added := [];
      while todo != {}
        invariant todo <= assets.Keys && assets.Keys - todo !! posting.dies
        invariant posted == old(posted) + added
        invariant OnlyPosts(added, assets, posting.errs, todo) && AllPosted(added, assets, posting.errs, todo)
      {
        var c :| c in todo;
        if c in posting.dies {
          OnlyPostsWidens(added, assets, posting.errs, todo);
          return false, added;
        }
        if c !in posting.errs {
          posted := posted + [Consignment(assets[c])];
          added := added + [Consignment(assets[c])];
        }
        todo := todo - {c};
      }
      return true, added;
    }

    /**
     * Spends a descriptor list. A list that was swept before gets the same transaction and
     * posts nothing. A new coloured transaction is kept, in memory and on disk, when no
     * posting task died; the consignment of a contract is then posted exactly if posting it
     * returned no error. Whatever is posted goes to recipients handed out in this very call.
     */
    method SpendSpendableOutputs(descriptors: seq<Txid>, outputs: seq<TxOut>, env: Env,
                                 vanilla: Option<nat>, posting: Posting)
      returns (r: Option<SweepTx>)
      requires Valid()
      modifies `txes, `txesFile, `nextRecipient, `posted
      ensures Valid() && nextRecipient >= old(nextRecipient)
      ensures old(posted) <= posted && forall q | q in posted[|old(posted)|..] :: q.0 >= old(nextRecipient)
      ensures var h := hasher(descriptors);
              && (h in old(txes) ==>
                    && r == Some(old(txes)[h]) && txes == old(txes)
                    && nextRecipient == old(nextRecipient) && posted == old(posted))
              && (h !in old(txes) && r.Some? && r.value.ColoredTx? ==>
                    && txes == old(txes)[h := r.value] && SumOfAll(env, descriptors) > 0
                    && Sweeps(r.value, env, descriptors, outputs)
                    && r.value.coloring.Keys !! posting.dies
                    && PostedBut(r.value, |outputs|, posted, posting.errs, nextRecipient))
              && (h !in old(txes) && (r.None? || r.value.VanillaTx?) ==> txes == old(txes))
              && (h !in old(txes) && r.Some? && r.value.VanillaTx? ==> SumOfAll(env, descriptors) == 0)
    {
      var h := hasher(descriptors);
      if h in txes {
        return Some(txes[h]);
      }
      var grouped := GroupByContract(descriptors, outputs, env);
      if grouped.None? {
        return None;
      }
      var (assets, txouts) := grouped.value;
      GroupingSweeps(env, descriptors, outputs, old(nextRecipient));
      if assets == map[] {
        return if vanilla.None? then None else Some(VanillaTx(vanilla.value));
      }
      var tx := ColoredTx(txouts, Coloring(assets));
      RecipientsInRange(env, descriptors, outputs, old(nextRecipient));
      var ok, added := PostConsignments(assets, posting);
      assert posted[|old(posted)|..] == added;
      PostsInRange(added, assets, posting.errs, old(nextRecipient), nextRecipient);
      if !ok {
        return None;
      }
      PostedExactly(env, descriptors, outputs, old(nextRecipient), old(posted), added, posting.errs);
      txes := txes[h := tx];
      txesFile := Some(txes);
      return Some(tx);
    }

    /** The memo survives a restart. */
    method Restart()
      requires Valid()
      modifies `txes
      ensures Valid() && txes == old(txes)
    {
      txes := if txesFile.None? then map[] else txesFile.value;
    }

    /**
     * Sweeping the same descriptors again, whatever changed around them and another sweep in
     * between, returns the same coloured transaction; and a consignment that was not posted
     * the first time, because posting it returned an error, is still not posted.
     */
    method SweepAgain(descriptors: seq<Txid>, outputs: seq<TxOut>, env: Env, vanilla: Option<nat>, posting: Posting,
                      between: seq<Txid>, outputs': seq<TxOut>, env': Env, vanilla': Option<nat>, posting': Posting)
      returns (first: Option<SweepTx>, second: Option<SweepTx>)
      requires Valid()
      modifies this
      ensures first.Some? && first.value.ColoredTx? ==>
                && second == first
                && (hasher(descriptors) !in old(txes) ==>
                      PostedBut(first.value, |outputs|, posted, posting.errs, nextRecipient))
    {
      ghost var isNew := hasher(descriptors) !in txes;
      first := SpendSpendableOutputs(descriptors, outputs, env, vanilla, posting);
      Restart();
      ghost var before, next := posted, nextRecipient;
      var _ := SpendSpendableOutputs(between, outputs', env', vanilla', posting');
      if first.Some? && first.value.ColoredTx? && isNew {
        PostedButStays(first.value, |outputs|, before, posted, posting.errs, next, nextRecipient);
      }
      Restart();
      second := SpendSpendableOutputs(descriptors, outputs', env', vanilla', posting');
    }
  }

  // Lemmas about the grouping.

  /** Different contracts have different recipients. */
  lemma RecipientsDiffer(assets: AssetMap, txouts: seq<TxOut>, env: Env, descriptors: seq<Txid>, outputs: seq<TxOut>,
                         base: RecipientId, c: ContractId, d: ContractId)
    requires Groups(assets, txouts, env, descriptors, outputs) && NewRecipients(assets, base)
    requires c in assets && d in assets && c != d
    ensures assets[c].recipient != assets[d].recipient
  {
    var order := FirstSeen(env, descriptors);
    var v :| 0 <= v < |order| && order[v] == c;
    var w :| 0 <= w < |order| && order[w] == d;
  }

  /** A descriptor without RGB leaves the grouping as it is. */
  lemma GroupsUnchanged(assets: AssetMap, txouts: seq<TxOut>, env: Env, descriptors: seq<Txid>, outputs: seq<TxOut>)
    requires descriptors != [] && Brought(env, descriptors[|descriptors| - 1]).None?
    requires Groups(assets, txouts, env, descriptors[..|descriptors| - 1], outputs)
    ensures Groups(assets, txouts, env, descriptors, outputs)
    ensures FirstSeen(env, descriptors) == FirstSeen(env, descriptors[..|descriptors| - 1])
  {
  }

  /** A descriptor with RGB keeps the grouping. */
  lemma GroupsGrown(assets: AssetMap, txouts: seq<TxOut>, env: Env, descriptors: seq<Txid>, outputs: seq<TxOut>,
                    info: TransferInfo, recipient: RecipientId)
    requires descriptors != [] && Brought(env, descriptors[|descriptors| - 1]) == Some(info)
    requires Groups(assets, txouts, env, descriptors[..|descriptors| - 1], outputs)
    ensures var (assets', txouts') := Grown(assets, txouts, |txouts| - |outputs|, info, recipient);
            Groups(assets', txouts', env, descriptors, outputs)
  {
    if info.contract in assets {
      EntryGrown(assets, txouts, env, descriptors, outputs, info);
    } else {
      EntryAdded(assets, txouts, env, descriptors, outputs, info, recipient);
    }
  }

  lemma {:induction false} GroupingIsGroups(env: Env, descriptors: seq<Txid>, outputs: seq<TxOut>, base: RecipientId)
    ensures var (assets, txouts) := Grouping(env, descriptors, outputs, base);
            Groups(assets, txouts, env, descriptors, outputs)
  {
    if descriptors != [] {
      var k := |descriptors| - 1;
      GroupingIsGroups(env, descriptors[..k], outputs, base);
      var (assets, txouts) := Grouping(env, descriptors[..k], outputs, base);
      match Brought(env, descriptors[k])
      case None => GroupsUnchanged(assets, txouts, env, descriptors, outputs);
      case Some(info) => GroupsGrown(assets, txouts, env, descriptors, outputs, info, base + |txouts| - |outputs|);
    }
  }

  lemma {:induction false} GroupingHasNewRecipients(env: Env, descriptors: seq<Txid>, outputs: seq<TxOut>,
                                                    base: RecipientId)
    ensures NewRecipients(Grouping(env, descriptors, outputs, base).0, base)
  {
    if descriptors != [] {
      GroupingHasNewRecipients(env, descriptors[..|descriptors| - 1], outputs, base);
    }
  }

  /** The loop's result groups its descriptors, with recipients of their own. */
  lemma GroupingGroups(env: Env, descriptors: seq<Txid>, outputs: seq<TxOut>, base: RecipientId)
    ensures var (assets, txouts) := Grouping(env, descriptors, outputs, base);
            Groups(assets, txouts, env, descriptors, outputs) && NewRecipients(assets, base)
  {
    GroupingIsGroups(env, descriptors, outputs, base);
    GroupingHasNewRecipients(env, descriptors, outputs, base);
  }

  /** The order lists exactly the contracts some descriptor brings. */
  lemma {:induction false} SeenIsBrought(env: Env, descriptors: seq<Txid>, c: ContractId)
    ensures c in FirstSeen(env, descriptors)
            <==> exists i | 0 <= i < |descriptors| :: BringsContract(env, descriptors[i], c)
  {
    if descriptors != [] {
      var k := |descriptors| - 1;
      SeenIsBrought(env, descriptors[..k], c);
      assert c in FirstSeen(env, descriptors)
             <==> c in FirstSeen(env, descriptors[..k]) || BringsContract(env, descriptors[k], c);
    }
  }

  lemma {:induction false} UnseenSumsToZero(env: Env, descriptors: seq<Txid>, c: ContractId)
    requires c !in FirstSeen(env, descriptors)
    ensures SumOf(env, descriptors, c) == 0
  {
    if descriptors != [] {
      UnseenSumsToZero(env, descriptors[..|descriptors| - 1], c);
    }
  }

  /** A descriptor with RGB of a contract seen before adds to the contract's entry. */
  lemma EntryGrown(assets: AssetMap, txouts: seq<TxOut>, env: Env, descriptors: seq<Txid>,
                   outputs: seq<TxOut>, info: TransferInfo)
    requires descriptors != [] && Brought(env, descriptors[|descriptors| - 1]) == Some(info) && info.contract in assets
    requires Groups(assets, txouts, env, descriptors[..|descriptors| - 1], outputs)
    ensures Groups(assets[info.contract := assets[info.contract].(amount :=
                                   assets[info.contract].amount + info.amount)],
                   txouts, env, descriptors, outputs)
  {
    assert FirstSeen(env, descriptors) == FirstSeen(env, descriptors[..|descriptors| - 1]);
  }

  /** A descriptor with RGB of a new contract adds the entry and its output. */
  lemma EntryAdded(assets: AssetMap, txouts: seq<TxOut>, env: Env, descriptors: seq<Txid>, outputs: seq<TxOut>,
                   info: TransferInfo, recipient: RecipientId)
    requires descriptors != [] && Brought(env, descriptors[|descriptors| - 1]) == Some(info) && info.contract !in assets
    requires Groups(assets, txouts, env, descriptors[..|descriptors| - 1], outputs)
    ensures Groups(assets[info.contract := AssetInfo(|txouts| - |outputs|, info.amount, recipient)],
                   txouts + [TxOut(DUST_LIMIT_MSAT / 1000, recipient)], env, descriptors, outputs)
  {
    var before := descriptors[..|descriptors| - 1];
    UnseenSumsToZero(env, before, info.contract);
    assert FirstSeen(env, descriptors) == FirstSeen(env, before) + [info.contract];
  }

  ghost predicate RecipientsWithin(assets: AssetMap, base: RecipientId, next: int) {
    forall c | c in assets :: base <= assets[c].recipient < next
  }

  /** The recipients of a grouping are the next ones, as many as there are new outputs. */
  lemma RecipientsInRange(env: Env, descriptors: seq<Txid>, outputs: seq<TxOut>, base: RecipientId)
    ensures var (assets, txouts) := Grouping(env, descriptors, outputs, base);
            RecipientsWithin(assets, base, base + |txouts| - |outputs|)
  {
    GroupingGroups(env, descriptors, outputs, base);
    var assets := Grouping(env, descriptors, outputs, base).0;
    var order := FirstSeen(env, descriptors);
    forall c | c in assets ensures assets[c].vout < |order| {
      var v :| 0 <= v < |order| && order[v] == c;
    }
  }

  lemma PostsInRange(added: seq<(RecipientId, nat)>, assets: AssetMap, errs: set<ContractId>,
                     base: RecipientId, next: int)
    requires OnlyPosts(added, assets, errs, {}) && RecipientsWithin(assets, base, next)
    ensures forall q | q in added :: base <= q.0 < next
  {
  }

  /** A contract's output stands at its index behind the outputs asked for. */
  lemma OutputOf(assets: AssetMap, txouts: seq<TxOut>, env: Env, descriptors: seq<Txid>, outputs: seq<TxOut>,
                 c: ContractId)
    requires Groups(assets, txouts, env, descriptors, outputs) && c in assets
    ensures |outputs| + assets[c].vout < |txouts|
    ensures txouts[|outputs| + assets[c].vout].recipient == assets[c].recipient
  {
    var order := FirstSeen(env, descriptors);
    var v :| 0 <= v < |order| && order[v] == c;
  }

  /** With recipients that are new and differ, exactly the consignments without an error are posted. */
  lemma PostedConsignments(assets: AssetMap, base: RecipientId, before: seq<(RecipientId, nat)>,
                           added: seq<(RecipientId, nat)>, errs: set<ContractId>, c: ContractId)
    requires (forall q | q in before :: q.0 < base) && c in assets && base <= assets[c].recipient
    requires forall d | d in assets && d != c :: assets[d].recipient != assets[c].recipient
    requires OnlyPosts(added, assets, errs, {}) && AllPosted(added, assets, errs, {})
    ensures Consignment(assets[c]) in before + added <==> c !in errs
  {
  }

  /** Posting to new recipients, all contracts but some, leaves exactly those unposted. */
  lemma PostedExactly(env: Env, descriptors: seq<Txid>, outputs: seq<TxOut>, base: RecipientId,
                      before: seq<(RecipientId, nat)>, added: seq<(RecipientId, nat)>, errs: set<ContractId>)
    requires forall q | q in before :: q.0 < base
    requires var assets := Grouping(env, descriptors, outputs, base).0;
             OnlyPosts(added, assets, errs, {}) && AllPosted(added, assets, errs, {})
    ensures var (assets, txouts) := Grouping(env, descriptors, outputs, base);
            PostedBut(ColoredTx(txouts, Coloring(assets)), |outputs|, before + added, errs, base + |txouts| - |outputs|)
  {
    var (assets, txouts) := Grouping(env, descriptors, outputs, base);
    GroupingGroups(env, descriptors, outputs, base);
    RecipientsInRange(env, descriptors, outputs, base);
    forall c | c in assets
      ensures |outputs| + assets[c].vout < |txouts|
      ensures txouts[|outputs| + assets[c].vout].recipient == assets[c].recipient
      ensures Consignment(assets[c]) in before + added <==> c !in errs
    {
      OutputOf(assets, txouts, env, descriptors, outputs, c);
      forall d | d in assets && d != c ensures assets[d].recipient != assets[c].recipient {
        RecipientsDiffer(assets, txouts, env, descriptors, outputs, base, d, c);
      }
      PostedConsignments(assets, base, before, added, errs, c);
    }
    PostedButOf(assets, txouts, |outputs|, before + added, errs, base + |txouts| - |outputs|);
  }

  lemma PostedButOf(assets: AssetMap, txouts: seq<TxOut>, asked: nat, posted: seq<(RecipientId, nat)>,
                    errs: set<ContractId>, next: RecipientId)
    requires forall c | c in assets ::
               && asked + assets[c].vout < |txouts|
               && txouts[asked + assets[c].vout].recipient == assets[c].recipient < next
               && (Consignment(assets[c]) in posted <==> c !in errs)
    ensures PostedBut(ColoredTx(txouts, Coloring(assets)), asked, posted, errs, next)
  {
    var tx := ColoredTx(txouts, Coloring(assets));
    forall c | c in tx.coloring ensures ConsignmentOf(tx, asked, c) == Consignment(assets[c]) {
    }
  }

  /** What is not posted stays so while only new recipients are posted to. */
  lemma PostedButStays(tx: SweepTx, asked: nat, posted: seq<(RecipientId, nat)>, posted': seq<(RecipientId, nat)>,
                       errs: set<ContractId>, next: RecipientId, next': RecipientId)
    requires tx.ColoredTx? && PostedBut(tx, asked, posted, errs, next) && next <= next'
    requires posted <= posted' && forall q | q in posted'[|posted|..] :: q.0 >= next
    ensures PostedBut(tx, asked, posted', errs, next')
  {
    assert posted' == posted + posted'[|posted|..];
  }

  lemma {:induction false} VanillaIffNothingBrought(env: Env, descriptors: seq<Txid>)
    ensures FirstSeen(env, descriptors) == [] <==> SumOfAll(env, descriptors) == 0
  {
    if descriptors != [] {
      VanillaIffNothingBrought(env, descriptors[..|descriptors| - 1]);
    }
  }

  /** A grouping is empty only when nothing was brought, and colours a transaction that sweeps the descriptors. */
  lemma GroupingSweeps(env: Env, descriptors: seq<Txid>, outputs: seq<TxOut>, base: RecipientId)
    ensures var (assets, txouts) := Grouping(env, descriptors, outputs, base);
            && (assets == map[] <==> SumOfAll(env, descriptors) == 0)
            && Sweeps(ColoredTx(txouts, Coloring(assets)), env, descriptors, outputs)
  {
    GroupingGroups(env, descriptors, outputs, base);
    VanillaIffNothingBrought(env, descriptors);
    if FirstSeen(env, descriptors) != [] {
      assert FirstSeen(env, descriptors)[0] in Grouping(env, descriptors, outputs, base).0;
    }
  }

  /** The amounts of the first n contracts of an order. */
  function SumOver(env: Env, descriptors: seq<Txid>, order: seq<ContractId>): nat {
    if order == [] then 0
    else SumOver(env, descriptors, order[..|order| - 1]) + SumOf(env, descriptors, order[|order| - 1])
  }

  /** One more descriptor changes the sum over an order by what it brings of a contract in it. */
  lemma {:induction false} SumOverStep(env: Env, descriptors: seq<Txid>, order: seq<ContractId>)
    requires descriptors != [] && forall i, j | 0 <= i < j < |order| :: order[i] != order[j]
    ensures var k := |descriptors| - 1;
            var info := Brought(env, descriptors[k]);
            SumOver(env, descriptors, order)
            == SumOver(env, descriptors[..k], order)
               + if info.Some? && info.value.contract in order then info.value.amount else 0
  {
    if order != [] {
      SumOverStep(env, descriptors, order[..|order| - 1]);
      assert order == order[..|order| - 1] + [order[|order| - 1]];
    }
  }

  /** Conservation: the entries together carry everything the descriptors bring. */
  lemma {:induction false} NothingLostInGrouping(env: Env, descriptors: seq<Txid>)
    ensures SumOver(env, descriptors, FirstSeen(env, descriptors)) == SumOfAll(env, descriptors)
  {
    if descriptors != [] {
      var k := |descriptors| - 1;
      NothingLostInGrouping(env, descriptors[..k]);
      var before := FirstSeen(env, descriptors[..k]);
      SumOverStep(env, descriptors, before);
      var info := Brought(env, descriptors[k]);
      if info.Some? && info.value.contract !in before {
        UnseenSumsToZero(env, descriptors[..k], info.value.contract);
        assert FirstSeen(env, descriptors) == before + [info.value.contract];
        assert FirstSeen(env, descriptors)[..|before|] == before;
      }
    }
  }

  /**
   * The index a contract is coloured with is the position of its recipient's output if and
   * only if the caller asked for no outputs of its own.
   */
  lemma ColoredIndexIsPosition(assets: AssetMap, txouts: seq<TxOut>, env: Env, descriptors: seq<Txid>,
                             outputs: seq<TxOut>)
    requires Groups(assets, txouts, env, descriptors, outputs) && assets != map[]
    requires forall c | c in assets, i | 0 <= i < |outputs| :: outputs[i].recipient != assets[c].recipient
    ensures (forall c | c in assets :: assets[c].vout < |txouts|
               && txouts[assets[c].vout].recipient == assets[c].recipient)
            <==> outputs == []
  {
    var order := FirstSeen(env, descriptors);
    var c :| c in assets;
    assert order[0] in assets && assets[order[0]].vout == 0;
    if outputs == [] {
      forall c | c in assets
        ensures assets[c].vout < |txouts| && txouts[assets[c].vout].recipient == assets[c].recipient {
        var v :| 0 <= v < |order| && order[v] == c;
        assert txouts[|outputs| + v] == TxOut(DUST_LIMIT_MSAT / 1000, assets[order[v]].recipient);
      }
    } else {
      assert txouts[0] == outputs[0];
    }
  }

  // What a coloured transaction carries, in terms of the transfers on disk.

  /** What a descriptor's transaction transferred of a contract. */
  function TransferredOf(env: Env, txid: Txid, c: ContractId): nat {
    if txid in env.transfers && env.transfers[txid].contract == c then env.transfers[txid].amount else 0
  }

  function TotalTransferred(env: Env, descriptors: seq<Txid>, c: ContractId): nat {
    if descriptors == [] then 0
    else TransferredOf(env, descriptors[0], c) + TotalTransferred(env, descriptors[1..], c)
  }

  lemma {:induction false} TotalTransferredAppend(env: Env, descriptors: seq<Txid>, txid: Txid, c: ContractId)
    ensures TotalTransferred(env, descriptors + [txid], c)
            == TotalTransferred(env, descriptors, c) + TransferredOf(env, txid, c)
  {
    if descriptors != [] {
      TotalTransferredAppend(env, descriptors[1..], txid, c);
      assert (descriptors + [txid])[1..] == descriptors[1..] + [txid];
    }
  }

  lemma {:induction false} SumIsTotalTransferred(env: Env, descriptors: seq<Txid>, c: ContractId)
    ensures SumOf(env, descriptors, c) == TotalTransferred(env, descriptors, c)
    decreases |descriptors|
  {
    if descriptors != [] {
      var k := |descriptors| - 1;
      SumIsTotalTransferred(env, descriptors[..k], c);
      TotalTransferredAppend(env, descriptors[..k], descriptors[k], c);
      assert descriptors == descriptors[..k] + [descriptors[k]];
    }
  }

  /** The i-th descriptor transferred something of a contract. */
  predicate TransfersAt(env: Env, descriptors: seq<Txid>, i: nat, c: ContractId)
    requires i < |descriptors|
  {
    TransferredOf(env, descriptors[i], c) > 0
  }

  lemma SeenSomewhere(env: Env, descriptors: seq<Txid>, c: ContractId)
    ensures c in FirstSeen(env, descriptors)
            <==> exists i: nat | i < |descriptors| :: TransfersAt(env, descriptors, i, c)
  {
    SeenIsBrought(env, descriptors, c);
    if i: nat :| i < |descriptors| && TransfersAt(env, descriptors, i, c) {
      assert BringsContract(env, descriptors[i], c);
    }
    if i :| 0 <= i < |descriptors| && BringsContract(env, descriptors[i], c) {
      assert TransfersAt(env, descriptors, i, c);
    }
  }

  /** The order is that of first occurrence: whatever stands earlier is seen before what stands later is seen at all. */
  lemma {:induction false} SeenInOrder(env: Env, descriptors: seq<Txid>, v: nat, w: nat, i: nat)
    requires v < w < |FirstSeen(env, descriptors)| && i < |descriptors|
    requires TransfersAt(env, descriptors, i, FirstSeen(env, descriptors)[w])
    ensures exists j: nat | j < i :: TransfersAt(env, descriptors, j, FirstSeen(env, descriptors)[v])
    decreases |descriptors|
  {
    var k := |descriptors| - 1;
    var before, order := FirstSeen(env, descriptors[..k]), FirstSeen(env, descriptors);
    assert order == before || order == before + [order[|before|]];
    if i < k {
      assert TransfersAt(env, descriptors[..k], i, order[w]);
      SeenSomewhere(env, descriptors[..k], order[w]);
      SeenInOrder(env, descriptors[..k], v, w, i);
      var j: nat :| j < i && TransfersAt(env, descriptors[..k], j, order[v]);
      assert TransfersAt(env, descriptors, j, order[v]);
    } else {
      SeenSomewhere(env, descriptors[..k], order[v]);
      var j: nat :| j < k && TransfersAt(env, descriptors[..k], j, order[v]);
      assert TransfersAt(env, descriptors, j, order[v]);
    }
  }

  /** The coloured amounts, in the order of their indices. */
  function ColoredTotal(coloring: map<ContractId, (nat, nat)>, order: seq<ContractId>): nat
    requires forall c | c in order :: c in coloring
  {
    if order == [] then 0
    else ColoredTotal(coloring, order[..|order| - 1]) + coloring[order[|order| - 1]].1
  }

  lemma {:induction false} ColoredTotalIsSum(env: Env, descriptors: seq<Txid>, coloring: map<ContractId, (nat, nat)>,
                                             order: seq<ContractId>)
    requires forall c | c in order :: c in coloring && coloring[c].1 == SumOf(env, descriptors, c)
    ensures ColoredTotal(coloring, order) == SumOver(env, descriptors, order)
  {
    if order != [] {
      assert order[|order| - 1] in order;
      ColoredTotalIsSum(env, descriptors, coloring, order[..|order| - 1]);
    }
  }

  /** Everything a descriptor list transferred, of any contract. */
  function Everything(env: Env, descriptors: seq<Txid>): nat {
    if descriptors == [] then 0
    else
      var k := |descriptors| - 1;
      Everything(env, descriptors[..k])
      + if descriptors[k] in env.transfers then env.transfers[descriptors[k]].amount else 0
  }

  lemma {:induction false} SumOfAllIsEverything(env: Env, descriptors: seq<Txid>)
    ensures SumOfAll(env, descriptors) == Everything(env, descriptors)
  {
    if descriptors != [] { SumOfAllIsEverything(env, descriptors[..|descriptors| - 1]); }
  }

  lemma SweepsColors(tx: SweepTx, env: Env, descriptors: seq<Txid>, outputs: seq<TxOut>)
    requires tx.ColoredTx? && Sweeps(tx, env, descriptors, outputs)
    ensures var order := FirstSeen(env, descriptors);
            && (forall c :: c in tx.coloring <==> c in order)
            && |tx.txouts| == |outputs| + |order| && outputs <= tx.txouts
            && (forall v | 0 <= v < |order| :: tx.coloring[order[v]] == (v, SumOf(env, descriptors, order[v])))
            && forall o | |outputs| <= o < |tx.txouts| :: tx.txouts[o].valueSat == 546
  {
    var assets: AssetMap :| Groups(assets, tx.txouts, env, descriptors, outputs) && tx.coloring == Coloring(assets);
    var order := FirstSeen(env, descriptors);
    forall o | |outputs| <= o < |tx.txouts| ensures tx.txouts[o].valueSat == 546 {
      assert tx.txouts[|outputs| + (o - |outputs|)] == TxOut(546, assets[order[o - |outputs|]].recipient);
    }
  }

  /**
   * A coloured transaction carries exactly the contracts of which some descriptor transferred
   * something, each with everything the descriptors transferred of it.
   */
  lemma ColoredAsTransferred(tx: SweepTx, env: Env, descriptors: seq<Txid>, outputs: seq<TxOut>, c: ContractId)
    requires tx.ColoredTx? && Sweeps(tx, env, descriptors, outputs)
    ensures c in tx.coloring <==> exists i: nat | i < |descriptors| :: TransfersAt(env, descriptors, i, c)
    ensures c in tx.coloring ==> tx.coloring[c].1 == TotalTransferred(env, descriptors, c)
  {
    var order := FirstSeen(env, descriptors);
    SweepsColors(tx, env, descriptors, outputs);
    SeenSomewhere(env, descriptors, c);
    SumIsTotalTransferred(env, descriptors, c);
    if c in tx.coloring {
      var v :| 0 <= v < |order| && order[v] == c;
    }
  }

  /**
   * The contracts are indexed from 0 without a gap, have one output of 546 sat each behind
   * the outputs asked for, and carry everything the descriptors transferred together.
   */
  lemma ColoredCompletely(tx: SweepTx, env: Env, descriptors: seq<Txid>, outputs: seq<TxOut>)
    returns (order: seq<ContractId>)
    requires tx.ColoredTx? && Sweeps(tx, env, descriptors, outputs)
    ensures forall c :: c in order <==> c in tx.coloring
    ensures forall v | 0 <= v < |order| :: tx.coloring[order[v]].0 == v
    ensures |tx.txouts| == |outputs| + |order| && outputs <= tx.txouts
    ensures forall o | |outputs| <= o < |tx.txouts| :: tx.txouts[o].valueSat == 546
    ensures ColoredTotal(tx.coloring, order) == Everything(env, descriptors)
  {
    order := FirstSeen(env, descriptors);
    SweepsColors(tx, env, descriptors, outputs);
    forall c | c in order ensures tx.coloring[c].1 == SumOf(env, descriptors, c) {
      var v :| 0 <= v < |order| && order[v] == c;
    }
    ColoredTotalIsSum(env, descriptors, tx.coloring, order);
    NothingLostInGrouping(env, descriptors);
    SumOfAllIsEverything(env, descriptors);
  }

  /** The indices follow the first occurrence: a contract with a smaller index was transferred before. */
  lemma ColoredByFirstOccurrence(tx: SweepTx, env: Env, descriptors: seq<Txid>, outputs: seq<TxOut>,
                                 c: ContractId, d: ContractId, i: nat)
    requires tx.ColoredTx? && Sweeps(tx, env, descriptors, outputs)
    requires c in tx.coloring && d in tx.coloring && tx.coloring[c].0 < tx.coloring[d].0
    requires i < |descriptors| && TransfersAt(env, descriptors, i, d)
    ensures exists j: nat | j < i :: TransfersAt(env, descriptors, j, c)
  {
    var order := FirstSeen(env, descriptors);
    SweepsColors(tx, env, descriptors, outputs);
    var v :| 0 <= v < |order| && order[v] == c;
    var w :| 0 <= w < |order| && order[w] == d;
    SeenInOrder(env, descriptors, v, w, i);
  }
}
