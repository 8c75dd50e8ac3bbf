/** A swap offer: what the maker gets (from) and what the maker gives (to). */
module SwapOffer {
  import opened Wrappers
  import opened Types

  /** An absent asset stands for BTC, in msat. */
  datatype SwapInfo = SwapInfo(
    qtyFrom: u64, qtyTo: u64,
    fromAsset: Option<ContractId>, toAsset: Option<ContractId>,
    expiry: u64)
  {
    predicate SameAsset() { fromAsset == toAsset }
    predicate IsFromBtc() { fromAsset.None? }
    predicate IsFromAsset() { fromAsset.Some? }
    predicate IsToBtc() { toAsset.None? }
    predicate IsToAsset() { toAsset.Some? }
    predicate IsAssetAsset() { IsFromAsset() && IsToAsset() }

    /** What the parser of swap strings accepts. */
    predicate Acceptable() {
      qtyFrom > 0 && qtyTo > 0 && expiry > 0 && !SameAsset()
    }
  }
}
