/** The swap string: how an offer and its payment hash travel from maker to taker. */
module SwapStrings {
  import opened Wrappers
  import opened Types
  import opened SwapOffer
  import Hex
  import Decimal
  import Text

  type HashBytes = h: seq<Hex.byte> | |h| == 32 witness seq(32, _ => 0)

  datatype SwapString = SwapString(info: SwapInfo, paymentHash: HashBytes)

  datatype ParseError = WrongNumberOfParts | UnableToParse | NotPositive | SameAssets

  /** Printing and parsing of contract ids, which belong to another crate. */
  datatype ContractText = ContractText(show: ContractId -> string, parse: string -> Option<ContractId>)

  /** Printed ids parse back, hold no separator and are never the word for BTC. */
  ghost predicate Lawful(ct: ContractText) {
    forall c: ContractId :: ct.parse(ct.show(c)) == Some(c) && '/' !in ct.show(c) && ct.show(c) != "btc"
  }

  function AssetText(ct: ContractText, asset: Option<ContractId>): string {
    match asset
    case None => "btc"
    case Some(c) => ct.show(c)
  }

  function ParsedAsset(ct: ContractText, text: string): Option<Option<ContractId>> {
    if text == "btc" then Some(None)
    else
      match ct.parse(text)
      case None => None
      case Some(c) => Some(Some(c))
  }

  function Parts(ct: ContractText, swap: SwapString): seq<string> {
    [Decimal.Printed(swap.info.qtyFrom), AssetText(ct, swap.info.fromAsset),
     Decimal.Printed(swap.info.qtyTo), AssetText(ct, swap.info.toAsset),
     Decimal.Printed(swap.info.expiry), Hex.Encoded(swap.paymentHash)]
  }

  function Display(ct: ContractText, swap: SwapString): string {
    Text.Join(Parts(ct, swap), '/')
  }

  function ParsedHash(text: string): Option<HashBytes> {
    match Hex.Decoded(text)
    case None => None
    case Some(bytes) => if |bytes| == 32 then Some(bytes) else None
  }

  /** Reads the six parts; quantities and expiry must be positive and the assets different. */
  function FromStr(ct: ContractText, s: string): (r: Result<SwapString, ParseError>)
    ensures r.Ok? ==> r.value.info.Acceptable()
  {
    var parts := Text.Split(s, '/');
    if |parts| != 6 then Err(WrongNumberOfParts) else FromParts(ct, parts)
  }

  function FromParts(ct: ContractText, parts: seq<string>): (r: Result<SwapString, ParseError>)
    requires |parts| == 6
    ensures r.Ok? ==> r.value.info.Acceptable()
    ensures r.Err? ==> r.error != WrongNumberOfParts
  {
    var qtyFrom := Decimal.ParsedU64(parts[0]);
    var fromAsset := ParsedAsset(ct, parts[1]);
    var qtyTo := Decimal.ParsedU64(parts[2]);
    var toAsset := ParsedAsset(ct, parts[3]);
    var expiry := Decimal.ParsedU64(parts[4]);
    var hash := ParsedHash(parts[5]);
    if qtyFrom.None? || fromAsset.None? || qtyTo.None? || toAsset.None? || expiry.None? || hash.None? then
      Err(UnableToParse)
    else if qtyFrom.value == 0 || qtyTo.value == 0 || expiry.value == 0 then Err(NotPositive)
    else
      var info := SwapInfo(qtyFrom.value, qtyTo.value, fromAsset.value, toAsset.value, expiry.value);
      if info.SameAsset() then Err(SameAssets) else Ok(SwapString(info, hash.value))
  }

  lemma NoSlashInParts(ct: ContractText, swap: SwapString)
    requires Lawful(ct)
    ensures forall p | p in Parts(ct, swap) :: '/' !in p
  {
    assert '/' !in AssetText(ct, swap.info.fromAsset);
    assert '/' !in AssetText(ct, swap.info.toAsset);
  }

  /** What parsing a printed swap gives, for every swap, acceptable or not. */
  lemma FromStrOfDisplay(ct: ContractText, swap: SwapString)
    requires Lawful(ct)
    ensures FromStr(ct, Display(ct, swap))
            == if swap.info.qtyFrom == 0 || swap.info.qtyTo == 0 || swap.info.expiry == 0 then Err(NotPositive)
               else if swap.info.SameAsset() then Err(SameAssets)
               else Ok(swap)
  {
    NoSlashInParts(ct, swap);
    Text.SplitJoin(Parts(ct, swap), '/');
    Decimal.ParsedPrinted(swap.info.qtyFrom);
    Decimal.ParsedPrinted(swap.info.qtyTo);
    Decimal.ParsedPrinted(swap.info.expiry);
    Hex.DecodedEncoded(swap.paymentHash);
    assert ParsedAsset(ct, AssetText(ct, swap.info.fromAsset)) == Some(swap.info.fromAsset);
    assert ParsedAsset(ct, AssetText(ct, swap.info.toAsset)) == Some(swap.info.toAsset);
  }

  /** The round trip holds exactly for acceptable offers. */
  lemma RoundTrip(ct: ContractText, swap: SwapString)
    requires Lawful(ct)
    ensures FromStr(ct, Display(ct, swap)) == Ok(swap) <==> swap.info.Acceptable()
  {
    FromStrOfDisplay(ct, swap);
  }

  /** Printing what any accepted string parsed to gives a string that parses to the same. */
  lemma ParsePrintParse(ct: ContractText, s: string)
    requires Lawful(ct) && FromStr(ct, s).Ok?
    ensures FromStr(ct, Display(ct, FromStr(ct, s).value)) == FromStr(ct, s)
  {
    FromStrOfDisplay(ct, FromStr(ct, s).value);
  }

  /** Different acceptable offers print differently. */
  lemma DisplayIsInjective(ct: ContractText, a: SwapString, b: SwapString)
    requires Lawful(ct) && a.info.Acceptable() && b.info.Acceptable()
    requires Display(ct, a) == Display(ct, b)
    ensures a == b
  {
    FromStrOfDisplay(ct, a);
    FromStrOfDisplay(ct, b);
  }

  /** A text of an asset: the word for BTC, or a contract id. */
  predicate NamesAsset(ct: ContractText, text: string, asset: Option<ContractId>) {
    if text == "btc" then asset == None else ct.parse(text).Some? && asset == Some(ct.parse(text).value)
  }

  predicate IsHexChar(c: char) {
    '0' <= c <= '9' || 'a' <= c <= 'f' || 'A' <= c <= 'F'
  }

  /** A text of a hash: 64 digits of either case, or one more that is dropped. */
  predicate NamesHash(text: string, hash: HashBytes) {
    && 64 <= |text| <= 65
    && (forall i | 0 <= i < |text| :: IsHexChar(text[i]))
    && (forall i | 0 <= i < 64 :: Hex.Encoded(hash)[i] == Hex.Lower(text[i]))
  }

  /** Six texts that spell an acceptable swap. */
  predicate Spells(ct: ContractText, parts: seq<string>, swap: SwapString) {
    && |parts| == 6
    && Decimal.ParsedU64(parts[0]) == Some(swap.info.qtyFrom) && swap.info.qtyFrom > 0
    && NamesAsset(ct, parts[1], swap.info.fromAsset)
    && Decimal.ParsedU64(parts[2]) == Some(swap.info.qtyTo) && swap.info.qtyTo > 0
    && NamesAsset(ct, parts[3], swap.info.toAsset)
    && Decimal.ParsedU64(parts[4]) == Some(swap.info.expiry) && swap.info.expiry > 0
    && NamesHash(parts[5], swap.paymentHash)
    && swap.info.fromAsset != swap.info.toAsset
  }

  lemma HashNamed(text: string)
    ensures Hex.Decoded(text).Some? && |Hex.Decoded(text).value| == 32
            <==> && 64 <= |text| <= 65
                 && forall i | 0 <= i < |text| :: IsHexChar(text[i])
    ensures Hex.Decoded(text).Some? && |Hex.Decoded(text).value| == 32 ==> NamesHash(text, Hex.Decoded(text).value)
  {
    forall i | 0 <= i < |text|
      ensures Hex.Value(text[i]).Some? <==> IsHexChar(text[i])
    {
      Hex.ValueIs(text[i], 0);
    }
    if Hex.Decoded(text).Some? { Hex.EncodedDecoded(text); }
  }

  /** A text names one hash. */
  lemma SameHash(text: string, a: HashBytes, b: HashBytes)
    requires NamesHash(text, a) && NamesHash(text, b)
    ensures a == b
  {
    assert Hex.Encoded(a) == Hex.Encoded(b) by {
      assert forall i | 0 <= i < 64 :: Hex.Encoded(a)[i] == Hex.Encoded(b)[i];
    }
    Hex.DecodedEncoded(a);
    Hex.DecodedEncoded(b);
  }

  lemma HashIff(text: string, hash: HashBytes)
    ensures NamesHash(text, hash) <==> ParsedHash(text) == Some(hash)
  {
    HashNamed(text);
    if NamesHash(text, hash) { SameHash(text, hash, Hex.Decoded(text).value); }
  }

  lemma PartsAccepted(ct: ContractText, parts: seq<string>, swap: SwapString)
    requires |parts| == 6
    ensures FromParts(ct, parts) == Ok(swap) <==> Spells(ct, parts, swap)
  {
    HashIff(parts[5], swap.paymentHash);
    assert NamesAsset(ct, parts[1], swap.info.fromAsset) <==> ParsedAsset(ct, parts[1]) == Some(swap.info.fromAsset);
    assert NamesAsset(ct, parts[3], swap.info.toAsset) <==> ParsedAsset(ct, parts[3]) == Some(swap.info.toAsset);
  }

  /**
   * A string is accepted as a swap exactly if it is six texts that spell it, with five
   * slashes between them and none in them.
   */
  lemma AcceptedIff(ct: ContractText, s: string, swap: SwapString)
    ensures FromStr(ct, s) == Ok(swap)
            <==> exists parts: seq<string> ::
                   && Spells(ct, parts, swap) && s == Text.Join(parts, '/') && forall p | p in parts :: '/' !in p
  {
    var parts := Text.Split(s, '/');
    Text.SplitCounts(s, '/');
    Text.JoinSplit(s, '/');
    if |parts| == 6 { PartsAccepted(ct, parts, swap); }
    if FromStr(ct, s) == Ok(swap) {
      assert Spells(ct, parts, swap);
    }
    if other: seq<string> :|
      Spells(ct, other, swap) && s == Text.Join(other, '/') && forall p | p in other :: '/' !in p
    {
      Text.SplitJoin(other, '/');
      assert other == parts;
    }
  }

  /** The number of slashes is looked at first. */
  lemma WrongPartsIff(ct: ContractText, s: string)
    ensures FromStr(ct, s) == Err(WrongNumberOfParts) <==> Text.Count(s, '/') != 5
  {
    Text.SplitCounts(s, '/');
  }

  /** Of six texts, one that names nothing makes the string unreadable, before quantities and assets are compared. */
  lemma UnreadableIff(ct: ContractText, parts: seq<string>)
    requires |parts| == 6
    ensures FromParts(ct, parts) == Err(UnableToParse)
            <==> || (exists i | i in {0, 2, 4} :: Decimal.ParsedU64(parts[i]).None?)
                 || (exists i | i in {1, 3} :: parts[i] != "btc" && ct.parse(parts[i]).None?)
                 || forall hash: HashBytes :: !NamesHash(parts[5], hash)
  {
    assert ParsedHash(parts[5]).None? <==> forall hash: HashBytes :: !NamesHash(parts[5], hash) by {
      forall hash: HashBytes ensures NamesHash(parts[5], hash) <==> ParsedHash(parts[5]) == Some(hash) {
        HashIff(parts[5], hash);
      }
    }
  }
}
