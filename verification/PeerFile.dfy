/** The file of channel peers: one `pubkey@address` line per peer. */
module PeerFiles {
  import opened Wrappers
  import opened Text
  import opened Hex

  type Address = nat

  /** A compressed public key. */
  type Key = k: seq<byte> | |k| == 33 witness seq(33, _ => 0)

  /** Address texts and key validity, which belong to other crates. */
  datatype PeerText = PeerText(
    show: Address -> string, resolve: string -> Option<Address>, validKey: Key -> bool)

  /** Address texts resolve to the address, hold no separator or line feed and do not end in a space. */
  ghost predicate Lawful(pt: PeerText) {
    forall a: Address :: pt.resolve(pt.show(a)) == Some(a) && IsAddressText(pt.show(a))
  }

  predicate IsAddressText(s: string) {
    s != "" && '@' !in s && '\n' !in s && !IsSpace(s[|s| - 1])
  }

  datatype PeerError = InvalidAddress | InvalidPubkey | MissingAddress

  function ParsedKey(pt: PeerText, hex: string): Option<Key> {
    if |hex| != 33 * 2 || Decoded(hex).None? then None
    else if pt.validKey(Decoded(hex).value) then Some(Decoded(hex).value) else None
  }

  /** A key and, if there is an `@`, the address after it. */
  function ParsedPeerInfo(pt: PeerText, s: string): Result<(Key, Option<Address>), PeerError> {
    var parts := Split(s, '@');
    var address := if |parts| > 1 then pt.resolve(parts[1]) else None;
    if |parts| > 1 && address.None? then Err(InvalidAddress)
    else
      match ParsedKey(pt, parts[0])
      case None => Err(InvalidPubkey)
      case Some(key) => Ok((key, address))
  }

  /** The trimmed lines that do not start with a text. */
  function Kept(lines: seq<string>, start: string): seq<string> {
    if lines == [] then []
    else if start <= Trim(lines[0]) then Kept(lines[1..], start)
    else [Trim(lines[0])] + Kept(lines[1..], start)
  }

  function LineOf(pt: PeerText, key: Key, address: Address): string {
    Encoded(key) + "@" + pt.show(address)
  }

  /** The map of a list of lines, each inserted in turn. */
  function ReadLines(pt: PeerText, lines: seq<string>): Result<map<Key, Address>, PeerError> {
    if lines == [] then Ok(map[])
    else
      var k := |lines| - 1;
      match ReadLines(pt, lines[..k])
      case Err(e) => Err(e)
      case Ok(peers) =>
        match ParsedPeerInfo(pt, lines[k])
        case Err(e) => Err(e)
        case Ok((key, address)) => if address.None? then Err(MissingAddress) else Ok(peers[key := address.value])
  }

  class PeerFile {
    const pt: PeerText
    var content: Option<string>

    constructor (pt: PeerText)
      ensures content == None && this.pt == pt
    {
      this.pt, content := pt, None;
    }

    method Persist(key: Key, address: Address)
      modifies this
      ensures content == Some(Persisted(pt, old(content), key, address))
    {
      if content.Some? {
        var updated := Join(Kept(Lines(content.value), Encoded(key)), '\n');
        updated := updated + (if updated == "" then "" else "\n") + LineOf(pt, key, address);
        content := Some(updated);
      } else {
        content := Some(LineOf(pt, key, address));
      }
    }

    method Delete(keyText: string)
      modifies this
      ensures content == Deleted(old(content), keyText)
    {
      if content.Some? {
        content := Some(Join(Kept(Lines(content.value), keyText), '\n'));
      }
    }

    method ReadPeers() returns (r: Result<map<Key, Address>, PeerError>)
      ensures r == ReadLines(pt, if content.None? then [] else Lines(content.value))
    {
      var peers: map<Key, Address> := map[];
      if content.None? {
        return Ok(peers);
      }
      var lines := Lines(content.value);
      var i := 0;
      while i < |lines|
        invariant 0 <= i <= |lines| && ReadLines(pt, lines[..i]) == Ok(peers)
      {
        assert lines[..i + 1][..i] == lines[..i];
        var parsed := ParsedPeerInfo(pt, lines[i]);
        if parsed.Err? {
          ErrorStays(pt, lines, i + 1);
          return Err(parsed.error);
        }
        if parsed.value.1.None? {
          ErrorStays(pt, lines, i + 1);
          return Err(MissingAddress);
        }
        peers := peers[parsed.value.0 := parsed.value.1.value];
        i := i + 1;
      }
      assert lines[..|lines|] == lines;
      return Ok(peers);
    }
  }

  function Persisted(pt: PeerText, content: Option<string>, key: Key, address: Address): string {
    match content
    case None => LineOf(pt, key, address)
    case Some(text) =>
      var kept := Join(Kept(Lines(text), Encoded(key)), '\n');
      kept + (if kept == "" then "" else "\n") + LineOf(pt, key, address)
  }

  function Deleted(content: Option<string>, keyText: string): Option<string> {
    match content
    case None => None
    case Some(text) => Some(Join(Kept(Lines(text), keyText), '\n'))
  }

  lemma {:induction false} ErrorStays(pt: PeerText, lines: seq<string>, i: nat)
    requires i <= |lines| && ReadLines(pt, lines[..i]).Err?
    ensures ReadLines(pt, lines) == ReadLines(pt, lines[..i])
    decreases |lines|
  {
    if i == |lines| {
      assert lines[..i] == lines;
    } else {
      assert lines[..|lines| - 1][..i] == lines[..i];
      ErrorStays(pt, lines[..|lines| - 1], i);
    }
  }

  // The map the file stands for.

  datatype Entry = Entry(key: Key, address: Address)

  function LinesOf(pt: PeerText, entries: seq<Entry>): seq<string> {
    if entries == [] then [] else [LineOf(pt, entries[0].key, entries[0].address)] + LinesOf(pt, entries[1..])
  }

  function MapOf(entries: seq<Entry>): map<Key, Address> {
    if entries == [] then map[]
    else MapOf(entries[..|entries| - 1])[entries[|entries| - 1].key := entries[|entries| - 1].address]
  }

  function Without(entries: seq<Entry>, key: Key): seq<Entry> {
    if entries == [] then []
    else if entries[0].key == key then Without(entries[1..], key)
    else [entries[0]] + Without(entries[1..], key)
  }

  ghost predicate Distinct(entries: seq<Entry>) {
    forall i, j | 0 <= i < j < |entries| :: entries[i].key != entries[j].key
  }

  /** The file holds one line per entry, with valid and distinct keys, and nothing else. */
  ghost predicate Holds(pt: PeerText, content: Option<string>, entries: seq<Entry>) {
    && Distinct(entries)
    && (forall i | 0 <= i < |entries| :: pt.validKey(entries[i].key))
    && match content
       case None => entries == []
       case Some(text) => text == Join(LinesOf(pt, entries), '\n')
  }

  /** A line is plain, trims to itself and starts with the text of its own key only. */
  lemma LineReads(pt: PeerText, key: Key, address: Address, other: Key)
    requires Lawful(pt)
    ensures var line := LineOf(pt, key, address);
            IsPlainLine(line) && Trim(line) == line && (Encoded(other) <= line <==> key == other)
  {
    var line := LineOf(pt, key, address);
    var text := pt.show(address);
    assert IsAddressText(text);
    assert line[0] == Encoded(key)[0] && Encoded(key)[0] in Encoded(key);
    assert line[|line| - 1] == text[|text| - 1];
    assert '\n' !in line;
    TrimKeeps(line);
    assert line[..66] == Encoded(key);
    DecodedEncoded(key);
    DecodedEncoded(other);
    if Encoded(other) <= line { assert Encoded(other) == line[..66]; }
  }

  lemma LineParses(pt: PeerText, key: Key, address: Address)
    requires Lawful(pt) && pt.validKey(key)
    ensures ParsedPeerInfo(pt, LineOf(pt, key, address)) == Ok((key, Some(address)))
  {
    var parts := [Encoded(key), pt.show(address)];
    assert IsAddressText(pt.show(address));
    SplitJoin(parts, '@');
    DecodedEncoded(key);
  }

  lemma {:induction false} PlainLines(pt: PeerText, entries: seq<Entry>)
    requires Lawful(pt)
    ensures |LinesOf(pt, entries)| == |entries|
    ensures forall l | l in LinesOf(pt, entries) :: IsPlainLine(l)
  {
    if entries != [] {
      LineReads(pt, entries[0].key, entries[0].address, entries[0].key);
      PlainLines(pt, entries[1..]);
    }
  }

  lemma {:induction false} KeptLines(pt: PeerText, entries: seq<Entry>, key: Key)
    requires Lawful(pt)
    ensures Kept(LinesOf(pt, entries), Encoded(key)) == LinesOf(pt, Without(entries, key))
  {
    if entries != [] {
      LineReads(pt, entries[0].key, entries[0].address, key);
      KeptLines(pt, entries[1..], key);
      assert LinesOf(pt, entries)[1..] == LinesOf(pt, entries[1..]);
    }
  }

  lemma {:induction false} LinesOfAppend(pt: PeerText, entries: seq<Entry>, e: Entry)
    ensures LinesOf(pt, entries + [e]) == LinesOf(pt, entries) + [LineOf(pt, e.key, e.address)]
  {
    if entries != [] {
      LinesOfAppend(pt, entries[1..], e);
      assert (entries + [e])[1..] == entries[1..] + [e];
    }
  }

  lemma {:induction false} WithoutKeeps(entries: seq<Entry>, key: Key, e: Entry)
    ensures e in Without(entries, key) <==> e in entries && e.key != key
  {
    if entries != [] { WithoutKeeps(entries[1..], key, e); }
  }

  lemma {:induction false} WithoutDistinct(entries: seq<Entry>, key: Key)
    requires Distinct(entries)
    ensures Distinct(Without(entries, key))
  {
    if entries != [] {
      WithoutDistinct(entries[1..], key);
      var rest := Without(entries[1..], key);
      forall j | 0 <= j < |rest| ensures rest[j].key != entries[0].key {
        WithoutKeeps(entries[1..], key, rest[j]);
        var m :| 0 <= m < |entries[1..]| && entries[1..][m] == rest[j];
        assert entries[m + 1].key != entries[0].key;
      }
    }
  }

  /** With distinct keys the map has exactly the entries. */
  lemma {:induction false} MapOfEntries(entries: seq<Entry>, key: Key)
    requires Distinct(entries)
    ensures key in MapOf(entries) <==> exists a :: Entry(key, a) in entries
    ensures key in MapOf(entries) ==> Entry(key, MapOf(entries)[key]) in entries
    ensures |MapOf(entries)| == |entries|
    decreases |entries|
  {
    if entries != [] {
      var k := |entries| - 1;
      var last := entries[k];
      MapOfEntries(entries[..k], key);
      MapOfEntries(entries[..k], last.key);
      assert forall e :: e in entries <==> e in entries[..k] || e == last;
      if key == last.key { assert Entry(key, last.address) in entries; }
      assert forall a :: Entry(last.key, a) !in entries[..k];
    }
  }

  lemma MapOfWithout(entries: seq<Entry>, key: Key)
    requires Distinct(entries)
    ensures MapOf(Without(entries, key)) == MapOf(entries) - {key}
  {
    WithoutDistinct(entries, key);
    forall k: Key
      ensures k in MapOf(Without(entries, key)) <==> k in MapOf(entries) && k != key
      ensures k in MapOf(Without(entries, key)) ==> MapOf(Without(entries, key))[k] == MapOf(entries)[k]
    {
      MapOfEntries(Without(entries, key), k);
      MapOfEntries(entries, k);
      if k in MapOf(Without(entries, key)) {
        WithoutKeeps(entries, key, Entry(k, MapOf(Without(entries, key))[k]));
      }
      if k in MapOf(entries) {
        WithoutKeeps(entries, key, Entry(k, MapOf(entries)[k]));
      }
    }
  }

  lemma {:induction false} ReadEntries(pt: PeerText, entries: seq<Entry>)
    requires Lawful(pt) && forall i | 0 <= i < |entries| :: pt.validKey(entries[i].key)
    ensures ReadLines(pt, LinesOf(pt, entries)) == Ok(MapOf(entries))
    decreases |entries|
  {
    if entries != [] {
      var k := |entries| - 1;
      ReadEntries(pt, entries[..k]);
      assert entries == entries[..k] + [entries[k]];
      LinesOfAppend(pt, entries[..k], entries[k]);
      var lines := LinesOf(pt, entries);
      assert lines[..|lines| - 1] == LinesOf(pt, entries[..k]);
      LineParses(pt, entries[k].key, entries[k].address);
    }
  }

  /** Reading a file returns the map it holds, one line per key. */
  lemma ReadHeld(pt: PeerText, content: Option<string>, entries: seq<Entry>)
    requires Lawful(pt) && Holds(pt, content, entries)
    ensures var lines := if content.None? then [] else Lines(content.value);
            && lines == LinesOf(pt, entries) && |lines| == |MapOf(entries)|
            && ReadLines(pt, lines) == Ok(MapOf(entries))
  {
    PlainLines(pt, entries);
    LinesOfJoin(LinesOf(pt, entries));
    ReadEntries(pt, entries);
    if entries != [] { MapOfEntries(entries, entries[0].key); }
  }

  lemma DeleteHeld(pt: PeerText, content: Option<string>, entries: seq<Entry>, key: Key)
    requires Lawful(pt) && Holds(pt, content, entries)
    ensures Holds(pt, Deleted(content, Encoded(key)), Without(entries, key))
    ensures MapOf(Without(entries, key)) == MapOf(entries) - {key}
  {
    ReadHeld(pt, content, entries);
    KeptLines(pt, entries, key);
    MapOfWithout(entries, key);
    WithoutDistinct(entries, key);
    forall i | 0 <= i < |Without(entries, key)| ensures pt.validKey(Without(entries, key)[i].key) {
      WithoutKeeps(entries, key, Without(entries, key)[i]);
    }
  }

  /**
   * A text a caller may name a key with: its 66 digits in either case, or the digits of a
   * longer serialisation.
   */
  predicate Names(text: string, key: Key) {
    AllDigits(text) && |text| >= 33 * 2 && (|text| == 33 * 2 ==> Decoded(text) == Some(key))
  }

  /** A line starts with a text that names a key only if the text is the line's own key as printed. */
  lemma LineStartsWith(pt: PeerText, key: Key, address: Address, text: string, named: Key)
    requires Names(text, named)
    ensures text <= LineOf(pt, key, address) <==> text == Encoded(named) && key == named
  {
    var line := LineOf(pt, key, address);
    assert line[..66] == Encoded(key) && line[66] == '@';
    DecodedEncoded(key);
    DecodedEncoded(named);
    if |text| > 66 {
      assert Value(text[66]).Some? && Value('@').None?;
    } else if text <= line {
      assert text == line[..66];
    }
  }

  lemma {:induction false} OtherTextKeepsLines(pt: PeerText, entries: seq<Entry>, text: string, key: Key)
    requires Lawful(pt) && Names(text, key) && text != Encoded(key)
    ensures Kept(LinesOf(pt, entries), text) == LinesOf(pt, entries)
  {
    if entries != [] {
      LineReads(pt, entries[0].key, entries[0].address, key);
      LineStartsWith(pt, entries[0].key, entries[0].address, text, key);
      OtherTextKeepsLines(pt, entries[1..], text, key);
      assert LinesOf(pt, entries)[1..] == LinesOf(pt, entries[1..]);
    }
  }

  /**
   * Deleting by the text a caller gave: the entry of the key it names goes if and only if the
   * text is the key as the file prints it, so not for upper-case digits or a longer
   * serialisation; no other entry ever goes.
   */
  lemma DeleteByText(pt: PeerText, content: Option<string>, entries: seq<Entry>, text: string, key: Key)
    requires Lawful(pt) && Holds(pt, content, entries) && Names(text, key)
    ensures Holds(pt, Deleted(content, text), if text == Encoded(key) then Without(entries, key) else entries)
    ensures MapOf(Without(entries, key)) == MapOf(entries) - {key}
  {
    DeleteHeld(pt, content, entries, key);
    if text != Encoded(key) && content.Some? {
      PlainLines(pt, entries);
      LinesOfJoin(LinesOf(pt, entries));
      OtherTextKeepsLines(pt, entries, text, key);
    }
  }

  /** Keys stay valid and distinct when a new entry replaces the one with its key. */
  lemma EntriesReplaced(pt: PeerText, entries: seq<Entry>, e: Entry)
    requires Distinct(entries) && pt.validKey(e.key) && forall i | 0 <= i < |entries| :: pt.validKey(entries[i].key)
    ensures var entries' := Without(entries, e.key) + [e];
            && Distinct(entries') && (forall i | 0 <= i < |entries'| :: pt.validKey(entries'[i].key))
            && MapOf(entries') == MapOf(entries)[e.key := e.address]
  {
    var rest := Without(entries, e.key);
    WithoutDistinct(entries, e.key);
    MapOfWithout(entries, e.key);
    forall i | 0 <= i < |rest| ensures rest[i].key != e.key && pt.validKey(rest[i].key) {
      WithoutKeeps(entries, e.key, rest[i]);
    }
    assert (rest + [e])[..|rest|] == rest;
  }

  /** The text after persisting: the other lines and the new one. */
  lemma PersistedText(pt: PeerText, entries: seq<Entry>, e: Entry)
    requires Lawful(pt)
    ensures Persisted(pt, Some(Join(LinesOf(pt, entries), '\n')), e.key, e.address)
            == Join(LinesOf(pt, Without(entries, e.key) + [e]), '\n')
  {
    var rest := Without(entries, e.key);
    PlainLines(pt, entries);
    LinesOfJoin(LinesOf(pt, entries));
    KeptLines(pt, entries, e.key);
    PlainLines(pt, rest);
    LinesOfAppend(pt, rest, e);
    JoinIsEmpty(LinesOf(pt, rest), '\n');
    JoinAppend(LinesOf(pt, rest), LineOf(pt, e.key, e.address), '\n');
    assert "" + "" + LineOf(pt, e.key, e.address) == LineOf(pt, e.key, e.address);
  }

  lemma PersistHeld(pt: PeerText, content: Option<string>, entries: seq<Entry>, e: Entry)
    requires Lawful(pt) && Holds(pt, content, entries) && pt.validKey(e.key)
    ensures var entries' := Without(entries, e.key) + [e];
            && Holds(pt, Some(Persisted(pt, content, e.key, e.address)), entries')
            && MapOf(entries') == MapOf(entries)[e.key := e.address]
  {
    EntriesReplaced(pt, entries, e);
    if content.Some? { PersistedText(pt, entries, e); }
  }

  datatype Operation = Persisting(key: Key, address: Address) | Deleting(text: string, key: Key)

  /** Keys that are persisted are valid; keys to delete are named by some text. */
  predicate Sensible(pt: PeerText, op: Operation) {
    match op
    case Persisting(key, _) => pt.validKey(key)
    case Deleting(text, key) => Names(text, key)
  }

  function OnFile(pt: PeerText, content: Option<string>, ops: seq<Operation>): Option<string> {
    if ops == [] then content
    else
      var before := OnFile(pt, content, ops[..|ops| - 1]);
      match ops[|ops| - 1]
      case Persisting(key, address) => Some(Persisted(pt, before, key, address))
      case Deleting(text, _) => Deleted(before, text)
  }

  function OnMap(peers: map<Key, Address>, ops: seq<Operation>): map<Key, Address> {
    if ops == [] then peers
    else
      var before := OnMap(peers, ops[..|ops| - 1]);
      match ops[|ops| - 1]
      case Persisting(key, address) => before[key := address]
      case Deleting(text, key) => if text == Encoded(key) then before - {key} else before
  }

  lemma {:induction false} OperationsHeld(pt: PeerText, ops: seq<Operation>) returns (entries: seq<Entry>)
    requires Lawful(pt) && forall op | op in ops :: Sensible(pt, op)
    ensures Holds(pt, OnFile(pt, None, ops), entries) && MapOf(entries) == OnMap(map[], ops)
  {
    if ops == [] {
      entries := [];
    } else {
      var op := ops[|ops| - 1];
      assert Sensible(pt, op);
      var before := OperationsHeld(pt, ops[..|ops| - 1]);
      var content := OnFile(pt, None, ops[..|ops| - 1]);
      match op {
        case Persisting(key, address) =>
          PersistHeld(pt, content, before, Entry(key, address));
          entries := Without(before, key) + [Entry(key, address)];
        case Deleting(text, key) =>
          DeleteByText(pt, content, before, text, key);
          entries := if text == Encoded(key) then Without(before, key) else before;
      }
    }
  }

  /**
   * Any sequence of persist and delete operations, from no file on, refines the same
   * sequence of map updates and removals, where deleting by a text that is not the key as
   * printed removes nothing: the file reads as exactly that map, with one line per key and
   * no other line.
   */
  lemma FileRefinesMap(pt: PeerText, ops: seq<Operation>)
    requires Lawful(pt) && forall op | op in ops :: Sensible(pt, op)
    ensures var content := OnFile(pt, None, ops);
            var lines := if content.None? then [] else Lines(content.value);
            && ReadLines(pt, lines) == Ok(OnMap(map[], ops))
            && |lines| == |OnMap(map[], ops)| && "" !in lines
  {
    var entries := OperationsHeld(pt, ops);
    ReadHeld(pt, OnFile(pt, None, ops), entries);
    PlainLines(pt, entries);
  }

  // Any file, also one that was written by hand.

  lemma {:induction false} KeptOfConcat(a: seq<string>, b: seq<string>, start: string)
    ensures Kept(a + b, start) == Kept(a, start) + Kept(b, start)
  {
    if a == [] {
      assert a + b == b;
    } else {
      KeptOfConcat(a[1..], b, start);
      assert (a + b)[1..] == a[1..] + b;
    }
  }

  /** Lines that start with the text, once trimmed, go; the others stay, trimmed and in order. */
  lemma KeptIs(before: seq<string>, line: string, after: seq<string>, start: string)
    ensures Kept(before + [line] + after, start)
            == Kept(before, start) + (if start <= Trim(line) then [] else [Trim(line)]) + Kept(after, start)
  {
    KeptOfConcat(before + [line], after, start);
    KeptOfConcat(before, [line], start);
    assert [line][1..] == [];
  }

  /** What the first part of a text, and the second if there is one, say of a peer; an address is looked at first. */
  lemma ParsedPeerIs(pt: PeerText, key: string, address: string, more: string)
    requires '@' !in key && '@' !in address
    ensures ParsedPeerInfo(pt, key)
            == if ParsedKey(pt, key).None? then Err(InvalidPubkey) else Ok((ParsedKey(pt, key).value, None))
    ensures more == "" || more[0] == '@' ==>
              ParsedPeerInfo(pt, key + "@" + address + more)
              == if pt.resolve(address).None? then Err(InvalidAddress)
                 else if ParsedKey(pt, key).None? then Err(InvalidPubkey)
                 else Ok((ParsedKey(pt, key).value, Some(pt.resolve(address).value)))
  {
    SplitOfPart(key, '@');
    if more == "" || more[0] == '@' {
      var rest := address + more;
      assert key + "@" + address + more == key + ['@'] + rest;
      SplitAtSeparator(key, rest, '@');
      SplitOfPart(address, '@');
      if more == "" {
        assert rest == address;
      } else {
        assert rest == address + ['@'] + more[1..];
        SplitAtSeparator(address, more[1..], '@');
      }
    }
  }

  /** A key is 66 digits of either case that decode to a valid one. */
  lemma ParsedKeyIff(pt: PeerText, text: string, key: Key)
    ensures ParsedKey(pt, text) == Some(key)
            <==> |text| == 66 && pt.validKey(key) && forall i | 0 <= i < 66 :: Encoded(key)[i] == Lower(text[i])
  {
    if ParsedKey(pt, text) == Some(key) {
      EncodedDecoded(text);
    }
    if |text| == 66 && forall i | 0 <= i < 66 :: Encoded(key)[i] == Lower(text[i]) {
      forall i | 0 <= i < |text| ensures Value(text[i]).Some? {
        assert Encoded(key)[i] in Encoded(key);
      }
      EncodedDecoded(text);
      assert Encoded(Decoded(text).value) == Encoded(key);
      DecodedEncoded(key);
      DecodedEncoded(Decoded(text).value);
    }
  }

  /** A line that names a key with an address. */
  predicate NamesPeer(pt: PeerText, line: string) {
    ParsedPeerInfo(pt, line).Ok? && ParsedPeerInfo(pt, line).value.1.Some?
  }

  lemma ReadsStep(pt: PeerText, lines: seq<string>)
    requires lines != []
    ensures var k := |lines| - 1;
            var (before, read) := (ReadLines(pt, lines[..k]), ReadLines(pt, lines));
            && (read.Ok? <==> before.Ok? && NamesPeer(pt, lines[k]))
            && (read.Ok? ==>
                  var (key, address) := ParsedPeerInfo(pt, lines[k]).value;
                  read.value == before.value[key := address.value])
  {
  }

  /** A file reads as a map exactly if each line names a key with an address. */
  lemma {:induction false} ReadsIff(pt: PeerText, lines: seq<string>)
    ensures ReadLines(pt, lines).Ok? <==> forall l | l in lines :: NamesPeer(pt, l)
  {
    if lines != [] {
      var k := |lines| - 1;
      ReadsIff(pt, lines[..k]);
      ReadsStep(pt, lines);
      assert forall l :: l in lines <==> l in lines[..k] || l == lines[k];
    }
  }

  /** The line a key is read from: the last one that names it. */
  ghost predicate LastNames(pt: PeerText, lines: seq<string>, i: nat, key: Key, address: Address)
    requires i < |lines|
  {
    && ParsedPeerInfo(pt, lines[i]) == Ok((key, Some(address)))
    && forall j | i < j < |lines| :: !NamesKey(pt, lines[j], key)
  }

  predicate NamesKey(pt: PeerText, line: string, key: Key) {
    NamesPeer(pt, line) && ParsedPeerInfo(pt, line).value.0 == key
  }

  lemma LastNamesStays(pt: PeerText, lines: seq<string>, i: nat, key: Key, address: Address)
    requires lines != [] && i < |lines| - 1 && LastNames(pt, lines[..|lines| - 1], i, key, address)
    requires !NamesKey(pt, lines[|lines| - 1], key)
    ensures LastNames(pt, lines, i, key, address)
  {
    var k := |lines| - 1;
    forall j | i < j < |lines| ensures !NamesKey(pt, lines[j], key) {
      if j < k { assert lines[..k][j] == lines[j]; }
    }
  }

  /** A key is in the map exactly if some line names it, with the address of the last such line. */
  lemma {:induction false} ReadsLastLine(pt: PeerText, lines: seq<string>, key: Key)
    requires ReadLines(pt, lines).Ok?
    ensures var peers := ReadLines(pt, lines).value;
            if key in peers then exists i: nat | i < |lines| :: LastNames(pt, lines, i, key, peers[key])
            else forall l | l in lines :: !NamesKey(pt, l, key)
  {
    if lines != [] {
      var k := |lines| - 1;
      ReadsStep(pt, lines);
      ReadsLastLine(pt, lines[..k], key);
      var peers := ReadLines(pt, lines).value;
      if NamesKey(pt, lines[k], key) {
        assert LastNames(pt, lines, k, key, peers[key]);
      } else if key in peers {
        var i: nat :| i < k && LastNames(pt, lines[..k], i, key, peers[key]);
        LastNamesStays(pt, lines, i, key, peers[key]);
      } else {
        assert forall l :: l in lines <==> l in lines[..k] || l == lines[k];
      }
    }
  }

  /** A line that names none ends the reading with its own error, whatever follows. */
  lemma ReadErrorIs(pt: PeerText, lines: seq<string>, k: nat)
    requires k < |lines| && !NamesPeer(pt, lines[k]) && forall i | 0 <= i < k :: NamesPeer(pt, lines[i])
    ensures ReadLines(pt, lines)
            == Err(if ParsedPeerInfo(pt, lines[k]).Err? then ParsedPeerInfo(pt, lines[k]).error else MissingAddress)
  {
    ReadsIff(pt, lines[..k]);
    assert lines[..k + 1][..k] == lines[..k];
    ErrorStays(pt, lines, k + 1);
  }
}
