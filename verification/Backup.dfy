/**
 * The chunk framing of an encrypted backup. The cipher is abstract: sealing adds a 16-byte
 * tag (section 2.8 of RFC 8439) and opening inverts it for the same counter and last flag.
 */
module Backup {
  import opened Wrappers
  import opened Hex

  const BACKUP_BUFFER_LEN_ENCRYPT: nat := 239
  const BACKUP_BUFFER_LEN_DECRYPT: nat := BACKUP_BUFFER_LEN_ENCRYPT + 16

  /** The largest 32-bit counter is left for the last chunk. */
  const COUNTER_MAX: nat := 0xFFFF_FFFF

  type Bytes = seq<byte>

  datatype Aead = Aead(seal: (nat, bool, Bytes) -> Bytes, open: (nat, bool, Bytes) -> Option<Bytes>)

  ghost predicate Lawful(aead: Aead) {
    forall i: nat, last: bool, p: Bytes ::
      |aead.seal(i, last, p)| == |p| + 16 && aead.open(i, last, aead.seal(i, last, p)) == Some(p)
  }

  /** A file that is read from; reads fill the buffer while data is left. */
  class Source {
    const data: Bytes
    var pos: nat

    ghost predicate Valid()
      reads this
    {
      pos <= |data|
    }

    constructor (data: Bytes)
      ensures Valid() && this.data == data && pos == 0
    {
      this.data, pos := data, 0;
    }

    method Read(buffer: array<byte>) returns (n: nat)
      requires Valid()
      modifies this, buffer
      ensures Valid() && pos == old(pos) + n
      ensures n == if buffer.Length <= |data| - old(pos) then buffer.Length else |data| - old(pos)
      ensures n <= buffer.Length && buffer[..n] == data[old(pos)..pos]
    {
      n := if buffer.Length <= |data| - pos then buffer.Length else |data| - pos;
      var i := 0;
      while i < n
        invariant 0 <= i <= n && buffer[..i] == data[pos..pos + i]
        modifies buffer
      {
        buffer[i] := data[pos + i];
        i := i + 1;
      }
      pos := pos + n;
    }
  }

  class Sink {
    var data: Bytes

    constructor ()
      ensures data == []
    {
      data := [];
    }

    method WriteAll(bytes: Bytes)
      modifies this
      ensures data == old(data) + bytes
    {
      data := data + bytes;
    }
  }

  /** The ciphertext of a plaintext from counter i on. */
  function Encrypted(aead: Aead, plain: Bytes, i: nat): Bytes {
    if |plain| < BACKUP_BUFFER_LEN_ENCRYPT then aead.seal(i, true, plain)
    else
      aead.seal(i, false, plain[..BACKUP_BUFFER_LEN_ENCRYPT])
      + Encrypted(aead, plain[BACKUP_BUFFER_LEN_ENCRYPT..], i + 1)
  }

  /** What decryption makes of any bytes from counter i on; nothing if a chunk does not open. */
  function Decrypted(aead: Aead, cipher: Bytes, i: nat): Option<Bytes> {
    if |cipher| >= BACKUP_BUFFER_LEN_DECRYPT then
      if i == COUNTER_MAX then None
      else
        match (aead.open(i, false, cipher[..BACKUP_BUFFER_LEN_DECRYPT]),
               Decrypted(aead, cipher[BACKUP_BUFFER_LEN_DECRYPT..], i + 1))
        case (Some(chunk), Some(rest)) => Some(chunk + rest)
        case _ => None
    else if cipher == [] then Some([])
    else aead.open(i, true, cipher)
  }

  /** Whether decryption ends by reading nothing. */
  predicate EndsOnEmptyRead(cipher: Bytes) {
    if |cipher| >= BACKUP_BUFFER_LEN_DECRYPT then EndsOnEmptyRead(cipher[BACKUP_BUFFER_LEN_DECRYPT..]) else cipher == []
  }

  /** Fails exactly when a full chunk would need the counter reserved for the last one. */
  method EncryptFile(aead: Aead, source: Source, destination: Sink) returns (ok: bool)
    requires source.Valid() && source.pos == 0 && destination.data == []
    modifies source, destination
    ensures ok <==> |source.data| / BACKUP_BUFFER_LEN_ENCRYPT <= COUNTER_MAX
    ensures ok ==> destination.data == Encrypted(aead, source.data, 0)
  {
    var buffer := new byte[BACKUP_BUFFER_LEN_ENCRYPT];
    var position := 0;
    while true
      invariant source.Valid()
      invariant destination.data + Encrypted(aead, source.data[source.pos..], position)
                == Encrypted(aead, source.data, 0)
      invariant source.pos == position * BACKUP_BUFFER_LEN_ENCRYPT && position <= COUNTER_MAX
      decreases |source.data| - source.pos
    {
      ghost var left := source.data[source.pos..];
      var readCount := source.Read(buffer);
      assert source.data[source.pos..] == left[readCount..];
      assert buffer[..readCount] == left[..readCount];
      if readCount == BACKUP_BUFFER_LEN_ENCRYPT {
        if position == COUNTER_MAX {
          return false;
        }
        assert buffer[..] == buffer[..readCount];
        var ciphertext := aead.seal(position, false, buffer[..]);
        destination.WriteAll(ciphertext);
        position := position + 1;
      } else {
        assert left[..readCount] == left;
        var ciphertext := aead.seal(position, true, buffer[..readCount]);
        destination.WriteAll(ciphertext);
        break;
      }
    }
    return true;
  }

  method DecryptFile(aead: Aead, source: Source, destination: Sink) returns (ok: bool)
    requires source.Valid() && source.pos == 0 && destination.data == []
    modifies source, destination
    ensures ok <==> Decrypted(aead, source.data, 0).Some?
    ensures ok ==> Some(destination.data) == Decrypted(aead, source.data, 0)
  {
    var buffer := new byte[BACKUP_BUFFER_LEN_DECRYPT];
    var position := 0;
    assert source.data[0..] == source.data;
    assert forall rest: Bytes :: [] + rest == rest;
    while true
      invariant source.Valid() && position <= COUNTER_MAX
      invariant Decrypted(aead, source.data, 0)
                == Prefixed(destination.data, Decrypted(aead, source.data[source.pos..], position))
      decreases |source.data| - source.pos
    {
      ghost var left := source.data[source.pos..];
      ghost var done := destination.data;
      var readCount := source.Read(buffer);
      assert source.data[source.pos..] == left[readCount..];
      assert buffer[..readCount] == left[..readCount];
      if readCount == BACKUP_BUFFER_LEN_DECRYPT {
        if position == COUNTER_MAX {
          return false;
        }
        assert buffer[..] == left[..BACKUP_BUFFER_LEN_DECRYPT];
        var cleartext := aead.open(position, false, buffer[..]);
        if cleartext.None? {
          return false;
        }
        destination.WriteAll(cleartext.value);
        position := position + 1;
        PrefixedTwice(done, cleartext.value, Decrypted(aead, source.data[source.pos..], position));
      } else if readCount == 0 {
        assert left == [] && done + [] == done;
        break;
      } else {
        assert left[..readCount] == left;
        var cleartext := aead.open(position, true, buffer[..readCount]);
        if cleartext.None? {
          return false;
        }
        destination.WriteAll(cleartext.value);
        break;
      }
    }
    return true;
  }

  function Prefixed(done: Bytes, rest: Option<Bytes>): Option<Bytes> {
    if rest.None? then None else Some(done + rest.value)
  }

  lemma PrefixedTwice(a: Bytes, b: Bytes, rest: Option<Bytes>)
    ensures Prefixed(a, Prefixed(b, rest)) == Prefixed(a + b, rest)
  {
    if rest.Some? { assert a + (b + rest.value) == (a + b) + rest.value; }
  }

  // Chunk by chunk.

  /** The k-th full chunk of a ciphertext that starts at counter i. */
  function OpenedAt(aead: Aead, cipher: Bytes, i: nat, k: nat): Option<Bytes>
    requires 255 * (k + 1) <= |cipher|
  {
    aead.open(i + k, false, cipher[255 * k..255 * (k + 1)])
  }

  /** The first n full chunks, opened and put together in order. */
  function Joined(aead: Aead, cipher: Bytes, i: nat, n: nat): Bytes
    requires 255 * n <= |cipher|
  {
    if n == 0 then []
    else Joined(aead, cipher, i, n - 1) + OpenedAt(aead, cipher, i, n - 1).UnwrapOr([])
  }

  lemma OpenedLater(aead: Aead, cipher: Bytes, i: nat, k: nat)
    requires 255 * (k + 2) <= |cipher|
    ensures OpenedAt(aead, cipher[255..], i + 1, k) == OpenedAt(aead, cipher, i, k + 1)
  {
    assert cipher[255..][255 * k..255 * (k + 1)] == cipher[255 * (k + 1)..255 * (k + 2)];
  }

  lemma {:induction false} JoinedLater(aead: Aead, cipher: Bytes, i: nat, n: nat)
    requires 255 * (n + 1) <= |cipher|
    ensures Joined(aead, cipher, i, n + 1)
            == OpenedAt(aead, cipher, i, 0).UnwrapOr([]) + Joined(aead, cipher[255..], i + 1, n)
  {
    if n > 0 {
      JoinedLater(aead, cipher, i, n - 1);
      OpenedLater(aead, cipher, i, n - 1);
    } else {
      assert Joined(aead, cipher, i, 0) == [];
    }
  }

  ghost predicate AllOpen(aead: Aead, cipher: Bytes, i: nat, n: nat)
    requires 255 * n <= |cipher|
  {
    forall k: nat | k < n :: OpenedAt(aead, cipher, i, k).Some?
  }

  lemma AllOpenLater(aead: Aead, cipher: Bytes, i: nat, n: nat)
    requires 255 * (n + 1) <= |cipher|
    ensures AllOpen(aead, cipher, i, n + 1)
            <==> OpenedAt(aead, cipher, i, 0).Some? && AllOpen(aead, cipher[255..], i + 1, n)
  {
    var tail, j := cipher[255..], i + 1;
    if OpenedAt(aead, cipher, i, 0).Some? && AllOpen(aead, tail, j, n) {
      forall k: nat | k < n + 1 ensures OpenedAt(aead, cipher, i, k).Some? {
        if k > 0 {
          OpenedLater(aead, cipher, i, k - 1);
          assert OpenedAt(aead, tail, j, k - 1).Some?;
        }
      }
    }
    if AllOpen(aead, cipher, i, n + 1) {
      forall k: nat | k < n ensures OpenedAt(aead, tail, j, k).Some? {
        OpenedLater(aead, cipher, i, k);
        assert OpenedAt(aead, cipher, i, k + 1).Some?;
      }
    }
  }

  /** What is left over behind the full chunks. */
  function LeftOver(cipher: Bytes): Bytes {
    cipher[255 * (|cipher| / 255)..]
  }

  lemma OneChunkLess(cipher: Bytes)
    requires |cipher| >= 255
    ensures |cipher[255..]| / 255 == |cipher| / 255 - 1 && LeftOver(cipher[255..]) == LeftOver(cipher)
  {
    var n := |cipher| / 255;
    assert cipher[255..][255 * (n - 1)..] == cipher[255 * n..];
  }

  lemma {:induction false} DecryptsIf(aead: Aead, cipher: Bytes, i: nat)
    requires i <= COUNTER_MAX
    ensures var n := |cipher| / 255;
            Decrypted(aead, cipher, i).Some?
            <==> && i + n <= 0xFFFF_FFFF && AllOpen(aead, cipher, i, n)
                 && (LeftOver(cipher) != [] ==> aead.open(i + n, true, LeftOver(cipher)).Some?)
    decreases |cipher|
  {
    if |cipher| >= 255 && i < COUNTER_MAX {
      DecryptsIf(aead, cipher[255..], i + 1);
      OneChunkLess(cipher);
      AllOpenLater(aead, cipher, i, |cipher| / 255 - 1);
      FirstChunk(aead, cipher, i);
    }
  }

  /** The openings of all chunks and of what is left over, in order. */
  function Openings(aead: Aead, cipher: Bytes, i: nat): Bytes {
    var n := |cipher| / 255;
    Joined(aead, cipher, i, n)
    + if LeftOver(cipher) == [] then [] else aead.open(i + n, true, LeftOver(cipher)).UnwrapOr([])
  }

  lemma OpeningsLater(aead: Aead, cipher: Bytes, i: nat)
    requires |cipher| >= 255
    ensures Openings(aead, cipher, i)
            == aead.open(i, false, cipher[..255]).UnwrapOr([]) + Openings(aead, cipher[255..], i + 1)
  {
    OneChunkLess(cipher);
    JoinedLater(aead, cipher, i, |cipher| / 255 - 1);
    FirstChunk(aead, cipher, i);
  }

  lemma {:induction false} DecryptsTo(aead: Aead, cipher: Bytes, i: nat)
    requires Decrypted(aead, cipher, i).Some?
    ensures Decrypted(aead, cipher, i).value == Openings(aead, cipher, i)
    decreases |cipher|
  {
    if |cipher| >= 255 {
      DecryptsTo(aead, cipher[255..], i + 1);
      OpeningsLater(aead, cipher, i);
    } else {
      assert LeftOver(cipher) == cipher;
    }
  }

  /**
   * Any bytes decrypt if and only if their full chunks leave the last counter free, each of
   * them opens under its own counter as not the last, and what is left over, if anything,
   * opens as the last; they decrypt to these openings in order.
   */
  lemma DecryptedIff(aead: Aead, cipher: Bytes)
    ensures var n := |cipher| / 255;
            Decrypted(aead, cipher, 0).Some?
            <==> && n <= 0xFFFF_FFFF
                 && (forall k: nat | k < n :: OpenedAt(aead, cipher, 0, k).Some?)
                 && (LeftOver(cipher) != [] ==> aead.open(n, true, LeftOver(cipher)).Some?)
    ensures Decrypted(aead, cipher, 0).Some? ==> Decrypted(aead, cipher, 0).value == Openings(aead, cipher, 0)
  {
    DecryptsIf(aead, cipher, 0);
    if Decrypted(aead, cipher, 0).Some? { DecryptsTo(aead, cipher, 0); }
  }

  lemma FirstChunk(aead: Aead, cipher: Bytes, i: nat)
    requires |cipher| >= 255
    ensures OpenedAt(aead, cipher, i, 0) == aead.open(i, false, cipher[..255])
  {
    assert cipher[255 * 0..255 * (0 + 1)] == cipher[..255];
  }

  lemma EncryptedSplits(aead: Aead, plain: Bytes, i: nat)
    requires Lawful(aead) && |plain| >= 239
    ensures var cipher := Encrypted(aead, plain, i);
            |cipher| >= 255 && cipher[..255] == aead.seal(i, false, plain[..239])
            && cipher[255..] == Encrypted(aead, plain[239..], i + 1)
  {
  }

  /** Chunk k of a plaintext is sealed under counter k, as not the last. */
  lemma {:induction false} EncryptedChunk(aead: Aead, plain: Bytes, i: nat, k: nat)
    requires Lawful(aead) && 239 * (k + 1) <= |plain|
    ensures var cipher := Encrypted(aead, plain, i);
            && 255 * (k + 1) <= |cipher|
            && cipher[255 * k..255 * (k + 1)] == aead.seal(i + k, false, plain[239 * k..239 * (k + 1)])
    decreases k
  {
    EncryptedSplits(aead, plain, i);
    var cipher := Encrypted(aead, plain, i);
    if k == 0 {
      assert cipher[255 * k..255 * (k + 1)] == cipher[..255] && plain[239 * k..239 * (k + 1)] == plain[..239];
    } else {
      EncryptedChunk(aead, plain[239..], i + 1, k - 1);
      assert plain[239..][239 * (k - 1)..239 * k] == plain[239 * k..239 * (k + 1)];
      assert cipher[255..][255 * (k - 1)..255 * k] == cipher[255 * k..255 * (k + 1)];
    }
  }

  /** What is left over behind the full chunks, even nothing, is sealed under the next counter, as the last. */
  lemma {:induction false} EncryptedLast(aead: Aead, plain: Bytes, i: nat)
    requires Lawful(aead)
    ensures var n := |plain| / 239;
            && 255 * n <= |Encrypted(aead, plain, i)|
            && Encrypted(aead, plain, i)[255 * n..] == aead.seal(i + n, true, plain[239 * n..])
    decreases |plain|
  {
    var n := |plain| / 239;
    if n == 0 {
      assert plain[239 * n..] == plain;
    } else {
      EncryptedSplits(aead, plain, i);
      var rest := plain[239..];
      EncryptedLast(aead, rest, i + 1);
      assert |rest| / 239 == n - 1 && rest[239 * (n - 1)..] == plain[239 * n..];
      assert Encrypted(aead, plain, i)[255..][255 * (n - 1)..] == Encrypted(aead, plain, i)[255 * n..];
    }
  }

  /** Decryption ends by reading nothing exactly if the bytes are full chunks only. */
  lemma {:induction false} EmptyReadIff(cipher: Bytes)
    ensures EndsOnEmptyRead(cipher) <==> |cipher| % 255 == 0
  {
    if |cipher| >= 255 { EmptyReadIff(cipher[255..]); }
  }

  /** 16 bytes per chunk, the last one included even if it is empty. */
  lemma {:induction false} CiphertextLength(aead: Aead, plain: Bytes, i: nat)
    requires Lawful(aead)
    ensures |Encrypted(aead, plain, i)| == |plain| + 16 * (|plain| / 239 + 1)
  {
    if |plain| >= BACKUP_BUFFER_LEN_ENCRYPT {
      CiphertextLength(aead, plain[239..], i + 1);
      assert |plain| / 239 == |plain[239..]| / 239 + 1;
    }
  }

  /**
   * Decryption returns the plaintext, of any length, multiples of the chunk length and the
   * empty one included, exactly if its full chunks leave the last counter free; and it
   * never ends on an empty read.
   */
  lemma {:induction false} DecryptedEncrypted(aead: Aead, plain: Bytes, i: nat)
    requires Lawful(aead) && i <= COUNTER_MAX
    ensures Decrypted(aead, Encrypted(aead, plain, i), i)
            == if i + |plain| / BACKUP_BUFFER_LEN_ENCRYPT <= COUNTER_MAX then Some(plain) else None
    ensures !EndsOnEmptyRead(Encrypted(aead, plain, i))
    decreases |plain|
  {
    var cipher := Encrypted(aead, plain, i);
    if |plain| >= BACKUP_BUFFER_LEN_ENCRYPT {
      var chunk, rest := plain[..BACKUP_BUFFER_LEN_ENCRYPT], plain[BACKUP_BUFFER_LEN_ENCRYPT..];
      var sealed := aead.seal(i, false, chunk);
      assert cipher[..BACKUP_BUFFER_LEN_DECRYPT] == sealed;
      assert cipher[BACKUP_BUFFER_LEN_DECRYPT..] == Encrypted(aead, rest, i + 1);
      if i < COUNTER_MAX {
        DecryptedEncrypted(aead, rest, i + 1);
        assert chunk + rest == plain;
      } else {
        NoEmptyRead(aead, rest, i + 1);
      }
    }
  }

  lemma {:induction false} NoEmptyRead(aead: Aead, plain: Bytes, i: nat)
    requires Lawful(aead)
    ensures !EndsOnEmptyRead(Encrypted(aead, plain, i))
    decreases |plain|
  {
    if |plain| >= BACKUP_BUFFER_LEN_ENCRYPT {
      var rest := plain[BACKUP_BUFFER_LEN_ENCRYPT..];
      assert Encrypted(aead, plain, i)[BACKUP_BUFFER_LEN_DECRYPT..] == Encrypted(aead, rest, i + 1);
      NoEmptyRead(aead, rest, i + 1);
    }
  }
}
