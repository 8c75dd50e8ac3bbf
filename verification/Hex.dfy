/** Base 16 as in section 8 of RFC 4648, printed in lower case. */
module Hex {
  import opened Wrappers

  type byte = n: nat | n < 256

  function Digit(n: nat): (c: char)
    requires n < 16
    ensures Value(c) == Some(n)
  {
    if n < 10 then '0' + n as char else 'a' + (n - 10) as char
  }

  /** The value of a digit, in either case. */
  function Value(c: char): (r: Option<nat>)
    ensures r.Some? ==> r.value < 16
  {
    if 'A' <= c <= 'F' then Some(c as int - 'A' as int + 10)
    else if 'a' <= c <= 'f' then Some(c as int - 'a' as int + 10)
    else if '0' <= c <= '9' then Some(c as int - '0' as int)
    else None
  }

  predicate AllDigits(s: string) {
    forall i | 0 <= i < |s| :: Value(s[i]).Some?
  }

  /** Two digits per byte, high one first. */
  function Encoded(value: seq<byte>): (s: string)
    ensures |s| == 2 * |value|
    ensures forall c | c in s :: '0' <= c <= '9' || 'a' <= c <= 'f'
  {
    seq(2 * |value|, i requires 0 <= i < 2 * |value| =>
      if i % 2 == 0 then Digit(value[i / 2] / 16) else Digit(value[i / 2] % 16))
  }

  /** The byte of the k-th pair of digits. */
  function ByteAt(hex: string, k: nat): byte
    requires 2 * k + 1 < |hex| && Value(hex[2 * k]).Some? && Value(hex[2 * k + 1]).Some?
  {
    Value(hex[2 * k]).value * 16 + Value(hex[2 * k + 1]).value
  }

  /** One byte per two digits; nothing if any character is not a digit; an odd last digit is dropped. */
  function Decoded(hex: string): (r: Option<seq<byte>>)
    ensures r.Some? <==> AllDigits(hex)
    ensures r.Some? ==> |r.value| == |hex| / 2
  {
    if AllDigits(hex) then
      Some(seq(|hex| / 2, k requires 0 <= k < |hex| / 2 => ByteAt(hex, k)))
    else
      None
  }

  method HexStr(value: seq<byte>) returns (res: string)
    ensures res == Encoded(value)
  {
    res := "";
    for i := 0 to |value|
      invariant res == Encoded(value)[..2 * i]
    {
      var v := value[i];
      res := res + [Digit(v / 16), Digit(v % 16)];
    }
  }

  /** Shifts the digits through an 8-bit register. */
  method HexStrToVec(hex: string) returns (r: Option<seq<byte>>)
    ensures r == Decoded(hex)
  {
    var out: seq<byte> := [];
    var b := 0;
    for idx := 0 to |hex|
      invariant forall i | 0 <= i < idx :: Value(hex[i]).Some?
      invariant |out| == idx / 2
      invariant forall k | 0 <= k < |out| :: out[k] == ByteAt(hex, k)
      invariant b == if idx % 2 == 1 then Value(hex[idx - 1]).value else 0
    {
      b := (b * 16) % 256;
      var digit := Value(hex[idx]);
      if digit.None? {
        return None;
      }
      b := b + digit.value;
      if idx % 2 == 1 {
        assert idx == 2 * |out| + 1 && b == ByteAt(hex, |out|);
        out := out + [b];
        b := 0;
      }
    }
    DecodedIs(hex, out);
    return Some(out);
  }

  lemma DecodedIs(hex: string, out: seq<byte>)
    requires AllDigits(hex) && |out| == |hex| / 2
    requires forall k | 0 <= k < |out| :: out[k] == ByteAt(hex, k)
    ensures Decoded(hex) == Some(out)
  {
    assert out == Decoded(hex).value;
  }

  lemma EncodedAt(value: seq<byte>, i: nat)
    requires i < |value|
    ensures Encoded(value)[2 * i] == Digit(value[i] / 16) && Encoded(value)[2 * i + 1] == Digit(value[i] % 16)
  {
    assert (2 * i) / 2 == i && (2 * i) % 2 == 0 && (2 * i + 1) / 2 == i && (2 * i + 1) % 2 == 1;
  }

  lemma EncodedIsDigits(value: seq<byte>)
    ensures AllDigits(Encoded(value))
  {
    var s := Encoded(value);
    forall i | 0 <= i < |s| ensures Value(s[i]).Some? {
      assert s[i] in s;
    }
  }

  /** Decoding inverts encoding, for all byte strings. */
  lemma DecodedEncoded(value: seq<byte>)
    ensures Decoded(Encoded(value)) == Some(value)
  {
    EncodedIsDigits(value);
    var decoded := Decoded(Encoded(value)).value;
    forall i: nat | i < |value| ensures decoded[i] == value[i] {
      EncodedAt(value, i);
    }
    assert |decoded| == |value|;
    assert decoded == value;
  }

  /** The digits in lower case. */
  function Lower(c: char): char {
    if 'A' <= c <= 'F' then c - 'A' + 'a' else c
  }

  /** Encoding inverts decoding up to case and an odd last digit. */
  lemma EncodedDecoded(hex: string)
    requires AllDigits(hex)
    ensures |Encoded(Decoded(hex).value)| == |hex| / 2 * 2
    ensures forall i | 0 <= i < |hex| / 2 * 2 :: Encoded(Decoded(hex).value)[i] == Lower(hex[i])
  {
    var bytes := Decoded(hex).value;
    forall i | 0 <= i < |hex| / 2 * 2 ensures Encoded(bytes)[i] == Lower(hex[i]) {
      var k := i / 2;
      assert bytes[k] / 16 == Value(hex[2 * k]).value && bytes[k] % 16 == Value(hex[2 * k + 1]).value;
      assert i == 2 * k || i == 2 * k + 1;
    }
  }

  /** Exactly the digits of both cases have a value, the one of their position. */
  lemma ValueIs(c: char, v: nat)
    ensures Value(c) == Some(v) <==> v < 16 && (c == "0123456789abcdef"[v] || c == "0123456789ABCDEF"[v])
    ensures Value(c).Some? <==> '0' <= c <= '9' || 'a' <= c <= 'f' || 'A' <= c <= 'F'
  {
  }
}
