/** Unsigned 64-bit numbers in decimal. */
module Decimal {
  import opened Wrappers
  import opened Types

  predicate AllDigits(s: string) {
    forall i | 0 <= i < |s| :: '0' <= s[i] <= '9'
  }

  function Printed(n: nat): (s: string)
    ensures s != "" && AllDigits(s)
  {
    var last := [('0' + (n % 10) as char)];
    if n < 10 then last else Printed(n / 10) + last
  }

  /** The number a string of digits stands for. */
  function NumberOf(digits: string): nat
    requires AllDigits(digits)
  {
    if digits == "" then 0
    else
      var k := |digits| - 1;
      NumberOf(digits[..k]) * 10 + (digits[k] as int - '0' as int)
  }

  /** Parses at least one digit, after an optional plus sign, to a number that fits. */
  function ParsedU64(s: string): Option<u64> {
    var digits := if s != "" && s[0] == '+' then s[1..] else s;
    if digits != "" && AllDigits(digits) && NumberOf(digits) < U64_SIZE
    then Some(NumberOf(digits)) else None
  }

  lemma {:induction false} NumberOfPrinted(n: nat)
    ensures NumberOf(Printed(n)) == n
  {
    if n >= 10 {
      NumberOfPrinted(n / 10);
      var s := Printed(n);
      assert s[..|s| - 1] == Printed(n / 10);
    }
  }

  /** A printed number parses to itself exactly if it fits in 64 bits. */
  lemma ParsedPrinted(n: nat)
    ensures ParsedU64(Printed(n)).Some? <==> n < U64_SIZE
    ensures n < U64_SIZE ==> ParsedU64(Printed(n)) == Some(n)
  {
    NumberOfPrinted(n);
    assert Printed(n)[0] != '+';
  }

  /** One plus sign may stand in front, and any number of zeros; nothing but digits otherwise, and at least one. */
  lemma ParsedForms(s: string)
    ensures s != "" && s[0] != '+' ==> ParsedU64("+" + s) == ParsedU64(s)
    ensures s != "" && s[0] != '+' ==> ParsedU64("0" + s) == ParsedU64(s)
    ensures ParsedU64(s).Some? ==>
              exists i | 0 <= i < |s| :: (i == 0 || (i == 1 && s[0] == '+')) && AllDigits(s[i..])
  {
    if s != "" && s[0] != '+' {
      assert ("+" + s)[1..] == s;
      assert AllDigits("0" + s) <==> AllDigits(s) by {
        assert ("0" + s)[1..] == s;
        assert AllDigits("0" + s) ==> forall i | 0 <= i < |s| :: s[i] == ("0" + s)[i + 1];
      }
      if AllDigits(s) { LeadingZero(s); }
    }
    if ParsedU64(s).Some? {
      var i := if s[0] == '+' then 1 else 0;
      assert s[0..] == s;
      assert AllDigits(s[i..]);
    }
  }

  lemma {:induction false} LeadingZero(digits: string)
    requires AllDigits(digits)
    ensures AllDigits("0" + digits) && NumberOf("0" + digits) == NumberOf(digits)
  {
    if digits != "" {
      var k := |digits| - 1;
      LeadingZero(digits[..k]);
      assert ("0" + digits)[..k + 1] == "0" + digits[..k];
    } else {
      assert "0" + digits == "0" && NumberOf("") == 0 && "0"[..0] == "";
    }
  }
}
