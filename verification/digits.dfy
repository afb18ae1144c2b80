/** Decimal rendering of naturals, as Rust's `to_string()` / `{}` and the
    zero-padded `{:0>9}` format produce it, and its inverse. Used for the
    element names of fixed arrays and tuple structs and for data file names. */
module Digits {

  predicate IsDigit(c: char) {
    '0' <= c <= '9'
  }

  predicate AllDigits(s: string) {
    forall i :: 0 <= i < |s| ==> IsDigit(s[i])
  }

  function DigitChar(d: nat): (c: char)
    requires d < 10
    ensures IsDigit(c)
  {
    ['0', '1', '2', '3', '4', '5', '6', '7', '8', '9'][d]
  }

  function DigitValue(c: char): (d: nat)
    requires IsDigit(c)
    ensures d < 10
  {
    (c as int) - ('0' as int)
  }

  lemma {:induction false} DigitValueOfChar(d: nat)
    requires d < 10
    ensures DigitValue(DigitChar(d)) == d
  {
  }

  /** `n.to_string()` for an unsigned integer: no leading zeros, at least one digit. */
  function NatToString(n: nat): (s: string)
    ensures 1 <= |s|
    ensures AllDigits(s)
    ensures n < 10 <==> |s| == 1
    ensures 1 < |s| ==> s[0] != '0'
  {
    if n < 10 then [DigitChar(n)] else NatToString(n / 10) + [DigitChar(n % 10)]
  }

  /** The value of a string of decimal digits, read most significant first. */
  function ParseDigits(s: string): nat
    requires AllDigits(s)
  {
    if |s| == 0 then 0 else ParseDigits(s[..|s| - 1]) * 10 + DigitValue(s[|s| - 1])
  }

  function Zeros(k: nat): (z: string)
    ensures |z| == k
    ensures AllDigits(z)
    ensures forall i :: 0 <= i < k ==> z[i] == '0'
  {
    seq(k, _ => '0')
  }

  /** `format!("{:0>w}", s)`: `s` right-aligned in a field of `w` characters filled with '0'. */
  function PadLeftZeros(s: string, width: nat): (r: string)
    ensures |r| == if |s| < width then width else |s|
    ensures r[|r| - |s|..] == s
    ensures forall i :: 0 <= i < |r| - |s| ==> r[i] == '0'
  {
    if |s| < width then Zeros(width - |s|) + s else s
  }

  /** Parsing inverts rendering. */
  lemma {:induction false} ParseNatToString(n: nat)
    ensures ParseDigits(NatToString(n)) == n
    decreases n
  {
    if n >= 10 {
      var s := NatToString(n);
      assert s[..|s| - 1] == NatToString(n / 10);
      ParseNatToString(n / 10);
      DigitValueOfChar(n % 10);
    } else {
      DigitValueOfChar(n);
    }
  }

  /** Leading zeros do not change the value of a digit string. */
  lemma {:induction false} ParseLeadingZeros(k: nat, s: string)
    requires AllDigits(s)
    ensures ParseDigits(Zeros(k) + s) == ParseDigits(s)
    decreases |s|
  {
    var z := Zeros(k) + s;
    if |s| == 0 {
      ParseAllZeros(k);
      assert z == Zeros(k);
    } else {
      assert z[..|z| - 1] == Zeros(k) + s[..|s| - 1];
      ParseLeadingZeros(k, s[..|s| - 1]);
    }
  }

  lemma {:induction false} ParseAllZeros(k: nat)
    ensures ParseDigits(Zeros(k)) == 0
    decreases k
  {
    if k > 0 {
      assert Zeros(k)[..k - 1] == Zeros(k - 1);
      ParseAllZeros(k - 1);
    }
  }

  /** Zero-padding a digit string keeps it a digit string of the same value. */
  lemma {:induction false} PadPreservesValue(s: string, width: nat)
    requires AllDigits(s)
    ensures AllDigits(PadLeftZeros(s, width))
    ensures ParseDigits(PadLeftZeros(s, width)) == ParseDigits(s)
  {
    if |s| < width {
      var z := Zeros(width - |s|);
      assert PadLeftZeros(s, width) == z + s;
      assert AllDigits(z + s) by {
        forall i | 0 <= i < |z + s|
          ensures IsDigit((z + s)[i])
        {
          if i < |z| {
            assert (z + s)[i] == z[i];
          } else {
            assert (z + s)[i] == s[i - |z|];
          }
        }
      }
      ParseLeadingZeros(width - |s|, s);
    }
  }

  /** Zero-padding a rendered natural still parses back to that natural. */
  lemma {:induction false} ParsePadded(n: nat, width: nat)
    ensures AllDigits(PadLeftZeros(NatToString(n), width))
    ensures ParseDigits(PadLeftZeros(NatToString(n), width)) == n
  {
    ParseNatToString(n);
    PadPreservesValue(NatToString(n), width);
  }

  /** Distinct naturals render to distinct strings, padded or not. */
  lemma {:induction false} PaddedInjective(m: nat, n: nat, width: nat)
    requires PadLeftZeros(NatToString(m), width) == PadLeftZeros(NatToString(n), width)
    ensures m == n
  {
    ParsePadded(m, width);
    ParsePadded(n, width);
  }
}
