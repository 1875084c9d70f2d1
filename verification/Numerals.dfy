/** Positional numerals: big-endian base-256 octet strings and canonical decimal text.

    Both notations are given a value and a canonical form, and each canonical form is shown to be
    in one-to-one correspondence with the numbers it writes.
 */
module Numerals {

  type byte = x: int | 0 <= x < 256

  // ---------- Base 256 ----------

  function Pow256(k: nat): (p: nat)
    ensures p > 0
  {
    if k == 0 then 1 else 256 * Pow256(k - 1)
  }

  /** The number that an octet string writes, most significant octet first. */
  function BytesValue(s: seq<byte>): nat {
    if s == [] then 0 else 256 * BytesValue(s[..|s| - 1]) + s[|s| - 1]
  }

  lemma {:induction false} BytesValueBound(s: seq<byte>)
    ensures BytesValue(s) < Pow256(|s|)
  {
    if s != [] {
      BytesValueBound(s[..|s| - 1]);
    }
  }

  /** Prepending a most significant octet. */
  lemma {:induction false} BytesValuePrepend(b: byte, s: seq<byte>)
    ensures BytesValue([b] + s) == b * Pow256(|s|) + BytesValue(s)
  {
    if s == [] {
      assert ([b] + s)[..0] == [];
    } else {
      var front := s[..|s| - 1];
      assert ([b] + s)[..|s|] == [b] + front;
      BytesValuePrepend(b, front);
    }
  }

  lemma {:induction false} BytesValueSplit(a: seq<byte>, b: seq<byte>)
    ensures BytesValue(a + b) == BytesValue(a) * Pow256(|b|) + BytesValue(b)
  {
    if b == [] {
      assert a + b == a;
    } else {
      var front := b[..|b| - 1];
      assert (a + b)[..|a + b| - 1] == a + front;
      BytesValueSplit(a, front);
      assert 256 * (BytesValue(a) * Pow256(|front|)) == BytesValue(a) * Pow256(|b|);
    }
  }

  /** Octet strings of one length are determined by their value. */
  lemma {:induction false} BytesValueInjective(a: seq<byte>, b: seq<byte>)
    requires |a| == |b|
    requires BytesValue(a) == BytesValue(b)
    ensures a == b
  {
    if a != [] {
      var n := |a| - 1;
      BytesValueInjective(a[..n], b[..n]);
      assert a == a[..n] + [a[n]] && b == b[..n] + [b[n]];
    }
  }

  lemma {:induction false} BytesValueZero(s: seq<byte>)
    ensures BytesValue(s) == 0 <==> forall i :: 0 <= i < |s| ==> s[i] == 0
  {
    if s != [] {
      BytesValueZero(s[..|s| - 1]);
      assert forall i :: 0 <= i < |s| - 1 ==> s[i] == s[..|s| - 1][i];
    }
  }

  /** The `k`-octet numeral of `n`. */
  function ToOctets(n: nat, k: nat): (s: seq<byte>)
    ensures |s| == k
  {
    if k == 0 then [] else ToOctets(n / 256, k - 1) + [n % 256]
  }

  lemma {:induction false} ToOctetsValue(n: nat, k: nat)
    requires n < Pow256(k)
    ensures BytesValue(ToOctets(n, k)) == n
  {
    if k > 0 {
      ToOctetsValue(n / 256, k - 1);
    }
  }

  // ---------- Decimal ----------

  predicate IsDigit(c: char) {
    '0' <= c <= '9'
  }

  function DigitValue(c: char): (d: nat)
    requires IsDigit(c)
    ensures d < 10
  {
    c as int - '0' as int
  }

  function DigitChar(d: nat): (c: char)
    requires d < 10
    ensures IsDigit(c) && DigitValue(c) == d
  {
    ('0' as int + d) as char
  }

  predicate AllDigits(s: string) {
    forall i :: 0 <= i < |s| ==> IsDigit(s[i])
  }

  function DigitsValue(s: string): nat
    requires AllDigits(s)
  {
    if s == [] then 0 else 10 * DigitsValue(s[..|s| - 1]) + DigitValue(s[|s| - 1])
  }

  /** The shortest decimal numeral of `n`. */
  function Decimal(n: nat): string {
    if n < 10 then [DigitChar(n)] else Decimal(n / 10) + [DigitChar(n % 10)]
  }

  /** Digits only, at least one, and no leading zero except in "0" itself. */
  predicate CanonicalNat(s: string) {
    s != [] && AllDigits(s) && (s[0] == '0' ==> |s| == 1)
  }

  lemma {:induction false} DecimalIsCanonical(n: nat)
    ensures CanonicalNat(Decimal(n))
    ensures DigitsValue(Decimal(n)) == n
    ensures Decimal(n)[0] == '0' <==> n == 0
  {
    if n >= 10 {
      DecimalIsCanonical(n / 10);
      var d := Decimal(n);
      assert d[..|d| - 1] == Decimal(n / 10);
    }
  }

  lemma {:induction false} PositiveNumeral(s: string)
    requires CanonicalNat(s) && s[0] != '0'
    ensures DigitsValue(s) > 0
  {
    if |s| == 1 {
      assert s[..0] == [];
    } else {
      PositiveNumeral(s[..|s| - 1]);
    }
  }

  lemma {:induction false} CanonicalIsDecimal(s: string)
    requires CanonicalNat(s)
    ensures s == Decimal(DigitsValue(s))
  {
    if |s| == 1 {
      assert s[..0] == [];
      assert s == [s[0]];
    } else {
      var front := s[..|s| - 1];
      assert CanonicalNat(front);
      CanonicalIsDecimal(front);
      PositiveNumeral(front);
      assert s == front + [s[|s| - 1]];
    }
  }

  /** Three digits per octet are enough. */
  lemma {:induction false} DecimalLength(n: nat, k: nat)
    requires 0 < k && n < Pow256(k)
    ensures |Decimal(n)| <= 3 * k
  {
    if n >= 10 {
      assert |Decimal(n)| == |Decimal(n / 10)| + 1;
    }
    if n >= 100 {
      assert |Decimal(n / 10)| == |Decimal(n / 10 / 10)| + 1;
    }
    if n >= 1000 {
      assert k > 1 by {
        assert Pow256(1) == 256 * Pow256(0);
      }
      assert |Decimal(n / 10 / 10)| == |Decimal(n / 10 / 10 / 10)| + 1;
      assert n / 10 / 10 / 10 == n / 1000;
      DecimalLength(n / 1000, k - 1);
    }
  }

  // ---------- Signed decimal ----------

  /** What printf's "%d" family writes for `n`. */
  function SignedDecimal(n: int): string {
    if n < 0 then "-" + Decimal(-n) else Decimal(n)
  }

  /** An optional '-', no leading zeros, and no "-0". */
  predicate CanonicalInt(s: string) {
    if s != [] && s[0] == '-' then CanonicalNat(s[1..]) && s[1] != '0' else CanonicalNat(s)
  }

  function IntValue(s: string): int
    requires CanonicalInt(s)
  {
    if s[0] == '-' then -(DigitsValue(s[1..]) as int) else DigitsValue(s)
  }

  /** Canonical texts and integers are in one-to-one correspondence: from numbers to texts ... */
  lemma SignedDecimalIsCanonical(n: int)
    ensures CanonicalInt(SignedDecimal(n))
    ensures IntValue(SignedDecimal(n)) == n
  {
    if n < 0 {
      DecimalIsCanonical(-n);
      assert SignedDecimal(n)[1..] == Decimal(-n);
    } else {
      DecimalIsCanonical(n);
    }
  }

  /** ... and from texts to numbers. */
  lemma CanonicalIsSignedDecimal(s: string)
    requires CanonicalInt(s)
    ensures SignedDecimal(IntValue(s)) == s
    ensures s[0] == '-' <==> IntValue(s) < 0
  {
    if s[0] == '-' {
      CanonicalIsDecimal(s[1..]);
      PositiveNumeral(s[1..]);
      assert s == "-" + s[1..];
    } else {
      CanonicalIsDecimal(s);
    }
  }

  /** The digits. */
  lemma {:induction false} DigitsAre(d: nat)
    requires d < 10
    ensures Decimal(d) == ["0123456789"[d]]
  {
  }
}
