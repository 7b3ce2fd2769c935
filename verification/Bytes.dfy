/**
 Bytes, character classes and unsigned decimal text, as the C library and the
 Stackish grammar use them.
 */
module Bytes {
  type byte = b: int | 0 <= b < 256
  type Text = seq<byte>

  datatype Option<+T> = None | Some(value: T)

  const TWO64: nat := 0x1_0000_0000_0000_0000

  const SPACE: byte := 32
  const NEWLINE: byte := 10
  const TAB: byte := 9
  const QUOTE: byte := 34
  const TICK: byte := 39
  const COLON: byte := 58
  const AT: byte := 64
  const OPEN: byte := 91
  const CLOSE: byte := 93

  predicate IsDigit(c: byte) { 48 <= c <= 57 }

  predicate IsAlpha(c: byte) { 65 <= c <= 90 || 97 <= c <= 122 }

  predicate IsSpace(c: byte) { c == 32 || 9 <= c <= 13 }

  /** What may follow the first letter of a word: alnum, '-', '_', '.', ':'. */
  predicate IsWordChar(c: byte) {
    IsAlpha(c) || IsDigit(c) || c == 45 || c == 95 || c == 46 || c == 58
  }

  predicate AllDigits(s: Text) { forall i :: 0 <= i < |s| ==> IsDigit(s[i]) }

  predicate IsWord(s: Text) {
    && |s| > 0 && IsAlpha(s[0])
    && forall i :: 0 < i < |s| ==> IsWordChar(s[i])
  }

  /** An attribute name: '@' and a word. */
  predicate IsAttr(s: Text) { |s| > 1 && s[0] == AT && IsWord(s[1..]) }

  /** printf "%llu". */
  function Decimal(n: nat): (s: Text)
    ensures |s| > 0 && AllDigits(s)
  {
    if n < 10 then [48 + n] else Decimal(n / 10) + [48 + n % 10]
  }

  /** The value of a run of digits (before any clamping to a machine word). */
  function DecimalValue(s: Text): (n: nat)
    requires AllDigits(s)
  {
    if s == [] then 0 else DecimalValue(s[..|s| - 1]) * 10 + (s[|s| - 1] - 48)
  }

  lemma {:induction false} DecimalRoundTrip(n: nat)
    ensures DecimalValue(Decimal(n)) == n
  {
    var s := Decimal(n);
    if n >= 10 {
      assert s[..|s| - 1] == Decimal(n / 10);
      DecimalRoundTrip(n / 10);
    } else {
      assert s[..0] == [];
    }
  }

  function Pow10(k: nat): (p: nat)
    ensures p > 0
  {
    if k == 0 then 1 else 10 * Pow10(k - 1)
  }

  /** A digit stands for as many powers of ten as there are digits behind it. */
  lemma {:induction false} PlaceValue(d: byte, t: Text)
    requires IsDigit(d) && AllDigits(t)
    ensures AllDigits([d] + t) && DecimalValue([d] + t) == (d - 48) * Pow10(|t|) + DecimalValue(t)
  {
    if t == [] {
      assert [d] + t == [d] && [d][..0] == [];
    } else {
      var init, last := t[..|t| - 1], t[|t| - 1];
      PlaceValue(d, init);
      LastDigit([d] + init, last);
      LastDigit(init, last);
      assert [d] + t == [d] + init + [last] && t == init + [last];
      Shift(d - 48, Pow10(|init|), DecimalValue(init));
    }
  }

  lemma LastDigit(s: Text, last: byte)
    requires AllDigits(s) && IsDigit(last)
    ensures AllDigits(s + [last]) && DecimalValue(s + [last]) == DecimalValue(s) * 10 + (last - 48)
  {
    assert (s + [last])[..|s|] == s;
  }

  lemma Shift(d: nat, p: nat, v: nat)
    ensures (d * p + v) * 10 == d * (10 * p) + v * 10
  {}

  /** No number but zero starts with a zero. */
  lemma {:induction false} NoLeadingZero(n: nat)
    ensures Decimal(n)[0] == 48 <==> n == 0
  {
    if n < 10 {
    } else {
      NoLeadingZero(n / 10);
    }
  }

  /** And every such text is the text of its value. */
  lemma {:induction false} DecimalIsUnique(s: Text)
    requires s != [] && AllDigits(s) && (s[0] == 48 ==> |s| == 1)
    ensures Decimal(DecimalValue(s)) == s
  {
    var init, last := s[..|s| - 1], s[|s| - 1];
    assert s == init + [last];
    if init == [] {
      assert DecimalValue(s) == last - 48;
    } else {
      DecimalIsUnique(init);
      NoLeadingZero(DecimalValue(init));
      assert DecimalValue(init) != 0;
    }
  }
}
