/** Lower-case hexadecimal text of byte strings. */
module Hex {
  import opened Prelude

  const DIGITS: string := "0123456789abcdef"

  function HexByte(b: byte): string {
    [DIGITS[b / 16], DIGITS[b % 16]]
  }

  function HexText(bytes: Bytes): string {
    if bytes == [] then "" else HexText(bytes[..|bytes| - 1]) + HexByte(bytes[|bytes| - 1])
  }

  /** The loop that prints a byte string two digits at a time. */
  method HexEncode(bytes: Bytes) returns (out: string)
    ensures out == HexText(bytes)
  {
    out := "";
    for i := 0 to |bytes|
      invariant out == HexText(bytes[..i])
    {
      out := out + [DIGITS[bytes[i] / 16]];
      out := out + [DIGITS[bytes[i] % 16]];
      assert bytes[..i + 1][..i] == bytes[..i];
    }
    assert bytes[..|bytes|] == bytes;
  }

  predicate IsHexDigit(ch: char) {
    ('0' <= ch <= '9') || ('a' <= ch <= 'f')
  }

  // Two digits a byte, and only digits: no separator can appear in it.
  lemma {:induction false} HexTextShape(bytes: Bytes)
    ensures |HexText(bytes)| == 2 * |bytes|
    ensures forall i :: 0 <= i < |HexText(bytes)| ==> IsHexDigit(HexText(bytes)[i])
  {
    if bytes != [] {
      HexTextShape(bytes[..|bytes| - 1]);
      HexDigits(bytes[|bytes| - 1]);
    }
  }

  lemma {:induction false} HexDigits(b: byte)
    ensures IsHexDigit(DIGITS[b / 16]) && IsHexDigit(DIGITS[b % 16])
  {
    assert forall d :: 0 <= d < 16 ==> IsHexDigit(DIGITS[d]);
  }

  lemma {:induction false} HexByteInjective(a: byte, b: byte)
    ensures HexByte(a) == HexByte(b) ==> a == b
  {
    if HexByte(a) == HexByte(b) {
      assert HexByte(a)[0] == HexByte(b)[0] && HexByte(a)[1] == HexByte(b)[1];
      assert forall d, e :: 0 <= d < 16 && 0 <= e < 16 && DIGITS[d] == DIGITS[e] ==> d == e;
    }
  }

  /** Different byte strings print differently. */
  lemma {:induction false} HexTextInjective(a: Bytes, b: Bytes)
    requires HexText(a) == HexText(b)
    ensures a == b
  {
    HexTextShape(a);
    HexTextShape(b);
    if a != [] {
      var m, n := |a| - 1, |b| - 1;
      HexTextShape(a[..m]);
      HexTextShape(b[..n]);
      assert HexText(a[..m]) == HexText(a)[..2 * m] == HexText(b)[..2 * n] == HexText(b[..n]);
      assert HexByte(a[m]) == HexText(a)[2 * m..] == HexText(b)[2 * n..] == HexByte(b[n]);
      HexTextInjective(a[..m], b[..n]);
      HexByteInjective(a[m], b[n]);
      assert a == a[..m] + [a[m]] && b == b[..n] + [b[n]];
    }
  }

  function DigitValue(ch: char): int {
    if '0' <= ch <= '9' then ch as int - '0' as int else ch as int - 'a' as int + 10
  }

  lemma {:induction false} DigitsAre(d: nat)
    requires d < 16
    ensures DigitValue(DIGITS[d]) == d
  {
  }

  /** Read two digits at a time, the text gives the bytes back. */
  lemma {:induction false} HexTextReads(bytes: Bytes, i: nat)
    requires i < |bytes|
    ensures |HexText(bytes)| == 2 * |bytes|
    ensures 16 * DigitValue(HexText(bytes)[2 * i]) + DigitValue(HexText(bytes)[2 * i + 1]) == bytes[i]
  {
    var n := |bytes| - 1;
    HexTextShape(bytes);
    HexTextShape(bytes[..n]);
    hide DigitValue;
    if i < n {
      HexTextReads(bytes[..n], i);
    } else {
      DigitsAre(bytes[n] / 16);
      DigitsAre(bytes[n] % 16);
    }
  }
}
