/**
 * Hexadecimal text for byte strings: `bytes.hex()` (two lower-case digits per byte, the high
 * nibble first) and `bytes.fromhex()` (pairs of digits in either case).
 */
module Hex {
  import opened Wrappers
  import opened Utf8

  const DIGITS: string := "0123456789abcdef"

  /** The characters `bytes.hex()` writes. */
  predicate IsLowerHexDigit(c: char)
  {
    ('0' <= c <= '9') || ('a' <= c <= 'f')
  }

  /** The value of a hex digit, upper or lower case; `None` for any other character. */
  function DigitValue(c: char): (r: Option<nat>)
    ensures r.Some? ==> r.value < 16
    ensures r.Some? <==> IsLowerHexDigit(c) || ('A' <= c <= 'F')
  {
    if '0' <= c <= '9' then Some(c as int - '0' as int)
    else if 'a' <= c <= 'f' then Some(c as int - 'a' as int + 10)
    else if 'A' <= c <= 'F' then Some(c as int - 'A' as int + 10)
    else None
  }

  /** `bytes.hex()`. */
  function Encode(b: seq<byte>): (r: string)
    ensures |r| == 2 * |b|
    ensures forall i :: 0 <= i < |r| ==> IsLowerHexDigit(r[i])
  {
    if b == [] then [] else [DIGITS[b[0] / 16], DIGITS[b[0] % 16]] + Encode(b[1..])
  }

  /** `bytes.fromhex()`: `None` stands for the `ValueError` raised on an odd length or a non-hex character. */
  function Decode(s: string): (r: Option<seq<byte>>)
    ensures r.Some? ==> 2 * |r.value| == |s|
  {
    if s == [] then Some([])
    else if |s| == 1 then None
    else match (DigitValue(s[0]), DigitValue(s[1]), Decode(s[2..]))
      case (Some(hi), Some(lo), Some(rest)) => Some([hi * 16 + lo] + rest)
      case _ => None
  }

  /** Every digit of `s` is a hex digit of either case. */
  predicate AllHexDigits(s: string)
  {
    forall i :: 0 <= i < |s| ==> DigitValue(s[i]).Some?
  }

  /** Each digit `bytes.hex()` writes reads back as its own value. */
  lemma DigitRoundTrip(k: nat)
    requires k < 16
    ensures DigitValue(DIGITS[k]) == Some(k)
  {
    if k < 10 {
      assert DIGITS[k] as int == '0' as int + k by {
        assert DIGITS[..10] == "0123456789";
      }
    } else {
      assert DIGITS[k] as int == 'a' as int + k - 10 by {
        assert DIGITS[10..] == "abcdef";
      }
    }
  }

  /** Round trip: decoding the hex text of a byte string gives it back. */
  lemma {:induction false} DecodeEncode(b: seq<byte>)
    ensures Decode(Encode(b)) == Some(b)
  {
    if b != [] {
      var hi, lo := b[0] / 16, b[0] % 16;
      DigitRoundTrip(hi);
      DigitRoundTrip(lo);
      DecodeEncode(b[1..]);
      DecodePair(DIGITS[hi], DIGITS[lo], Encode(b[1..]));
      assert [b[0]] + b[1..] == b;
    }
  }

  /** Two hex digits in front of decodable text decode to one more byte in front. */
  lemma DecodePair(c0: char, c1: char, rest: string)
    requires DigitValue(c0).Some? && DigitValue(c1).Some? && Decode(rest).Some?
    ensures Decode([c0, c1] + rest) ==
      Some([DigitValue(c0).value * 16 + DigitValue(c1).value] + Decode(rest).value)
  {
    var s := [c0, c1] + rest;
    assert s[0] == c0 && s[1] == c1 && s[2..] == rest;
  }

  /** Decoding fails exactly when the text has odd length or holds a character that is not a hex digit. */
  lemma {:induction false} DecodeFails(s: string)
    ensures Decode(s).None? <==> (|s| % 2 == 1 || !AllHexDigits(s))
  {
    if |s| >= 2 {
      DecodeFails(s[2..]);
      if !AllHexDigits(s[2..]) {
        var i :| 0 <= i < |s[2..]| && DigitValue(s[2..][i]).None?;
        assert DigitValue(s[i + 2]).None?;
      }
      if !AllHexDigits(s) && DigitValue(s[0]).Some? && DigitValue(s[1]).Some? {
        var i :| 0 <= i < |s| && DigitValue(s[i]).None?;
        assert DigitValue(s[2..][i - 2]).None?;
      }
    }
  }
}
