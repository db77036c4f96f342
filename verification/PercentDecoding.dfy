/** Decoding percent escapes (rawurldecode in LocalLinkGraph.php) against encoding them, section 2.1 of RFC 3986. */
module PercentDecoding {
  import opened Prelude
  import opened UrlPath

  const HEX_DIGITS := "0123456789ABCDEF"

  const SMALL_HEX_DIGITS := "0123456789abcdef"

  lemma HexDigitsRead(k: nat)
    requires k < 16
    ensures HexValue(HEX_DIGITS[k]) == k && HexValue(SMALL_HEX_DIGITS[k]) == k
  {
  }

  lemma OthersAreNoDigits(c: char)
    ensures HexValue(c) >= 0 <==> c in HEX_DIGITS || c in SMALL_HEX_DIGITS
  {
    if '0' <= c <= '9' {
      assert HEX_DIGITS[c as int - '0' as int] == c;
    } else if 'A' <= c <= 'F' {
      assert HEX_DIGITS[c as int - 'A' as int + 10] == c;
    } else if 'a' <= c <= 'f' {
      assert SMALL_HEX_DIGITS[c as int - 'a' as int + 10] == c;
    }
  }

  predicate IsBytes(s: string) {
    forall i :: 0 <= i < |s| ==> s[i] as int < 256
  }

  /** Every byte as a percent sign and two hexadecimal digits. */
  function Encode(bytes: string, digits: string): string
    requires |digits| == 16 && IsBytes(bytes)
  {
    if bytes == "" then ""
    else ['%', digits[bytes[0] as int / 16], digits[bytes[0] as int % 16]] + Encode(bytes[1..], digits)
  }

  lemma EscapeRead(high: char, low: char, c: char, rest: string)
    requires HexValue(high) == c as int / 16 && HexValue(low) == c as int % 16
    ensures Decode(['%', high, low] + rest) == [c] + Decode(rest)
  {
    var s := ['%', high, low] + rest;
    assert s[3..] == rest;
    assert 16 * HexValue(high) + HexValue(low) == c as int;
  }

  lemma DigitsRead(digits: string, k: nat)
    requires (digits == HEX_DIGITS || digits == SMALL_HEX_DIGITS) && k < 16
    ensures HexValue(digits[k]) == k
  {
    HexDigitsRead(k);
  }

  /** Encoded bytes are read back, with digits in capital or small letters. */
  lemma {:induction false} EncodedReadsBack(bytes: string, digits: string)
    requires (digits == HEX_DIGITS || digits == SMALL_HEX_DIGITS) && |digits| == 16 && IsBytes(bytes)
    ensures Decode(Encode(bytes, digits)) == bytes
  {
    if bytes != "" {
      var c, rest := bytes[0], Encode(bytes[1..], digits);
      DigitsRead(digits, c as int / 16);
      DigitsRead(digits, c as int % 16);
      EncodedReadsBack(bytes[1..], digits);
      EscapeRead(digits[c as int / 16], digits[c as int % 16], c, rest);
      assert bytes == [c] + bytes[1..];
    }
  }

  /** Everything that is no escape is kept. */
  lemma OthersKept(s: string)
    requires s != "" && (s[0] != '%' || |s| < 3 || HexValue(s[1]) < 0 || HexValue(s[2]) < 0)
    ensures Decode(s) == [s[0]] + Decode(s[1..])
  {
  }
}
