/**
  Reservation codes of the canonical booking handler
  (backend/src/handlers/booking/index.js, `generatePNR`): five random
  bytes rendered as hexadecimal and upper-cased. The random bytes are an
  input of the model.
 */
module Pnr {
  import opened Text

  newtype Byte = x: int | 0 <= x < 256

  const LowerHexDigits: string := "0123456789abcdef"
  const UpperHexDigits: string := "0123456789ABCDEF"

  /** `Buffer.toString('hex')`: two lower-case digits per byte, high nibble first. */
  function HexLower(bytes: seq<Byte>): string {
    if bytes == [] then []
    else [LowerHexDigits[bytes[0] as int / 16], LowerHexDigits[bytes[0] as int % 16]] + HexLower(bytes[1..])
  }

  /** The same rendering with upper-case digits. */
  function HexUpper(bytes: seq<Byte>): string {
    if bytes == [] then []
    else [UpperHexDigits[bytes[0] as int / 16], UpperHexDigits[bytes[0] as int % 16]] + HexUpper(bytes[1..])
  }

  /** `crypto.randomBytes(5).toString('hex').toUpperCase()`, given the five bytes. */
  function GeneratePnr(bytes: seq<Byte>): (pnr: string)
    requires |bytes| == 5
    ensures IsPnr(pnr)
  {
    UpperHexIsUpperCasedHex(bytes);
    HexUpperWellFormed(bytes);
    ToUpper(HexLower(bytes))
  }

  predicate IsUpperHexDigit(c: char) {
    '0' <= c <= '9' || 'A' <= c <= 'F'
  }

  /** A reservation code: ten upper-case hexadecimal characters. */
  predicate IsPnr(s: string) {
    |s| == 10 && forall i :: 0 <= i < |s| ==> IsUpperHexDigit(s[i])
  }

  predicate IsUpperHex(s: string) {
    |s| % 2 == 0 && forall i :: 0 <= i < |s| ==> IsUpperHexDigit(s[i])
  }

  function HexValue(c: char): (d: nat)
    requires IsUpperHexDigit(c)
    ensures d < 16 && UpperHexDigits[d] == c
  {
    if '0' <= c <= '9' then c as int - '0' as int else c as int - 'A' as int + 10
  }

  /** The byte with the given high and low nibbles. */
  function ByteOf(hi: nat, lo: nat): (b: Byte)
    requires hi < 16 && lo < 16
    ensures b as int / 16 == hi && b as int % 16 == lo
  {
    (hi * 16 + lo) as Byte
  }

  /** Reading an upper-case digit back gives its value. */
  lemma HexValueOfDigit(d: nat)
    requires d < 16
    ensures IsUpperHexDigit(UpperHexDigits[d]) && HexValue(UpperHexDigits[d]) == d
  {
    assert UpperHexDigits[d] as int == if d < 10 then '0' as int + d else 'A' as int + d - 10;
  }

  lemma ByteOfNibbles(b: Byte)
    ensures ByteOf(b as int / 16, b as int % 16) == b
  {
  }

  /** Reads a code back into the bytes it was made from. */
  function DecodeHex(s: string): seq<Byte>
    requires IsUpperHex(s)
    decreases |s|
  {
    if s == [] then []
    else [ByteOf(HexValue(s[0]), HexValue(s[1]))] + DecodeHex(s[2..])
  }

  lemma UpperOfLowerDigit(d: nat)
    requires d < 16
    ensures UpperChar(LowerHexDigits[d]) == UpperHexDigits[d]
  {
  }

  lemma ToUpperAppend(a: string, b: string)
    ensures ToUpper(a + b) == ToUpper(a) + ToUpper(b)
  {
  }

  /** Upper-casing the lower-case rendering gives the upper-case rendering. */
  lemma {:induction false} UpperHexIsUpperCasedHex(bytes: seq<Byte>)
    ensures ToUpper(HexLower(bytes)) == HexUpper(bytes)
  {
    if bytes != [] {
      var b := bytes[0] as int;
      var head := [LowerHexDigits[b / 16], LowerHexDigits[b % 16]];
      ToUpperAppend(head, HexLower(bytes[1..]));
      UpperOfLowerDigit(b / 16);
      UpperOfLowerDigit(b % 16);
      assert ToUpper(head) == [UpperHexDigits[b / 16], UpperHexDigits[b % 16]];
      UpperHexIsUpperCasedHex(bytes[1..]);
    }
  }

  lemma {:induction false} HexUpperWellFormed(bytes: seq<Byte>)
    ensures |HexUpper(bytes)| == 2 * |bytes|
    ensures IsUpperHex(HexUpper(bytes))
  {
    if bytes != [] {
      HexUpperWellFormed(bytes[1..]);
      var b := bytes[0] as int;
      assert IsUpperHexDigit(UpperHexDigits[b / 16]) && IsUpperHexDigit(UpperHexDigits[b % 16]);
    }
  }

  lemma {:induction false} DecodeHexUpper(bytes: seq<Byte>)
    ensures IsUpperHex(HexUpper(bytes)) && DecodeHex(HexUpper(bytes)) == bytes
  {
    HexUpperWellFormed(bytes);
    if bytes != [] {
      var s := HexUpper(bytes);
      var b := bytes[0] as int;
      assert s[2..] == HexUpper(bytes[1..]);
      HexValueOfDigit(b / 16);
      HexValueOfDigit(b % 16);
      ByteOfNibbles(bytes[0]);
      DecodeHexUpper(bytes[1..]);
    }
  }

  /** Decoding inverts generation, so distinct bytes give distinct codes. */
  lemma PnrRoundTrip(bytes: seq<Byte>)
    requires |bytes| == 5
    ensures DecodeHex(GeneratePnr(bytes)) == bytes
  {
    UpperHexIsUpperCasedHex(bytes);
    DecodeHexUpper(bytes);
  }

  lemma {:induction false} EncodeDecodeHex(s: string)
    requires IsUpperHex(s)
    ensures |DecodeHex(s)| == |s| / 2 && HexUpper(DecodeHex(s)) == s
    decreases |s|
  {
    if s != [] {
      var b := ByteOf(HexValue(s[0]), HexValue(s[1]));
      var rest := s[2..];
      assert IsUpperHex(rest) by {
        assert forall i :: 0 <= i < |rest| ==> rest[i] == s[i + 2];
      }
      EncodeDecodeHex(rest);
      var d := DecodeHex(s);
      assert d[0] == b && d[1..] == DecodeHex(rest);
      assert HexUpper(d) == [s[0], s[1]] + rest;
    }
  }

  /** Every ten-character upper-case hexadecimal string is the code of some bytes. */
  lemma PnrOnto(s: string)
    requires IsPnr(s)
    ensures |DecodeHex(s)| == 5 && GeneratePnr(DecodeHex(s)) == s
  {
    EncodeDecodeHex(s);
    UpperHexIsUpperCasedHex(DecodeHex(s));
  }
}
