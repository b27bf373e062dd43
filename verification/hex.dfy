/**
 * The web-response cache names each cached response after the digest of
 * its URL, written as lowercase hexadecimal, two digits per byte.
 */
module Hex {
  import opened Wrappers

  /** A Java `byte`: signed, eight bits. */
  newtype JavaByte = x: int | -128 <= x < 128

  /** `0xFF & b`: the byte's bits read as an unsigned number. */
  function Unsigned(b: JavaByte): (n: nat)
    ensures n < 256
    ensures b >= 0 ==> n == b as int
    ensures b < 0 ==> n == b as int + 256
  {
    (b as int) % 256
  }

  /** The lowercase digit `Integer.toHexString` uses. */
  function HexDigit(d: nat): (c: char)
    requires d < 16
  {
    if d < 10 then ('0' as int + d) as char else ('a' as int + d - 10) as char
  }

  /** The value of a lowercase hexadecimal digit. */
  function DigitValue(c: char): int
  {
    if '0' <= c <= '9' then c as int - '0' as int
    else if 'a' <= c <= 'f' then c as int - 'a' as int + 10
    else -1
  }

  lemma DigitRoundTrip(d: nat)
    requires d < 16
    ensures DigitValue(HexDigit(d)) == d
  {
  }

  /** `Integer.toHexString` of a number below 256: no leading zero, so one digit below 16. */
  function ToHexString(n: nat): (s: string)
    requires n < 256
    ensures |s| == (if n < 16 then 1 else 2)
  {
    if n < 16 then [HexDigit(n)] else [HexDigit(n / 16), HexDigit(n % 16)]
  }

  /** One byte as the loop writes it: a '0' first when the hex text has one digit. */
  function Padded(b: JavaByte): string
  {
    var hex := ToHexString(Unsigned(b));
    (if |hex| == 1 then "0" else "") + hex
  }

  /** Reference: the byte's two digits, high nibble first, as in section 8 of RFC 4648 with lowercase letters. */
  function Pair(b: JavaByte): string
  {
    [HexDigit(Unsigned(b) / 16), HexDigit(Unsigned(b) % 16)]
  }

  /** The padding makes every byte exactly its two-digit pair. */
  lemma PaddedIsPair(b: JavaByte)
    ensures Padded(b) == Pair(b)
  {
  }

  /** Reference encoding of a byte sequence: the pairs of the bytes, in order. */
  function Base16(bytes: seq<JavaByte>): string
  {
    if |bytes| == 0 then "" else Base16(bytes[..|bytes| - 1]) + Pair(bytes[|bytes| - 1])
  }

  /** Two characters per byte; characters `2i` and `2i+1` encode byte `i`. */
  lemma {:induction false} Base16Spec(bytes: seq<JavaByte>)
    ensures |Base16(bytes)| == 2 * |bytes|
    ensures forall i :: 0 <= i < |bytes| ==> Base16(bytes)[2 * i..2 * i + 2] == Pair(bytes[i])
  {
    if |bytes| > 0 {
      var init := bytes[..|bytes| - 1];
      Base16Spec(init);
      var h := Base16(bytes);
      forall i | 0 <= i < |bytes|
        ensures h[2 * i..2 * i + 2] == Pair(bytes[i])
      {
        if i < |init| {
          assert h[2 * i..2 * i + 2] == Base16(init)[2 * i..2 * i + 2];
        }
      }
    }
  }

  /** `asHex`: null for a null array, otherwise every byte as two lowercase digits. */
  method AsHex(bytes: Option<seq<JavaByte>>) returns (r: Option<string>)
    ensures bytes.None? <==> r.None?
    ensures bytes.Some? ==> r == Some(Base16(bytes.value))
  {
    if bytes.None? {
      return None;
    }
    var bs := bytes.value;
    var hexString := "";
    var index := 0;
    while index < |bs|
      invariant 0 <= index <= |bs|
      invariant hexString == Base16(bs[..index])
    {
      var hex := ToHexString(Unsigned(bs[index]));
      if |hex| == 1 {
        hexString := hexString + "0";
      }
      hexString := hexString + hex;
      PaddedIsPair(bs[index]);
      assert bs[..index + 1][..index] == bs[..index];
      index := index + 1;
    }
    assert bs[..index] == bs;
    return Some(hexString);
  }

  /** Every character is a lowercase hexadecimal digit. */
  predicate IsHex(hex: string)
  {
    forall k :: 0 <= k < |hex| ==> 0 <= DigitValue(hex[k]) < 16
  }

  /** The signed byte whose unsigned value is `n`. */
  function Signed(n: nat): JavaByte
    requires n < 256
  {
    (if n < 128 then n else n - 256) as JavaByte
  }

  /** Decoding reference: each pair of digits, from the end, back to the signed byte it encodes; a lone leading digit is dropped. */
  function Decode(hex: string): seq<JavaByte>
    requires IsHex(hex)
  {
    if |hex| < 2 then []
    else Decode(hex[..|hex| - 2]) + [Signed(16 * DigitValue(hex[|hex| - 2]) + DigitValue(hex[|hex| - 1]))]
  }

  /** A byte's pair is two digits that decode back to the byte. */
  lemma PairDecodes(b: JavaByte)
    ensures IsHex(Pair(b))
    ensures Signed(16 * DigitValue(Pair(b)[0]) + DigitValue(Pair(b)[1])) == b
  {
    DigitRoundTrip(Unsigned(b) / 16);
    DigitRoundTrip(Unsigned(b) % 16);
  }

  lemma HexAppend(a: string, b: string)
    requires IsHex(a) && IsHex(b)
    ensures IsHex(a + b)
  {
    assert forall k :: 0 <= k < |b| ==> (a + b)[|a| + k] == b[k];
  }

  /** Decoding a text with two more digits decodes those two as one more byte. */
  lemma DecodeSnoc(a: string, p: string)
    requires IsHex(a) && |p| == 2 && IsHex(p)
    ensures IsHex(a + p)
    ensures Decode(a + p) == Decode(a) + [Signed(16 * DigitValue(p[0]) + DigitValue(p[1]))]
  {
    HexAppend(a, p);
    var h := a + p;
    assert h[..|h| - 2] == a;
    assert h[|h| - 2] == p[0] && h[|h| - 1] == p[1];
  }

  /** The digest text determines the digest: decoding gives back every byte. */
  lemma {:induction false} Base16RoundTrip(bytes: seq<JavaByte>)
    ensures IsHex(Base16(bytes)) && Decode(Base16(bytes)) == bytes
  {
    if |bytes| > 0 {
      var init := bytes[..|bytes| - 1];
      var b := bytes[|bytes| - 1];
      Base16RoundTrip(init);
      PairDecodes(b);
      DecodeSnoc(Base16(init), Pair(b));
      assert bytes == init + [b];
    }
  }
}
