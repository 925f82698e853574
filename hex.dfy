/**
 * Lowercase base 16 (the alphabet of section 8 of RFC 4648, in lower case): each byte
 * becomes `byte.toString(16).padStart(2, '0')`, and the pieces are joined with no separator.
 * This is how the API-token endpoint prints its random tokens and their SHA-256 digests.
 */
module Hex {
  import opened Wrappers

  newtype byte = x: int | 0 <= x < 256

  predicate IsHexDigit(c: char)
  {
    '0' <= c <= '9' || 'a' <= c <= 'f'
  }

  /** The digit for a value 0..15: `0`..`9`, then `a`..`f`. */
  function Digit(n: int): (c: char)
    requires 0 <= n < 16
    ensures IsHexDigit(c)
  {
    if n < 10 then (48 + n) as char else (87 + n) as char
  }

  /** The value of a digit, the inverse of `Digit`; nothing for any other character. */
  function DigitValue(c: char): (r: Option<int>)
    ensures r.Some? <==> IsHexDigit(c)
    ensures r.Some? ==> 0 <= r.value < 16 && Digit(r.value) == c
  {
    if '0' <= c <= '9' then Some(c as int - 48)
    else if 'a' <= c <= 'f' then Some(c as int - 87)
    else None
  }

  lemma DigitValueOfDigit(n: int)
    requires 0 <= n < 16
    ensures DigitValue(Digit(n)) == Some(n)
  {
  }

  /** `n.toString(16)`: the shortest lowercase base-16 numeral of `n`. */
  function ToHexString(n: nat): (s: string)
    ensures |s| >= 1
    ensures forall i :: 0 <= i < |s| ==> IsHexDigit(s[i])
  {
    if n < 16 then [Digit(n)] else ToHexString(n / 16) + [Digit(n % 16)]
  }

  /** `s.padStart(len, c)`. */
  function PadStart(s: string, len: nat, c: char): (r: string)
    ensures |r| == if |s| >= len then |s| else len
    decreases len - |s|
  {
    if |s| >= len then s else PadStart([c] + s, len, c)
  }

  /** One byte as the token code prints it. */
  function ByteHex(b: byte): string
  {
    PadStart(ToHexString(b as nat), 2, '0')
  }

  /** Every byte prints as exactly two digits: the high nibble, then the low one. */
  lemma {:induction false} ByteHexDigits(b: byte)
    ensures ByteHex(b) == [Digit(b as int / 16), Digit(b as int % 16)]
  {
    var n := b as nat;
    if n < 16 {
      assert ToHexString(n) == [Digit(n)];
      assert PadStart([Digit(n)], 2, '0') == PadStart(['0', Digit(n)], 2, '0');
    } else {
      assert n / 16 < 16;
      assert ToHexString(n) == [Digit(n / 16)] + [Digit(n % 16)];
    }
  }

  /** `Array.from(bytes, b => ...).join('')`. */
  function Encode(bytes: seq<byte>): (s: string)
    ensures |s| == 2 * |bytes|
    ensures forall i :: 0 <= i < |s| ==> IsHexDigit(s[i])
  {
    if bytes == [] then ""
    else
      ByteHexDigits(bytes[0]);
      ByteHex(bytes[0]) + Encode(bytes[1..])
  }

  /** Byte `i` occupies characters `2i` and `2i+1`, high nibble first. */
  lemma {:induction false} EncodeAt(bytes: seq<byte>, i: int)
    requires 0 <= i < |bytes|
    ensures Encode(bytes)[2 * i] == Digit(bytes[i] as int / 16)
    ensures Encode(bytes)[2 * i + 1] == Digit(bytes[i] as int % 16)
  {
    ByteHexDigits(bytes[0]);
    if i > 0 {
      EncodeAt(bytes[1..], i - 1);
    }
  }

  /** Reading pairs of digits back into bytes; nothing for odd length or a non-digit. */
  function Decode(s: string): Option<seq<byte>>
  {
    if |s| == 0 then Some([])
    else if |s| == 1 then None
    else match (DigitValue(s[0]), DigitValue(s[1]), Decode(s[2..]))
      case (Some(hi), Some(lo), Some(rest)) => Some([(hi * 16 + lo) as byte] + rest)
      case _ => None
  }

  /** Decoding undoes encoding. */
  lemma {:induction false} DecodeEncode(bytes: seq<byte>)
    ensures Decode(Encode(bytes)) == Some(bytes)
  {
    if bytes != [] {
      var b := bytes[0];
      ByteHexDigits(b);
      var s := Encode(bytes);
      assert s == [Digit(b as int / 16), Digit(b as int % 16)] + Encode(bytes[1..]);
      assert s[2..] == Encode(bytes[1..]);
      DigitValueOfDigit(b as int / 16);
      DigitValueOfDigit(b as int % 16);
      DecodeEncode(bytes[1..]);
      assert [((b as int / 16) * 16 + b as int % 16) as byte] + bytes[1..] == bytes;
    }
  }

  /** Different byte strings never print the same. */
  lemma EncodeInjective(a: seq<byte>, b: seq<byte>)
    requires Encode(a) == Encode(b)
    ensures a == b
  {
    DecodeEncode(a);
    DecodeEncode(b);
  }
}
