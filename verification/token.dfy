/** Share-link tokens of lib/utils/token.ts: random bytes rendered as
    lower-case hexadecimal, and the format check applied to incoming tokens. */
module Token {
  import opened Wrappers

  newtype byte = x: int | 0 <= x < 256

  const HEX_DIGITS: string := "0123456789abcdef"

  /** A character of the class `[a-f0-9]`. */
  predicate IsHexChar(c: char) {
    ('0' <= c <= '9') || ('a' <= c <= 'f')
  }

  function HexDigit(n: int): (c: char)
    requires 0 <= n < 16
    ensures IsHexChar(c)
  {
    HEX_DIGITS[n]
  }

  function HexValue(c: char): (n: int)
    requires IsHexChar(c)
    ensures 0 <= n < 16 && HexDigit(n) == c
  {
    if '0' <= c <= '9' then c as int - '0' as int else c as int - 'a' as int + 10
  }

  lemma HexDigitValue(n: int)
    requires 0 <= n < 16
    ensures HexValue(HexDigit(n)) == n
  {
  }

  /** `Buffer.toString("hex")`: two lower-case digits per byte, high nibble first. */
  function HexEncode(bytes: seq<byte>): (s: string)
    ensures |s| == 2 * |bytes|
    ensures forall i :: 0 <= i < |s| ==> IsHexChar(s[i])
  {
    if |bytes| == 0 then ""
    else
      var b := bytes[0] as int;
      [HexDigit(b / 16), HexDigit(b % 16)] + HexEncode(bytes[1..])
  }

  /** Byte `i` becomes characters `2i` (high nibble) and `2i + 1` (low nibble). */
  lemma {:induction false} HexEncodeAt(bytes: seq<byte>, i: int)
    requires 0 <= i < |bytes|
    ensures HexEncode(bytes)[2 * i] == HexDigit(bytes[i] as int / 16)
    ensures HexEncode(bytes)[2 * i + 1] == HexDigit(bytes[i] as int % 16)
  {
    if i > 0 {
      HexEncodeAt(bytes[1..], i - 1);
      assert HexEncode(bytes)[2..] == HexEncode(bytes[1..]);
    }
  }

  /** Reading a lower-case hexadecimal string back into bytes; None for an
      odd length or a character outside `[a-f0-9]`. */
  function HexDecode(s: string): (r: Option<seq<byte>>)
    ensures r.Some? ==> 2 * |r.value| == |s|
    decreases |s|
  {
    if |s| == 0 then Some([])
    else if |s| == 1 || !IsHexChar(s[0]) || !IsHexChar(s[1]) then None
    else
      match HexDecode(s[2..])
      case None => None
      case Some(rest) => Some([(HexValue(s[0]) * 16 + HexValue(s[1])) as byte] + rest)
  }

  /** Decoding an encoding gives the bytes back. */
  lemma {:induction false} HexRoundTrip(bytes: seq<byte>)
    ensures HexDecode(HexEncode(bytes)) == Some(bytes)
  {
    if |bytes| > 0 {
      var s := HexEncode(bytes);
      assert s[2..] == HexEncode(bytes[1..]);
      HexRoundTrip(bytes[1..]);
      var b := bytes[0] as int;
      HexDigitValue(b / 16);
      HexDigitValue(b % 16);
      assert [bytes[0]] + bytes[1..] == bytes;
    }
  }

  /** Encoding a decoding gives the string back: the decodable strings are
      exactly the encodings. */
  lemma {:induction false} HexDecodeEncode(s: string)
    requires HexDecode(s).Some?
    ensures HexEncode(HexDecode(s).value) == s
    decreases |s|
  {
    if |s| > 0 {
      var rest := HexDecode(s[2..]).value;
      HexDecodeEncode(s[2..]);
      var hi, lo := HexValue(s[0]), HexValue(s[1]);
      var b := (hi * 16 + lo) as byte;
      assert b as int / 16 == hi && b as int % 16 == lo;
      var e := HexEncode([b] + rest);
      assert ([b] + rest)[1..] == rest;
      assert e == [s[0], s[1]] + s[2..];
    }
  }

  /** The regular expression `^[a-f0-9]{64}$`: exactly 64 characters, each
      a digit or one of a to f. */
  predicate ValidTokenFormat(token: string) {
    |token| == 64 && forall i :: 0 <= i < |token| ==> IsHexChar(token[i])
  }

  /** `isValidTokenFormat`, as a scan over the characters. */
  method IsValidTokenFormat(token: string) returns (ok: bool)
    ensures ok <==> ValidTokenFormat(token)
  {
    if |token| != 64 {
      return false;
    }
    var i := 0;
    while i < |token|
      invariant 0 <= i <= |token|
      invariant forall k :: 0 <= k < i ==> IsHexChar(token[k])
    {
      if !IsHexChar(token[i]) {
        return false;
      }
      i := i + 1;
    }
    return true;
  }

  /** `generateToken`: the hexadecimal rendering of the `length` random bytes
      the caller draws (32 by default). */
  function GenerateToken(randomBytes: seq<byte>): (token: string)
    ensures |token| == 2 * |randomBytes|
    ensures HexDecode(token) == Some(randomBytes)
  {
    HexRoundTrip(randomBytes);
    HexEncode(randomBytes)
  }

  /** A generated token passes the format check exactly when it was drawn
      from the default 32 bytes. */
  lemma GeneratedTokenValid(randomBytes: seq<byte>)
    ensures ValidTokenFormat(GenerateToken(randomBytes)) <==> |randomBytes| == 32
  {
  }

  /** Every well-formed token is the rendering of some 32 bytes. */
  lemma ValidTokenIsGenerated(token: string)
    requires ValidTokenFormat(token)
    ensures HexDecode(token).Some? && |HexDecode(token).value| == 32
    ensures GenerateToken(HexDecode(token).value) == token
  {
    AllHexDecodes(token);
    HexDecodeEncode(token);
  }

  /** A string of even length over `[a-f0-9]` decodes. */
  lemma {:induction false} AllHexDecodes(s: string)
    requires |s| % 2 == 0 && forall i :: 0 <= i < |s| ==> IsHexChar(s[i])
    ensures HexDecode(s).Some?
    decreases |s|
  {
    if |s| > 0 {
      AllHexDecodes(s[2..]);
    }
  }
}
