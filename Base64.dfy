/**
 * Base 64 as the admin login uses it: the browser's `btoa` (the encoding of
 * section 4 of RFC 4648, with `=` padding, over Latin-1 characters) and
 * Node's `Buffer.from(text, 'base64').toString('ascii')` on the server.
 */
module Base64 {
  import opened Optional

  type Byte = x: int | 0 <= x < 256
  type Sextet = x: int | 0 <= x < 64

  /** The alphabet of Table 1 in section 4 of RFC 4648. */
  function EncodeSextet(v: Sextet): (c: char)
    ensures c != '=' && c != ' ' && c != ':'
  {
    if v < 26 then ('A' as int + v) as char
    else if v < 52 then ('a' as int + (v - 26)) as char
    else if v < 62 then ('0' as int + (v - 52)) as char
    else if v == 62 then '+'
    else '/'
  }

  /**
   * Node's decoding table: the RFC 4648 alphabet, and also `-` and `_` of
   * the URL-safe alphabet; any other character has no value.
   */
  function DecodeChar(c: char): (r: Option<Sextet>)
    ensures c == '=' ==> r.None?
  {
    if 'A' <= c <= 'Z' then Some(c as int - 'A' as int)
    else if 'a' <= c <= 'z' then Some(c as int - 'a' as int + 26)
    else if '0' <= c <= '9' then Some(c as int - '0' as int + 52)
    else if c == '+' || c == '-' then Some(62)
    else if c == '/' || c == '_' then Some(63)
    else None
  }

  lemma DecodeEncodeSextet(v: Sextet)
    ensures DecodeChar(EncodeSextet(v)) == Some(v)
  {
  }

  /** Each group of three bytes becomes four sextets; a final one or two bytes become two or three. */
  function ToSextets(b: seq<Byte>): (s: seq<Sextet>)
    ensures |s| == (4 * |b| + 2) / 3
  {
    if |b| == 0 then []
    else if |b| == 1 then [b[0] / 4, (b[0] % 4) * 16]
    else if |b| == 2 then [b[0] / 4, (b[0] % 4) * 16 + b[1] / 16, (b[1] % 16) * 4]
    else
      [b[0] / 4, (b[0] % 4) * 16 + b[1] / 16, (b[1] % 16) * 4 + b[2] / 64, b[2] % 64]
      + ToSextets(b[3..])
  }

  function EncodeSextets(s: seq<Sextet>): (t: string)
    ensures |t| == |s|
    ensures forall k :: 0 <= k < |t| ==> t[k] == EncodeSextet(s[k])
  {
    if |s| == 0 then "" else [EncodeSextet(s[0])] + EncodeSextets(s[1..])
  }

  /** The `=` characters that fill the last quantum to four characters. */
  function Padding(n: nat): (p: string)
    ensures forall k :: 0 <= k < |p| ==> p[k] == '='
    ensures p == "" || p[0] == '='
  {
    if n % 3 == 1 then "==" else if n % 3 == 2 then "=" else ""
  }

  /** The sextets and the padding fill whole quanta of four characters. */
  lemma PaddedLength(n: nat)
    ensures (4 * n + 2) / 3 + |Padding(n)| == 4 * ((n + 2) / 3)
  {
    var q, r := n / 3, n % 3;
    assert n == 3 * q + r;
    assert 4 * n + 2 == 3 * (4 * q + r) + (r + 2);
    if r == 0 {
      assert (4 * n + 2) / 3 == 4 * q && (n + 2) / 3 == q;
    } else if r == 1 {
      assert (4 * n + 2) / 3 == 4 * q + 2 && (n + 2) / 3 == q + 1;
    } else {
      assert (4 * n + 2) / 3 == 4 * q + 3 && (n + 2) / 3 == q + 1;
    }
  }

  /** The base 64 encoding of section 4 of RFC 4648. */
  function Encode(b: seq<Byte>): (t: string)
    ensures |t| == 4 * ((|b| + 2) / 3)
    ensures forall k :: 0 <= k < |t| ==> t[k] != ' ' && t[k] != ':'
  {
    var chars, pad := EncodeSextets(ToSextets(b)), Padding(|b|);
    PaddedLength(|b|);
    var t := chars + pad;
    assert forall k :: 0 <= k < |chars| ==> t[k] == chars[k];
    assert forall k :: |chars| <= k < |t| ==> t[k] == pad[k - |chars|];
    t
  }

  /**
   * Node's decoder: characters without a value are skipped, and decoding
   * stops at the first `=`.
   */
  function CharsToSextets(t: string): seq<Sextet> {
    if |t| == 0 || t[0] == '=' then []
    else
      match DecodeChar(t[0])
      case None => CharsToSextets(t[1..])
      case Some(v) => [v] + CharsToSextets(t[1..])
  }

  /** Four sextets give three bytes; a final two or three give one or two; a single one gives none. */
  function FromSextets(s: seq<Sextet>): seq<Byte> {
    if |s| < 2 then []
    else if |s| == 2 then [s[0] as int * 4 + s[1] / 16]
    else if |s| == 3 then [s[0] as int * 4 + s[1] / 16, (s[1] % 16) as int * 16 + s[2] / 4]
    else
      [s[0] as int * 4 + s[1] / 16, (s[1] % 16) as int * 16 + s[2] / 4, (s[2] % 4) as int * 64 + s[3]]
      + FromSextets(s[4..])
  }

  /** `Buffer.from(t, 'base64')`. */
  function NodeDecode(t: string): seq<Byte> {
    FromSextets(CharsToSextets(t))
  }

  /** `buf.toString('ascii')`: the high bit of each byte is cleared. */
  function AsciiString(b: seq<Byte>): (s: string)
    ensures |s| == |b| && forall k :: 0 <= k < |b| ==> s[k] as int == b[k] % 128
  {
    seq(|b|, k requires 0 <= k < |b| => (b[k] % 128) as char)
  }

  predicate IsLatin1(s: string) {
    forall k :: 0 <= k < |s| ==> s[k] as int < 256
  }

  predicate IsAscii(s: string) {
    forall k :: 0 <= k < |s| ==> s[k] as int < 128
  }

  /** Both character classes are closed under concatenation, and only concatenations of members belong. */
  lemma Latin1Append(a: string, b: string)
    ensures IsLatin1(a + b) <==> IsLatin1(a) && IsLatin1(b)
    ensures IsAscii(a + b) <==> IsAscii(a) && IsAscii(b)
  {
    var ab := a + b;
    assert forall k :: 0 <= k < |a| ==> ab[k] == a[k];
    assert forall k :: 0 <= k < |b| ==> ab[|a| + k] == b[k];
    assert forall k :: |a| <= k < |ab| ==> ab[k] == b[k - |a|];
  }

  function Latin1Bytes(s: string): (b: seq<Byte>)
    requires IsLatin1(s)
    ensures |b| == |s| && forall k :: 0 <= k < |s| ==> b[k] == s[k] as int
  {
    seq(|s|, k requires 0 <= k < |s| => s[k] as int)
  }

  /** `btoa(s)`: absent when `s` holds a character above U+00FF (the call throws). */
  function Btoa(s: string): (r: Option<string>)
    ensures r.Some? <==> IsLatin1(s)
  {
    if IsLatin1(s) then Some(Encode(Latin1Bytes(s))) else None
  }

  // ---------------------------------------------------------------------------
  // round trip

  lemma GroupRoundTrip(b0: Byte, b1: Byte, b2: Byte)
    ensures b0 / 4 * 4 + ((b0 % 4) * 16 + b1 / 16) / 16 == b0
    ensures (((b0 % 4) * 16 + b1 / 16) % 16) * 16 + ((b1 % 16) * 4 + b2 / 64) / 4 == b1
    ensures (((b1 % 16) * 4 + b2 / 64) % 4) * 64 + b2 % 64 == b2
  {
  }

  lemma {:induction false} FromToSextets(b: seq<Byte>)
    ensures FromSextets(ToSextets(b)) == b
  {
    if |b| == 1 {
      OneByteRoundTrip(b[0]);
      assert b == [b[0]];
    } else if |b| == 2 {
      TwoBytesRoundTrip(b[0], b[1]);
      assert b == [b[0], b[1]];
    } else if |b| >= 3 {
      var b0, b1, b2, tail := b[0], b[1], b[2], b[3..];
      FromToSextets(tail);
      assert ToSextets(b) == [b0 / 4, (b0 % 4) * 16 + b1 / 16, (b1 % 16) * 4 + b2 / 64, b2 % 64] + ToSextets(tail);
      GroupDecodes(b0, b1, b2, ToSextets(tail));
      assert b == [b0, b1, b2] + tail;
    }
  }

  lemma OneByteRoundTrip(b0: Byte)
    ensures FromSextets(ToSextets([b0])) == [b0]
  {
    GroupRoundTrip(b0, 0, 0);
  }

  lemma TwoBytesRoundTrip(b0: Byte, b1: Byte)
    ensures FromSextets(ToSextets([b0, b1])) == [b0, b1]
  {
    GroupRoundTrip(b0, b1, 0);
  }

  /** A full quantum in front of further sextets decodes to its three bytes in front of theirs. */
  lemma GroupDecodes(b0: Byte, b1: Byte, b2: Byte, rest: seq<Sextet>)
    ensures FromSextets([b0 / 4, (b0 % 4) * 16 + b1 / 16, (b1 % 16) * 4 + b2 / 64, b2 % 64] + rest)
      == [b0, b1, b2] + FromSextets(rest)
  {
    var s: seq<Sextet> := [b0 / 4, (b0 % 4) * 16 + b1 / 16, (b1 % 16) * 4 + b2 / 64, b2 % 64] + rest;
    GroupRoundTrip(b0, b1, b2);
    assert s[4..] == rest;
  }

  lemma {:induction false} SextetsOfEncoding(s: seq<Sextet>, pad: string)
    requires pad == "" || pad[0] == '='
    ensures CharsToSextets(EncodeSextets(s) + pad) == s
  {
    if |s| == 0 {
      assert EncodeSextets(s) + pad == pad;
    } else {
      var t := EncodeSextets(s) + pad;
      DecodeEncodeSextet(s[0]);
      assert t[1..] == EncodeSextets(s[1..]) + pad;
      SextetsOfEncoding(s[1..], pad);
    }
  }

  /** Node's decoder inverts the RFC 4648 encoder. */
  lemma DecodeEncode(b: seq<Byte>)
    ensures NodeDecode(Encode(b)) == b
  {
    SextetsOfEncoding(ToSextets(b), Padding(|b|));
    FromToSextets(b);
  }

  /** ASCII text survives `btoa` followed by Node's decode and `toString('ascii')`. */
  lemma AsciiRoundTrip(s: string)
    requires IsAscii(s)
    ensures Btoa(s).Some? && AsciiString(NodeDecode(Btoa(s).value)) == s
  {
    var b := Latin1Bytes(s);
    DecodeEncode(b);
    AsciiOfBytes(s, b);
  }

  /** Clearing the high bit of an ASCII string's own bytes gives the string back. */
  lemma AsciiOfBytes(s: string, b: seq<Byte>)
    requires IsAscii(s) && |b| == |s| && forall k :: 0 <= k < |s| ==> b[k] == s[k] as int
    ensures AsciiString(b) == s
  {
    var a := AsciiString(b);
    assert forall k :: 0 <= k < |s| ==> a[k] == s[k] by {
      forall k | 0 <= k < |s|
        ensures a[k] == s[k]
      {
        assert a[k] as int == s[k] as int;
      }
    }
  }
}
