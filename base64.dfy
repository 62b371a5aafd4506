/** `btoa` over bytes and `atob`, with the alphabet of section 4 of RFC 4648
    and the padded output `btoa` produces; `atob` follows the forgiving
    decoder of the HTML standard: ASCII whitespace is dropped, padding is
    optional, a length of 1 modulo 4 and any character outside the alphabet
    are errors. */
module Base64 {
  import opened Wrappers

  type byte = x: int | 0 <= x < 256

  // ---------------------------------------------------------------------------
  // The alphabet

  predicate IsBase64Char(c: char) {
    ('A' <= c <= 'Z') || ('a' <= c <= 'z') || ('0' <= c <= '9') || c == '+' || c == '/'
  }

  /** The character for a 6-bit value: A-Z, a-z, 0-9, '+', '/' */
  function EncodeChar(v: int): (c: char)
    requires 0 <= v < 64
    ensures IsBase64Char(c)
  {
    if v < 26 then ('A' as int + v) as char
    else if v < 52 then ('a' as int + (v - 26)) as char
    else if v < 62 then ('0' as int + (v - 52)) as char
    else if v == 62 then '+'
    else '/'
  }

  /** The 6-bit value of an alphabet character */
  function DecodeChar(c: char): (v: int)
    requires IsBase64Char(c)
    ensures 0 <= v < 64
  {
    if 'A' <= c <= 'Z' then c as int - 'A' as int
    else if 'a' <= c <= 'z' then c as int - 'a' as int + 26
    else if '0' <= c <= '9' then c as int - '0' as int + 52
    else if c == '+' then 62
    else 63
  }

  /** The alphabet is a bijection onto the 6-bit values. */
  lemma DecodeEncodeChar(v: int)
    requires 0 <= v < 64
    ensures DecodeChar(EncodeChar(v)) == v
  {
  }

  predicate AllBase64(s: string) {
    forall i :: 0 <= i < |s| ==> IsBase64Char(s[i])
  }

  // ---------------------------------------------------------------------------
  // Encoding

  /** Three bytes as four characters */
  function EncodeThree(b0: byte, b1: byte, b2: byte): string {
    [EncodeChar(b0 / 4), EncodeChar((b0 % 4) * 16 + b1 / 16), EncodeChar((b1 % 16) * 4 + b2 / 64), EncodeChar(b2 % 64)]
  }

  /** A final single byte as two characters */
  function EncodeOne(b0: byte): string {
    [EncodeChar(b0 / 4), EncodeChar((b0 % 4) * 16)]
  }

  /** A final pair of bytes as three characters */
  function EncodeTwo(b0: byte, b1: byte): string {
    [EncodeChar(b0 / 4), EncodeChar((b0 % 4) * 16 + b1 / 16), EncodeChar((b1 % 16) * 4)]
  }

  /** The characters of the encoding before the padding */
  function Unpadded(b: seq<byte>): string
    decreases |b|
  {
    if |b| >= 3 then EncodeThree(b[0], b[1], b[2]) + Unpadded(b[3..])
    else if |b| == 2 then EncodeTwo(b[0], b[1])
    else if |b| == 1 then EncodeOne(b[0])
    else []
  }

  /** The `=` that fill the last group of four characters */
  function Padding(n: nat): string {
    if n % 3 == 1 then ['=', '='] else if n % 3 == 2 then ['='] else []
  }

  /** `btoa(String.fromCharCode(...bytes))` */
  function Encode(b: seq<byte>): string {
    Unpadded(b) + Padding(|b|)
  }

  // ---------------------------------------------------------------------------
  // Decoding

  predicate IsAsciiWs(c: char) {
    c == '\t' || c == '\n' || c as int == 12 || c == '\r' || c == ' '
  }

  /** The string without ASCII whitespace */
  function RemoveAsciiWs(s: string): (r: string)
    ensures |r| <= |s|
    decreases |s|
  {
    if s == [] then []
    else if IsAsciiWs(s[0]) then RemoveAsciiWs(s[1..])
    else [s[0]] + RemoveAsciiWs(s[1..])
  }

  /** Up to two `=` removed, when the length is a multiple of four */
  function StripPadding(s: string): string {
    if |s| % 4 == 0 && |s| >= 2 && s[|s| - 2] == '=' && s[|s| - 1] == '=' then s[..|s| - 2]
    else if |s| % 4 == 0 && |s| >= 1 && s[|s| - 1] == '=' then s[..|s| - 1]
    else s
  }

  /** Four characters as three bytes */
  function DecodeFour(c0: char, c1: char, c2: char, c3: char): seq<byte>
    requires IsBase64Char(c0) && IsBase64Char(c1) && IsBase64Char(c2) && IsBase64Char(c3)
  {
    var d0, d1, d2, d3 := DecodeChar(c0), DecodeChar(c1), DecodeChar(c2), DecodeChar(c3);
    [d0 * 4 + d1 / 16, (d1 % 16) * 16 + d2 / 4, (d2 % 4) * 64 + d3]
  }

  /** Two final characters as one byte; the 4 bits left over are dropped */
  function DecodeTwo(c0: char, c1: char): seq<byte>
    requires IsBase64Char(c0) && IsBase64Char(c1)
  {
    [DecodeChar(c0) * 4 + DecodeChar(c1) / 16]
  }

  /** Three final characters as two bytes; the 2 bits left over are dropped */
  function DecodeThree(c0: char, c1: char, c2: char): seq<byte>
    requires IsBase64Char(c0) && IsBase64Char(c1) && IsBase64Char(c2)
  {
    var d0, d1, d2 := DecodeChar(c0), DecodeChar(c1), DecodeChar(c2);
    [d0 * 4 + d1 / 16, (d1 % 16) * 16 + d2 / 4]
  }

  /** Whole groups of four characters and a final group of two or three:
      the lengths that are not 1 modulo 4 */
  predicate GroupedLength(n: nat) {
    n == 0 || n == 2 || n == 3 || (n >= 4 && GroupedLength(n - 4))
  }

  lemma {:induction false} GroupedLengthMod(n: nat)
    ensures GroupedLength(n) <==> n % 4 != 1
  {
    if n >= 4 {
      GroupedLengthMod(n - 4);
    }
  }

  /** The bytes of unpadded alphabet characters */
  function DecodeGroups(s: string): seq<byte>
    requires AllBase64(s) && GroupedLength(|s|)
    decreases |s|
  {
    if |s| == 0 then []
    else if |s| == 2 then DecodeTwo(s[0], s[1])
    else if |s| == 3 then DecodeThree(s[0], s[1], s[2])
    else DecodeFour(s[0], s[1], s[2], s[3]) + DecodeGroups(s[4..])
  }

  /** `atob(s)` as bytes; `None` where it throws */
  function Decode(s: string): (r: Option<seq<byte>>)
    ensures r.None? <==> |StripPadding(RemoveAsciiWs(s))| % 4 == 1 || !AllBase64(StripPadding(RemoveAsciiWs(s)))
  {
    var data := StripPadding(RemoveAsciiWs(s));
    GroupedLengthMod(|data|);
    if |data| % 4 == 1 || !AllBase64(data) then None else Some(DecodeGroups(data))
  }

  // ---------------------------------------------------------------------------
  // Round trip

  /** The high part of `x * 16 + h` is `x` */
  lemma HighPart16(x: int, h: int)
    requires 0 <= h < 16 && 0 <= x
    ensures (x * 16 + h) / 16 == x && (x * 16 + h) % 16 == h
  {
  }

  /** The high part of `x * 4 + h` is `x` */
  lemma HighPart4(x: int, h: int)
    requires 0 <= h < 4 && 0 <= x
    ensures (x * 4 + h) / 4 == x && (x * 4 + h) % 4 == h
  {
  }

  /** Decoding a group undoes encoding it. */
  lemma DecodeEncodeThree(b0: byte, b1: byte, b2: byte)
    ensures var s := EncodeThree(b0, b1, b2); DecodeFour(s[0], s[1], s[2], s[3]) == [b0, b1, b2]
  {
    var v0, v1, v2, v3 := b0 / 4, (b0 % 4) * 16 + b1 / 16, (b1 % 16) * 4 + b2 / 64, b2 % 64;
    DecodeEncodeChar(v0);
    DecodeEncodeChar(v1);
    DecodeEncodeChar(v2);
    DecodeEncodeChar(v3);
    HighPart16(b0 % 4, b1 / 16);
    HighPart4(b1 % 16, b2 / 64);
    assert v0 * 4 + v1 / 16 == b0;
    assert (v1 % 16) * 16 + v2 / 4 == b1;
    assert (v2 % 4) * 64 + v3 == b2;
  }

  lemma DecodeEncodeOne(b0: byte)
    ensures var s := EncodeOne(b0); DecodeTwo(s[0], s[1]) == [b0]
  {
    DecodeEncodeChar(b0 / 4);
    DecodeEncodeChar((b0 % 4) * 16);
  }

  lemma DecodeEncodeTwo(b0: byte, b1: byte)
    ensures var s := EncodeTwo(b0, b1); DecodeThree(s[0], s[1], s[2]) == [b0, b1]
  {
    DecodeEncodeChar(b0 / 4);
    DecodeEncodeChar((b0 % 4) * 16 + b1 / 16);
    DecodeEncodeChar((b1 % 16) * 4);
  }

  /** Decoding a whole group in front of more groups */
  lemma DecodeGroupsCons(head: string, tail: string)
    requires |head| == 4 && AllBase64(head) && AllBase64(tail) && GroupedLength(|tail|)
    ensures AllBase64(head + tail) && GroupedLength(|head + tail|)
    ensures DecodeGroups(head + tail) == DecodeFour(head[0], head[1], head[2], head[3]) + DecodeGroups(tail)
  {
    var s := head + tail;
    assert s[4..] == tail;
    assert forall i :: 0 <= i < |s| ==> IsBase64Char(s[i]) by {
      forall i | 0 <= i < |s| ensures IsBase64Char(s[i]) {
        if i >= 4 {
          assert s[i] == tail[i - 4];
        }
      }
    }
  }

  /** The characters before the padding are in the alphabet, in whole
      groups and a final group of two or three. */
  lemma {:induction false} UnpaddedShape(b: seq<byte>)
    ensures AllBase64(Unpadded(b)) && GroupedLength(|Unpadded(b)|)
    decreases |b|
  {
    if |b| >= 3 {
      UnpaddedShape(b[3..]);
      assert Unpadded(b) == EncodeThree(b[0], b[1], b[2]) + Unpadded(b[3..]);
      DecodeGroupsCons(EncodeThree(b[0], b[1], b[2]), Unpadded(b[3..]));
    }
  }

  /** One whole group decoded, given the rest decodes */
  lemma DecodeUnpaddedStep(b: seq<byte>)
    requires |b| >= 3
    requires AllBase64(Unpadded(b[3..])) && GroupedLength(|Unpadded(b[3..])|)
    requires DecodeGroups(Unpadded(b[3..])) == b[3..]
    ensures AllBase64(Unpadded(b)) && GroupedLength(|Unpadded(b)|)
    ensures DecodeGroups(Unpadded(b)) == b
  {
    var head, tail := EncodeThree(b[0], b[1], b[2]), Unpadded(b[3..]);
    assert Unpadded(b) == head + tail;
    DecodeGroupsCons(head, tail);
    DecodeEncodeThree(b[0], b[1], b[2]);
    SplitThree(b);
  }

  lemma SplitThree(b: seq<byte>)
    requires |b| >= 3
    ensures b == [b[0], b[1], b[2]] + b[3..]
  {
  }

  /** Decoding the characters undoes encoding the bytes. */
  lemma {:induction false} DecodeUnpadded(b: seq<byte>)
    ensures AllBase64(Unpadded(b)) && GroupedLength(|Unpadded(b)|)
    ensures DecodeGroups(Unpadded(b)) == b
    decreases |b|
  {
    UnpaddedShape(b);
    if |b| == 1 {
      DecodeEncodeOne(b[0]);
    } else if |b| == 2 {
      DecodeEncodeTwo(b[0], b[1]);
    } else if |b| >= 3 {
      DecodeUnpadded(b[3..]);
      DecodeUnpaddedStep(b);
    }
  }

  /** Encoded text holds no whitespace. */
  lemma {:induction false} NoWsUnchanged(s: string)
    requires forall i :: 0 <= i < |s| ==> !IsAsciiWs(s[i])
    ensures RemoveAsciiWs(s) == s
    decreases |s|
  {
    if s != [] {
      NoWsUnchanged(s[1..]);
    }
  }

  /** The number of groups of three bytes, the last possibly partial */
  function Groups(n: nat): (g: nat)
    ensures 3 * g - 3 < n <= 3 * g
  {
    if n == 0 then 0 else if n <= 3 then 1 else 1 + Groups(n - 3)
  }

  lemma UnpaddedCons(b: seq<byte>)
    requires |b| >= 3
    ensures |Unpadded(b)| == 4 + |Unpadded(b[3..])|
  {
  }

  lemma PaddingPeriodic(n: nat)
    ensures Padding(n + 3) == Padding(n)
  {
    assert (n + 3) % 3 == n % 3;
  }

  /** The encoding has four characters per started group of three bytes. */
  lemma {:induction false} EncodeLength(b: seq<byte>)
    ensures |Encode(b)| == 4 * Groups(|b|)
    decreases |b|
  {
    if |b| > 3 {
      EncodeLength(b[3..]);
      UnpaddedCons(b);
      PaddingPeriodic(|b| - 3);
    } else if |b| == 3 {
      UnpaddedCons(b);
    }
  }

  lemma {:induction false} WholeGroups(g: nat)
    ensures (4 * g) % 4 == 0
  {
    if g > 0 {
      WholeGroups(g - 1);
      assert 4 * g == 4 * (g - 1) + 4;
    }
  }

  /** Padding after alphabet characters is exactly what is stripped. */
  lemma StripPadded(body: string, pad: string)
    requires AllBase64(body) && (pad == [] || pad == ['='] || pad == ['=', '='])
    requires |body + pad| % 4 == 0
    ensures StripPadding(body + pad) == body
  {
    var e := body + pad;
    if pad == ['=', '='] {
      assert e[..|e| - 2] == body;
    } else if pad == ['='] {
      assert e[..|e| - 1] == body;
      assert e[|e| - 2] == body[|body| - 1];
    } else {
      assert e == body;
    }
  }

  /** Alphabet characters and `=` are not whitespace. */
  lemma NoWsInEncoding(b: seq<byte>)
    ensures RemoveAsciiWs(Encode(b)) == Encode(b)
  {
    EncodeAlphabet(b);
    NoWsUnchanged(Encode(b));
  }

  /** `atob(btoa(bytes))` gives the bytes back. */
  lemma DecodeEncode(b: seq<byte>)
    ensures Decode(Encode(b)) == Some(b)
  {
    var body := Unpadded(b);
    EncodeLength(b);
    DecodeUnpadded(b);
    GroupedLengthMod(|body|);
    NoWsInEncoding(b);
    var pad := Padding(|b|);
    assert pad == [] || pad == ['='] || pad == ['=', '='];
    var g := Groups(|b|);
    assert |body + pad| == 4 * g;
    WholeGroups(g);
    StripPadded(body, pad);
  }

  /** The encoding uses the alphabet and `=` only; in particular it has no
      `:`. */
  lemma EncodeAlphabet(b: seq<byte>)
    ensures forall i :: 0 <= i < |Encode(b)| ==> IsBase64Char(Encode(b)[i]) || Encode(b)[i] == '='
  {
    var e, body := Encode(b), Unpadded(b);
    UnpaddedShape(b);
    forall i | 0 <= i < |e| ensures IsBase64Char(e[i]) || e[i] == '=' {
      if i < |body| {
        assert e[i] == body[i];
      }
    }
  }
}
