/** The base64 encoding of section 4 of RFC 4648 (the basic alphabet, with
    '=' padding), as `java.util.Base64.getEncoder()` produces it, and the
    decoder that inverts it. */
module Base64 {
  import opened Wrappers

  type Byte = b: int | 0 <= b < 256

  /** A 6-bit group. */
  type Sextet = s: int | 0 <= s < 64

  const Pad: char := '='

  /** The alphabet of Table 1 of RFC 4648: A-Z, a-z, 0-9, '+', '/'. */
  function Letter(s: Sextet): (c: char)
    ensures c != Pad
  {
    if s < 26 then ('A' as int + s) as char
    else if s < 52 then ('a' as int + (s - 26)) as char
    else if s < 62 then ('0' as int + (s - 52)) as char
    else if s == 62 then '+'
    else '/'
  }

  /** The value of an alphabet letter; none for any other char. */
  function LetterValue(c: char): (r: Option<Sextet>)
    ensures r.Some? ==> Letter(r.value) == c
  {
    if 'A' <= c <= 'Z' then Some(c as int - 'A' as int)
    else if 'a' <= c <= 'z' then Some(c as int - 'a' as int + 26)
    else if '0' <= c <= '9' then Some(c as int - '0' as int + 52)
    else if c == '+' then Some(62)
    else if c == '/' then Some(63)
    else None
  }

  lemma LetterRoundTrip(s: Sextet)
    ensures LetterValue(Letter(s)) == Some(s)
  {
  }

  // ---------------------------------------------------------------------
  // Encoding
  // ---------------------------------------------------------------------

  /** The four letters of a full 24-bit group. */
  function EncodeGroup(b0: Byte, b1: Byte, b2: Byte): string {
    [Letter(b0 / 4), Letter((b0 % 4) * 16 + b1 / 16), Letter((b1 % 16) * 4 + b2 / 64), Letter(b2 % 64)]
  }

  /** The base64 text of `data`: four chars per started 3-byte group, the
      last group padded with '=' (section 4 of RFC 4648). */
  function Encode(data: seq<Byte>): (r: string)
    ensures |r| == (|data| + 2) / 3 * 4
    decreases |data|
  {
    if |data| == 0 then ""
    else if |data| == 1 then [Letter(data[0] / 4), Letter((data[0] % 4) * 16), Pad, Pad]
    else if |data| == 2 then
      [Letter(data[0] / 4), Letter((data[0] % 4) * 16 + data[1] / 16), Letter((data[1] % 16) * 4), Pad]
    else EncodeGroup(data[0], data[1], data[2]) + Encode(data[3..])
  }

  // ---------------------------------------------------------------------
  // Decoding
  // ---------------------------------------------------------------------

  /** The bytes of one 4-char group; `last` tells whether padding may appear. */
  function DecodeGroup(g: string, last: bool): Option<seq<Byte>>
    requires |g| == 4
  {
    var v0 :- LetterValue(g[0]);
    var v1 :- LetterValue(g[1]);
    if last && g[2] == Pad && g[3] == Pad then
      Some([v0 * 4 + v1 / 16])
    else
      var v2 :- LetterValue(g[2]);
      if last && g[3] == Pad then
        Some([v0 * 4 + v1 / 16, (v1 % 16) * 16 + v2 / 4])
      else
        var v3 :- LetterValue(g[3]);
        Some([v0 * 4 + v1 / 16, (v1 % 16) * 16 + v2 / 4, (v2 % 4) * 64 + v3])
  }

  /** The bytes a base64 text stands for, or none if it is malformed. */
  function Decode(s: string): Option<seq<Byte>>
    decreases |s|
  {
    if s == "" then Some([])
    else if |s| < 4 then None
    else
      var head :- DecodeGroup(s[..4], |s| == 4);
      var tail :- Decode(s[4..]);
      Some(head + tail)
  }

  // ---------------------------------------------------------------------
  // Round trip
  // ---------------------------------------------------------------------

  lemma GroupRoundTrip(b0: Byte, b1: Byte, b2: Byte)
    ensures (b0 / 4) * 4 + ((b0 % 4) * 16 + b1 / 16) / 16 == b0
    ensures (((b0 % 4) * 16 + b1 / 16) % 16) * 16 + ((b1 % 16) * 4 + b2 / 64) / 4 == b1
    ensures (((b1 % 16) * 4 + b2 / 64) % 4) * 64 + b2 % 64 == b2
  {
  }

  lemma DecodeFullGroup(b0: Byte, b1: Byte, b2: Byte, last: bool)
    ensures DecodeGroup(EncodeGroup(b0, b1, b2), last) == Some([b0, b1, b2])
  {
    var g := EncodeGroup(b0, b1, b2);
    GroupRoundTrip(b0, b1, b2);
    LetterRoundTrip(b0 / 4);
    LetterRoundTrip((b0 % 4) * 16 + b1 / 16);
    LetterRoundTrip((b1 % 16) * 4 + b2 / 64);
    LetterRoundTrip(b2 % 64);
  }

  lemma DecodeOneByteGroup(b0: Byte)
    ensures DecodeGroup(Encode([b0]), true) == Some([b0])
  {
    var v0: Sextet, v1: Sextet := b0 / 4, (b0 % 4) * 16;
    assert Encode([b0]) == [Letter(v0), Letter(v1), Pad, Pad];
    LetterRoundTrip(v0);
    LetterRoundTrip(v1);
    assert v0 * 4 + v1 / 16 == b0;
  }

  lemma DecodeTwoByteGroup(b0: Byte, b1: Byte)
    ensures DecodeGroup(Encode([b0, b1]), true) == Some([b0, b1])
  {
    var v0: Sextet, v1: Sextet, v2: Sextet := b0 / 4, (b0 % 4) * 16 + b1 / 16, (b1 % 16) * 4;
    assert Encode([b0, b1]) == [Letter(v0), Letter(v1), Letter(v2), Pad];
    LetterRoundTrip(v0);
    LetterRoundTrip(v1);
    LetterRoundTrip(v2);
    assert v1 / 16 == b0 % 4 && v1 % 16 == b1 / 16;
    assert v2 / 4 == b1 % 16;
    assert v0 * 4 + v1 / 16 == b0;
    assert (v1 % 16) * 16 + v2 / 4 == b1;
  }

  /** Decoding a text that starts with a well-formed group. */
  lemma DecodeFirstGroup(g: string, rest: string, head: seq<Byte>, tail: seq<Byte>)
    requires |g| == 4
    requires DecodeGroup(g, rest == "") == Some(head) && Decode(rest) == Some(tail)
    ensures Decode(g + rest) == Some(head + tail)
  {
    var s := g + rest;
    assert s[..4] == g && s[4..] == rest;
  }

  lemma DecodeEncodeShort(data: seq<Byte>)
    requires 1 <= |data| <= 2
    ensures Decode(Encode(data)) == Some(data)
  {
    var g := Encode(data);
    if |data| == 1 {
      assert data == [data[0]];
      DecodeOneByteGroup(data[0]);
    } else {
      assert data == [data[0], data[1]];
      DecodeTwoByteGroup(data[0], data[1]);
    }
    DecodeFirstGroup(g, "", data, []);
    assert g + "" == g;
    assert data + [] == data;
  }

  lemma EncodeStep(data: seq<Byte>)
    requires |data| > 2
    ensures Encode(data) == EncodeGroup(data[0], data[1], data[2]) + Encode(data[3..])
  {
  }

  /** One full group in front of a text that decodes back. */
  lemma DecodeEncodeStep(b0: Byte, b1: Byte, b2: Byte, tail: seq<Byte>)
    requires Decode(Encode(tail)) == Some(tail)
    ensures Decode(Encode([b0, b1, b2] + tail)) == Some([b0, b1, b2] + tail)
  {
    var data := [b0, b1, b2] + tail;
    assert data[0] == b0 && data[1] == b1 && data[2] == b2 && data[3..] == tail;
    var rest := Encode(tail);
    EncodeStep(data);
    DecodeFullGroup(b0, b1, b2, rest == "");
    DecodeFirstGroup(EncodeGroup(b0, b1, b2), rest, [b0, b1, b2], tail);
  }

  /** Induction over 3-byte groups: a property of every short tail that
      survives putting a full group in front holds of every byte sequence. */
  lemma {:induction false} GroupInduction(p: seq<Byte> -> bool, data: seq<Byte>)
    requires forall d: seq<Byte> | |d| <= 2 :: p(d)
    requires forall b0: Byte, b1: Byte, b2: Byte, tail: seq<Byte> | p(tail) :: p([b0, b1, b2] + tail)
    ensures p(data)
    decreases |data|
  {
    if |data| > 2 {
      GroupInduction(p, data[3..]);
      assert data == [data[0], data[1], data[2]] + data[3..];
    }
  }

  /** Decoding undoes encoding: the Basic credential a server receives is
      the one the client encoded. */
  lemma DecodeEncode(data: seq<Byte>)
    ensures Decode(Encode(data)) == Some(data)
  {
    var p := (d: seq<Byte>) => Decode(Encode(d)) == Some(d);
    forall d: seq<Byte> | |d| <= 2 ensures p(d) {
      if d != [] {
        DecodeEncodeShort(d);
      }
    }
    forall b0: Byte, b1: Byte, b2: Byte, tail: seq<Byte> | p(tail) ensures p([b0, b1, b2] + tail) {
      DecodeEncodeStep(b0, b1, b2, tail);
    }
    GroupInduction(p, data);
  }

  /** Every char of an encoding is an alphabet letter or padding. */
  lemma {:induction false} EncodeAlphabet(data: seq<Byte>)
    ensures forall i :: 0 <= i < |Encode(data)| ==> Encode(data)[i] == Pad || LetterValue(Encode(data)[i]).Some?
    decreases |data|
  {
    if |data| > 2 {
      EncodeAlphabet(data[3..]);
      var g := EncodeGroup(data[0], data[1], data[2]);
      forall i | 0 <= i < 4 ensures LetterValue(g[i]).Some? {
        LetterRoundTrip(data[0] / 4);
        LetterRoundTrip((data[0] % 4) * 16 + data[1] / 16);
        LetterRoundTrip((data[1] % 16) * 4 + data[2] / 64);
        LetterRoundTrip(data[2] % 64);
      }
    } else if |data| > 0 {
      LetterRoundTrip(data[0] / 4);
      if |data| == 1 {
        LetterRoundTrip((data[0] % 4) * 16);
      } else {
        LetterRoundTrip((data[0] % 4) * 16 + data[1] / 16);
        LetterRoundTrip((data[1] % 16) * 4);
      }
    }
  }
}
