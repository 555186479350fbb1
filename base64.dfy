/**
 * `base64.StdEncoding.EncodeToString`: the standard alphabet of section 4 of RFC 4648
 * with `=` padding, and the matching decoder, which recovers every encoded input.
 */
module Base64 {

  import opened Common

  /** The sextet `i` as a character of the standard alphabet `A-Z a-z 0-9 + /`. */
  function Char64(i: int): (c: char)
    requires 0 <= i < 64
    ensures c != '='
  {
    if i < 26 then ('A' as int + i) as char
    else if i < 52 then ('a' as int + i - 26) as char
    else if i < 62 then ('0' as int + i - 52) as char
    else if i == 62 then '+'
    else '/'
  }

  /** The sextet a character of the standard alphabet stands for (0 for any other character). */
  function Index64(c: char): (i: int)
    ensures 0 <= i < 64
  {
    if 'A' <= c <= 'Z' then c as int - 'A' as int
    else if 'a' <= c <= 'z' then c as int - 'a' as int + 26
    else if '0' <= c <= '9' then c as int - '0' as int + 52
    else if c == '+' then 62
    else if c == '/' then 63
    else 0
  }

  lemma Index64Char64(i: int)
    requires 0 <= i < 64
    ensures Index64(Char64(i)) == i
  {
  }

  /** Encoding: every three bytes become four characters; a last group of one or two bytes is padded with `=`. */
  function Encode(bs: seq<byte>): (r: string)
    decreases |bs|
  {
    if |bs| == 0 then ""
    else if |bs| == 1 then
      [Char64(bs[0] / 4), Char64((bs[0] % 4) * 16), '=', '=']
    else if |bs| == 2 then
      [Char64(bs[0] / 4), Char64((bs[0] % 4) * 16 + bs[1] / 16), Char64((bs[1] % 16) * 4), '=']
    else
      Quad(bs[0], bs[1], bs[2]) + Encode(bs[3..])
  }

  /** Decoding, four characters at a time; a group with padding ends the input. */
  function Decode(s: string): seq<byte>
    decreases |s|
  {
    if |s| < 4 then []
    else
      var i0, i1, i2, i3 := Index64(s[0]), Index64(s[1]), Index64(s[2]), Index64(s[3]);
      var b0: byte := i0 * 4 + i1 / 16;
      if s[2] == '=' then [b0]
      else
        var b1: byte := (i1 % 16) * 16 + i2 / 4;
        if s[3] == '=' then [b0, b1]
        else
          var b2: byte := (i2 % 4) * 64 + i3;
          [b0, b1, b2] + Decode(s[4..])
  }

  /** The bit arithmetic of one group: the four sextets give the three bytes back. */
  lemma GroupRoundTrip(b0: byte, b1: byte, b2: byte)
    ensures (b0 / 4) * 4 + ((b0 % 4) * 16 + b1 / 16) / 16 == b0
    ensures (((b0 % 4) * 16 + b1 / 16) % 16) * 16 + ((b1 % 16) * 4 + b2 / 64) / 4 == b1
    ensures (((b1 % 16) * 4 + b2 / 64) % 4) * 64 + b2 % 64 == b2
  {
  }

  lemma DecodeLast1(bs: seq<byte>)
    requires |bs| == 1
    ensures Decode(Encode(bs)) == bs
  {
    var b0 := bs[0];
    assert bs == [b0];
    Index64Char64(b0 / 4);
    Index64Char64((b0 % 4) * 16);
    GroupRoundTrip(b0, 0, 0);
  }

  lemma DecodeLast2(bs: seq<byte>)
    requires |bs| == 2
    ensures Decode(Encode(bs)) == bs
  {
    var b0, b1 := bs[0], bs[1];
    assert bs == [b0, b1];
    Index64Char64(b0 / 4);
    Index64Char64((b0 % 4) * 16 + b1 / 16);
    Index64Char64((b1 % 16) * 4);
    GroupRoundTrip(b0, b1, 0);
  }

  /** How Decode reads one unpadded group of four characters. */
  lemma DecodeQuad(q: string, rest: string)
    requires |q| == 4 && q[2] != '=' && q[3] != '='
    ensures var i0, i1, i2, i3 := Index64(q[0]), Index64(q[1]), Index64(q[2]), Index64(q[3]);
      Decode(q + rest) == [i0 * 4 + i1 / 16, (i1 % 16) * 16 + i2 / 4, (i2 % 4) * 64 + i3] + Decode(rest)
  {
    var s := q + rest;
    assert s[..4] == q && s[4..] == rest;
  }

  /** The four characters that encode a full group of three bytes. */
  function Quad(b0: byte, b1: byte, b2: byte): string
  {
    [Char64(b0 / 4), Char64((b0 % 4) * 16 + b1 / 16), Char64((b1 % 16) * 4 + b2 / 64), Char64(b2 % 64)]
  }

  lemma DecodeQuadBytes(b0: byte, b1: byte, b2: byte, rest: string)
    ensures Decode(Quad(b0, b1, b2) + rest) == [b0, b1, b2] + Decode(rest)
  {
    Index64Char64(b0 / 4);
    Index64Char64((b0 % 4) * 16 + b1 / 16);
    Index64Char64((b1 % 16) * 4 + b2 / 64);
    Index64Char64(b2 % 64);
    DecodeQuad(Quad(b0, b1, b2), rest);
    GroupRoundTrip(b0, b1, b2);
  }

  /** A full group decodes to its three bytes, and decoding goes on with what follows it. */
  lemma DecodeGroup(bs: seq<byte>)
    requires |bs| >= 3
    ensures Decode(Encode(bs)) == [bs[0], bs[1], bs[2]] + Decode(Encode(bs[3..]))
  {
    var rest := Encode(bs[3..]);
    assert Encode(bs) == Quad(bs[0], bs[1], bs[2]) + rest;
    DecodeQuadBytes(bs[0], bs[1], bs[2], rest);
  }

  /** Decoding undoes encoding, so the encoding is injective. */
  lemma {:induction false} DecodeEncode(bs: seq<byte>)
    ensures Decode(Encode(bs)) == bs
    decreases |bs|
  {
    if |bs| == 1 {
      DecodeLast1(bs);
    } else if |bs| == 2 {
      DecodeLast2(bs);
    } else if |bs| >= 3 {
      DecodeGroup(bs);
      DecodeEncode(bs[3..]);
      assert bs == [bs[0], bs[1], bs[2]] + bs[3..];
    }
  }

  lemma EncodeInjective(a: seq<byte>, b: seq<byte>)
    requires Encode(a) == Encode(b)
    ensures a == b
  {
    DecodeEncode(a);
    DecodeEncode(b);
  }
}
