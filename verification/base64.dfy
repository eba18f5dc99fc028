/** Base 64 encoding as defined in section 4 of RFC 4648 (the standard
    alphabet `A-Z a-z 0-9 + /` with `=` padding), the encoding Python's
    `base64.b64encode` produces, and a strict decoder for it. */
module Base64 {
  import opened Wrappers
  import opened Utf8

  type Sextet = i: int | 0 <= i < 64

  /** Table 1 of RFC 4648: the character for each 6-bit value. */
  function SextetChar(i: Sextet): (c: char)
    ensures IsBase64Char(c)
  {
    if i < 26 then ('A' as int + i) as char
    else if i < 52 then ('a' as int + (i - 26)) as char
    else if i < 62 then ('0' as int + (i - 52)) as char
    else if i == 62 then '+'
    else '/'
  }

  predicate IsBase64Char(c: char) {
    'A' <= c <= 'Z' || 'a' <= c <= 'z' || '0' <= c <= '9' || c == '+' || c == '/'
  }

  /** The 6-bit value of an alphabet character; `None` for anything else,
      the pad character included. */
  function CharSextet(c: char): (r: Option<Sextet>)
    ensures r.Some? <==> IsBase64Char(c)
    ensures r.Some? ==> SextetChar(r.value) == c
  {
    if 'A' <= c <= 'Z' then Some(c as int - 'A' as int)
    else if 'a' <= c <= 'z' then Some(c as int - 'a' as int + 26)
    else if '0' <= c <= '9' then Some(c as int - '0' as int + 52)
    else if c == '+' then Some(62)
    else if c == '/' then Some(63)
    else None
  }

  lemma CharSextetOfSextetChar(i: Sextet)
    ensures CharSextet(SextetChar(i)) == Some(i)
  {
  }

  /** Each 3-byte group becomes four characters; a final group of one or two
      bytes becomes two or three characters followed by `==` or `=`. */
  function Encode(b: seq<Byte>): (r: string)
    ensures |r| == (|b| + 2) / 3 * 4
  {
    if |b| == 0 then ""
    else if |b| == 1 then EncodeOne(b[0])
    else if |b| == 2 then EncodeTwo(b[0], b[1])
    else EncodeGroup(b[0], b[1], b[2]) + Encode(b[3..])
  }

  /** The four characters of a full 3-byte group. */
  function EncodeGroup(b0: Byte, b1: Byte, b2: Byte): (r: string)
    ensures |r| == 4
    ensures forall i :: 0 <= i < 4 ==> IsBase64Char(r[i])
  {
    [SextetChar(b0 / 4), SextetChar((b0 % 4) * 16 + b1 / 16),
     SextetChar((b1 % 16) * 4 + b2 / 64), SextetChar(b2 % 64)]
  }

  /** A final single byte: two characters and `==`. */
  function EncodeOne(b0: Byte): (r: string)
    ensures |r| == 4 && r[2] == '=' && r[3] == '=' && IsBase64Char(r[0]) && IsBase64Char(r[1])
  {
    [SextetChar(b0 / 4), SextetChar((b0 % 4) * 16), '=', '=']
  }

  /** A final pair of bytes: three characters and `=`. */
  function EncodeTwo(b0: Byte, b1: Byte): (r: string)
    ensures |r| == 4 && r[3] == '=' && IsBase64Char(r[0]) && IsBase64Char(r[1]) && IsBase64Char(r[2])
  {
    [SextetChar(b0 / 4), SextetChar((b0 % 4) * 16 + b1 / 16), SextetChar((b1 % 16) * 4), '=']
  }

  lemma EncodeStep(b: seq<Byte>)
    requires |b| >= 3
    ensures Encode(b) == EncodeGroup(b[0], b[1], b[2]) + Encode(b[3..])
  {
  }

  /** Every character is in the alphabet or is the pad character, and
      padding only ever fills the last two places. */
  predicate WellPadded(r: string) {
    && (forall i :: 0 <= i < |r| ==> IsBase64Char(r[i]) || r[i] == '=')
    && (forall i :: 0 <= i < |r| - 2 ==> r[i] != '=')
  }

  /** An encoding uses only the alphabet, with padding at the end. */
  lemma {:induction false} EncodeAlphabet(b: seq<Byte>)
    ensures WellPadded(Encode(b))
    decreases |b|
  {
    if |b| >= 3 {
      var g := EncodeGroup(b[0], b[1], b[2]);
      var rest := Encode(b[3..]);
      EncodeAlphabet(b[3..]);
      EncodeStep(b);
      forall i | 0 <= i < |g + rest|
        ensures IsBase64Char((g + rest)[i]) || (g + rest)[i] == '='
        ensures i < |g + rest| - 2 ==> (g + rest)[i] != '='
      {
        if i >= 4 {
          assert (g + rest)[i] == rest[i - 4];
        } else {
          assert (g + rest)[i] == g[i];
        }
      }
    }
  }

  /** The bytes of one group of four characters; `None` when a character
      is outside the alphabet, padding appears where it may not (only the
      `last` group may carry it), or the pad bits are not zero. */
  function DecodeQuad(c0: char, c1: char, c2: char, c3: char, last: bool): (r: Option<seq<Byte>>)
    ensures r.Some? ==> 1 <= |r.value| <= 3
    ensures r.Some? && |r.value| < 3 ==> last
  {
    var x0, x1, x2, x3 := CharSextet(c0), CharSextet(c1), CharSextet(c2), CharSextet(c3);
    if x0.None? || x1.None? then None
    else if last && c2 == '=' && c3 == '=' then
      if x1.value % 16 != 0 then None
      else Some([x0.value * 4 + x1.value / 16])
    else if x2.None? then None
    else if last && c3 == '=' then
      if x2.value % 4 != 0 then None
      else Some([x0.value * 4 + x1.value / 16, (x1.value % 16) * 16 + x2.value / 4])
    else if x3.None? then None
    else Some([x0.value * 4 + x1.value / 16, (x1.value % 16) * 16 + x2.value / 4,
               (x2.value % 4) * 64 + x3.value])
  }

  /** The bytes a padded base 64 string stands for; `None` when the length is
      not a multiple of four or a group does not decode. */
  function Decode(s: string): Option<seq<Byte>>
    decreases |s|
  {
    if |s| == 0 then Some([])
    else if |s| < 4 then None
    else
      match DecodeQuad(s[0], s[1], s[2], s[3], |s| == 4)
      case None => None
      case Some(group) =>
        if |group| < 3 then Some(group)
        else
          match Decode(s[4..])
          case None => None
          case Some(rest) => Some(group + rest)
  }

  lemma SplitSextets(b0: Byte, b1: Byte, b2: Byte)
    ensures var x1, x2 := (b0 % 4) * 16 + b1 / 16, (b1 % 16) * 4 + b2 / 64;
      && (b0 / 4) * 4 + x1 / 16 == b0
      && (x1 % 16) * 16 + x2 / 4 == b1
      && (x2 % 4) * 64 + b2 % 64 == b2
  {
  }

  /** A final single byte decodes back. */
  lemma DecodeOneByte(b0: Byte)
    ensures Decode(EncodeOne(b0)) == Some([b0])
  {
    var r := EncodeOne(b0);
    CharSextetOfSextetChar(b0 / 4);
    CharSextetOfSextetChar((b0 % 4) * 16);
    assert DecodeQuad(r[0], r[1], r[2], r[3], true) == Some([b0]);
  }

  /** A final pair of bytes decodes back. */
  lemma DecodeTwoBytes(b0: Byte, b1: Byte)
    ensures Decode(EncodeTwo(b0, b1)) == Some([b0, b1])
  {
    var r := EncodeTwo(b0, b1);
    CharSextetOfSextetChar(b0 / 4);
    CharSextetOfSextetChar((b0 % 4) * 16 + b1 / 16);
    CharSextetOfSextetChar((b1 % 16) * 4);
    SplitSextets(b0, b1, 0);
    assert DecodeQuad(r[0], r[1], r[2], r[3], true) == Some([b0, b1]);
  }

  /** A full group decodes back to its three bytes, whether or not it is last. */
  lemma DecodeQuadGroup(b0: Byte, b1: Byte, b2: Byte, last: bool)
    ensures var g := EncodeGroup(b0, b1, b2);
      DecodeQuad(g[0], g[1], g[2], g[3], last) == Some([b0, b1, b2])
  {
    CharSextetOfSextetChar(b0 / 4);
    CharSextetOfSextetChar((b0 % 4) * 16 + b1 / 16);
    CharSextetOfSextetChar((b1 % 16) * 4 + b2 / 64);
    CharSextetOfSextetChar(b2 % 64);
    SplitSextets(b0, b1, b2);
  }

  /** A full group in front of a decodable string decodes to its three
      bytes in front of that string's bytes. */
  lemma DecodeGroup(b0: Byte, b1: Byte, b2: Byte, rest: string, tail: seq<Byte>)
    requires Decode(rest) == Some(tail)
    ensures Decode(EncodeGroup(b0, b1, b2) + rest) == Some([b0, b1, b2] + tail)
  {
    var g := EncodeGroup(b0, b1, b2);
    var s := g + rest;
    assert s[0] == g[0] && s[1] == g[1] && s[2] == g[2] && s[3] == g[3];
    DecodeQuadGroup(b0, b1, b2, |s| == 4);
    assert s[4..] == rest;
  }

  /** Encodings of at most two bytes decode back. */
  lemma DecodeEncodeShort(b: seq<Byte>)
    requires |b| <= 2
    ensures Decode(Encode(b)) == Some(b)
  {
    if |b| == 1 {
      assert Encode(b) == EncodeOne(b[0]);
      DecodeOneByte(b[0]);
      assert b == [b[0]];
    } else if |b| == 2 {
      assert Encode(b) == EncodeTwo(b[0], b[1]);
      DecodeTwoBytes(b[0], b[1]);
      assert b == [b[0], b[1]];
    }
  }

  /** A full leading group decodes back whenever the rest does. */
  lemma DecodeEncodeCons(b: seq<Byte>)
    requires |b| >= 3 && Decode(Encode(b[3..])) == Some(b[3..])
    ensures Decode(Encode(b)) == Some(b)
  {
    var g, rest := EncodeGroup(b[0], b[1], b[2]), Encode(b[3..]);
    assert Encode(b) == g + rest by { EncodeStep(b); }
    assert Decode(g + rest) == Some([b[0], b[1], b[2]] + b[3..]) by {
      DecodeGroup(b[0], b[1], b[2], rest, b[3..]);
    }
    SplitThree(b);
  }

  lemma SplitThree(b: seq<Byte>)
    requires |b| >= 3
    ensures b == [b[0], b[1], b[2]] + b[3..]
  {
  }

  /** Decoding an encoding gives the bytes back. */
  lemma {:induction false} DecodeEncode(b: seq<Byte>)
    ensures Decode(Encode(b)) == Some(b)
    decreases |b|
  {
    if |b| <= 2 {
      DecodeEncodeShort(b);
    } else {
      DecodeEncode(b[3..]);
      DecodeEncodeCons(b);
    }
  }
}
