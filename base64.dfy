/** The standard base64 encoding of RFC 4648, section 4 (Go's `base64.StdEncoding`),
    which `http.Request.SetBasicAuth` applies to "username:password". */
module Base64 {
  import opened Wrappers
  import opened GoStrings

  /** A 6-bit group. */
  newtype uint6 = x: int | 0 <= x < 64

  /** The alphabet: 'A'-'Z', 'a'-'z', '0'-'9', '+', '/'. */
  function CharOf(v: uint6): (c: char)
    ensures IsAlphabetChar(c) && ValueOf(c) == v
  {
    if v < 26 then ('A' as int + v as int) as char
    else if v < 52 then ('a' as int + v as int - 26) as char
    else if v < 62 then ('0' as int + v as int - 52) as char
    else if v == 62 then '+'
    else '/'
  }

  predicate IsAlphabetChar(c: char)
  {
    'A' <= c <= 'Z' || 'a' <= c <= 'z' || '0' <= c <= '9' || c == '+' || c == '/'
  }

  /** The inverse of `CharOf` on the alphabet. */
  function ValueOf(c: char): uint6
    requires IsAlphabetChar(c)
  {
    if 'A' <= c <= 'Z' then (c as int - 'A' as int) as uint6
    else if 'a' <= c <= 'z' then (c as int - 'a' as int + 26) as uint6
    else if '0' <= c <= '9' then (c as int - '0' as int + 52) as uint6
    else if c == '+' then 62
    else 63
  }

  /** The alphabet character or the padding character '='. */
  predicate IsEncodingChar(c: char)
  {
    IsAlphabetChar(c) || c == '='
  }

  /** The four 6-bit groups of the 24 bits `b0 b1 b2`, most significant first. */
  function Group0(b0: uint8): uint6 { (b0 as int / 4) as uint6 }
  function Group1(b0: uint8, b1: uint8): uint6 { ((b0 as int % 4) * 16 + b1 as int / 16) as uint6 }
  function Group2(b1: uint8, b2: uint8): uint6 { ((b1 as int % 16) * 4 + b2 as int / 64) as uint6 }
  function Group3(b2: uint8): uint6 { (b2 as int % 64) as uint6 }

  /** Three bytes as four characters. */
  function EncodeBlock(b0: uint8, b1: uint8, b2: uint8): (r: string)
    ensures |r| == 4 && forall i :: 0 <= i < 4 ==> IsAlphabetChar(r[i])
  {
    [CharOf(Group0(b0)), CharOf(Group1(b0, b1)), CharOf(Group2(b1, b2)), CharOf(Group3(b2))]
  }

  /** `StdEncoding.EncodeToString`: whole blocks of three bytes, then a last block of one
      byte (two characters and "==") or two bytes (three characters and "="). */
  function Encode(b: seq<uint8>): (r: string)
    ensures |r| == 4 * ((|b| + 2) / 3)
    ensures forall i :: 0 <= i < |r| ==> IsEncodingChar(r[i])
    decreases |b|
  {
    if |b| == 0 then []
    else if |b| == 1 then
      [CharOf(Group0(b[0])), CharOf(Group1(b[0], 0)), '=', '=']
    else if |b| == 2 then
      [CharOf(Group0(b[0])), CharOf(Group1(b[0], b[1])), CharOf(Group2(b[1], 0)), '=']
    else EncodeBlock(b[0], b[1], b[2]) + Encode(b[3..])
  }

  /** Four characters back to bytes: three for four alphabet characters, two when the
      last is '=', one when the last two are; anything else is malformed. */
  function DecodeBlock(s: string): Option<seq<uint8>>
    requires |s| == 4
  {
    if !IsAlphabetChar(s[0]) || !IsAlphabetChar(s[1]) then None
    else
      var v0, v1 := ValueOf(s[0]) as int, ValueOf(s[1]) as int;
      var b0 := (v0 * 4 + v1 / 16) as uint8;
      if s[2] == '=' && s[3] == '=' then Some([b0])
      else if !IsAlphabetChar(s[2]) then None
      else
        var v2 := ValueOf(s[2]) as int;
        var b1 := ((v1 % 16) * 16 + v2 / 4) as uint8;
        if s[3] == '=' then Some([b0, b1])
        else if !IsAlphabetChar(s[3]) then None
        else Some([b0, b1, ((v2 % 4) * 64 + ValueOf(s[3]) as int) as uint8])
  }

  /** Decoding block by block; padding may only close the last block. */
  function Decode(s: string): Option<seq<uint8>>
    decreases |s|
  {
    if |s| == 0 then Some([])
    else if |s| < 4 then None
    else
      match DecodeBlock(s[..4])
      case None => None
      case Some(block) =>
        if |s| == 4 then Some(block)
        else if |block| < 3 then None
        else
          match Decode(s[4..])
          case None => None
          case Some(rest) => Some(block + rest)
  }

  /** The 6-bit groups of three bytes put back together give the bytes. */
  lemma RegroupBits(b0: uint8, b1: uint8, b2: uint8)
    ensures var v0, v1, v2, v3 := Group0(b0) as int, Group1(b0, b1) as int, Group2(b1, b2) as int, Group3(b2) as int;
      && v0 * 4 + v1 / 16 == b0 as int
      && (v1 % 16) * 16 + v2 / 4 == b1 as int
      && (v2 % 4) * 64 + v3 == b2 as int
  {
    var v1 := Group1(b0, b1) as int;
    var v2 := Group2(b1, b2) as int;
    assert v1 / 16 == b0 as int % 4 && v1 % 16 == b1 as int / 16;
    assert v2 / 4 == b1 as int % 16 && v2 % 4 == b2 as int / 64;
  }

  /** A whole block decodes to the three bytes it encodes. */
  lemma DecodeEncodeBlock(b0: uint8, b1: uint8, b2: uint8)
    ensures DecodeBlock(EncodeBlock(b0, b1, b2)) == Some([b0, b1, b2])
  {
    RegroupBits(b0, b1, b2);
  }

  /** A last block of one byte decodes to that byte. */
  lemma DecodeEncodeOne(b0: uint8)
    ensures Decode(Encode([b0])) == Some([b0])
  {
    var block := [CharOf(Group0(b0)), CharOf(Group1(b0, 0)), '=', '='];
    assert Encode([b0]) == block;
    DecodeSingle(block);
    DecodeOneBlock(b0);
  }

  lemma DecodeOneBlock(b0: uint8)
    ensures DecodeBlock([CharOf(Group0(b0)), CharOf(Group1(b0, 0)), '=', '=']) == Some([b0])
  {
    RegroupBits(b0, 0, 0);
  }

  /** A last block of two bytes decodes to those bytes. */
  lemma DecodeEncodeTwo(b0: uint8, b1: uint8)
    ensures Decode(Encode([b0, b1])) == Some([b0, b1])
  {
    var block := [CharOf(Group0(b0)), CharOf(Group1(b0, b1)), CharOf(Group2(b1, 0)), '='];
    assert Encode([b0, b1]) == block;
    DecodeSingle(block);
    DecodeTwoBlock(b0, b1);
  }

  lemma DecodeTwoBlock(b0: uint8, b1: uint8)
    ensures DecodeBlock([CharOf(Group0(b0)), CharOf(Group1(b0, b1)), CharOf(Group2(b1, 0)), '=']) == Some([b0, b1])
  {
    RegroupBits(b0, b1, 0);
  }

  /** Encoding a run of at least three bytes starts with the block of the first three. */
  lemma EncodeCons(b: seq<uint8>)
    requires |b| >= 3
    ensures Encode(b) == EncodeBlock(b[0], b[1], b[2]) + Encode(b[3..])
  {
  }

  lemma FirstThree(b: seq<uint8>)
    requires |b| >= 3
    ensures b == [b[0], b[1], b[2]] + b[3..]
  {
  }

  /** Decoding one block of text. */
  lemma DecodeSingle(block: string)
    requires |block| == 4
    ensures Decode(block) == DecodeBlock(block)
  {
    assert block[..4] == block;
  }

  /** Decoding a whole block followed by more text. */
  lemma DecodeCons(block: string, t: string)
    requires |block| == 4 && t != []
    requires DecodeBlock(block).Some? && |DecodeBlock(block).value| == 3
    ensures Decode(block + t) ==
      match Decode(t)
      case None => None
      case Some(rest) => Some(DecodeBlock(block).value + rest)
  {
    assert (block + t)[..4] == block;
    assert (block + t)[4..] == t;
  }

  /** Decoding undoes encoding. */
  lemma {:induction false} DecodeEncode(b: seq<uint8>)
    ensures Decode(Encode(b)) == Some(b)
    decreases |b|
  {
    if |b| >= 3 {
      var block, t := EncodeBlock(b[0], b[1], b[2]), Encode(b[3..]);
      EncodeCons(b);
      DecodeEncodeBlock(b[0], b[1], b[2]);
      if |b| == 3 {
        assert block + t == block;
        DecodeSingle(block);
        assert b == [b[0], b[1], b[2]];
      } else {
        DecodeEncode(b[3..]);
        DecodeCons(block, t);
        FirstThree(b);
      }
    } else if |b| == 2 {
      DecodeEncodeTwo(b[0], b[1]);
      assert b == [b[0], b[1]];
    } else if |b| == 1 {
      DecodeEncodeOne(b[0]);
      assert b == [b[0]];
    }
  }
}
