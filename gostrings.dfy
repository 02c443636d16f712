/** The few functions of Go's `strings` package and of Go maps that the modelled code
    relies on, written out with the behaviour Go documents for them. Strings are
    sequences of characters (runes); `Bytes` gives their UTF-8 bytes where the code
    counts bytes. */
module GoStrings {

  /** A Go map lookup `m[k]` on a `map[string]string`: the zero value "" when absent. */
  function Lookup(m: map<string, string>, k: string): (v: string)
    ensures k in m ==> v == m[k]
    ensures k !in m ==> v == ""
  {
    if k in m then m[k] else ""
  }

  /** Number of occurrences of `c` in `s`. */
  function Count(s: string, c: char): nat
  {
    if s == [] then 0 else (if s[0] == c then 1 else 0) + Count(s[1..], c)
  }

  /** The inverse of `Split`: the pieces with `sep` between consecutive ones. */
  function Join(pieces: seq<string>, sep: char): string
    requires |pieces| >= 1
  {
    if |pieces| == 1 then pieces[0] else pieces[0] + [sep] + Join(pieces[1..], sep)
  }

  /** `strings.Split(s, string(sep))`: the maximal pieces between separators; an empty
      string yields one empty piece. */
  function Split(s: string, sep: char): (r: seq<string>)
    ensures |r| == Count(s, sep) + 1
    ensures forall i :: 0 <= i < |r| ==> sep !in r[i]
    ensures Join(r, sep) == s
  {
    if s == [] then [[]]
    else
      var rest := Split(s[1..], sep);
      if s[0] == sep then
        assert Join([[]] + rest, sep) == [] + [sep] + Join(rest, sep) by {
          assert ([[]] + rest)[1..] == rest;
        }
        [[]] + rest
      else
        var r := [[s[0]] + rest[0]] + rest[1..];
        assert Join(r, sep) == s by {
          if |rest| > 1 {
            assert r[1..] == rest[1..];
            assert Join(rest, sep) == rest[0] + [sep] + Join(rest[1..], sep);
          }
        }
        r
  }

  /** Splitting undoes joining pieces that do not contain the separator. */
  lemma {:induction false} SplitJoin(pieces: seq<string>, sep: char)
    requires |pieces| >= 1
    requires forall i :: 0 <= i < |pieces| ==> sep !in pieces[i]
    ensures Split(Join(pieces, sep), sep) == pieces
  {
    if |pieces| == 1 {
      SplitNoSep(pieces[0], sep);
    } else {
      var tail := Join(pieces[1..], sep);
      SplitJoin(pieces[1..], sep);
      SplitPrefix(pieces[0], tail, sep);
      assert pieces == [pieces[0]] + pieces[1..];
    }
  }

  /** A string without the separator is a single piece. */
  lemma {:induction false} SplitNoSep(s: string, sep: char)
    requires sep !in s
    ensures Split(s, sep) == [s]
  {
    if s != [] {
      SplitNoSep(s[1..], sep);
      assert [s[0]] + s[1..] == s;
    }
  }

  /** Splitting `p + sep + t`, where `p` has no separator, gives `p` followed by the
      pieces of `t`. */
  lemma {:induction false} SplitPrefix(p: string, t: string, sep: char)
    requires sep !in p
    ensures Split(p + [sep] + t, sep) == [p] + Split(t, sep)
  {
    if p == [] {
      assert p + [sep] + t == [sep] + t;
      SplitCons(sep, t, sep);
    } else {
      var u := p[1..] + [sep] + t;
      SplitPrefix(p[1..], t, sep);
      assert p + [sep] + t == [p[0]] + u;
      SplitCons(p[0], u, sep);
      assert [p[0]] + p[1..] == p;
    }
  }

  /** One step of `Split`: a leading separator opens a new piece, any other character
      extends the first piece. */
  lemma SplitCons(c: char, u: string, sep: char)
    ensures Split([c] + u, sep) ==
      if c == sep then [[]] + Split(u, sep)
      else [[c] + Split(u, sep)[0]] + Split(u, sep)[1..]
  {
    assert ([c] + u)[1..] == u;
  }

  /** `sub` occurs in `s` at index `i`. */
  predicate OccursAt(s: string, sub: string, i: int)
  {
    0 <= i && i + |sub| <= |s| && s[i..i + |sub|] == sub
  }

  /** The first index at or after `i` where `sub` occurs in `s`, or -1. */
  function IndexFrom(s: string, sub: string, i: nat): (r: int)
    ensures r == -1 || (i <= r && OccursAt(s, sub, r))
    ensures r == -1 ==> forall j :: i <= j ==> !OccursAt(s, sub, j)
    ensures r >= 0 ==> forall j :: i <= j < r ==> !OccursAt(s, sub, j)
    decreases |s| - i
  {
    if i + |sub| > |s| then -1
    else if OccursAt(s, sub, i) then i
    else IndexFrom(s, sub, i + 1)
  }

  /** `strings.Index(s, sub)`: the index of the first occurrence of `sub`, or -1. */
  function Index(s: string, sub: string): (r: int)
    ensures r == -1 || OccursAt(s, sub, r)
    ensures r == -1 ==> forall j :: !OccursAt(s, sub, j)
    ensures r >= 0 ==> forall j :: 0 <= j < r ==> !OccursAt(s, sub, j)
  {
    IndexFrom(s, sub, 0)
  }

  /** Occurrences in `s[k..]` are the occurrences in `s` shifted by `k`. */
  lemma ShiftOccurs(s: string, sub: string, k: nat)
    requires k <= |s|
    ensures forall j :: 0 <= j ==> (OccursAt(s[k..], sub, j) <==> OccursAt(s, sub, j + k))
  {
    forall j | 0 <= j ensures OccursAt(s[k..], sub, j) <==> OccursAt(s, sub, j + k) {
      if j + |sub| <= |s| - k {
        assert s[k..][j..j + |sub|] == s[j + k..j + k + |sub|];
      }
    }
  }

  /** The first occurrence of a one-character string is the first position of that
      character. */
  lemma IndexOfCharAt(s: string, c: char, k: int)
    requires 0 <= k < |s| && s[k] == c
    requires forall j :: 0 <= j < k ==> s[j] != c
    ensures Index(s, [c]) == k
  {
    assert OccursAt(s, [c], k);
    forall j | 0 <= j < k ensures !OccursAt(s, [c], j) {
      assert s[j..j + 1] == [s[j]];
    }
  }

  /** A character that does not occur is not found. */
  lemma IndexOfCharAbsent(s: string, c: char)
    requires c !in s
    ensures Index(s, [c]) == -1
  {
    forall j | 0 <= j < |s| ensures !OccursAt(s, [c], j) {
      assert s[j..j + 1] == [s[j]];
    }
  }

  /** `strings.HasPrefix(s, p)`. */
  predicate HasPrefix(s: string, p: string)
  {
    p <= s
  }

  /** `unicode.IsSpace`: the Latin-1 white space characters, and beyond Latin-1 the
      characters of Unicode's White_Space property. */
  predicate IsSpace(c: char)
  {
    if c <= '\U{00FF}' then
      c == ' ' || c == '\t' || c == '\n' || c == '\r' || c == '\U{000B}' || c == '\U{000C}'
      || c == '\U{0085}' || c == '\U{00A0}'
    else
      c == '\U{1680}' || ('\U{2000}' <= c <= '\U{200A}') || c == '\U{2028}' || c == '\U{2029}'
      || c == '\U{202F}' || c == '\U{205F}' || c == '\U{3000}'
  }

  /** White space is what Go trims: ASCII white space, the Latin-1 next-line and no-break
      space characters, the ideographic space; letters, digits and the header's
      punctuation are not. */
  lemma IsSpaceExamples()
    ensures IsSpace(' ') && IsSpace('\t') && IsSpace('\U{0085}') && IsSpace('\U{00A0}') && IsSpace('\U{3000}')
    ensures !IsSpace('a') && !IsSpace('0') && !IsSpace(';') && !IsSpace('=') && !IsSpace('\U{200B}')
  {
  }

  function TrimLeft(s: string): (r: string)
    ensures |r| <= |s| && r == s[|s| - |r|..]
    ensures r == [] || !IsSpace(r[0])
    ensures forall i :: 0 <= i < |s| - |r| ==> IsSpace(s[i])
  {
    if s != [] && IsSpace(s[0]) then TrimLeft(s[1..]) else s
  }

  function TrimRight(s: string): (r: string)
    ensures |r| <= |s| && r == s[..|r|]
    ensures r == [] || !IsSpace(r[|r| - 1])
    ensures forall i :: |r| <= i < |s| ==> IsSpace(s[i])
  {
    if s != [] && IsSpace(s[|s| - 1]) then TrimRight(s[..|s| - 1]) else s
  }

  /** Every character of `s` is white space. */
  predicate AllSpace(s: string)
  {
    forall k :: 0 <= k < |s| ==> IsSpace(s[k])
  }

  /** `strings.TrimSpace(s)`: `s` without its leading and trailing white space. */
  function TrimSpace(s: string): (r: string)
    ensures exists i, j :: 0 <= i <= j <= |s| && r == s[i..j] && AllSpace(s[..i]) && AllSpace(s[j..])
    ensures r == [] || (!IsSpace(r[0]) && !IsSpace(r[|r| - 1]))
    ensures (forall i :: 0 <= i < |s| ==> !IsSpace(s[i])) ==> r == s
  {
    var l := TrimLeft(s);
    var r := TrimRight(l);
    TrimmedSlice(s, l, r);
    r
  }

  /** Trimming white space from the left and then from the right leaves a slice whose
      surroundings are white space; stated apart to keep the solver's work small. */
  lemma TrimmedSlice(s: string, l: string, r: string)
    requires |l| <= |s| && l == s[|s| - |l|..]
    requires forall k :: 0 <= k < |s| - |l| ==> IsSpace(s[k])
    requires |r| <= |l| && r == l[..|r|]
    requires forall k :: |r| <= k < |l| ==> IsSpace(l[k])
    requires l == [] || !IsSpace(l[0])
    requires r == [] || !IsSpace(r[|r| - 1])
    ensures exists i, j :: 0 <= i <= j <= |s| && r == s[i..j] && AllSpace(s[..i]) && AllSpace(s[j..])
    ensures r == [] || (!IsSpace(r[0]) && !IsSpace(r[|r| - 1]))
  {
    if r != [] {
      assert r[0] == l[0];
    }
    var i := |s| - |l|;
    var j := i + |r|;
    assert r == s[i..j];
    assert AllSpace(s[..i]);
    forall k | 0 <= k < |s| - j ensures IsSpace(s[j..][k]) {
      assert s[j..][k] == l[|r| + k];
    }
  }

  /** A byte. */
  newtype uint8 = x: int | 0 <= x < 256

  /** The UTF-8 encoding of one character: one byte below 0x80, otherwise a lead byte
      followed by 1 to 3 continuation bytes of 6 bits each. */
  function CharBytes(c: char): (r: seq<uint8>)
    ensures 1 <= |r| <= 4
    ensures |r| == 1 <==> (c as int) < 0x80
    ensures |r| == 1 ==> r[0] as int == c as int
    ensures forall i :: 1 <= i < |r| ==> 0x80 <= r[i] < 0xC0
  {
    var n := c as int;
    if n < 0x80 then [n as uint8]
    else if n < 0x800 then [(0xC0 + n / 64) as uint8, (0x80 + n % 64) as uint8]
    else if n < 0x10000 then
      [(0xE0 + n / 4096) as uint8, (0x80 + n / 64 % 64) as uint8, (0x80 + n % 64) as uint8]
    else
      [(0xF0 + n / 262144) as uint8, (0x80 + n / 4096 % 64) as uint8,
       (0x80 + n / 64 % 64) as uint8, (0x80 + n % 64) as uint8]
  }

  /** The code point that a one- to four-byte UTF-8 sequence spells. */
  function CodePoint(r: seq<uint8>): int
    requires 1 <= |r| <= 4
  {
    if |r| == 1 then r[0] as int
    else if |r| == 2 then (r[0] as int - 0xC0) * 64 + (r[1] as int - 0x80)
    else if |r| == 3 then
      (r[0] as int - 0xE0) * 4096 + (r[1] as int - 0x80) * 64 + (r[2] as int - 0x80)
    else
      (r[0] as int - 0xF0) * 262144 + (r[1] as int - 0x80) * 4096
      + (r[2] as int - 0x80) * 64 + (r[3] as int - 0x80)
  }

  /** Decoding the bytes of a character gives the character back. */
  lemma CharBytesDecode(c: char)
    ensures CodePoint(CharBytes(c)) == c as int
  {
    var n := c as int;
    if 0x80 <= n < 0x800 {
      DecodeTwoBytes(c);
    } else if 0x800 <= n < 0x10000 {
      DecodeThreeBytes(c);
    } else if 0x10000 <= n {
      DecodeFourBytes(c);
    }
  }

  lemma DecodeTwoBytes(c: char)
    requires 0x80 <= c as int < 0x800
    ensures CodePoint(CharBytes(c)) == c as int
  {
    var n := c as int;
    assert n == n / 64 * 64 + n % 64;
  }

  lemma DecodeThreeBytes(c: char)
    requires 0x800 <= c as int < 0x10000
    ensures CodePoint(CharBytes(c)) == c as int
  {
    var n := c as int;
    assert n == n / 64 * 64 + n % 64;
    assert n / 64 == n / 4096 * 64 + n / 64 % 64;
  }

  lemma DecodeFourBytes(c: char)
    requires 0x10000 <= c as int
    ensures CodePoint(CharBytes(c)) == c as int
  {
    var n := c as int;
    assert n == n / 64 * 64 + n % 64;
    assert n / 64 == n / 4096 * 64 + n / 64 % 64;
    assert n / 4096 == n / 262144 * 64 + n / 4096 % 64;
  }

  /** The lead byte of a character's bytes tells how many bytes there are. */
  lemma CharBytesLead(c: char)
    ensures var r := CharBytes(c);
      (|r| == 1 <==> r[0] < 0x80)
      && (|r| == 2 <==> 0xC0 <= r[0] < 0xE0)
      && (|r| == 3 <==> 0xE0 <= r[0] < 0xF0)
      && (|r| == 4 <==> 0xF0 <= r[0])
  {
    var n := c as int;
    if 0x10000 <= n {
      assert n / 262144 <= 4;
    }
  }

  /** `[]byte(s)`: the UTF-8 bytes of `s`, character after character. */
  function Bytes(s: string): (r: seq<uint8>)
    ensures |r| >= |s|
    ensures |r| == |s| <==> forall i :: 0 <= i < |s| ==> (s[i] as int) < 0x80
  {
    if s == [] then [] else CharBytes(s[0]) + Bytes(s[1..])
  }

  /** The bytes of a concatenation are the concatenated bytes. */
  lemma {:induction false} BytesAppend(a: string, b: string)
    ensures Bytes(a + b) == Bytes(a) + Bytes(b)
  {
    if a != [] {
      assert (a + b)[1..] == a[1..] + b;
      BytesAppend(a[1..], b);
    } else {
      assert a + b == b;
    }
  }

  /** An ASCII string's bytes are its character codes. */
  lemma {:induction false} AsciiBytes(s: string)
    requires forall i :: 0 <= i < |s| ==> (s[i] as int) < 0x80
    ensures |Bytes(s)| == |s|
    ensures forall i :: 0 <= i < |s| ==> Bytes(s)[i] as int == s[i] as int
  {
    if s != [] {
      AsciiBytes(s[1..]);
    }
  }
}
