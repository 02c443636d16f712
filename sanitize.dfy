/** Name sanitizing for label names and metric names (exporters/metric/cortex/sanitize.go).
    Character classes are the ASCII ones: the model reads a name as a sequence of
    ASCII characters, where Go's `unicode.IsLetter` and `unicode.IsDigit` agree with
    the predicates below. */
module Sanitizer {

  predicate IsLetter(c: char)
  {
    'a' <= c <= 'z' || 'A' <= c <= 'Z'
  }

  predicate IsDigit(c: char)
  {
    '0' <= c <= '9'
  }

  /** The characters a sanitized name is made of. */
  predicate IsNameChar(c: char)
  {
    IsLetter(c) || IsDigit(c) || c == '_'
  }

  /** A name that is already in the `[A-Za-z][A-Za-z0-9_]*` form, or empty. */
  predicate IsSanitized(s: string)
  {
    (s == [] || IsLetter(s[0])) && forall i :: 0 <= i < |s| ==> IsNameChar(s[i])
  }

  /** `sanitizeRune`: letters and digits are kept; everything else becomes '_'. */
  function SanitizeRune(c: char): (r: char)
    ensures IsNameChar(r)
    ensures IsLetter(r) <==> IsLetter(c)
    ensures IsDigit(r) <==> IsDigit(c)
    ensures r == c <==> IsNameChar(c)
  {
    if IsLetter(c) || IsDigit(c) then c else '_'
  }

  /** `strings.Map(sanitizeRune, s)`: every character mapped in place. */
  function MapRunes(s: string): (r: string)
    ensures |r| == |s|
    ensures forall i :: 0 <= i < |s| ==> r[i] == SanitizeRune(s[i])
  {
    if s == [] then [] else [SanitizeRune(s[0])] + MapRunes(s[1..])
  }

  /** `sanitize`: the mapped name, prefixed with "key_" when it would start with a digit
      and with "key" when it would start with '_'; the empty name is left alone. */
  function Sanitize(s: string): (r: string)
    ensures s == [] <==> r == []
    ensures |r| >= |s| && r[|r| - |s|..] == MapRunes(s)
    ensures s != [] ==> (IsLetter(s[0]) <==> r == MapRunes(s))
    ensures s != [] ==> (IsDigit(s[0]) <==> r == "key_" + MapRunes(s))
    ensures s != [] && !IsLetter(s[0]) && !IsDigit(s[0]) ==> r == "key" + MapRunes(s)
    ensures IsSanitized(r)
  {
    if |s| == 0 then s
    else
      var m := MapRunes(s);
      var withDigitPrefix := if IsDigit(m[0]) then "key_" + m else m;
      if withDigitPrefix[0] == '_' then "key" + withDigitPrefix else withDigitPrefix
  }

  /** The output length is the input length plus 4, 3 or 0, by the prefix chosen. */
  lemma SanitizeLength(s: string)
    requires s != []
    ensures |Sanitize(s)| == |s| + (if IsDigit(s[0]) then 4 else if IsLetter(s[0]) then 0 else 3)
  {
  }

  /** A name is left unchanged exactly when it is already sanitized. */
  lemma {:induction false} SanitizeFixedPoint(s: string)
    ensures Sanitize(s) == s <==> IsSanitized(s)
  {
    if IsSanitized(s) && s != [] {
      assert MapRunes(s) == s;
    }
  }

  /** Sanitizing twice is the same as sanitizing once. */
  lemma {:induction false} SanitizeIdempotent(s: string)
    ensures Sanitize(Sanitize(s)) == Sanitize(s)
  {
    SanitizeFixedPoint(Sanitize(s));
  }

  /** Two distinct names can sanitize to the same name. */
  lemma SanitizeNotInjective()
    ensures "a-b" != "a.b" && Sanitize("a-b") == Sanitize("a.b") == "a_b"
  {
    assert MapRunes("a-b") == "a_b";
    assert MapRunes("a.b") == "a_b";
  }

  /** Mapping distributes over concatenation. */
  lemma MapRunesAppend(a: string, b: string)
    ensures MapRunes(a + b) == MapRunes(a) + MapRunes(b)
  {
    var l, r := MapRunes(a + b), MapRunes(a) + MapRunes(b);
    forall i | 0 <= i < |l| ensures l[i] == r[i] {
      if i < |a| {
        assert (a + b)[i] == a[i];
      } else {
        assert (a + b)[i] == b[i - |a|];
      }
    }
  }

  /** Mapping keeps every name character. */
  lemma MapRunesKeeps(s: string)
    requires forall i :: 0 <= i < |s| ==> IsNameChar(s[i])
    ensures MapRunes(s) == s
  {
  }

  /** A name-character string behind a leading digit gets the "key_" prefix. */
  lemma SanitizeDigitPrefix(t: string)
    requires t != [] && IsDigit(t[0])
    requires forall i :: 0 <= i < |t| ==> IsNameChar(t[i])
    ensures Sanitize(t) == "key_" + t
  {
    MapRunesKeeps(t);
  }

  /** A leading character that is neither a letter nor a digit, '_' included, is
      replaced by "key_". */
  lemma SanitizeUnderscorePrefix(c: char, t: string)
    requires !IsLetter(c) && !IsDigit(c)
    requires forall i :: 0 <= i < |t| ==> IsNameChar(t[i])
    ensures Sanitize([c] + t) == "key_" + t
  {
    var s := [c] + t;
    assert s[1..] == t;
    MapRunesKeeps(t);
    var m := MapRunes(s);
    assert m == "_" + t;
    var r := Sanitize(s);
    assert r == "key" + m;
    KeyUnderscore(t);
  }

  /** The "key" prefix followed by "_" is the "key_" prefix. Stated apart so that the
      proofs using it reason about one concatenation of literals only, which keeps the
      solver's work small. */
  lemma KeyUnderscore(t: string)
    ensures "key" + ("_" + t) == "key_" + t
  {
    assert "key_" == "key" + "_";
  }
}
