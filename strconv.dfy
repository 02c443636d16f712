/** Go's `strconv.ParseInt(s, 10, 64)`, which the second pipeline applies to each update
    value, and `strconv.FormatInt(v, 10)`, its inverse on 64-bit integers. */
module StrConv {
  import opened Wrappers

  /** 2^64 - 1, the largest value `ParseUint` accepts for 64 bits. */
  const MaxUint64: nat := 0xFFFF_FFFF_FFFF_FFFF

  /** 2^63: `int64` holds -2^63 .. 2^63 - 1. */
  const Int64Cutoff: nat := 0x8000_0000_0000_0000

  datatype NumErrorKind = ErrSyntax | ErrRange

  /** `*strconv.NumError` as `ParseInt` returns it: the whole input and the reason. */
  datatype NumError = NumError(num: string, err: NumErrorKind)

  predicate IsDigit(c: char)
  {
    '0' <= c <= '9'
  }

  function DigitValue(c: char): (v: nat)
    requires IsDigit(c)
    ensures v < 10
  {
    c as int - '0' as int
  }

  predicate AllDigits(s: string)
  {
    forall i :: 0 <= i < |s| ==> IsDigit(s[i])
  }

  function Pow10(k: nat): (r: nat)
    ensures r >= 1
  {
    if k == 0 then 1 else 10 * Pow10(k - 1)
  }

  /** The positional value of a string of decimal digits, most significant first. */
  function DecimalValue(s: string): nat
    requires AllDigits(s)
  {
    if s == [] then 0 else DigitValue(s[0]) * Pow10(|s| - 1) + DecimalValue(s[1..])
  }

  /** The digit loop of `ParseUint` for base 10 and 64 bits, with `n` read so far: a
      character that is not a digit is a syntax error and a prefix whose value exceeds
      2^64 - 1 is a range error, whichever comes first. (Go's two overflow tests, `n >=
      cutoff` and `n1 > maxVal`, together say exactly that `n * 10 + d > maxVal`.) */
  function ScanUint(s: string, n: nat): (r: Result<nat, NumErrorKind>)
    ensures r.Success? ==> n <= r.value && (s != [] ==> r.value <= MaxUint64)
  {
    if s == [] then Success(n)
    else if !IsDigit(s[0]) then Failure(ErrSyntax)
    else if n * 10 + DigitValue(s[0]) > MaxUint64 then Failure(ErrRange)
    else ScanUint(s[1..], n * 10 + DigitValue(s[0]))
  }

  /** `strconv.ParseUint(s, 10, 64)`: the empty string is a syntax error. */
  function ParseUint(s: string): (r: Result<nat, NumErrorKind>)
    ensures s == [] ==> r == Failure(ErrSyntax)
    ensures r.Success? ==> r.value <= MaxUint64
  {
    if s == [] then Failure(ErrSyntax) else ScanUint(s, 0)
  }

  /** The text after an optional leading sign. */
  function Unsigned(s: string): string
  {
    if s != [] && (s[0] == '+' || s[0] == '-') then s[1..] else s
  }

  /** `strconv.ParseInt(s, 10, 64)`: an optional sign, then the digits as `ParseUint`
      reads them, then the check against the range of `int64`; the error carries the
      whole input. */
  function ParseInt(s: string): (r: Result<int, NumError>)
    ensures r.Success? ==> -(Int64Cutoff as int) <= r.value < Int64Cutoff
    ensures r.Failure? ==> r.error.num == s
  {
    if s == [] then Failure(NumError(s, ErrSyntax))
    else
      var neg := s[0] == '-';
      match ParseUint(Unsigned(s))
      case Failure(kind) => Failure(NumError(s, kind))
      case Success(un) =>
        if !neg && un >= Int64Cutoff then Failure(NumError(s, ErrRange))
        else if neg && un > Int64Cutoff then Failure(NumError(s, ErrRange))
        else Success(if neg then -(un as int) else un)
  }

  /** The digit loop reads a string of digits as its positional value, and fails with a
      range error exactly when that value (after what was read before) is too large. */
  lemma {:induction false} ScanDigits(s: string, n: nat)
    requires AllDigits(s) && n <= MaxUint64
    ensures ScanUint(s, n).Success? <==> n * Pow10(|s|) + DecimalValue(s) <= MaxUint64
    ensures ScanUint(s, n).Success? ==> ScanUint(s, n).value == n * Pow10(|s|) + DecimalValue(s)
    ensures ScanUint(s, n).Failure? ==> ScanUint(s, n).error == ErrRange
  {
    if s != [] {
      var d, k := DigitValue(s[0]), |s| - 1;
      var n' := n * 10 + d;
      assert AllDigits(s[1..]) by {
        forall i | 0 <= i < |s[1..]| ensures IsDigit(s[1..][i]) {
          assert s[1..][i] == s[i + 1];
        }
      }
      var p := Pow10(k);
      assert Pow10(|s|) == 10 * p;
      assert DecimalValue(s) == d * p + DecimalValue(s[1..]);
      Regroup(n, d, p, DecimalValue(s[1..]));
      AtMostScaled(n', p);
      if n' <= MaxUint64 {
        ScanDigits(s[1..], n');
      }
    }
  }

  lemma Regroup(n: nat, d: nat, p: nat, rest: nat)
    ensures n * (10 * p) + (d * p + rest) == (n * 10 + d) * p + rest
  {
    calc {
      (n * 10 + d) * p;
      (n * 10) * p + d * p;
      n * (10 * p) + d * p;
    }
  }

  lemma AtMostScaled(x: nat, p: nat)
    requires p >= 1
    ensures x <= x * p
  {
  }

  /** A successful scan read only digits. */
  lemma {:induction false} ScanSuccessDigits(s: string, n: nat)
    requires ScanUint(s, n).Success?
    ensures AllDigits(s)
  {
    if s != [] {
      ScanSuccessDigits(s[1..], n * 10 + DigitValue(s[0]));
      forall i | 1 <= i < |s| ensures IsDigit(s[i]) {
        assert s[i] == s[1..][i - 1];
      }
    }
  }

  /** `ParseInt` accepts exactly an optional sign followed by at least one digit whose value,
      with the sign, fits in `int64`, and returns that value. */
  lemma ParseIntAccepts(s: string)
    ensures ParseInt(s).Success? <==>
      var u := Unsigned(s);
      && u != [] && AllDigits(u)
      && (if s[0] == '-' then DecimalValue(u) <= Int64Cutoff else DecimalValue(u) < Int64Cutoff)
    ensures ParseInt(s).Success? ==>
      ParseInt(s).value == if s[0] == '-' then -(DecimalValue(Unsigned(s)) as int) else DecimalValue(Unsigned(s))
  {
    var u := Unsigned(s);
    if u != [] {
      if ScanUint(u, 0).Success? {
        ScanSuccessDigits(u, 0);
      }
      if AllDigits(u) {
        ScanDigits(u, 0);
      }
    }
  }

  function DigitChar(v: nat): (c: char)
    requires v < 10
    ensures IsDigit(c) && DigitValue(c) == v
  {
    ('0' as int + v) as char
  }

  /** The decimal digits of `n`, without leading zeros. */
  function Digits(n: nat): (s: string)
    ensures s != [] && AllDigits(s)
  {
    if n < 10 then [DigitChar(n)] else Digits(n / 10) + [DigitChar(n % 10)]
  }

  /** `strconv.FormatInt(v, 10)`. */
  function FormatInt(v: int): (s: string)
    ensures s != []
  {
    if v < 0 then "-" + Digits(-v) else Digits(v)
  }

  /** Appending a digit multiplies the value by ten and adds the digit. */
  lemma {:induction false} DecimalValueAppend(s: string, c: char)
    requires AllDigits(s) && IsDigit(c)
    ensures AllDigits(s + [c])
    ensures DecimalValue(s + [c]) == 10 * DecimalValue(s) + DigitValue(c)
  {
    assert forall i :: 0 <= i < |s| ==> (s + [c])[i] == s[i];
    if s != [] {
      assert (s + [c])[1..] == s[1..] + [c];
      assert AllDigits(s[1..]) by {
        forall i | 0 <= i < |s[1..]| ensures IsDigit(s[1..][i]) {
          assert s[1..][i] == s[i + 1];
        }
      }
      DecimalValueAppend(s[1..], c);
      var d, k := DigitValue(s[0]), |s| - 1;
      assert d * Pow10(k + 1) == 10 * (d * Pow10(k));
    }
  }

  /** The digits of `n` have the value `n`. */
  lemma {:induction false} DigitsValue(n: nat)
    ensures DecimalValue(Digits(n)) == n
  {
    if n >= 10 {
      DigitsValue(n / 10);
      DecimalValueAppend(Digits(n / 10), DigitChar(n % 10));
    } else {
      assert Digits(n)[1..] == [];
    }
  }

  /** Parsing undoes formatting on the range of `int64`. */
  lemma ParseFormatInt(v: int)
    requires -(Int64Cutoff as int) <= v < Int64Cutoff
    ensures ParseInt(FormatInt(v)) == Success(v)
  {
    var s := FormatInt(v);
    if v < 0 {
      DigitsValue(-v);
      assert s[0] == '-' && Unsigned(s) == Digits(-v);
    } else {
      DigitsValue(v);
      assert Unsigned(s) == Digits(v);
    }
    ParseIntAccepts(s);
  }
}
