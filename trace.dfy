/** The parts of the OpenTelemetry trace API that the X-Ray propagator relies on: trace
    and span identifiers, their lowercase hexadecimal text form, and span contexts. */
module Trace {
  import opened Wrappers
  import opened GoStrings

  /** A 16-byte trace identifier. */
  type TraceId = s: seq<uint8> | |s| == 16 witness ZeroBytes(16)

  /** An 8-byte span identifier. */
  type SpanId = s: seq<uint8> | |s| == 8 witness ZeroBytes(8)

  function ZeroBytes(n: nat): (r: seq<uint8>)
    ensures |r| == n && forall i :: 0 <= i < n ==> r[i] == 0
  {
    if n == 0 then [] else [0 as uint8] + ZeroBytes(n - 1)
  }

  /** An identifier is valid when some byte is not zero. */
  predicate NonZero(b: seq<uint8>)
  {
    exists i :: 0 <= i < |b| && b[i] != 0
  }

  /** The flags value with the sampled bit. */
  const FlagsSampled: uint8 := 1

  datatype SpanContext = SpanContext(traceId: TraceId, spanId: SpanId, traceFlags: uint8)
  {
    /** `SpanContext.IsValid`: both identifiers are valid. */
    predicate IsValid()
    {
      NonZero(traceId) && NonZero(spanId)
    }
  }

  /** `trace.EmptySpanContext()`. */
  function EmptySpanContext(): (sc: SpanContext)
    ensures !sc.IsValid()
  {
    SpanContext(ZeroBytes(16), ZeroBytes(8), 0)
  }

  // ---------------------------------------------------------------------------
  // Hexadecimal text

  predicate IsHexDigit(c: char)
  {
    '0' <= c <= '9' || 'a' <= c <= 'f'
  }

  function HexDigit(v: int): (c: char)
    requires 0 <= v < 16
    ensures IsHexDigit(c) && HexValue(c) == v
  {
    if v < 10 then ('0' as int + v) as char else ('a' as int + v - 10) as char
  }

  function HexValue(c: char): int
    requires IsHexDigit(c)
  {
    if '0' <= c <= '9' then c as int - '0' as int else c as int - 'a' as int + 10
  }

  /** `hex.EncodeToString`: two lowercase digits per byte, high half first. */
  function HexEncode(b: seq<uint8>): (s: string)
    ensures |s| == 2 * |b|
    ensures forall i :: 0 <= i < |s| ==> IsHexDigit(s[i])
  {
    if b == [] then [] else [HexDigit(b[0] as int / 16), HexDigit(b[0] as int % 16)] + HexEncode(b[1..])
  }

  /** Lowercase hexadecimal text back to bytes; `None` for an odd length or a character
      that is not a lowercase hex digit. */
  function HexDecode(s: string): (r: Option<seq<uint8>>)
    ensures r.Some? ==> 2 * |r.value| == |s|
  {
    if |s| == 0 then Some([])
    else if |s| == 1 || !IsHexDigit(s[0]) || !IsHexDigit(s[1]) then None
    else
      match HexDecode(s[2..])
      case None => None
      case Some(rest) => Some([(HexValue(s[0]) * 16 + HexValue(s[1])) as uint8] + rest)
  }

  /** Decoding undoes encoding. */
  lemma {:induction false} HexDecodeEncode(b: seq<uint8>)
    ensures HexDecode(HexEncode(b)) == Some(b)
  {
    if b != [] {
      var s := HexEncode(b);
      assert s[2..] == HexEncode(b[1..]);
      HexDecodeEncode(b[1..]);
      assert (HexValue(s[0]) * 16 + HexValue(s[1])) as uint8 == b[0];
      assert [b[0]] + b[1..] == b;
    }
  }

  /** Text that decodes is made of hex digits. */
  lemma {:induction false} HexDecodeDigits(s: string)
    requires HexDecode(s).Some?
    ensures forall i :: 0 <= i < |s| ==> IsHexDigit(s[i])
  {
    if |s| >= 2 {
      HexDecodeDigits(s[2..]);
      assert forall i :: 2 <= i < |s| ==> s[i] == s[2..][i - 2];
    }
  }

  /** `TraceID.String()` and `SpanID.String()`. */
  function IdString(b: seq<uint8>): (s: string)
    ensures |s| == 2 * |b|
    ensures forall i :: 0 <= i < |s| ==> IsHexDigit(s[i])
  {
    HexEncode(b)
  }

  /** Why an identifier does not parse. */
  datatype IdError = InvalidLength | InvalidHex | NilId

  /** `trace.IDFromHex`: 32 lowercase hex digits that do not spell the zero identifier. */
  function TraceIdFromHex(h: string): (r: Result<TraceId, IdError>)
    ensures r.Success? ==> NonZero(r.value) && IdString(r.value) == h
  {
    if |h| != 32 then Failure(InvalidLength)
    else
      match HexDecode(h)
      case None => Failure(InvalidHex)
      case Some(b) =>
        if !NonZero(b) then Failure(NilId)
        else
          assert HexEncode(b) == h by { HexEncodeDecode(h); }
          Success(b)
  }

  /** `trace.SpanIDFromHex`: 16 lowercase hex digits that do not spell the zero
      identifier. */
  function SpanIdFromHex(h: string): (r: Result<SpanId, IdError>)
    ensures r.Success? ==> NonZero(r.value) && IdString(r.value) == h
  {
    if |h| != 16 then Failure(InvalidLength)
    else
      match HexDecode(h)
      case None => Failure(InvalidHex)
      case Some(b) =>
        if !NonZero(b) then Failure(NilId)
        else
          assert HexEncode(b) == h by { HexEncodeDecode(h); }
          Success(b)
  }

  /** Encoding undoes decoding. */
  lemma {:induction false} HexEncodeDecode(s: string)
    requires HexDecode(s).Some?
    ensures HexEncode(HexDecode(s).value) == s
  {
    if |s| >= 2 {
      HexEncodeDecode(s[2..]);
      var v := HexValue(s[0]) * 16 + HexValue(s[1]);
      assert v / 16 == HexValue(s[0]) && v % 16 == HexValue(s[1]);
      assert s == [s[0], s[1]] + s[2..];
    }
  }

  /** A valid identifier parses back from its text. */
  lemma TraceIdRoundTrip(id: TraceId)
    requires NonZero(id)
    ensures TraceIdFromHex(IdString(id)) == Success(id)
  {
    HexDecodeEncode(id);
  }

  lemma SpanIdRoundTrip(id: SpanId)
    requires NonZero(id)
    ensures SpanIdFromHex(IdString(id)) == Success(id)
  {
    HexDecodeEncode(id);
  }
}
