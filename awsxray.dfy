/** The AWS X-Ray propagator: it writes the current span context into the
    "X-Amzn-Trace-Id" header as "Root=1-xxxxxxxx-xxxxxxxxxxxxxxxxxxxxxxxx;Parent=...;Sampled=0|1"
    and reads a remote span context back from such a header. */
module AwsXray {
  import opened Wrappers
  import opened GoStrings
  import opened Trace

  const TraceHeaderKey := "X-Amzn-Trace-Id"

  /** The three errors `extract` reports. */
  datatype XrayError = InvalidTraceHeader | MalformedTraceId | InvalidSpanIdLength

  function Message(e: XrayError): string
  {
    match e
    case InvalidTraceHeader =>
      "invalid X-Amzn-Trace-Id header value, should contain 3 different part separated by ;"
    case MalformedTraceId =>
      "cannot decode trace id from header, should be a string of hex, lowercase trace id can't be all zero"
    case InvalidSpanIdLength => "invalid span id length, must be 16"
  }

  /** `Fields`: the only header the propagator reads or writes. */
  function Fields(): (r: seq<string>)
    ensures |r| == 1 && TraceHeaderKey in r
  {
    [TraceHeaderKey]
  }

  /** A text map carrier (for instance HTTP headers), as a dictionary it updates. */
  class Carrier {
    var entries: map<string, string>

    constructor(entries: map<string, string>)
      ensures this.entries == entries
    {
      this.entries := entries;
    }

    /** `Get`: the value under `key`, or "" when there is none. */
    function Get(key: string): (v: string)
      reads this
      ensures key in entries ==> v == entries[key]
      ensures key !in entries ==> v == ""
    {
      Lookup(entries, key)
    }

    method Set(key: string, value: string)
      modifies this
      ensures entries == old(entries)[key := value]
    {
      entries := entries[key := value];
    }
  }

  /** The part of a context the propagator touches: the current span's context, which
      `Inject` reads, and the remote span context, which `Extract` sets. */
  datatype Context = Context(span: SpanContext, remote: Option<SpanContext>)

  // ---------------------------------------------------------------------------
  // Inject

  /** The X-Ray form of a trace id: version "1", then the first 8 hex digits, then the
      other 24, separated by '-'. */
  function XrayTraceId(id: TraceId): (s: string)
    ensures |s| == 35 && s[0] == '1' && s[1] == '-' && s[10] == '-'
    ensures s[2..10] + s[11..] == IdString(id)
    ensures forall i :: 0 <= i < |s| ==> s[i] != ';' && s[i] != '=' && !IsSpace(s[i])
  {
    var hex := IdString(id);
    var s := "1" + "-" + hex[0..8] + "-" + hex[8..];
    assert s[2..10] == hex[0..8] && s[11..] == hex[8..];
    assert hex[0..8] + hex[8..] == hex;
    s
  }

  /** "1" when the flags are exactly the sampled flag, "0" otherwise; parsing it back
      gives the flags the propagator can carry. */
  function SampledText(flags: uint8): (s: string)
    ensures |s| == 1 && s[0] != ';' && s[0] != '=' && !IsSpace(s[0])
    ensures ParseTraceFlag(s) == if flags == FlagsSampled then FlagsSampled else 0
  {
    if flags == FlagsSampled then "1" else "0"
  }

  /** The header value `Inject` writes for a span context: 74 characters, starting with
      the Root part. */
  function InjectHeader(sc: SpanContext): (h: string)
    ensures |h| == 74 && HasPrefix(h, "Root=1-")
  {
    "Root" + "=" + XrayTraceId(sc.traceId) + ";" + "Parent" + "=" + IdString(sc.spanId) + ";"
    + "Sampled" + "=" + SampledText(sc.traceFlags)
  }

  /** `Inject`: writes the header only for a valid span context and leaves the carrier
      untouched otherwise. */
  method Inject(ctx: Context, carrier: Carrier)
    modifies carrier
    ensures ctx.span.IsValid() ==>
      carrier.entries == old(carrier.entries)[TraceHeaderKey := InjectHeader(ctx.span)]
    ensures !ctx.span.IsValid() ==> carrier.entries == old(carrier.entries)
  {
    var sc := ctx.span;
    if !NonZero(sc.traceId) || !NonZero(sc.spanId) {
      return;
    }
    var xrayTraceId := XrayTraceId(sc.traceId);
    var samplingFlag := "0";
    if sc.traceFlags == FlagsSampled {
      samplingFlag := "1";
    }
    carrier.Set(TraceHeaderKey, "Root" + "=" + xrayTraceId + ";" + "Parent" + "=" + IdString(sc.spanId)
      + ";" + "Sampled" + "=" + samplingFlag);
  }

  // ---------------------------------------------------------------------------
  // Parsing the header

  /** `indexOf`: the first occurrence of `sub` at or after `pos`, or -1. */
  function IndexOf(s: string, sub: string, pos: nat): (r: int)
    requires pos <= |s|
    ensures r == -1 || (pos <= r && OccursAt(s, sub, r))
    ensures r == -1 ==> forall j :: pos <= j ==> !OccursAt(s, sub, j)
    ensures r >= 0 ==> forall j :: pos <= j < r ==> !OccursAt(s, sub, j)
  {
    ShiftOccurs(s, sub, pos);
    var index := Index(s[pos..], sub);
    if index > -1 then
      assert OccursAt(s[pos..], sub, index);
      assert forall j :: pos <= j < index + pos ==> !OccursAt(s, sub, j) by {
        forall j | pos <= j < index + pos ensures !OccursAt(s, sub, j) {
          assert !OccursAt(s[pos..], sub, j - pos);
        }
      }
      index + pos
    else
      assert forall j :: pos <= j ==> !OccursAt(s, sub, j) by {
        forall j | pos <= j ensures !OccursAt(s, sub, j) {
          assert !OccursAt(s[pos..], sub, j - pos);
        }
      }
      index
  }

  /** Why the value of a "Root" part is not a trace id. */
  datatype TraceIdError = Malformed | FromHex(IdError)

  /** `parseTraceId`: 35 characters "1-" + 8 hex digits + "-" + 24 hex digits, the hex
      digits spelling a valid trace id. What parses is exactly the X-Ray form of what it
      parses to. */
  function ParseTraceId(x: string): (r: Result<TraceId, TraceIdError>)
    ensures r.Success? ==> NonZero(r.value) && XrayTraceId(r.value) == x
  {
    if |x| != 35 then Failure(Malformed)
    else if !HasPrefix(x, "1") then Failure(Malformed)
    else if x[1..2] != "-" || x[10..11] != "-" then Failure(Malformed)
    else
      match TraceIdFromHex(x[2..10] + x[11..35])
      case Failure(e) => Failure(FromHex(e))
      case Success(id) =>
        assert XrayTraceId(id) == x by { XrayTraceIdUnique(XrayTraceId(id), x); }
        Success(id)
  }

  /** Two strings of the X-Ray trace id shape with the same hex digits are equal. */
  lemma XrayTraceIdUnique(s: string, x: string)
    requires |s| == 35 && |x| == 35
    requires s[0] == x[0] && s[1] == x[1] && s[10] == x[10]
    requires s[2..10] + s[11..] == x[2..10] + x[11..35]
    ensures s == x
  {
    var a, b := s[2..10] + s[11..], x[2..10] + x[11..35];
    forall i | 0 <= i < 35 ensures s[i] == x[i] {
      if 2 <= i < 10 {
        assert s[i] == a[i - 2] && x[i] == b[i - 2];
      } else if 11 <= i {
        assert s[i] == a[i - 3] && x[i] == b[i - 3];
      }
    }
  }

  /** The X-Ray form of a valid trace id parses back to it. */
  lemma ParseXrayTraceId(id: TraceId)
    requires NonZero(id)
    ensures ParseTraceId(XrayTraceId(id)) == Success(id)
  {
    var x := XrayTraceId(id);
    assert x[1..2] == "-" && x[10..11] == "-";
    assert x[11..35] == x[11..];
    TraceIdRoundTrip(id);
  }

  /** `parseTraceFlag`: the length test counts bytes, so the value is not sampled exactly
      when it is one ASCII character other than '1'; every other value, the empty one and
      a single non-ASCII character included, means sampled. */
  function ParseTraceFlag(v: string): (f: uint8)
    ensures f == 0 <==> |v| == 1 && (v[0] as int) < 0x80 && v[0] != '1'
    ensures f == 0 || f == FlagsSampled
  {
    if |Bytes(v)| == 1 && v != "1" then 0 else FlagsSampled
  }

  /** Which field a part of the header sets, decided by its prefix in this order. */
  datatype PartKey = RootKey | ParentKey | SampledKey | OtherKey

  function KeyOf(part: string): PartKey
  {
    if HasPrefix(part, "Root") then RootKey
    else if HasPrefix(part, "Parent") then ParentKey
    else if HasPrefix(part, "Sampled") then SampledKey
    else OtherKey
  }

  /** The text after the first '=' of a part, if it has one. */
  function PartValue(part: string): (r: Option<string>)
    ensures r.Some? <==> '=' in part
    ensures r.Some? ==> exists k :: 0 <= k < |part| && part[k] == '=' && r.value == part[k + 1..]
  {
    var equalsIndex := Index(part, "=");
    if equalsIndex < 0 then
      assert '=' !in part by {
        forall k | 0 <= k < |part| ensures part[k] != '=' {
          assert !OccursAt(part, "=", k);
          assert part[k..k + 1] == [part[k]];
        }
      }
      None
    else
      assert part[equalsIndex..equalsIndex + 1] == "=";
      assert part[equalsIndex] == '=';
      Some(part[equalsIndex + 1..])
  }

  /** One part of the header applied to the span context read so far. */
  function ApplyPart(part: string, sc: SpanContext): Result<SpanContext, XrayError>
  {
    match PartValue(part)
    case None => Failure(InvalidTraceHeader)
    case Some(value) => ApplyValue(KeyOf(part), value, sc)
  }

  /** The value of a part applied under its key. */
  function ApplyValue(key: PartKey, value: string, sc: SpanContext): Result<SpanContext, XrayError>
  {
    match key
    case RootKey =>
      (match ParseTraceId(value)
       case Failure(_) => Failure(MalformedTraceId)
       case Success(id) => Success(sc.(traceId := id)))
    case ParentKey =>
      (match SpanIdFromHex(value)
       case Failure(_) => Failure(InvalidSpanIdLength)
       case Success(id) => Success(sc.(spanId := id)))
    case SampledKey => Success(sc.(traceFlags := ParseTraceFlag(value)))
    case OtherKey => Success(sc)
  }

  /** The next part starting at `pos` and the position after it: up to the next ';', or
      the rest of the header with surrounding white space removed. */
  function NextPart(h: string, pos: nat): (r: (string, nat))
    requires pos < |h|
    ensures pos < r.1 <= |h|
  {
    var delimiterIndex := IndexOf(h, ";", pos);
    if delimiterIndex >= 0 then (h[pos..delimiterIndex], delimiterIndex + 1)
    else (TrimSpace(h[pos..]), |h|)
  }

  /** The parts of the header from `pos` on. */
  function Parts(h: string, pos: nat): seq<string>
    requires pos <= |h|
    decreases |h| - pos
  {
    if pos == |h| then []
    else
      var (part, next) := NextPart(h, pos);
      [part] + Parts(h, next)
  }

  /** Parts applied left to right; the first failing part ends the parse, so a parse that
      succeeds saw a '=' in every part. */
  function ApplyParts(parts: seq<string>, sc: SpanContext): (r: Result<SpanContext, XrayError>)
    ensures r.Success? ==> forall i :: 0 <= i < |parts| ==> '=' in parts[i]
  {
    if parts == [] then Success(sc)
    else
      match ApplyPart(parts[0], sc)
      case Failure(e) => Failure(e)
      case Success(sc') =>
        var r := ApplyParts(parts[1..], sc');
        assert r.Success? ==> forall i :: 1 <= i < |parts| ==> parts[i] == parts[1..][i - 1];
        r
  }

  /** What `extract` returns for a header value, starting from the zero span context: the
      empty header gives the zero span context. */
  function ParseHeader(h: string): (r: Result<SpanContext, XrayError>)
    ensures h == [] ==> r == Success(EmptySpanContext())
    ensures r.Success? ==> forall i :: 0 <= i < |Parts(h, 0)| ==> '=' in Parts(h, 0)[i]
  {
    ApplyParts(Parts(h, 0), EmptySpanContext())
  }

  /** The part starting at `pos` and where the next one starts. */
  method ReadPart(headerVal: string, pos: nat) returns (part: string, next: nat)
    requires pos < |headerVal|
    ensures (part, next) == NextPart(headerVal, pos)
  {
    var delimiterIndex := IndexOf(headerVal, ";", pos);
    if delimiterIndex >= 0 {
      part := headerVal[pos..delimiterIndex];
      next := delimiterIndex + 1;
    } else {
      part := TrimSpace(headerVal[pos..]);
      next := |headerVal|;
    }
  }

  /** One step of the loop in `extract`: the span context after `part`, or the error. */
  method UpdateFromPart(part: string, sc: SpanContext) returns (sc': SpanContext, err: Option<XrayError>)
    ensures ApplyPart(part, sc).Success? ==> err == None && sc' == ApplyPart(part, sc).value
    ensures ApplyPart(part, sc).Failure? ==> err == Some(ApplyPart(part, sc).error)
  {
    var equalsIndex := Index(part, "=");
    if equalsIndex < 0 {
      return sc, Some(InvalidTraceHeader);
    }
    var value := part[equalsIndex + 1..];
    sc', err := UpdateFromValue(part, value, sc);
  }

  /** The key tests of that step, once the value after the '=' is known. */
  method UpdateFromValue(part: string, value: string, sc: SpanContext) returns (sc': SpanContext, err: Option<XrayError>)
    ensures ApplyValue(KeyOf(part), value, sc).Success? ==>
      err == None && sc' == ApplyValue(KeyOf(part), value, sc).value
    ensures ApplyValue(KeyOf(part), value, sc).Failure? ==> err == Some(ApplyValue(KeyOf(part), value, sc).error)
  {
    sc', err := sc, None;
    if HasPrefix(part, "Root") {
      var id := ParseTraceId(value);
      if id.Failure? {
        return sc, Some(MalformedTraceId);
      }
      sc' := sc.(traceId := id.value);
    } else if HasPrefix(part, "Parent") {
      var id := SpanIdFromHex(value);
      if id.Failure? {
        return sc, Some(InvalidSpanIdLength);
      }
      sc' := sc.(spanId := id.value);
    } else if HasPrefix(part, "Sampled") {
      sc' := sc.(traceFlags := ParseTraceFlag(value));
    }
  }

  /** `extract`: the loop over the parts of the header; an error comes with the empty
      span context. */
  method ExtractHeader(headerVal: string) returns (sc: SpanContext, err: Option<XrayError>)
    ensures ParseHeader(headerVal).Success? ==> err == None && sc == ParseHeader(headerVal).value
    ensures ParseHeader(headerVal).Failure? ==>
      err == Some(ParseHeader(headerVal).error) && sc == EmptySpanContext()
  {
    sc := EmptySpanContext();
    var pos: nat := 0;
    while pos < |headerVal|
      invariant pos <= |headerVal|
      invariant ApplyParts(Parts(headerVal, pos), sc) == ParseHeader(headerVal)
      decreases |headerVal| - pos
    {
      var part, next := ReadPart(headerVal, pos);
      assert Parts(headerVal, pos) == [part] + Parts(headerVal, next);
      assert ([part] + Parts(headerVal, next))[1..] == Parts(headerVal, next);
      var sc', partErr := UpdateFromPart(part, sc);
      if partErr.Some? {
        return EmptySpanContext(), partErr;
      }
      sc, pos := sc', next;
    }
    err := None;
  }

  // ---------------------------------------------------------------------------
  // Extract

  /** The context `Extract` returns for the carrier's entries. */
  function ExtractedContext(ctx: Context, entries: map<string, string>): (r: Context)
    ensures r.span == ctx.span
    ensures r != ctx ==> Lookup(entries, TraceHeaderKey) != "" && r.remote.Some? && r.remote.value.IsValid()
    ensures r.remote.Some? && r.remote != ctx.remote ==>
      ParseHeader(Lookup(entries, TraceHeaderKey)) == Success(r.remote.value)
  {
    var h := Lookup(entries, TraceHeaderKey);
    if h != "" && ParseHeader(h).Success? && ParseHeader(h).value.IsValid() then
      ctx.(remote := Some(ParseHeader(h).value))
    else ctx
  }

  /** `Extract`: the context with the header's span context as remote span context when
      the header is present, parses and is valid; the context unchanged otherwise. */
  method Extract(ctx: Context, carrier: Carrier) returns (r: Context)
    ensures r == ExtractedContext(ctx, carrier.entries)
    ensures r == ctx || (r.span == ctx.span && r.remote.Some? && r.remote.value.IsValid())
  {
    var h := carrier.Get(TraceHeaderKey);
    if h != "" {
      var sc, err := ExtractHeader(h);
      if err == None && NonZero(sc.traceId) && NonZero(sc.spanId) {
        return ctx.(remote := Some(sc));
      }
    }
    return ctx;
  }

  // ---------------------------------------------------------------------------
  // Properties

  /** A part sets at most the field its key names, to a value that does not depend on
      the span context read so far; whether it fails, and with which error, does not
      depend on it either. So a later part overrides an earlier one with the same key,
      and a part with an unknown key changes nothing. */
  lemma ApplyPartEffect(part: string, sc1: SpanContext, sc2: SpanContext)
    ensures ApplyPart(part, sc1).Failure? <==> ApplyPart(part, sc2).Failure?
    ensures ApplyPart(part, sc1).Failure? ==> ApplyPart(part, sc1).error == ApplyPart(part, sc2).error
    ensures ApplyPart(part, sc1).Success? ==>
      var r1, r2 := ApplyPart(part, sc1).value, ApplyPart(part, sc2).value;
      && r1.traceId == (if KeyOf(part) == RootKey then r2.traceId else sc1.traceId)
      && r1.spanId == (if KeyOf(part) == ParentKey then r2.spanId else sc1.spanId)
      && r1.traceFlags == (if KeyOf(part) == SampledKey then r2.traceFlags else sc1.traceFlags)
  {
  }

  /** A part fails when it has no '=', when its key is "Root" and the value is not an
      X-Ray trace id, or when its key is "Parent" and the value is not a span id. */
  predicate PartFails(part: string)
  {
    ApplyPart(part, EmptySpanContext()).Failure?
  }

  lemma PartFailsCases(part: string)
    ensures PartFails(part) <==>
      || '=' !in part
      || (KeyOf(part) == RootKey && ParseTraceId(PartValue(part).value).Failure?)
      || (KeyOf(part) == ParentKey && SpanIdFromHex(PartValue(part).value).Failure?)
    ensures '=' !in part ==> ApplyPart(part, EmptySpanContext()) == Failure(InvalidTraceHeader)
    ensures '=' in part && KeyOf(part) == RootKey && PartFails(part) ==>
      ApplyPart(part, EmptySpanContext()) == Failure(MalformedTraceId)
    ensures '=' in part && KeyOf(part) == ParentKey && PartFails(part) ==>
      ApplyPart(part, EmptySpanContext()) == Failure(InvalidSpanIdLength)
  {
  }

  /** Whether a part fails, and with which error, does not depend on the context it is
      applied to. */
  lemma PartFailsAnywhere(part: string, sc: SpanContext)
    ensures ApplyPart(part, sc).Failure? <==> PartFails(part)
    ensures PartFails(part) ==> ApplyPart(part, sc).error == ApplyPart(part, EmptySpanContext()).error
  {
    ApplyPartEffect(part, sc, EmptySpanContext());
  }

  /** Parsing fails exactly when some part fails. */
  lemma {:induction false} ApplyPartsFails(parts: seq<string>, sc: SpanContext)
    ensures ApplyParts(parts, sc).Failure? <==> exists i :: 0 <= i < |parts| && PartFails(parts[i])
  {
    if parts != [] {
      PartFailsAnywhere(parts[0], sc);
      if !PartFails(parts[0]) {
        var rest := parts[1..];
        ApplyPartsFails(rest, ApplyPart(parts[0], sc).value);
        if exists i :: 0 <= i < |parts| && PartFails(parts[i]) {
          var i :| 0 <= i < |parts| && PartFails(parts[i]);
          assert PartFails(rest[i - 1]);
        }
        if exists i :: 0 <= i < |rest| && PartFails(rest[i]) {
          var i :| 0 <= i < |rest| && PartFails(rest[i]);
          assert PartFails(parts[i + 1]);
        }
      }
    }
  }

  /** When part `j` is the first failing part, parsing fails with its error. */
  lemma {:induction false} ApplyPartsFirstError(parts: seq<string>, sc: SpanContext, j: int)
    requires 0 <= j < |parts| && PartFails(parts[j])
    requires forall i :: 0 <= i < j ==> !PartFails(parts[i])
    ensures ApplyParts(parts, sc) == Failure(ApplyPart(parts[j], EmptySpanContext()).error)
  {
    PartFailsAnywhere(parts[0], sc);
    if j > 0 {
      var rest := parts[1..];
      forall i | 0 <= i < j - 1 ensures !PartFails(rest[i]) {
        assert rest[i] == parts[i + 1];
      }
      assert rest[j - 1] == parts[j];
      ApplyPartsFirstError(rest, ApplyPart(parts[0], sc).value, j - 1);
    }
  }

  /** Appending a part applies it to the result of the parts before it. */
  lemma {:induction false} ApplyPartsAppend(parts: seq<string>, part: string, sc: SpanContext)
    ensures ApplyParts(parts + [part], sc) ==
      match ApplyParts(parts, sc)
      case Failure(e) => Failure(e)
      case Success(sc') => ApplyPart(part, sc')
  {
    if parts != [] {
      assert (parts + [part])[1..] == parts[1..] + [part];
      match ApplyPart(parts[0], sc)
      case Failure(_) =>
      case Success(sc') => ApplyPartsAppend(parts[1..], part, sc');
    } else {
      assert [part][1..] == [];
    }
  }

  /** The last "Root" part decides the trace id, whatever came before it. */
  lemma LastRootWins(parts: seq<string>, part: string, sc: SpanContext)
    requires KeyOf(part) == RootKey
    requires ApplyParts(parts + [part], sc).Success?
    ensures PartValue(part).Some? && ParseTraceId(PartValue(part).value).Success?
    ensures ApplyParts(parts + [part], sc).value.traceId == ParseTraceId(PartValue(part).value).value
  {
    ApplyPartsAppend(parts, part, sc);
  }

  // ---------------------------------------------------------------------------
  // The round trip

  /** A part "key=value" whose key has no '=' has that value. */
  lemma KeyValuePart(key: string, value: string)
    requires '=' !in key
    ensures PartValue(key + "=" + value) == Some(value)
  {
    var part := key + "=" + value;
    assert part[|key|] == '=';
    forall j | 0 <= j < |key| ensures part[j] != '=' {
      assert part[j] == key[j];
    }
    IndexOfCharAt(part, '=', |key|);
    assert part[|key| + 1..] == value;
  }

  /** The next ';' from `pos` is at `k` when the text between them is `t` without ';'. */
  lemma IndexAfter(h: string, pos: nat, k: nat, t: string)
    requires pos <= k < |h| && h[k] == ';' && h[pos..k] == t && ';' !in t
    ensures IndexOf(h, ";", pos) == k
  {
    var s := h[pos..];
    assert s[k - pos] == ';';
    forall j | 0 <= j < k - pos ensures s[j] != ';' {
      assert s[j] == t[j];
    }
    IndexOfCharAt(s, ';', k - pos);
  }

  /** Then the part is `t` and the next one starts after the ';'. */
  lemma PartBefore(h: string, pos: nat, k: nat, t: string)
    requires pos <= k < |h| && h[k] == ';' && h[pos..k] == t && ';' !in t
    ensures Parts(h, pos) == [t] + Parts(h, k + 1)
  {
    IndexAfter(h, pos, k, t);
    DelimitedPart(h, pos, k);
    PartsStep(h, pos, t, k + 1);
  }

  /** A ';' found at `k` ends the part at `k`. */
  lemma DelimitedPart(h: string, pos: nat, k: nat)
    requires pos <= k < |h| && IndexOf(h, ";", pos) == k
    ensures NextPart(h, pos) == (h[pos..k], k + 1)
  {
  }

  /** The parts from `pos` are the next part and the parts after it. */
  lemma PartsStep(h: string, pos: nat, part: string, next: nat)
    requires pos < |h| && NextPart(h, pos) == (part, next)
    ensures Parts(h, pos) == [part] + Parts(h, next)
  {
  }

  /** No ';' after `pos` when the rest of the header is `c` without ';'. */
  lemma NoDelimiterAfter(h: string, pos: nat, c: string)
    requires pos < |h| && h[pos..] == c && ';' !in c
    ensures IndexOf(h, ";", pos) == -1
  {
    ShiftOccurs(h, ";", pos);
    IndexOfCharAbsent(c, ';');
  }

  /** The rest of the header from `pos`, without ';' or white space, is the last part. */
  lemma LastPart(h: string, pos: nat, c: string)
    requires pos < |h| && h[pos..] == c && ';' !in c
    requires forall i :: 0 <= i < |c| ==> !IsSpace(c[i])
    ensures Parts(h, pos) == [c]
  {
    NoDelimiterAfter(h, pos, c);
    assert NextPart(h, pos) == (c, |h|);
    assert Parts(h, |h|) == [];
  }

  /** A header with exactly two ';', at `i` and `j`, and no white space after the second,
      has three parts. */
  lemma ThreeParts(h: string, i: nat, j: nat)
    requires i < j < |h| - 1 && h[i] == ';' && h[j] == ';'
    requires forall k :: 0 <= k < |h| && k != i && k != j ==> h[k] != ';'
    requires forall k :: j < k < |h| ==> !IsSpace(h[k])
    ensures Parts(h, 0) == [h[..i], h[i + 1..j], h[j + 1..]]
  {
    FirstOfThree(h, i);
    SecondOfThree(h, i, j);
    LastOfThree(h, j);
    Chain3(Parts(h, 0), Parts(h, i + 1), Parts(h, j + 1), h[..i], h[i + 1..j], h[j + 1..]);
  }

  lemma Chain3(p0: seq<string>, p1: seq<string>, p2: seq<string>, x: string, y: string, z: string)
    requires p0 == [x] + p1 && p1 == [y] + p2 && p2 == [z]
    ensures p0 == [x, y, z]
  {
  }

  lemma FirstOfThree(h: string, i: nat)
    requires i < |h| && h[i] == ';'
    requires forall k :: 0 <= k < i ==> h[k] != ';'
    ensures Parts(h, 0) == [h[..i]] + Parts(h, i + 1)
  {
    var t := h[..i];
    assert ';' !in t by {
      forall k | 0 <= k < |t| ensures t[k] != ';' {
        assert t[k] == h[k];
      }
    }
    PartBefore(h, 0, i, t);
  }

  lemma SecondOfThree(h: string, i: nat, j: nat)
    requires i < j < |h| && h[j] == ';'
    requires forall k :: i < k < j ==> h[k] != ';'
    ensures Parts(h, i + 1) == [h[i + 1..j]] + Parts(h, j + 1)
  {
    var t := h[i + 1..j];
    assert ';' !in t by {
      forall k | 0 <= k < |t| ensures t[k] != ';' {
        assert t[k] == h[i + 1 + k];
      }
    }
    PartBefore(h, i + 1, j, t);
  }

  lemma LastOfThree(h: string, j: nat)
    requires j < |h| - 1
    requires forall k :: j < k < |h| ==> h[k] != ';' && !IsSpace(h[k])
    ensures Parts(h, j + 1) == [h[j + 1..]]
  {
    var t := h[j + 1..];
    assert ';' !in t && forall k :: 0 <= k < |t| ==> !IsSpace(t[k]) by {
      forall k | 0 <= k < |t| ensures t[k] != ';' && !IsSpace(t[k]) {
        assert t[k] == h[j + 1 + k];
      }
    }
    LastPart(h, j + 1, t);
  }

  /** The header `Inject` writes for a valid span context is its three parts. */
  lemma InjectHeaderParts(sc: SpanContext)
    ensures Parts(InjectHeader(sc), 0) ==
      ["Root" + "=" + XrayTraceId(sc.traceId), "Parent" + "=" + IdString(sc.spanId), "Sampled" + "=" + SampledText(sc.traceFlags)]
  {
    var a, b, c := "Root" + "=" + XrayTraceId(sc.traceId), "Parent" + "=" + IdString(sc.spanId), "Sampled" + "=" + SampledText(sc.traceFlags);
    assert InjectHeader(sc) == a + ";" + b + ";" + c;
    var hex := IdString(sc.spanId);
    assert forall i :: 0 <= i < |hex| ==> IsHexDigit(hex[i]);
    assert ';' !in b by {
      forall i | 0 <= i < |b| ensures b[i] != ';' {
        if i >= 7 {
          assert b[i] == hex[i - 7];
        }
      }
    }
    assert ';' !in a by {
      forall i | 0 <= i < |a| ensures a[i] != ';' {
        if i >= 5 {
          assert a[i] == XrayTraceId(sc.traceId)[i - 5];
        }
      }
    }
    assert c[8] == SampledText(sc.traceFlags)[0];
    JoinedThree(a, b, c);
  }

  /** Three parts without ';' joined by ';' split back into those parts, when the last one
      has no white space. */
  lemma JoinedThree(a: string, b: string, c: string)
    requires ';' !in a && ';' !in b && ';' !in c
    requires c != [] && forall k :: 0 <= k < |c| ==> !IsSpace(c[k])
    ensures Parts(a + ";" + b + ";" + c, 0) == [a, b, c]
  {
    var h := a + ";" + b + ";" + c;
    var i, j := |a|, |a| + 1 + |b|;
    JoinedCharacters(a, b, c);
    assert h[..i] == a && h[i + 1..j] == b && h[j + 1..] == c;
    ThreeParts(h, i, j);
  }

  /** Where the ';' of the joined text are, and that its last part has no white space;
      stated apart to keep the solver's work small. */
  lemma JoinedCharacters(a: string, b: string, c: string)
    requires ';' !in a && ';' !in b && ';' !in c
    requires forall k :: 0 <= k < |c| ==> !IsSpace(c[k])
    ensures var h, i, j := a + ";" + b + ";" + c, |a|, |a| + 1 + |b|;
      && (forall k :: 0 <= k < |h| && k != i && k != j ==> h[k] != ';')
      && (forall k :: j < k < |h| ==> !IsSpace(h[k]))
  {
    var h := a + ";" + b + ";" + c;
    var i, j := |a|, |a| + 1 + |b|;
    forall k | 0 <= k < |h| && k != i && k != j ensures h[k] != ';' {
      if k < i {
        assert h[k] == a[k];
      } else if k < j {
        assert h[k] == b[k - i - 1];
      } else {
        assert h[k] == c[k - j - 1];
      }
    }
    forall k | j < k < |h| ensures !IsSpace(h[k]) {
      assert h[k] == c[k - j - 1];
    }
  }

  /** The flags the header can carry: sampled or not. */
  function CarriedFlags(flags: uint8): (f: uint8)
    ensures f == 0 || f == FlagsSampled
    ensures f == FlagsSampled <==> flags == FlagsSampled
  {
    if flags == FlagsSampled then FlagsSampled else 0
  }

  lemma ApplyRoot(id: TraceId, sc: SpanContext)
    requires NonZero(id)
    ensures ApplyPart("Root" + "=" + XrayTraceId(id), sc) == Success(sc.(traceId := id))
  {
    var x := XrayTraceId(id);
    PrefixedPart("Root", x, RootKey);
    ApplyKnownPart("Root" + "=" + x, sc, RootKey, x);
    ParseXrayTraceId(id);
  }

  lemma ApplyParent(id: SpanId, sc: SpanContext)
    requires NonZero(id)
    ensures ApplyPart("Parent" + "=" + IdString(id), sc) == Success(sc.(spanId := id))
  {
    var x := IdString(id);
    PrefixedPart("Parent", x, ParentKey);
    ApplyKnownPart("Parent" + "=" + x, sc, ParentKey, x);
    SpanIdRoundTrip(id);
  }

  lemma ApplySampled(flags: uint8, sc: SpanContext)
    ensures ApplyPart("Sampled" + "=" + SampledText(flags), sc) == Success(sc.(traceFlags := CarriedFlags(flags)))
  {
    var x := SampledText(flags);
    PrefixedPart("Sampled", x, SampledKey);
    ApplyKnownPart("Sampled" + "=" + x, sc, SampledKey, x);
  }

  lemma ApplyKnownPart(part: string, sc: SpanContext, key: PartKey, value: string)
    requires PartValue(part) == Some(value) && KeyOf(part) == key
    ensures ApplyPart(part, sc) == ApplyValue(key, value, sc)
  {
  }

  /** "Root=x", "Parent=x" and "Sampled=x" have the key and the value `x`. */
  lemma PrefixedPart(key: string, x: string, k: PartKey)
    requires (key, k) == ("Root", RootKey) || (key, k) == ("Parent", ParentKey) || (key, k) == ("Sampled", SampledKey)
    ensures PartValue(key + "=" + x) == Some(x) && KeyOf(key + "=" + x) == k
  {
    var part := key + "=" + x;
    KeyValuePart(key, x);
    assert part[..|key|] == key;
    assert part[0] == key[0];
  }

  lemma ApplyThree(a: string, b: string, c: string, sc: SpanContext)
    requires ApplyPart(a, sc).Success?
    requires ApplyPart(b, ApplyPart(a, sc).value).Success?
    ensures ApplyParts([a, b, c], sc) == ApplyPart(c, ApplyPart(b, ApplyPart(a, sc).value).value)
  {
    var sc1 := ApplyPart(a, sc).value;
    var sc2 := ApplyPart(b, sc1).value;
    assert [a, b, c][1..] == [b, c] && [b, c][1..] == [c] && [c][1..] == [];
    assert ApplyParts([a, b, c], sc) == ApplyParts([b, c], sc1);
    assert ApplyParts([b, c], sc1) == ApplyParts([c], sc2);
    match ApplyPart(c, sc2)
    case Failure(_) =>
    case Success(sc3) => assert ApplyParts([c], sc2) == ApplyParts([], sc3);
  }

  /** Parsing the header `Inject` writes gives back the span context, with flags other
      than the sampled flag read as not sampled. */
  lemma ParseInjectHeader(sc: SpanContext)
    requires sc.IsValid()
    ensures ParseHeader(InjectHeader(sc)) == Success(sc.(traceFlags := CarriedFlags(sc.traceFlags)))
  {
    InjectHeaderParts(sc);
    var e := EmptySpanContext();
    ApplyRoot(sc.traceId, e);
    ApplyParent(sc.spanId, e.(traceId := sc.traceId));
    ApplySampled(sc.traceFlags, e.(traceId := sc.traceId, spanId := sc.spanId));
    ApplyThree("Root" + "=" + XrayTraceId(sc.traceId), "Parent" + "=" + IdString(sc.spanId),
      "Sampled" + "=" + SampledText(sc.traceFlags), e);
  }

  /** Extracting what `Inject` wrote for a valid span context gives it back as the remote
      span context. */
  lemma InjectThenExtract(sc: SpanContext, entries: map<string, string>, ctx: Context)
    requires sc.IsValid()
    ensures ExtractedContext(ctx, entries[TraceHeaderKey := InjectHeader(sc)]) ==
      ctx.(remote := Some(sc.(traceFlags := CarriedFlags(sc.traceFlags))))
  {
    ParseInjectHeader(sc);
    assert InjectHeader(sc)[0] == 'R';
  }

  /** Without the header the context is returned unchanged. */
  lemma ExtractWithoutHeader(ctx: Context, entries: map<string, string>)
    requires TraceHeaderKey !in entries || entries[TraceHeaderKey] == ""
    ensures ExtractedContext(ctx, entries) == ctx
  {
  }

  /** A header without a valid "Root" part leaves the context unchanged. */
  lemma {:induction false} NoRootKeepsZeroTraceId(parts: seq<string>, sc: SpanContext)
    requires forall i :: 0 <= i < |parts| ==> KeyOf(parts[i]) != RootKey
    requires ApplyParts(parts, sc).Success?
    ensures ApplyParts(parts, sc).value.traceId == sc.traceId
  {
    if parts != [] {
      var sc' := ApplyPart(parts[0], sc).value;
      assert forall i :: 0 <= i < |parts[1..]| ==> parts[1..][i] == parts[i + 1];
      NoRootKeepsZeroTraceId(parts[1..], sc');
    }
  }

  lemma ExtractNeedsRoot(ctx: Context, entries: map<string, string>)
    requires TraceHeaderKey in entries
    requires forall part :: part in Parts(entries[TraceHeaderKey], 0) ==> KeyOf(part) != RootKey
    ensures ExtractedContext(ctx, entries) == ctx
  {
    var h := entries[TraceHeaderKey];
    if ParseHeader(h).Success? {
      NoRootKeepsZeroTraceId(Parts(h, 0), EmptySpanContext());
      assert !NonZero(ParseHeader(h).value.traceId);
    }
  }
}
