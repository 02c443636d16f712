# Cortex exporter and AWS X-Ray propagator, modelled in Dafny

This project models the logic of two components of opentelemetry-go-contrib and proves
properties of the model.

- **Cortex metrics exporter** (`exporters/metric/cortex`):
  - the name sanitizer (`sanitize.go`);
  - the conversion of a checkpoint of aggregated records into Prometheus time series
    with sanitized label sets (`cortex.go`);
  - the authentication and TLS set-up of its HTTP client (`auth.go`);
  - the record parsers of its two demonstration pipelines (`parsePipelineOneRecord`
    in `pipeline/pipelineOne.go`, also present in `pipeline/pipeline.go`, and
    `parsePipelineTwoRecord` in `pipeline/pipelineTwo.go`).
- **AWS X-Ray propagator** (`propagators/awsxray/awsxray_propagator.go`): it writes a
  span context into the `X-Amzn-Trace-Id` header as
  `Root=1-<8 hex>-<24 hex>;Parent=<16 hex>;Sampled=<0|1>` and reads it back.

Modules, one per file:

| module | file | what it holds |
|---|---|---|
| `Wrappers` | `wrappers.dfy` | `Option` and `Result` |
| `GoStrings` | `gostrings.dfy` | Go's `strings.Split`, `Index`, `HasPrefix`, `TrimSpace`; map lookup with a "" default; UTF-8 bytes of a string |
| `StrConv` | `strconv.dfy` | `strconv.ParseInt(s, 10, 64)` with its syntax and range errors; `FormatInt` as its inverse |
| `Base64` | `base64.dfy` | standard base64 (RFC 4648, section 4), used by `SetBasicAuth` |
| `Trace` | `trace.dfy` | trace and span identifiers, their hex form, span contexts |
| `Sanitizer` | `sanitize.dfy` | `sanitize`, `sanitizeRune` |
| `Cortex` | `cortex.dfy` | records, aggregations, label sets, the converters, `ConvertToTimeSeries`, `Export` |
| `Auth` | `auth.dfy` | the `Exporter` class with its `Config` field, HTTP request headers, the TLS config class |
| `AwsXray` | `awsxray.dfy` | `Inject`, `Extract`, `extract`, `parseTraceId`, `parseTraceFlag`, `indexOf`, `Fields`, the carrier class |
| `Label` | `label.dfy` | `label.KeyValue` |
| `PipelineOne`, `PipelineTwo` | `pipelineone.dfy`, `pipelinetwo.dfy` | the two record parsers |

The code's loops are methods with loop invariants:
- the label-map loops of `createLabelSet`;
- the record loop of `ConvertToTimeSeries`;
- the part loop of `extract`;
- the pair, value and label loops of the pipeline parsers.

Each of these methods is proved equal to a specification function. The lemmas then
prove what the code promises about those functions:
- round trips:
  - extract after inject;
  - `ParseInt` after `FormatInt`;
  - base64 decode after encode;
  - split after join;
- idempotence of `sanitize`;
- label precedence;
- first-error semantics;
- what each configuration option does.

The model follows the code as written:
- Histogram buckets are not converted (`cortex.go:92`); a histogram aggregation that offers
  `Sum()` still takes the Sum branch (`cortex.go:61`).
- A distribution is only printed (`cortex.go:80-82`).
- `Export` prints the time series and does not send them (`cortex.go:45`).
- `buildTLSConfig` loads a client key pair even when none is named, and
  `parsePipelineTwoRecord` reads its labels from the second ','-field of the third
  record field. Both are defects (see Findings). The methods `Auth.Exporter.BuildTlsConfig`
  and `PipelineTwo.ParsePipelineTwoRecord` model them as written. The corrected
  behaviour is given by the specification functions `Auth.TlsSettingsFor` and
  `PipelineTwo.PipelineTwoRecord` at `IntendedLabelsField`, with their properties proved.

## Model

| member | source | states |
|---|---|---|
| Sanitizer.SanitizeRune | exporters/metric/cortex/sanitize.go:27-33 | a character is kept exactly when it is a letter or digit, otherwise it becomes '_'; the result is always a name character and keeps the letter/digit class |
| Sanitizer.MapRunes | exporters/metric/cortex/sanitize.go:16 | `strings.Map` keeps the length and maps each character in place |
| Sanitizer.Sanitize | exporters/metric/cortex/sanitize.go:11-24 | empty exactly for empty input; ends with the mapped input; "key_" prefix exactly for a leading digit, "key" + "_" for a leading non-alphanumeric, none for a leading letter; the result is always a valid name |
| Sanitizer.SanitizeLength | exporters/metric/cortex/sanitize.go:17-22 | the output is 4, 3 or 0 characters longer than the input, by its first character |
| Sanitizer.SanitizeFixedPoint | exporters/metric/cortex/sanitize.go:11-24 | a name is unchanged exactly when it is already of the form `[A-Za-z][A-Za-z0-9_]*` (or empty) |
| Sanitizer.SanitizeIdempotent | exporters/metric/cortex/sanitize.go:11-24 | sanitizing twice equals sanitizing once |
| Sanitizer.SanitizeNotInjective | exporters/metric/cortex/sanitize.go:27-33 | two different names ("a-b", "a.b") sanitize to the same name |
| Sanitizer.MapRunesAppend | exporters/metric/cortex/sanitize.go:16 | mapping distributes over concatenation |
| Sanitizer.MapRunesKeeps | exporters/metric/cortex/sanitize.go:27-30 | a string of name characters is mapped to itself |
| Sanitizer.SanitizeDigitPrefix | exporters/metric/cortex/sanitize.go:17-19 | a name-character string with a leading digit gets exactly "key_" in front |
| Sanitizer.SanitizeUnderscorePrefix | exporters/metric/cortex/sanitize.go:16-22 | a leading non-alphanumeric character ('_' included) is replaced by "key_" |
| GoStrings.Lookup | exporters/metric/cortex/auth.go:55 | indexing a Go map gives the stored value, or "" when the key is absent |
| GoStrings.Split | exporters/metric/cortex/pipeline/pipelineOne.go:388 | one more piece than separators, no piece holds the separator, and joining the pieces gives the input back |
| GoStrings.SplitJoin | exporters/metric/cortex/pipeline/pipelineOne.go:388 | splitting the join of separator-free pieces gives the pieces back |
| GoStrings.SplitNoSep | exporters/metric/cortex/pipeline/pipelineTwo.go:108 | a string without the separator splits into itself alone |
| GoStrings.SplitPrefix | exporters/metric/cortex/pipeline/pipelineTwo.go:101-102 | a separator-free prefix before the first separator is the first piece |
| GoStrings.IndexFrom | propagators/awsxray/awsxray_propagator.go:142 | the first occurrence at or after a position, or -1 when there is none |
| GoStrings.Index | propagators/awsxray/awsxray_propagator.go:116 | the first occurrence of the substring, or -1 exactly when it does not occur |
| GoStrings.IndexOfCharAt | exporters/metric/cortex/pipeline/pipelineTwo.go:110 | the index of a character is the position of its first occurrence |
| GoStrings.TrimSpace | propagators/awsxray/awsxray_propagator.go:113 | the result is a slice `s[i..j]` of the input with only white space (`unicode.IsSpace`: Latin-1 white space and Unicode White_Space, U+3000 included) before `i` and after `j`, and none at either end of the result; a string without white space is unchanged |
| GoStrings.CharBytes | exporters/metric/cortex/auth.go:68 | UTF-8: 1 to 4 bytes, one byte exactly for ASCII, continuation bytes in 0x80..0xBF |
| GoStrings.CharBytesDecode | exporters/metric/cortex/auth.go:68 | decoding the UTF-8 bytes of a character gives the character back |
| GoStrings.CharBytesLead | exporters/metric/cortex/auth.go:68 | the lead byte announces the length of the encoding |
| GoStrings.Bytes | exporters/metric/cortex/auth.go:68 | a string's bytes are at least as many as its characters, exactly as many when it is ASCII |
| GoStrings.BytesAppend | exporters/metric/cortex/auth.go:68 | the bytes of a concatenation are the concatenated bytes |
| GoStrings.AsciiBytes | exporters/metric/cortex/auth.go:68 | an ASCII string's bytes are its characters |
| StrConv.ParseInt | exporters/metric/cortex/pipeline/pipelineTwo.go:92 | a parsed value lies in the int64 range, and every error carries the whole input |
| StrConv.ScanUint | exporters/metric/cortex/pipeline/pipelineTwo.go:92 | the digit loop of `ParseUint`: a value read never decreases and, once a digit is read, stays within 2^64 - 1 |
| StrConv.ParseUint | exporters/metric/cortex/pipeline/pipelineTwo.go:92 | the empty string is a syntax error and every value read fits in 64 bits |
| StrConv.ScanDigits | exporters/metric/cortex/pipeline/pipelineTwo.go:92 | the digit loop succeeds exactly when the positional value fits in 64 bits, returns that value, and otherwise reports a range error |
| StrConv.ScanSuccessDigits | exporters/metric/cortex/pipeline/pipelineTwo.go:92 | a successful scan read only digits |
| StrConv.ParseIntAccepts | exporters/metric/cortex/pipeline/pipelineTwo.go:92 | accepted exactly: an optional sign, one or more digits, and a signed value in the int64 range; the result is that value |
| StrConv.DigitsValue | exporters/metric/cortex/pipeline/pipelineTwo.go:92 | the decimal digits of n have the value n |
| StrConv.ParseFormatInt | exporters/metric/cortex/pipeline/pipelineTwo.go:92 | parsing the decimal text of any int64 gives it back |
| Base64.CharOf | exporters/metric/cortex/auth.go:68 | each 6-bit group maps to an alphabet character that decodes to the group |
| Base64.Encode | exporters/metric/cortex/auth.go:68 | the encoding is 4 characters per started 3-byte block, all from the alphabet or '=' |
| Base64.RegroupBits | exporters/metric/cortex/auth.go:68 | the four 6-bit groups of three bytes regroup into the three bytes |
| Base64.DecodeEncodeBlock | exporters/metric/cortex/auth.go:68 | a full block decodes to its three bytes |
| Base64.DecodeEncodeOne | exporters/metric/cortex/auth.go:68 | a padded one-byte tail decodes to its byte |
| Base64.DecodeEncodeTwo | exporters/metric/cortex/auth.go:68 | a padded two-byte tail decodes to its bytes |
| Base64.DecodeEncode | exporters/metric/cortex/auth.go:68 | decoding the encoding of any bytes gives them back |
| Trace.EmptySpanContext | propagators/awsxray/awsxray_propagator.go:49 | the empty span context is not valid |
| Trace.HexEncode | propagators/awsxray/awsxray_propagator.go:71 | two lowercase hex digits per byte |
| Trace.HexDecodeEncode | propagators/awsxray/awsxray_propagator.go:167 | hex decoding undoes hex encoding |
| Trace.HexEncodeDecode | propagators/awsxray/awsxray_propagator.go:167 | a decodable string is the encoding of what it decodes to (lowercase only) |
| Trace.HexDecodeDigits | propagators/awsxray/awsxray_propagator.go:167 | a decodable string holds only hex digits |
| Trace.IdString | propagators/awsxray/awsxray_propagator.go:71 | an identifier's text is two hex digits per byte |
| Trace.TraceIdFromHex | propagators/awsxray/awsxray_propagator.go:167 | what parses is a valid trace id whose text is the input |
| Trace.SpanIdFromHex | propagators/awsxray/awsxray_propagator.go:128 | what parses is a valid span id whose text is the input |
| Trace.TraceIdRoundTrip | propagators/awsxray/awsxray_propagator.go:167 | a valid trace id parses back from its text |
| Trace.SpanIdRoundTrip | propagators/awsxray/awsxray_propagator.go:128 | a valid span id parses back from its text |
| AwsXray.Fields | propagators/awsxray/awsxray_propagator.go:178-180 | the only field is the X-Ray header key |
| AwsXray.Carrier.Get | propagators/awsxray/awsxray_propagator.go:89 | the stored value, or "" when absent |
| AwsXray.Carrier.Set | propagators/awsxray/awsxray_propagator.go:83 | sets that one entry and leaves the others |
| AwsXray.XrayTraceId | propagators/awsxray/awsxray_propagator.go:71-73 | 35 characters, "1-" + first 8 hex digits + "-" + other 24, free of ';', '=' and white space |
| AwsXray.InjectHeader | propagators/awsxray/awsxray_propagator.go:65-84 | the header `Inject` writes is 74 characters and starts with the Root part "Root=1-" |
| AwsXray.SampledText | propagators/awsxray/awsxray_propagator.go:75-78 | one character, which `parseTraceFlag` reads back as sampled exactly when the flags are exactly the sampled flag |
| AwsXray.Inject | propagators/awsxray/awsxray_propagator.go:65-84 | a valid span context sets the header to the Root/Parent/Sampled text; otherwise the carrier is unchanged |
| AwsXray.IndexOf | propagators/awsxray/awsxray_propagator.go:141-147 | the first occurrence at or after `pos`, or -1 when there is none |
| AwsXray.ParseTraceId | propagators/awsxray/awsxray_propagator.go:150-168 | whatever parses is a valid trace id whose X-Ray form is exactly the input |
| AwsXray.XrayTraceIdUnique | propagators/awsxray/awsxray_propagator.go:158-166 | the X-Ray trace id shape is determined by its hex digits |
| AwsXray.ParseXrayTraceId | propagators/awsxray/awsxray_propagator.go:150-168 | the X-Ray form of a valid trace id parses back to it |
| AwsXray.ParseTraceFlag | propagators/awsxray/awsxray_propagator.go:171-176 | the length is counted in bytes: not sampled exactly for one ASCII character other than '1'; every other value, the empty one and one non-ASCII character included, is sampled |
| AwsXray.PartValue | propagators/awsxray/awsxray_propagator.go:116-120 | a value exactly when the part has '=', and then it is the text after an '=' |
| AwsXray.NextPart | propagators/awsxray/awsxray_propagator.go:107-115 | the next position is past the current one and within the header |
| AwsXray.ReadPart | propagators/awsxray/awsxray_propagator.go:107-115 | the loop's part and next position are the next part of the header |
| AwsXray.UpdateFromPart | propagators/awsxray/awsxray_propagator.go:116-135 | the loop body applies one part, with its error |
| AwsXray.UpdateFromValue | propagators/awsxray/awsxray_propagator.go:121-135 | the prefix tests choose Root, then Parent, then Sampled, with their errors |
| AwsXray.ExtractHeader | propagators/awsxray/awsxray_propagator.go:98-138 | `extract` returns the parts applied left to right from the zero span context, or the first error with the empty span context |
| AwsXray.ApplyParts | propagators/awsxray/awsxray_propagator.go:106-137 | the parts applied left to right, stopping at the first failure; a parse that succeeds saw '=' in every part |
| AwsXray.ParseHeader | propagators/awsxray/awsxray_propagator.go:98-138 | what `extract` returns: the empty header gives the zero span context, and success means every part had a '=' |
| AwsXray.ExtractedContext | propagators/awsxray/awsxray_propagator.go:87-96 | the current span is kept; a changed context has a valid remote span context, parsed from a present header |
| AwsXray.Extract | propagators/awsxray/awsxray_propagator.go:87-96 | the context gets a remote span context only from a present header that parses to a valid span context; otherwise it is unchanged |
| AwsXray.ApplyPartEffect | propagators/awsxray/awsxray_propagator.go:121-135 | a part sets at most the field its key names, to a value independent of the state; whether it fails does not depend on the state |
| AwsXray.PartFailsCases | propagators/awsxray/awsxray_propagator.go:116-131 | a part fails exactly without '=', or as Root with a bad trace id, or as Parent with a bad span id, each with its own error |
| AwsXray.PartFailsAnywhere | propagators/awsxray/awsxray_propagator.go:116-131 | a part fails, with the same error, whatever was read before it |
| AwsXray.ApplyPartsFails | propagators/awsxray/awsxray_propagator.go:106-137 | the parse fails exactly when some part fails |
| AwsXray.ApplyPartsFirstError | propagators/awsxray/awsxray_propagator.go:117-131 | a failing parse reports the error of the first failing part |
| AwsXray.ApplyPartsAppend | propagators/awsxray/awsxray_propagator.go:106-136 | parsing one more part continues from the state so far |
| AwsXray.LastRootWins | propagators/awsxray/awsxray_propagator.go:121-125 | the trace id comes from the last Root part |
| AwsXray.KeyValuePart | propagators/awsxray/awsxray_propagator.go:116-120 | the value of "key=value" with a key without '=' is the value |
| AwsXray.ThreeParts | propagators/awsxray/awsxray_propagator.go:106-115 | a header with two ';' splits into the three texts between them |
| AwsXray.JoinedThree | propagators/awsxray/awsxray_propagator.go:80-83 | three ';'-free texts joined by ';' read back as those three parts |
| AwsXray.InjectHeaderParts | propagators/awsxray/awsxray_propagator.go:80-83 | the injected header reads back as its Root, Parent and Sampled parts |
| AwsXray.CarriedFlags | propagators/awsxray/awsxray_propagator.go:75-78 | the propagator carries only the sampled bit: sampled exactly when the flags are exactly sampled |
| AwsXray.ApplyRoot | propagators/awsxray/awsxray_propagator.go:121-125 | a Root part holding an X-Ray trace id sets exactly the trace id |
| AwsXray.ApplyParent | propagators/awsxray/awsxray_propagator.go:126-131 | a Parent part holding a span id's text sets exactly the span id |
| AwsXray.ApplySampled | propagators/awsxray/awsxray_propagator.go:132-134 | a Sampled part sets exactly the carried flags |
| AwsXray.ParseInjectHeader | propagators/awsxray/awsxray_propagator.go:65-138 | the injected header of a valid span context parses back to it, with the flags reduced to the sampled bit |
| AwsXray.InjectThenExtract | propagators/awsxray/awsxray_propagator.go:65-96 | extracting after injecting a valid span context yields it as the remote span context |
| AwsXray.ExtractWithoutHeader | propagators/awsxray/awsxray_propagator.go:89-95 | without the header (or with it empty) the context is unchanged |
| AwsXray.NoRootKeepsZeroTraceId | propagators/awsxray/awsxray_propagator.go:121-125 | parts without a Root part leave the trace id as it was |
| AwsXray.ExtractNeedsRoot | propagators/awsxray/awsxray_propagator.go:89-92 | a header without a Root part never yields a remote span context |
| Cortex.ExportKindFor | exporters/metric/cortex/cortex.go:34-36 | always cumulative |
| Cortex.LabelFor | exporters/metric/cortex/cortex.go:239-242 | a label is named by the sanitized key and keeps the value verbatim |
| Cortex.MergedLabels | exporters/metric/cortex/cortex.go:233-236 | the keys of record and resource, with the record's value winning |
| Cortex.ExtraPairs | exporters/metric/cortex/cortex.go:247-252 | the extras taken two at a time; an odd last one is dropped |
| Cortex.AddPairsAt | exporters/metric/cortex/cortex.go:255-262 | after adding the pairs a key is present exactly when it was or some pair has it; the last pair with the key decides its label |
| Cortex.LabelSetPrecedence | exporters/metric/cortex/cortex.go:229-263 | a key is in the label set exactly when it is in the record, the resource or the extras; extras beat record labels, which beat resource labels; every name is the sanitized key |
| Cortex.CreateLabelSet | exporters/metric/cortex/cortex.go:229-273 | the two loops build the label set |
| Cortex.MergeLabels | exporters/metric/cortex/cortex.go:235-243 | the merge loop builds the sanitized merged labels |
| Cortex.StoreExtraPairs | exporters/metric/cortex/cortex.go:247-263 | the extras loop adds the pairs in order |
| Cortex.NameLabelSet | exporters/metric/cortex/cortex.go:119-120 | with the extra pair ("name", n) the label set is the record's and resource's labels plus "name" = n |
| Cortex.NameLabelSetKeys | exporters/metric/cortex/cortex.go:120 | the label keys are the record's, the resource's and "name" |
| Cortex.NameLabelSetAt | exporters/metric/cortex/cortex.go:120 | the same, key by key, with "name" overriding a user label of that key |
| Cortex.SeriesFor | exporters/metric/cortex/cortex.go:113-126 | one sample (value, end time) with the name label set |
| Cortex.ConvertFromSum | exporters/metric/cortex/cortex.go:106-129 | fails exactly when `Sum()` does, with its error; otherwise one sample of the sum at the end time, named by the sanitized instrument name |
| Cortex.ConvertFromLastValue | exporters/metric/cortex/cortex.go:132-156 | the same for `LastValue()`; the reading's own timestamp is ignored |
| Cortex.ConvertFromMinMaxSumCount | exporters/metric/cortex/cortex.go:159-225 | fails with the first failing accessor among min, max, count; otherwise three series `_min`, `_max`, `_count` in that order |
| Cortex.SumSeries | exporters/metric/cortex/cortex.go:61-68 | a Sum aggregation contributes its one series or its error |
| Cortex.MmscOrLastValueSeries | exporters/metric/cortex/cortex.go:71-90 | MinMaxSumCount is preferred over LastValue; either contributes its series or its error |
| Cortex.ConvertRecord | exporters/metric/cortex/cortex.go:56-95 | a record fails exactly when one of its accessors fails, with the first error in code order; otherwise it yields one series per converted aggregation |
| Cortex.ConvertRecordOrder | exporters/metric/cortex/cortex.go:61-90 | the Sum series comes first, then the MinMaxSumCount series or the LastValue series |
| Cortex.Converted | exporters/metric/cortex/cortex.go:56 | each record converted on its own |
| Cortex.CollectAppend | exporters/metric/cortex/cortex.go:56-100 | collecting two batches gives the concatenation, or the first batch's error |
| Cortex.Collect | exporters/metric/cortex/cortex.go:56-100 | no records give no series; a failing first record is the outcome; a success had a successful first record, whose series are among the result's |
| Cortex.CollectFailure | exporters/metric/cortex/cortex.go:97-100 | collection fails exactly when some result fails, with the error of the first failure |
| Cortex.ConvertAllFailure | exporters/metric/cortex/cortex.go:51-103 | the checkpoint fails exactly when some record fails, with the first failing record's error; no partial result |
| Cortex.ConvertToTimeSeries | exporters/metric/cortex/cortex.go:51-103 | the loop returns all records' series in order, or the first error and no series |
| Cortex.CollectStep | exporters/metric/cortex/cortex.go:62-67 | one loop step appends a record's series or stops at its error |
| Cortex.Export | exporters/metric/cortex/cortex.go:39-48 | export fails exactly when conversion fails, with its error |
| Cortex.OneLabelSeries | exporters/metric/cortex/cortex.go:229-263 | a record with one resource label yields exactly that label and "name" |
| Cortex.SumOnOneLabel | exporters/metric/cortex/cortex.go:106-129 | a sum on one resource label exports exactly one series with that label, the name and the sum at the end time |
| Cortex.SumOnly | exporters/metric/cortex/cortex.go:61-68 | a pure Sum aggregation yields exactly its one series |
| Cortex.LastValueOnly | exporters/metric/cortex/cortex.go:83-90 | a pure LastValue aggregation yields exactly its one series |
| Cortex.LastValueOnOneLabel | exporters/metric/cortex/cortex.go:132-156 | a last value on one resource label exports exactly one series stamped with the record's end time |
| Cortex.ConvertAllSingle | exporters/metric/cortex/cortex.go:51-103 | a one-record checkpoint converts as that record |
| Cortex.LabelNamesMayCollide | exporters/metric/cortex/cortex.go:238-240 | two distinct keys that sanitize alike both stay in the label map under the same label name |
| Auth.Message | exporters/metric/cortex/auth.go:26-38 | every error has a message |
| Auth.ReadFile | exporters/metric/cortex/auth.go:63-66 | a file is read exactly when its path is named and readable, and then gives its contents |
| Auth.WithAuthHeader | exporters/metric/cortex/auth.go:210-215 | storing creates the header map if nil and sets only "Authorization"; the rest of the configuration is unchanged |
| Auth.BasicAuthValue | exporters/metric/cortex/auth.go:68 | the header value starts with "Basic " |
| Auth.BasicAuthValueDecodes | exporters/metric/cortex/auth.go:68 | the rest of the value base64-decodes to the UTF-8 bytes of "username:password" |
| Auth.BasicAuthSkipped | exporters/metric/cortex/auth.go:45-52 | basic auth sets nothing exactly when a header is already stored or no basic auth is configured |
| Auth.BasicAuthOutcome | exporters/metric/cortex/auth.go:44-82 | what `addBasicAuth` does: it fails or sets a header only when no header is stored and basic auth is configured; a set header starts with "Basic " and needs a username |
| Auth.UsernameCheckedFirst | exporters/metric/cortex/auth.go:54-58 | a missing username fails before any file is read |
| Auth.PasswordFileFirst | exporters/metric/cortex/auth.go:60-71 | a password file overrides the password; an unreadable one fails |
| Auth.PasswordRequired | exporters/metric/cortex/auth.go:73-77 | without password file or password, basic auth fails |
| Auth.PasswordEntryUsed | exporters/metric/cortex/auth.go:74-79 | without a password file, a non-empty password entry is sent: the header is `BasicAuthValue(username, password)` and decodes to "username:password" (auth_test.go:53-61) |
| Auth.BasicAuthCarriesCredentials | exporters/metric/cortex/auth.go:67-79 | the header set decodes to the username, a colon and the password: the password file's contents when one is named, the password entry otherwise |
| Auth.BearerTokenSkipped | exporters/metric/cortex/auth.go:89-113 | bearer auth sets nothing exactly when a header is stored or neither token nor token file is configured |
| Auth.BearerTokenOutcome | exporters/metric/cortex/auth.go:88-114 | what `addBearerTokenAuth` does: the only failure is an unreadable token file; a set header starts with "Bearer " and, without a token file, carries the token |
| Auth.BearerTokenFileFirst | exporters/metric/cortex/auth.go:94-104 | a token file overrides the token; an unreadable one fails |
| Auth.StoredHeaderIsFinal | exporters/metric/cortex/auth.go:47-48 | once a header is stored neither method reads a file or changes anything again |
| Auth.NothingToDo | exporters/metric/cortex/auth.go:50-52 | with no credentials configured both methods succeed without setting anything |
| Auth.TlsFlags | exporters/metric/cortex/auth.go:154-164 | the server name follows the map, the skip flag is set exactly by "1" |
| Auth.TlsMap | exporters/metric/cortex/auth.go:182 | a nil TLS map reads as empty |
| Auth.TlsWithoutClientCertFails | exporters/metric/cortex/auth.go:171-174 | as written, a TLS map naming no client certificate never builds |
| Auth.TlsSettingsAsWritten | exporters/metric/cortex/auth.go:148-177 | `buildTLSConfig` as written: defaults for a nil map; otherwise a build that succeeds follows the map's name and flag and holds exactly the one key pair read from the named files |
| Auth.TlsSettingsProperties | exporters/metric/cortex/auth.go:148-177 | intended settings: defaults for a nil map; name and flag follow the map; without CA file or certificate the build succeeds; a named certificate is loaded as written |
| Auth.Request.Get | exporters/metric/cortex/auth.go:69 | the header value, or "" when absent |
| Auth.Request.Set | exporters/metric/cortex/auth.go:101 | sets that one header |
| Auth.Request.SetBasicAuth | exporters/metric/cortex/auth.go:68 | sets "Authorization" to the basic value and nothing else |
| Auth.Exporter.StoreAuthHeader | exporters/metric/cortex/auth.go:210-215 | the configuration becomes the one with the header stored |
| Auth.Exporter.AddBasicAuth | exporters/metric/cortex/auth.go:44-82 | the error, the request header and the stored header are those of the basic-auth outcome; nothing changes on error or skip |
| Auth.Exporter.AddBearerTokenAuth | exporters/metric/cortex/auth.go:88-114 | the same for the bearer-token outcome |
| Auth.Exporter.BuildTlsConfig | exporters/metric/cortex/auth.go:148-177 | as written: a fresh TLS config with the settings of `TlsSettingsAsWritten`, or nil and the first error |
| Auth.Exporter.LoadCaCertificates | exporters/metric/cortex/auth.go:181-193 | a named CA file's contents become the root pool; an unreadable one is an error and leaves the TLS config as it was |
| Auth.Exporter.LoadClientCertificate | exporters/metric/cortex/auth.go:197-206 | both key-pair files readable: they become the only certificate; otherwise an error, with the TLS config left as it was |
| PipelineOne.PairUp | exporters/metric/cortex/pipeline/pipelineOne.go:400-404 | the fields two at a time as key and value, in order |
| PipelineOne.Flatten | exporters/metric/cortex/pipeline/pipelineOne.go:400-404 | the pairs written back out as alternating keys and values |
| PipelineOne.PairUpFlatten | exporters/metric/cortex/pipeline/pipelineOne.go:400-404 | pairing up the flattened pairs gives them back |
| PipelineOne.FlattenPairUp | exporters/metric/cortex/pipeline/pipelineOne.go:400-404 | flattening the paired fields gives them back |
| PipelineOne.ParsePipelineOneRecord | exporters/metric/cortex/pipeline/pipelineOne.go:385-407 | instrument, value, name, description and pairs as read, or the error with empty outputs; the copy at pipeline.go:234-256 is identical |
| PipelineOne.PipelineOneOutcome | exporters/metric/cortex/pipeline/pipelineOne.go:388-395 | "Missing name /description" exactly without a comma, "Invalid key value pair" exactly for an even positive number of commas, success exactly for an odd number |
| PipelineOne.PipelineOneRecord | exporters/metric/cortex/pipeline/pipelineOne.go:385-407 | what `parsePipelineOneRecord` returns: one of its two errors, or the first two fields passed through with a comma-free name and description |
| PipelineOne.PipelineOneJoin | exporters/metric/cortex/pipeline/pipelineOne.go:388-404 | name, description and pairs joined by commas give the third field back |
| PipelineOne.PipelineOneFormat | exporters/metric/cortex/pipeline/pipelineOne.go:385-407 | a comma-free name, description and pairs written as a record parse back to themselves |
| PipelineOne.FlattenNoSep | exporters/metric/cortex/pipeline/pipelineOne.go:400-404 | comma-free pairs flatten to comma-free fields |
| PipelineTwo.Inner | exporters/metric/cortex/pipeline/pipelineTwo.go:89 | the brackets removed: two characters shorter |
| PipelineTwo.InnerBytes | exporters/metric/cortex/pipeline/pipelineTwo.go:89 | with ASCII brackets or braces, dropping the first and last character drops the first and last byte, as Go's slice does |
| PipelineTwo.ParseValues | exporters/metric/cortex/pipeline/pipelineTwo.go:90-97 | succeeds exactly when every field parses, and then holds each field's value in order |
| PipelineTwo.FirstFailure | exporters/metric/cortex/pipeline/pipelineTwo.go:91-95 | a failure carries the error of the first field that does not parse |
| PipelineTwo.LabelFields | exporters/metric/cortex/pipeline/pipelineTwo.go:101-108 | the label pairs come from the ','-field at the given index of the third record field (index 1 in the code), without its braces; there is at least one, each has a ':' and none a ',' |
| PipelineTwo.ParseLabel | exporters/metric/cortex/pipeline/pipelineTwo.go:110-111 | key and value split at the first ':'; the key has no ':' and key + ":" + value is the pair |
| PipelineTwo.FirstColon | exporters/metric/cortex/pipeline/pipelineTwo.go:110 | the index found is the first ':' |
| PipelineTwo.LabelAtColon | exporters/metric/cortex/pipeline/pipelineTwo.go:110-111 | the slices around that index are the parsed label |
| PipelineTwo.LabelSplitUnique | exporters/metric/cortex/pipeline/pipelineTwo.go:110-111 | a pair splits one way only when the key has no ':' |
| PipelineTwo.ParseLabels | exporters/metric/cortex/pipeline/pipelineTwo.go:109-113 | one label per pair, in order |
| PipelineTwo.PipelineTwoRecord | exporters/metric/cortex/pipeline/pipelineTwo.go:82-116 | what `parsePipelineTwoRecord` returns when it reads the labels at a given index: it fails exactly when some value field does not parse, with an error naming a value field; otherwise the kind passes through, the name is comma-free, and there is one value per value field and one label per label pair |
| PipelineTwo.ParsePipelineTwoRecord | exporters/metric/cortex/pipeline/pipelineTwo.go:82-116 | as written, reading the labels at index 1: aggregation kind, values, name and labels as `PipelineTwoRecord` gives them, or the first value error with empty outputs |
| PipelineTwo.ParseValueFields | exporters/metric/cortex/pipeline/pipelineTwo.go:87-97 | the value loop returns all values, or stops at the first error |
| PipelineTwo.ParseLabelFields | exporters/metric/cortex/pipeline/pipelineTwo.go:105-113 | the label loop returns one label per pair, in order |
| PipelineTwo.EmptyValueListFails | exporters/metric/cortex/pipeline/pipelineTwo.go:88-95 | "[]" is a syntax error on the empty string, not an empty list, whatever field the labels are read from |
| PipelineTwo.FormatValues | exporters/metric/cortex/pipeline/pipelineTwo.go:90-97 | each value written in decimal, in order |
| PipelineTwo.ParseFormatValues | exporters/metric/cortex/pipeline/pipelineTwo.go:90-97 | the decimal texts of int64 values parse back to them |
| PipelineTwo.ValuesRoundTrip | exporters/metric/cortex/pipeline/pipelineTwo.go:88-97 | a bracketed comma-joined list of int64 values parses back to the values |
| PipelineTwo.PipelineTwoName | exporters/metric/cortex/pipeline/pipelineTwo.go:101-102 | for any labels index, the name is the comma-free text before the first comma of the third field |
| PipelineTwo.LabelsFromOneFieldOnly | exporters/metric/cortex/pipeline/pipelineTwo.go:101-108 | for any labels index, only that ','-field of the third field decides the labels, so "n,{x:y},{a:b}" gives [x:y] as written |
| PipelineTwo.CodeRecordRoundTrip | exporters/metric/cortex/pipeline/pipelineTwo.go:82-116 | as written: a record "kind", "[v1,...,vn]", "name,{key:value}" parses back to its kind, values, name and label |
| PipelineTwo.PropertiesSplit | exporters/metric/cortex/pipeline/pipelineTwo.go:101 | "name,description,{key:value}" splits into its name, description and braced label |
| PipelineTwo.BracedLabel | exporters/metric/cortex/pipeline/pipelineTwo.go:107-113 | "{key:value}" reads as exactly that one label |
| PipelineTwo.GeneratedRecordLabels | exporters/metric/cortex/pipeline/pipelineTwo.go:101-113 | corrected, at index 2: "name,description,{key:value}" yields that name and exactly that one label |
| PipelineTwo.GeneratedRecordRoundTrip | exporters/metric/cortex/pipeline/pipelineTwo.go:82-116 | corrected, reading the labels at index 2: a record "kind", "[v1,...,vn]", "name,description,{key:value}" parses back to its kind, values, name and label |
| PipelineTwo.LabelsFromDescriptionAsWritten | exporters/metric/cortex/pipeline/pipelineTwo.go:106-111 | as written, index 1 of such a record is the description, whose labels cannot be read; index 2 can |

## Left out

- Sending: the Prometheus write request, its protobuf encoding, snappy compression and the
  HTTP POST are not part of this model. `client.go` is not part of this model.
- Cortex.Export: `fmt.Printf` of the series (cortex.go:45) is output only, so it is left out.
- Cortex.ConvertToTimeSeries: the printing of a distribution (cortex.go:80-82) is output only and is left out. Histogram buckets are not converted by the code either (cortex.go:92); a histogram's Sum capability takes the Sum branch, which the model covers.
- Cortex.ConvertToTimeSeries: `checkpointSet.ForEach` (cortex.go:56) belongs to the metrics SDK, which is not part of this model. The checkpoint set is modelled as a sequence of records walked in order, and ForEach as stopping at the first callback error. An SDK that skips some callback errors (such as `aggregation.ErrNoData`) and carries on is not modelled, nor are the series appended before such an error.
- Cortex.ConvertAllFailure: "no partial result, first failing record's error" holds under that model of ForEach. cortex.go:97-99 itself only discards the series when ForEach returns an error.
- Cortex.ConvertFromSum: sample values are integers. The `float64` conversion and the SDK's
  `Number` kinds are not modelled; times are given as Unix seconds.
- Cortex.ConvertFromLastValue: the same; the reading's own timestamp is ignored, as in the code.
- Cortex.CreateLabelSet: the result is a map keyed by the raw key. The slice the code
  returns lists the same labels in Go's map iteration order, which is unspecified, so
  that order is not modelled. The overwrite warning (`log.Printf`, cortex.go:257) is
  output only.
- Cortex.MergeLabels: label values are strings. `label.Value.Emit()` formatting of other
  value types is not modelled. The merge iterator is modelled by the precedence it
  documents.
- Cortex.ConvertRecord: a record's capabilities (Sum, LastValue, MinMaxSumCount) are
  given as optional accessors. Which aggregator implements which interface is decided
  by the SDK and is not modelled.
- Sanitizer.Sanitize: letters and digits are ASCII. Go's `unicode.IsLetter` and `IsDigit` also accept non-ASCII letters and digits, which the model treats as other characters.
- Auth: `buildClient` (proxy URL, timeout, transport) and x509 parsing are not modelled.
  `AppendCertsFromPEM` and `LoadX509KeyPair` keep the files' contents and only fail when
  a file cannot be read; PEM validity is not modelled. Configuration loading
  (`config.go`, `utils/`) is not part of this model.
- Auth.Exporter.LoadCaCertificates: the Go error is the `os.PathError` of `ReadFile`.
  The model returns `CaFileUnreadable` with the path.
- Auth.Request.Get: header keys are not canonicalized (`textproto.CanonicalMIMEHeaderKey`), and a key holds one value.
- AwsXray.Carrier.Get: the carrier is a plain dictionary; HTTP header canonicalization is not modelled.
- AwsXray.Message: the error texts are constants, with no further contract.
- AwsXray.Extract: the Go `context.Context` is reduced to the current span context and
  the remote span context.
- Trace: `trace.ID.String`, `IDFromHex` and `SpanIDFromHex` come from the OpenTelemetry
  API, which is not part of this model. They are written out as lowercase hex of fixed
  length for a non-zero identifier, which agrees with the error texts at
  awsxray_propagator.go:51-52.
- StrConv.ParseInt: the `NumError` keeps the input and the reason; its `Func` field is
  always "ParseInt" and is left out. Bases other than 10 and bit sizes other than 64
  are not used by the code and are not modelled.
- PipelineTwo.ParsePipelineTwoRecord: Go panics when the second field is shorter than
  2 characters, when the third field has fewer than two ','-fields or too short a
  label text, and when a label pair has no ':'. These cases are preconditions, not error results.
- PipelineTwo.Inner: strings are sequences of characters, and `Inner` drops the first
  and last character where Go drops the first and last byte. The two agree when those
  characters are ASCII (`InnerBytes`), as brackets and braces are. A field whose first
  or last character is not ASCII (the value list "é", which Go slices to "" and answers
  with a syntax error) is outside the model.
- PipelineTwo.LabelFields: only one ','-field of the third record field is read (index 1, as in the code). A label set with several pairs is split at their commas first, so only the first pair's text survives, with its last character cut as if it were the closing brace. The model states this (`LabelsFromOneFieldOnly`) and does not change it.
- PipelineOne.ParsePipelineOneRecord: Go panics on a record with fewer than three fields. That case is a precondition.
- The pipeline drivers (CSV reading, querying, checkpoint building, `main.go`) are not part of this model.

## Findings

| source | as written | input that shows it | evidently intended | confidence | as-written member | corrected member |
|---|---|---|---|---|---|---|
| exporters/metric/cortex/auth.go:171-174 | `buildTLSConfig` always calls `loadClientCertificate`, which calls `tls.LoadX509KeyPair` even when `cert_file` and `key_file` are empty (auth.go:197-203), so the empty path is opened and fails | TLS config `{"insecure_skip_verify": "1"}` and no certificate files | load the client certificate only "if it exists" (comment at auth.go:171), so a TLS map with no client certificate builds | high, not executed | Auth.TlsWithoutClientCertFails | Auth.TlsSettingsProperties |
| exporters/metric/cortex/pipeline/pipelineTwo.go:106 | the labels are read from `propertyFields[1]`, but the records of the second pipeline are written as "name,description,{key:value}" (exporters/metric/cortex/pipeline/generators/test.py:57-62), so index 1 is the description | third field `p2name0_sum,description0,{key0:value0}`: the labels text is "escription", which has no ':', so `pair[:i]` with `i == -1` panics | read the labels from `propertyFields[2]` | medium, not executed | PipelineTwo.LabelsFromDescriptionAsWritten | PipelineTwo.GeneratedRecordRoundTrip |
