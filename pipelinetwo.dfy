/** The record parser of the second demonstration pipeline of the Cortex exporter. It reads
    one CSV record of three fields: an aggregation kind, a bracketed list of integers such
    as "[1,2,3]" and "name,{key:value}". The parser is modelled as written, reading the
    labels from the second ','-field of the third field; the data files put a description
    there, and the corrected parser reads the third (see `LabelsFromDescriptionAsWritten`
    and `GeneratedRecordRoundTrip`). */
module PipelineTwo {
  import opened Wrappers
  import opened GoStrings
  import opened StrConv
  import opened Label

  /** What a record of the second pipeline yields. */
  datatype TwoRecord = TwoRecord(aggType: string, values: seq<int>, name: string, labels: seq<KeyValue>)

  /** A string without its first and last character (the brackets or braces). Go slices
      bytes; `InnerBytes` shows the two agree when those characters are ASCII. */
  function Inner(s: string): (r: string)
    requires |s| >= 2
    ensures |r| == |s| - 2
  {
    s[1..|s| - 1]
  }

  /** With an ASCII first and last character, dropping them drops the first and last
      byte, as Go's `s[1 : len(s)-1]` does. */
  lemma InnerBytes(s: string)
    requires |s| >= 2 && (s[0] as int) < 0x80 && (s[|s| - 1] as int) < 0x80
    ensures |Bytes(s)| >= 2 && Bytes(Inner(s)) == Bytes(s)[1..|Bytes(s)| - 1]
  {
    var first, inner, last := [s[0]], Inner(s), [s[|s| - 1]];
    assert s == first + inner + last;
    BytesAppend(first + inner, last);
    BytesAppend(first, inner);
    assert |Bytes(first)| == 1 && |Bytes(last)| == 1;
  }

  /** Each field as a 64-bit integer, in order; `FirstFailure` says which error a failure
      carries. */
  function ParseValues(fields: seq<string>): (r: Result<seq<int>, NumError>)
    ensures r.Success? <==> forall i :: 0 <= i < |fields| ==> ParseInt(fields[i]).Success?
    ensures r.Success? ==>
      |r.value| == |fields| && forall i :: 0 <= i < |fields| ==> r.value[i] == ParseInt(fields[i]).value
    ensures r.Failure? ==> r.error.num in fields
  {
    if fields == [] then Success([])
    else
      match ParseInt(fields[0])
      case Failure(e) => Failure(e)
      case Success(v) =>
        assert forall i :: 1 <= i < |fields| ==> fields[i] == fields[1..][i - 1];
        match ParseValues(fields[1..])
        case Failure(e) => Failure(e)
        case Success(vs) => Success([v] + vs)
  }

  /** The fields of the value list: the second record field without its brackets, split on ','. */
  function ValueFields(record: seq<string>): seq<string>
    requires |record| >= 3 && |record[1]| >= 2
  {
    Split(Inner(record[1]), ',')
  }

  /** The ','-field of the third record field that `parsePipelineTwoRecord` reads as the
      braced labels. */
  const CodeLabelsField: nat := 1

  /** The ','-field that holds the braced labels in records written as
      "name,description,{key:value}", the shape of the pipeline's data files. */
  const IntendedLabelsField: nat := 2

  /** Go panics unless the third record field has a ','-field at index `at` with its two
      braces, and every pair inside has a ':'. */
  predicate LabelsReadable(record: seq<string>, at: nat)
    requires |record| >= 3
  {
    var propertyFields := Split(record[2], ',');
    && |propertyFields| > at && |propertyFields[at]| >= 2
    && var labelFields := Split(Inner(propertyFields[at]), ',');
      forall i :: 0 <= i < |labelFields| ==> ':' in labelFields[i]
  }

  /** The label pairs: the labels field at index `at` without its braces, split on ','. */
  function LabelFields(record: seq<string>, at: nat): (r: seq<string>)
    requires |record| >= 3 && LabelsReadable(record, at)
    ensures r != [] && forall i :: 0 <= i < |r| ==> ':' in r[i] && ',' !in r[i]
  {
    Split(Inner(Split(record[2], ',')[at]), ',')
  }

  /** A pair split at its first ':'; the key has no ':' and key, ':' and value give the pair
      back. */
  function ParseLabel(pair: string): (l: KeyValue)
    requires ':' in pair
    ensures ':' !in l.key && l.key + ":" + l.value == pair
  {
    var i := Index(pair, ":");
    FirstColon(pair);
    KeyValue(pair[..i], pair[i + 1..])
  }

  /** The first ':' of a pair that has one. */
  lemma FirstColon(pair: string)
    requires ':' in pair
    ensures var i := Index(pair, ":");
      && 0 <= i < |pair| && ':' !in pair[..i] && pair[..i] + ":" + pair[i + 1..] == pair
  {
    var i := Index(pair, ":");
    assert i >= 0 by {
      var k :| 0 <= k < |pair| && pair[k] == ':';
      assert pair[k..k + 1] == ":";
      assert OccursAt(pair, ":", k);
    }
    assert pair[i..i + 1] == ":";
    assert ':' !in pair[..i] by {
      forall k | 0 <= k < i ensures pair[..i][k] != ':' {
        assert !OccursAt(pair, ":", k);
        assert pair[k..k + 1] == [pair[k]];
      }
    }
    assert pair[..i] + ":" + pair[i + 1..] == pair;
  }

  /** The label of each pair, in order. */
  function ParseLabels(fields: seq<string>): (r: seq<KeyValue>)
    requires forall i :: 0 <= i < |fields| ==> ':' in fields[i]
    ensures |r| == |fields| && forall i :: 0 <= i < |fields| ==> r[i] == ParseLabel(fields[i])
  {
    seq(|fields|, i requires 0 <= i < |fields| => ParseLabel(fields[i]))
  }

  /** What `parsePipelineTwoRecord` returns for a record when it reads the labels from the
      ','-field at index `at` of the third field (`CodeLabelsField` as written): the first
      value that does not parse as an `int64` ends it with that error, otherwise the kind
      passes through, with one value per value field and one label per label pair. */
  function PipelineTwoRecord(record: seq<string>, at: nat): (r: Result<TwoRecord, NumError>)
    requires |record| >= 3 && |record[1]| >= 2
    requires ParseValues(ValueFields(record)).Success? ==> LabelsReadable(record, at)
    ensures r.Failure? ==> r.error.num in ValueFields(record)
    ensures r.Success? <==> ParseValues(ValueFields(record)).Success?
    ensures r.Success? ==>
      && r.value.aggType == record[0] && ',' !in r.value.name
      && |r.value.values| == |ValueFields(record)| && |r.value.labels| == |LabelFields(record, at)|
  {
    match ParseValues(ValueFields(record))
    case Failure(e) => Failure(e)
    case Success(values) =>
      Success(TwoRecord(record[0], values, Split(record[2], ',')[0], ParseLabels(LabelFields(record, at))))
  }

  /** `parsePipelineTwoRecord` as written, with its loops over the values and the labels,
      reading the labels from `CodeLabelsField`; an error comes with empty outputs. */
  method ParsePipelineTwoRecord(record: seq<string>)
    returns (aggType: string, values: seq<int>, name: string, labels: seq<KeyValue>, err: Option<NumError>)
    requires |record| >= 3 && |record[1]| >= 2
    requires ParseValues(ValueFields(record)).Success? ==> LabelsReadable(record, CodeLabelsField)
    ensures PipelineTwoRecord(record, CodeLabelsField).Success? ==>
      err == None && TwoRecord(aggType, values, name, labels) == PipelineTwoRecord(record, CodeLabelsField).value
    ensures PipelineTwoRecord(record, CodeLabelsField).Failure? ==>
      && err == Some(PipelineTwoRecord(record, CodeLabelsField).error)
      && aggType == "" && values == [] && name == "" && labels == []
  {
    var valuesStr := record[1];
    valuesStr := valuesStr[1..|valuesStr| - 1];
    var valueFields := Split(valuesStr, ',');
    var valuesErr;
    values, valuesErr := ParseValueFields(valueFields);
    if valuesErr.Some? {
      return "", [], "", [], valuesErr;
    }
    aggType := record[0];
    var propertyFields := Split(record[2], ',');
    name := propertyFields[0];
    var labelsStr := propertyFields[CodeLabelsField];
    labelsStr := labelsStr[1..|labelsStr| - 1];
    labels := ParseLabelFields(Split(labelsStr, ','));
    err := None;
  }

  /** The loop over the values of `parsePipelineTwoRecord`. */
  method ParseValueFields(valueFields: seq<string>) returns (values: seq<int>, err: Option<NumError>)
    ensures ParseValues(valueFields).Success? ==> err == None && values == ParseValues(valueFields).value
    ensures ParseValues(valueFields).Failure? ==> err == Some(ParseValues(valueFields).error)
  {
    values := [];
    var j := 0;
    while j < |valueFields|
      invariant 0 <= j <= |valueFields|
      invariant |values| == j && forall i :: 0 <= i < j ==> ParseInt(valueFields[i]) == Success(values[i])
    {
      var value := ParseInt(valueFields[j]);
      if value.Failure? {
        FirstFailure(valueFields, j);
        return values, Some(value.error);
      }
      values := values + [value.value];
      j := j + 1;
    }
    err := None;
  }

  /** The loop over the labels of `parsePipelineTwoRecord`. */
  method ParseLabelFields(labelFields: seq<string>) returns (labels: seq<KeyValue>)
    requires forall i :: 0 <= i < |labelFields| ==> ':' in labelFields[i]
    ensures labels == ParseLabels(labelFields)
  {
    labels := [];
    var j := 0;
    while j < |labelFields|
      invariant 0 <= j <= |labelFields|
      invariant |labels| == j && forall i :: 0 <= i < j ==> labels[i] == ParseLabel(labelFields[i])
    {
      var pair := labelFields[j];
      var i := Index(pair, ":");
      LabelAtColon(pair);
      var keyValue := KeyValue(pair[..i], pair[i + 1..]);
      LabelsExtend(labelFields, labels, j, keyValue);
      labels := labels + [keyValue];
      j := j + 1;
    }
  }

  /** One step of the label loop's invariant. Stated apart from the loop so that the
      loop body does not reason about the appended sequence, which keeps the solver's
      work small. */
  lemma LabelsExtend(labelFields: seq<string>, labels: seq<KeyValue>, j: int, keyValue: KeyValue)
    requires 0 <= j < |labelFields| && forall i :: 0 <= i < |labelFields| ==> ':' in labelFields[i]
    requires |labels| == j && forall i :: 0 <= i < j ==> labels[i] == ParseLabel(labelFields[i])
    requires keyValue == ParseLabel(labelFields[j])
    ensures forall i :: 0 <= i < j + 1 ==> (labels + [keyValue])[i] == ParseLabel(labelFields[i])
  {
  }

  /** The first ':' of a pair that has one is inside it, and splitting there gives the label. */
  lemma LabelAtColon(pair: string)
    requires ':' in pair
    ensures var i := Index(pair, ":");
      && 0 <= i < |pair| && KeyValue(pair[..i], pair[i + 1..]) == ParseLabel(pair)
  {
    FirstColon(pair);
  }

  /** When every field before `j` parses and field `j` does not, parsing the list fails
      with field `j`'s error. */
  lemma {:induction false} FirstFailure(fields: seq<string>, j: int)
    requires 0 <= j < |fields| && ParseInt(fields[j]).Failure?
    requires forall i :: 0 <= i < j ==> ParseInt(fields[i]).Success?
    ensures ParseValues(fields) == Failure(ParseInt(fields[j]).error)
  {
    if j > 0 {
      var rest := fields[1..];
      forall i | 0 <= i < j - 1 ensures ParseInt(rest[i]).Success? {
        assert rest[i] == fields[i + 1];
      }
      FirstFailure(rest, j - 1);
      assert rest[j - 1] == fields[j];
    }
  }

  /** "[]" is not an empty list of values: splitting the empty text gives one empty field,
      which is a syntax error. */
  lemma EmptyValueListFails(record: seq<string>, at: nat)
    requires |record| >= 3 && record[1] == "[]"
    ensures ParseValues(ValueFields(record)).Failure?
    ensures PipelineTwoRecord(record, at) == Failure(NumError("", ErrSyntax))
  {
    assert Inner(record[1]) == "";
    assert ValueFields(record) == [""];
  }

  /** The decimal text of a list of integers. */
  function FormatValues(values: seq<int>): (r: seq<string>)
    ensures |r| == |values| && forall i :: 0 <= i < |values| ==> r[i] == FormatInt(values[i])
  {
    if values == [] then [] else [FormatInt(values[0])] + FormatValues(values[1..])
  }

  /** A bracketed, comma-separated list of 64-bit integers is read back as those integers. */
  lemma ValuesRoundTrip(record: seq<string>, values: seq<int>)
    requires values != []
    requires forall i :: 0 <= i < |values| ==> -(Int64Cutoff as int) <= values[i] < Int64Cutoff
    requires |record| >= 3 && record[1] == "[" + Join(FormatValues(values), ',') + "]"
    ensures ParseValues(ValueFields(record)) == Success(values)
  {
    var texts := FormatValues(values);
    assert forall i :: 0 <= i < |texts| ==> ',' !in texts[i] by {
      forall i | 0 <= i < |texts| ensures ',' !in texts[i] {
        FormatIntNoComma(values[i]);
      }
    }
    assert Inner(record[1]) == Join(texts, ',');
    SplitJoin(texts, ',');
    ParseFormatValues(values);
  }

  /** Each integer parses back from its text. */
  lemma {:induction false} ParseFormatValues(values: seq<int>)
    requires forall i :: 0 <= i < |values| ==> -(Int64Cutoff as int) <= values[i] < Int64Cutoff
    ensures ParseValues(FormatValues(values)) == Success(values)
  {
    if values != [] {
      var first, rest := FormatInt(values[0]), FormatValues(values[1..]);
      assert FormatValues(values) == [first] + rest;
      ParseFormatInt(values[0]);
      ParseFormatValues(values[1..]);
      ParseValuesCons(first, rest, values[0], values[1..]);
      assert values == [values[0]] + values[1..];
    }
  }

  lemma ParseValuesCons(text: string, texts: seq<string>, v: int, vs: seq<int>)
    requires ParseInt(text) == Success(v) && ParseValues(texts) == Success(vs)
    ensures ParseValues([text] + texts) == Success([v] + vs)
  {
    assert ([text] + texts)[1..] == texts;
  }

  lemma FormatIntNoComma(v: int)
    ensures ',' !in FormatInt(v)
  {
    var s := FormatInt(v);
    var d := if v < 0 then Digits(-v) else Digits(v);
    forall k | 0 <= k < |s| ensures s[k] != ',' {
      if v < 0 && k > 0 {
        assert s[k] == d[k - 1];
      }
    }
  }

  /** The name is the third field up to its first ','. */
  lemma PipelineTwoName(record: seq<string>, at: nat)
    requires |record| >= 3 && |record[1]| >= 2
    requires ParseValues(ValueFields(record)).Success? ==> LabelsReadable(record, at)
    requires PipelineTwoRecord(record, at).Success?
    ensures var name := PipelineTwoRecord(record, at).value.name;
      && ',' !in name && name <= record[2]
      && (|name| < |record[2]| ==> record[2][|name|] == ',')
  {
    var fields := Split(record[2], ',');
    if |fields| > 1 {
      assert Join(fields, ',') == fields[0] + [','] + Join(fields[1..], ',');
    }
  }

  /** Only the labels field of the third record field is read for labels: whatever
      follows another ',' is ignored, so a label set holding a ',' loses its later pairs. */
  lemma LabelsFromOneFieldOnly(r1: seq<string>, r2: seq<string>, at: nat)
    requires |r1| >= 3 && |r2| >= 3 && LabelsReadable(r1, at) && LabelsReadable(r2, at)
    requires Split(r1[2], ',')[at] == Split(r2[2], ',')[at]
    ensures LabelFields(r1, at) == LabelFields(r2, at)
  {
  }

  /** The third field of a record as the data files hold it: "name,description,{key:value}". */
  function PropertiesText(name: string, desc: string, key: string, value: string): string
  {
    name + [','] + desc + [','] + ("{" + key + ":" + value + "}")
  }

  /** Such a third field splits into the name, the description and the braced label. */
  lemma PropertiesSplit(name: string, desc: string, key: string, value: string)
    requires ',' !in name && ',' !in desc && ',' !in key && ',' !in value
    ensures Split(PropertiesText(name, desc, key, value), ',') == [name, desc, "{" + key + ":" + value + "}"]
  {
    var braced := "{" + key + ":" + value + "}";
    BracedNoComma(key, value);
    SplitNoSep(braced, ',');
    SplitPrefix(desc, braced, ',');
    SplitPrefix(name, desc + [','] + braced, ',');
    assert PropertiesText(name, desc, key, value) == name + [','] + (desc + [','] + braced);
  }

  lemma BracedNoComma(key: string, value: string)
    requires ',' !in key && ',' !in value
    ensures ',' !in "{" + key + ":" + value + "}"
  {
    var braced := "{" + key + ":" + value + "}";
    forall k | 0 <= k < |braced| ensures braced[k] != ',' {
      if 1 <= k <= |key| {
        assert braced[k] == key[k - 1];
      } else if |key| + 2 <= k < |braced| - 1 {
        assert braced[k] == value[k - |key| - 2];
      }
    }
  }

  /** The braced label "{key:value}", with no ',' in it and no ':' in the key, reads as
      exactly that one label. */
  lemma BracedLabel(key: string, value: string)
    requires ',' !in key && ',' !in value && ':' !in key
    ensures var pairs := Split(Inner("{" + key + ":" + value + "}"), ',');
      && (forall i :: 0 <= i < |pairs| ==> ':' in pairs[i])
      && ParseLabels(pairs) == [KeyValue(key, value)]
  {
    var braced := "{" + key + ":" + value + "}";
    var pair := key + ":" + value;
    BracedNoComma(key, value);
    assert Inner(braced) == pair;
    assert ',' !in pair by {
      forall k | 0 <= k < |pair| ensures pair[k] != ',' {
        assert pair[k] == braced[k + 1];
      }
    }
    SplitNoSep(pair, ',');
    assert pair[|key|] == ':';
    var l := ParseLabel(pair);
    assert l.key + ":" + l.value == key + ":" + value;
    LabelSplitUnique(l.key, l.value, key, value);
  }

  /** A record as the data files hold it gives its name and exactly its one label. */
  lemma GeneratedRecordLabels(record: seq<string>, name: string, desc: string, key: string, value: string)
    requires |record| >= 3 && record[2] == PropertiesText(name, desc, key, value)
    requires ',' !in name && ',' !in desc && ',' !in key && ',' !in value && ':' !in key
    ensures LabelsReadable(record, IntendedLabelsField)
    ensures Split(record[2], ',')[0] == name
    ensures ParseLabels(LabelFields(record, IntendedLabelsField)) == [KeyValue(key, value)]
  {
    PropertiesSplit(name, desc, key, value);
    BracedLabel(key, value);
  }

  /** The corrected parser, reading the labels from `IntendedLabelsField`: a whole record
      as the data files hold it, "kind|[v1,...,vn]|name,description,{key:value}", parses
      back to its kind, values, name and label. */
  lemma GeneratedRecordRoundTrip(record: seq<string>, values: seq<int>, name: string, desc: string,
    key: string, value: string)
    requires values != []
    requires forall i :: 0 <= i < |values| ==> -(Int64Cutoff as int) <= values[i] < Int64Cutoff
    requires |record| >= 3 && record[1] == "[" + Join(FormatValues(values), ',') + "]"
    requires record[2] == PropertiesText(name, desc, key, value)
    requires ',' !in name && ',' !in desc && ',' !in key && ',' !in value && ':' !in key
    ensures |record[1]| >= 2 && LabelsReadable(record, IntendedLabelsField)
    ensures PipelineTwoRecord(record, IntendedLabelsField) ==
      Success(TwoRecord(record[0], values, name, [KeyValue(key, value)]))
  {
    ValuesRoundTrip(record, values);
    GeneratedRecordLabels(record, name, desc, key, value);
  }

  /** The parser as written reads a record whose third field is "name,{key:value}" back to
      its kind, values, name and label. */
  lemma CodeRecordRoundTrip(record: seq<string>, values: seq<int>, name: string, key: string, value: string)
    requires values != []
    requires forall i :: 0 <= i < |values| ==> -(Int64Cutoff as int) <= values[i] < Int64Cutoff
    requires |record| >= 3 && record[1] == "[" + Join(FormatValues(values), ',') + "]"
    requires record[2] == name + [','] + ("{" + key + ":" + value + "}")
    requires ',' !in name && ',' !in key && ',' !in value && ':' !in key
    ensures |record[1]| >= 2 && LabelsReadable(record, CodeLabelsField)
    ensures PipelineTwoRecord(record, CodeLabelsField) ==
      Success(TwoRecord(record[0], values, name, [KeyValue(key, value)]))
  {
    ValuesRoundTrip(record, values);
    CodeRecordLabels(record[2], name, key, value);
    assert Split(record[2], ',')[CodeLabelsField] == "{" + key + ":" + value + "}";
    BracedLabel(key, value);
  }

  lemma CodeRecordLabels(properties: string, name: string, key: string, value: string)
    requires properties == name + [','] + ("{" + key + ":" + value + "}")
    requires ',' !in name && ',' !in key && ',' !in value && ':' !in key
    ensures var fields := Split(properties, ',');
      && |fields| == 2 && fields[0] == name && fields[1] == "{" + key + ":" + value + "}"
  {
    var braced := "{" + key + ":" + value + "}";
    BracedNoComma(key, value);
    SplitNoSep(braced, ',');
    SplitPrefix(name, braced, ',');
  }

  /** As written, `parsePipelineTwoRecord` takes its labels from index 1, the
      description: on a record as the data files hold it, with no ':' in the description,
      the labels at index 1 cannot be read (Go panics slicing at index -1), while those
      at index 2 can. */
  lemma LabelsFromDescriptionAsWritten(record: seq<string>, name: string, desc: string, key: string, value: string)
    requires |record| >= 3 && record[2] == PropertiesText(name, desc, key, value)
    requires ',' !in name && ',' !in desc && ',' !in key && ',' !in value && ':' !in key && ':' !in desc
    ensures !LabelsReadable(record, CodeLabelsField)
    ensures LabelsReadable(record, IntendedLabelsField)
  {
    PropertiesSplit(name, desc, key, value);
    var braced := "{" + key + ":" + value + "}";
    assert Split(record[2], ',')[1] == desc && Split(record[2], ',')[2] == braced;
    BracedLabel(key, value);
    DescriptionHasNoLabel(desc);
  }

  /** A description without ',' and ':' read as a braced label list is one pair without ':'. */
  lemma DescriptionHasNoLabel(desc: string)
    requires ',' !in desc && ':' !in desc
    ensures |desc| >= 2 ==> Split(Inner(desc), ',') == [Inner(desc)] && ':' !in Inner(desc)
  {
    if |desc| >= 2 {
      var inner := Inner(desc);
      assert forall k :: 0 <= k < |inner| ==> inner[k] == desc[k + 1];
      SplitNoSep(inner, ',');
    }
  }

  /** A key without ':' is recovered from "key:value". */
  lemma LabelSplitUnique(k1: string, v1: string, k2: string, v2: string)
    requires ':' !in k1 && ':' !in k2 && k1 + ":" + v1 == k2 + ":" + v2
    ensures k1 == k2 && v1 == v2
  {
    var s := k1 + ":" + v1;
    IndexOfCharAt(s, ':', |k1|);
    assert forall j :: 0 <= j < |k2| ==> s[j] == k2[j];
    IndexOfCharAt(s, ':', |k2|);
    assert k1 == s[..|k1|] && k2 == s[..|k2|];
    assert v1 == s[|k1| + 1..] && v2 == s[|k2| + 1..];
  }
}
