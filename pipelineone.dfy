/** The record parser of the first demonstration pipeline of the Cortex exporter. It reads
    one CSV record of three fields: an instrument kind, a value and
    "name,description,key,value,...". */
module PipelineOne {
  import opened Wrappers
  import opened GoStrings
  import opened Label

  const MissingNameDescription := "Missing name /description"
  const InvalidKeyValuePair := "Invalid key value pair"

  /** What a record of the first pipeline yields. */
  datatype OneRecord = OneRecord(
    instrument: string, value: string, name: string, desc: string, pairs: seq<KeyValue>)

  /** Consecutive fields taken two at a time as key and value. */
  function PairUp(fields: seq<string>): (r: seq<KeyValue>)
    requires |fields| % 2 == 0
    ensures |r| == |fields| / 2
    ensures forall k :: 0 <= k < |r| ==> r[k] == KeyValue(fields[2 * k], fields[2 * k + 1])
  {
    if fields == [] then []
    else
      var rest := PairUp(fields[2..]);
      assert forall k :: 1 <= k < |rest| + 1 ==>
        rest[k - 1] == KeyValue(fields[2 * k], fields[2 * k + 1]) by {
        forall k | 1 <= k < |rest| + 1
          ensures rest[k - 1] == KeyValue(fields[2 * k], fields[2 * k + 1])
        {
          assert fields[2..][2 * (k - 1)] == fields[2 * k];
          assert fields[2..][2 * (k - 1) + 1] == fields[2 * k + 1];
        }
      }
      [KeyValue(fields[0], fields[1])] + rest
  }

  /** The pairs written back out as fields, key before value. */
  function Flatten(pairs: seq<KeyValue>): (r: seq<string>)
    ensures |r| == 2 * |pairs|
    ensures forall k :: 0 <= k < |pairs| ==> r[2 * k] == pairs[k].key && r[2 * k + 1] == pairs[k].value
  {
    if pairs == [] then []
    else
      var rest := Flatten(pairs[1..]);
      assert forall k :: 1 <= k < |pairs| ==>
        rest[2 * (k - 1)] == pairs[k].key && rest[2 * (k - 1) + 1] == pairs[k].value by {
        forall k | 1 <= k < |pairs|
          ensures rest[2 * (k - 1)] == pairs[k].key && rest[2 * (k - 1) + 1] == pairs[k].value
        {
          assert pairs[1..][k - 1] == pairs[k];
        }
      }
      [pairs[0].key, pairs[0].value] + rest
  }

  /** Pairing up undoes flattening. */
  lemma {:induction false} PairUpFlatten(pairs: seq<KeyValue>)
    ensures PairUp(Flatten(pairs)) == pairs
  {
    if pairs != [] {
      var f := Flatten(pairs);
      assert f[2..] == Flatten(pairs[1..]);
      PairUpFlatten(pairs[1..]);
      assert pairs == [pairs[0]] + pairs[1..];
    }
  }

  /** The spelling of `parsePipelineOneRecord`: the third field split on ',' must have at
      least two fields (name and description) and an even number of them; the rest are
      key/value pairs. The first two fields of the record pass through. */
  function PipelineOneRecord(record: seq<string>): (r: Result<OneRecord, string>)
    requires |record| >= 3
    ensures r.Failure? ==> r.error == MissingNameDescription || r.error == InvalidKeyValuePair
    ensures r.Success? ==>
      && r.value.instrument == record[0] && r.value.value == record[1]
      && ',' !in r.value.name && ',' !in r.value.desc
  {
    var fields := Split(record[2], ',');
    if |fields| < 2 then Failure(MissingNameDescription)
    else if |fields| % 2 != 0 then Failure(InvalidKeyValuePair)
    else Success(OneRecord(record[0], record[1], fields[0], fields[1], PairUp(fields[2..])))
  }

  /** `parsePipelineOneRecord`, with its loop over the pairs; an error comes with empty
      outputs. */
  method ParsePipelineOneRecord(record: seq<string>)
    returns (instrument: string, value: string, name: string, desc: string, keyValuePairs: seq<KeyValue>,
      err: Option<string>)
    requires |record| >= 3
    ensures PipelineOneRecord(record).Success? ==>
      err == None && OneRecord(instrument, value, name, desc, keyValuePairs) == PipelineOneRecord(record).value
    ensures PipelineOneRecord(record).Failure? ==>
      && err == Some(PipelineOneRecord(record).error)
      && instrument == "" && value == "" && name == "" && desc == "" && keyValuePairs == []
  {
    var stringFields := Split(record[2], ',');
    var numStringFields := |stringFields|;
    if numStringFields < 2 {
      return "", "", "", "", [], Some(MissingNameDescription);
    }
    if numStringFields % 2 != 0 {
      return "", "", "", "", [], Some(InvalidKeyValuePair);
    }
    name := stringFields[0];
    desc := stringFields[1];
    keyValuePairs := [];
    var i := 2;
    while i < numStringFields
      invariant 2 <= i <= numStringFields && i % 2 == 0
      invariant |keyValuePairs| == (i - 2) / 2
      invariant forall k :: 0 <= k < |keyValuePairs| ==>
        keyValuePairs[k] == KeyValue(stringFields[2 * k + 2], stringFields[2 * k + 3])
    {
      keyValuePairs := keyValuePairs + [KeyValue(stringFields[i], stringFields[i + 1])];
      i := i + 2;
    }
    assert keyValuePairs == PairUp(stringFields[2..]) by {
      var expected := PairUp(stringFields[2..]);
      forall k | 0 <= k < |expected| ensures keyValuePairs[k] == expected[k] {
        assert stringFields[2..][2 * k] == stringFields[2 * k + 2];
        assert stringFields[2..][2 * k + 1] == stringFields[2 * k + 3];
      }
    }
    return record[0], record[1], name, desc, keyValuePairs, None;
  }

  /** The outcome is decided by the number of commas in the third field: none is a
      missing description, an even number an unpaired key, an odd number success. */
  lemma PipelineOneOutcome(record: seq<string>)
    requires |record| >= 3
    ensures PipelineOneRecord(record) == Failure(MissingNameDescription) <==> Count(record[2], ',') == 0
    ensures PipelineOneRecord(record) == Failure(InvalidKeyValuePair) <==>
      Count(record[2], ',') > 0 && Count(record[2], ',') % 2 == 0
    ensures PipelineOneRecord(record).Success? <==> Count(record[2], ',') % 2 == 1
  {
  }

  /** On success the third field is the name, the description and the pairs joined by ','. */
  lemma PipelineOneJoin(record: seq<string>)
    requires |record| >= 3 && PipelineOneRecord(record).Success?
    ensures var r := PipelineOneRecord(record).value;
      Join([r.name, r.desc] + Flatten(r.pairs), ',') == record[2]
  {
    var fields := Split(record[2], ',');
    var r := PipelineOneRecord(record).value;
    FlattenPairUp(fields[2..]);
    assert [r.name, r.desc] + Flatten(r.pairs) == fields;
  }

  /** Flattening undoes pairing up. */
  lemma {:induction false} FlattenPairUp(fields: seq<string>)
    requires |fields| % 2 == 0
    ensures Flatten(PairUp(fields)) == fields
  {
    if fields != [] {
      var p := PairUp(fields);
      assert p[1..] == PairUp(fields[2..]);
      FlattenPairUp(fields[2..]);
      assert fields == [fields[0], fields[1]] + fields[2..];
    }
  }

  /** A record written from a name, a description and pairs, none containing ',', is read
      back as exactly those. */
  lemma PipelineOneFormat(instrument: string, value: string, name: string, desc: string, pairs: seq<KeyValue>)
    requires ',' !in name && ',' !in desc
    requires forall k :: 0 <= k < |pairs| ==> ',' !in pairs[k].key && ',' !in pairs[k].value
    ensures PipelineOneRecord([instrument, value, Join([name, desc] + Flatten(pairs), ',')]) ==
      Success(OneRecord(instrument, value, name, desc, pairs))
  {
    var all := [KeyValue(name, desc)] + pairs;
    assert all[1..] == pairs;
    var fields := Flatten(all);
    assert fields == [name, desc] + Flatten(pairs);
    PrependNoSep(name, desc, pairs);
    FlattenNoSep(all);
    SplitJoin(fields, ',');
    ReadFormattedFields(instrument, value, fields, name, desc, pairs);
  }

  /** The name and description joined to comma-free pairs stay comma-free. Stated apart
      so that the round-trip proof does not unfold the concatenation itself, which keeps
      the solver's work small. */
  lemma PrependNoSep(name: string, desc: string, pairs: seq<KeyValue>)
    requires ',' !in name && ',' !in desc
    requires forall k :: 0 <= k < |pairs| ==> ',' !in pairs[k].key && ',' !in pairs[k].value
    ensures var all := [KeyValue(name, desc)] + pairs;
      forall k :: 0 <= k < |all| ==> ',' !in all[k].key && ',' !in all[k].value
  {
  }

  lemma ReadFormattedFields(instrument: string, value: string, fields: seq<string>, name: string, desc: string,
    pairs: seq<KeyValue>)
    requires fields == [name, desc] + Flatten(pairs) && Split(Join(fields, ','), ',') == fields
    ensures PipelineOneRecord([instrument, value, Join(fields, ',')]) ==
      Success(OneRecord(instrument, value, name, desc, pairs))
  {
    var record := [instrument, value, Join(fields, ',')];
    assert record[2] == Join(fields, ',');
    ReadSplitFields(record, fields, name, desc, pairs);
  }

  lemma ReadSplitFields(record: seq<string>, fields: seq<string>, name: string, desc: string, pairs: seq<KeyValue>)
    requires |record| >= 3 && Split(record[2], ',') == fields && fields == [name, desc] + Flatten(pairs)
    ensures PipelineOneRecord(record) == Success(OneRecord(record[0], record[1], name, desc, pairs))
  {
    assert fields[0] == name && fields[1] == desc && fields[2..] == Flatten(pairs);
    PairUpFlatten(pairs);
  }

  lemma FlattenNoSep(pairs: seq<KeyValue>)
    requires forall k :: 0 <= k < |pairs| ==> ',' !in pairs[k].key && ',' !in pairs[k].value
    ensures forall i :: 0 <= i < |Flatten(pairs)| ==> ',' !in Flatten(pairs)[i]
  {
    var f := Flatten(pairs);
    forall i | 0 <= i < |f| ensures ',' !in f[i] {
      var k := i / 2;
      if i % 2 == 0 {
        assert f[2 * k] == pairs[k].key;
      } else {
        assert f[2 * k + 1] == pairs[k].value;
      }
    }
  }
}
