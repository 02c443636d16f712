/** Conversion of a checkpoint of aggregated records into Prometheus time series
    (exporters/metric/cortex/cortex.go). Aggregations are described by the accessor
    interfaces they implement; numbers are integers and times are Unix seconds. */
module Cortex {
  import opened Wrappers
  import opened Sanitizer

  /** The text of an error returned by an aggregation accessor. */
  type AggError = string

  /** The SDK's export kinds. */
  datatype ExportKind = CumulativeExporter | DeltaExporter | PassThroughExporter

  /** The SDK's aggregation kinds. */
  datatype AggregationKind = SumKind | MinMaxSumCountKind | HistogramKind | LastValueKind
    | SketchKind | ExactKind

  /** An instrument descriptor; only its name is read. */
  datatype Descriptor = Descriptor(name: string)

  /** What `LastValue()` returns besides its error: the value and its own timestamp. */
  datatype LastValueReading = LastValueReading(value: int, timestamp: int)

  /** The three accessors of `aggregation.MinMaxSumCount` that the converter reads. */
  datatype MinMaxSumCountReadings = MinMaxSumCountReadings(
    min: Result<int, AggError>,
    max: Result<int, AggError>,
    count: Result<int, AggError>)

  /** An aggregation, given by the interfaces it implements: each field is `None` when
      the interface assertion fails and otherwise holds what its accessor returns. */
  datatype Aggregation = Aggregation(
    sum: Option<Result<int, AggError>>,
    lastValue: Option<Result<LastValueReading, AggError>>,
    mmsc: Option<MinMaxSumCountReadings>)

  /** One record of a checkpoint set: its descriptor, aggregation, own labels, the
      labels of its resource and its end time in Unix seconds. */
  datatype Record = Record(
    descriptor: Descriptor,
    aggregation: Aggregation,
    labels: map<string, string>,
    resource: map<string, string>,
    endTime: int)

  /** `prompb.Label`. */
  datatype Label = Label(name: string, value: string)

  /** `prompb.Sample`. */
  datatype Sample = Sample(value: int, timestamp: int)

  /** `prompb.TimeSeries`. Its labels are kept keyed by the raw key each one came from;
      the Go slice holds the same labels in map iteration order. */
  datatype TimeSeries = TimeSeries(labels: map<string, Label>, samples: seq<Sample>)

  /** `ExportKindFor`: cumulative, whatever the descriptor and aggregation kind. */
  function ExportKindFor(descriptor: Descriptor, kind: AggregationKind): (r: ExportKind)
    ensures r == CumulativeExporter
  {
    CumulativeExporter
  }

  // ---------------------------------------------------------------------------
  // Label sets (createLabelSet)

  /** The label stored for raw key `k`: the sanitized key as name, the value verbatim. */
  function LabelFor(k: string, v: string): (l: Label)
    ensures l.name == Sanitize(k) && l.value == v
  {
    Label(Sanitize(k), v)
  }

  /** Record labels merged over resource labels, the record's winning on a shared key. */
  function MergedLabels(record: Record): (m: map<string, string>)
    ensures m.Keys == record.labels.Keys + record.resource.Keys
    ensures forall k :: k in m ==>
      m[k] == if k in record.labels then record.labels[k] else record.resource[k]
  {
    record.resource + record.labels
  }

  /** The label map after the merged labels have been stored. */
  function BaseLabels(record: Record): map<string, Label>
  {
    var merged := MergedLabels(record);
    map k | k in merged :: LabelFor(k, merged[k])
  }

  /** The complete key/value pairs of `extras`; a trailing unpaired key is dropped. */
  function ExtraPairs(extras: seq<string>): (pairs: seq<(string, string)>)
    ensures |pairs| == |extras| / 2
    ensures forall j :: 0 <= j < |pairs| ==> pairs[j] == (extras[2 * j], extras[2 * j + 1])
  {
    if |extras| < 2 then [] else [(extras[0], extras[1])] + ExtraPairs(extras[2..])
  }

  /** The pairs stored one after the other, each overwriting the entry of its key. */
  function AddPairs(m: map<string, Label>, pairs: seq<(string, string)>): map<string, Label>
    decreases |pairs|
  {
    if pairs == [] then m
    else AddPairs(m[pairs[0].0 := LabelFor(pairs[0].0, pairs[0].1)], pairs[1..])
  }

  /** The labels `createLabelSet` builds for a record and a list of extra pairs. */
  function LabelSet(record: Record, extras: seq<string>): map<string, Label>
  {
    AddPairs(BaseLabels(record), ExtraPairs(extras))
  }

  /** Some pair has key `k`. */
  ghost predicate KeyIn(pairs: seq<(string, string)>, k: string)
  {
    exists j :: 0 <= j < |pairs| && pairs[j].0 == k
  }

  /** `j` is the last pair with key `k`. */
  ghost predicate IsLastPairFor(pairs: seq<(string, string)>, k: string, j: int)
  {
    0 <= j < |pairs| && pairs[j].0 == k && forall j' :: j < j' < |pairs| ==> pairs[j'].0 != k
  }

  /** A key is among the pairs when it is the first pair's or among the rest. */
  lemma KeyInCons(pairs: seq<(string, string)>, k: string)
    requires pairs != []
    ensures KeyIn(pairs, k) <==> pairs[0].0 == k || KeyIn(pairs[1..], k)
  {
    if KeyIn(pairs[1..], k) {
      var j :| 0 <= j < |pairs[1..]| && pairs[1..][j].0 == k;
      assert pairs[j + 1].0 == k;
    }
    if KeyIn(pairs, k) && pairs[0].0 != k {
      var j :| 0 <= j < |pairs| && pairs[j].0 == k;
      assert pairs[1..][j - 1].0 == k;
    }
  }

  /** The last pair for a key is the first pair exactly when the rest lacks the key. */
  lemma LastPairCons(pairs: seq<(string, string)>, k: string, j: int)
    requires IsLastPairFor(pairs, k, j)
    ensures j == 0 ==> !KeyIn(pairs[1..], k)
    ensures j > 0 ==> IsLastPairFor(pairs[1..], k, j - 1)
  {
  }

  /** Storing pairs keeps the old entries of keys no pair has, and gives every other key
      the value of its last pair. */
  lemma {:induction false} AddPairsAt(m: map<string, Label>, pairs: seq<(string, string)>, k: string)
    ensures k in AddPairs(m, pairs) <==> k in m || KeyIn(pairs, k)
    ensures k in m && !KeyIn(pairs, k) ==> AddPairs(m, pairs)[k] == m[k]
    ensures forall j :: IsLastPairFor(pairs, k, j) ==> AddPairs(m, pairs)[k] == LabelFor(k, pairs[j].1)
    decreases |pairs|
  {
    if pairs != [] {
      var p, rest := pairs[0], pairs[1..];
      var m' := m[p.0 := LabelFor(p.0, p.1)];
      assert AddPairs(m, pairs) == AddPairs(m', rest);
      AddPairsAt(m', rest, k);
      KeyInCons(pairs, k);
      forall j | IsLastPairFor(pairs, k, j)
        ensures AddPairs(m, pairs)[k] == LabelFor(k, pairs[j].1)
      {
        LastPairCons(pairs, k, j);
      }
    }
  }

  /** A key that some pair has has a last pair. */
  lemma LastPairExists(pairs: seq<(string, string)>, k: string)
    requires KeyIn(pairs, k)
    ensures exists j :: IsLastPairFor(pairs, k, j)
  {
    var j :| 0 <= j < |pairs| && pairs[j].0 == k;
    while j + 1 < |pairs| && exists j' :: j < j' < |pairs| && pairs[j'].0 == k
      invariant 0 <= j < |pairs| && pairs[j].0 == k
      decreases |pairs| - j
    {
      var later :| j < later < |pairs| && pairs[later].0 == k;
      j := later;
    }
    assert IsLastPairFor(pairs, k, j);
  }

  /** The precedence of `createLabelSet`: one label per distinct raw key of the resource,
      the record and the extra pairs; extras beat record labels, which beat resource
      labels; the last of several extra pairs with one key wins; names are sanitized
      raw keys and values are copied verbatim. */
  lemma LabelSetPrecedence(record: Record, extras: seq<string>, k: string)
    ensures k in LabelSet(record, extras) <==>
      k in record.resource || k in record.labels || KeyIn(ExtraPairs(extras), k)
    ensures k in LabelSet(record, extras) ==> LabelSet(record, extras)[k].name == Sanitize(k)
    ensures forall j :: IsLastPairFor(ExtraPairs(extras), k, j) ==>
      LabelSet(record, extras)[k].value == extras[2 * j + 1]
    ensures !KeyIn(ExtraPairs(extras), k) && k in record.labels ==>
      LabelSet(record, extras)[k].value == record.labels[k]
    ensures !KeyIn(ExtraPairs(extras), k) && k !in record.labels && k in record.resource ==>
      LabelSet(record, extras)[k].value == record.resource[k]
  {
    var pairs := ExtraPairs(extras);
    AddPairsAt(BaseLabels(record), pairs, k);
    if KeyIn(pairs, k) {
      LastPairExists(pairs, k);
    }
  }

  /** `createLabelSet`: the merged labels are stored first, then every complete extra
      pair in order; the overwrite diagnostic it logs is not modelled. */
  method CreateLabelSet(record: Record, extras: seq<string>) returns (labels: map<string, Label>)
    ensures labels == LabelSet(record, extras)
  {
    labels := MergeLabels(record);
    labels := StoreExtraPairs(labels, extras);
  }

  /** The merge loop: one label per key of the merged record and resource labels. */
  method MergeLabels(record: Record) returns (labels: map<string, Label>)
    ensures labels == BaseLabels(record)
  {
    var merged := MergedLabels(record);
    labels := map[];
    var remaining := merged.Keys;
    while remaining != {}
      invariant remaining <= merged.Keys
      invariant labels.Keys == merged.Keys - remaining
      invariant forall k :: k in labels ==> labels[k] == LabelFor(k, merged[k])
      decreases remaining
    {
      var k :| k in remaining;
      labels := labels[k := LabelFor(k, merged[k])];
      remaining := remaining - {k};
    }
    BaseLabelsExt(record, labels);
  }

  lemma BaseLabelsExt(record: Record, labels: map<string, Label>)
    requires labels.Keys == MergedLabels(record).Keys
    requires forall k :: k in labels ==> labels[k] == LabelFor(k, MergedLabels(record)[k])
    ensures labels == BaseLabels(record)
  {
    assert labels.Keys == BaseLabels(record).Keys;
  }

  /** The extra-pairs loop: every complete pair stored in order, a dangling key ignored. */
  method StoreExtraPairs(base: map<string, Label>, extras: seq<string>) returns (labels: map<string, Label>)
    ensures labels == AddPairs(base, ExtraPairs(extras))
  {
    labels := base;
    var i := 0;
    while i < |extras|
      invariant 0 <= i <= |extras|
      invariant AddPairs(labels, ExtraPairs(extras[i..])) == AddPairs(base, ExtraPairs(extras))
    {
      if i + 1 >= |extras| {
        break;
      }
      assert extras[i..][2..] == extras[i + 2..];
      labels := labels[extras[i] := LabelFor(extras[i], extras[i + 1])];
      i := i + 2;
    }
  }

  // ---------------------------------------------------------------------------
  // Converters

  /** `ts` carries the record's merged labels plus `name = metricName`. */
  ghost predicate NamedSeries(ts: TimeSeries, record: Record, metricName: string)
  {
    ts.labels.Keys == record.labels.Keys + record.resource.Keys + {"name"}
    && ts.labels["name"] == Label("name", metricName)
    && forall k :: k in ts.labels && k != "name" ==>
         ts.labels[k] == Label(Sanitize(k), if k in record.labels then record.labels[k] else record.resource[k])
  }

  /** The single extra pair `name = metricName` overrides only the "name" entry. */
  lemma NameLabelSet(record: Record, metricName: string)
    ensures NamedSeries(TimeSeries(LabelSet(record, ["name", metricName]), []), record, metricName)
  {
    NameLabelSetKeys(record, metricName);
    NameLabelSetName(record, metricName);
    NameLabelSetOthers(record, metricName);
  }

  lemma NameLabelSetKeys(record: Record, metricName: string)
    ensures LabelSet(record, ["name", metricName]).Keys == record.labels.Keys + record.resource.Keys + {"name"}
  {
    var labels := LabelSet(record, ["name", metricName]);
    forall k ensures k in labels <==> k in record.labels.Keys + record.resource.Keys + {"name"} {
      NameLabelSetAt(record, metricName, k);
    }
  }

  lemma NameLabelSetName(record: Record, metricName: string)
    ensures "name" in LabelSet(record, ["name", metricName])
    ensures LabelSet(record, ["name", metricName])["name"] == Label("name", metricName)
  {
    NameLabelSetAt(record, metricName, "name");
    SanitizeName();
  }

  lemma NameLabelSetOthers(record: Record, metricName: string)
    ensures var labels := LabelSet(record, ["name", metricName]);
      forall k :: k in labels && k != "name" ==>
        && (k in record.labels || k in record.resource)
        && labels[k] == Label(Sanitize(k), if k in record.labels then record.labels[k] else record.resource[k])
  {
    var labels := LabelSet(record, ["name", metricName]);
    forall k | k in labels && k != "name"
      ensures && (k in record.labels || k in record.resource)
              && labels[k] == Label(Sanitize(k), if k in record.labels then record.labels[k] else record.resource[k])
    {
      NameLabelSetAt(record, metricName, k);
    }
  }

  /** The precedence rules applied to the one extra pair `name = metricName`. */
  lemma NameLabelSetAt(record: Record, metricName: string, k: string)
    ensures k in LabelSet(record, ["name", metricName]) <==>
      k in record.resource || k in record.labels || k == "name"
    ensures k == "name" ==> LabelSet(record, ["name", metricName])[k].value == metricName
    ensures k in LabelSet(record, ["name", metricName]) ==>
      LabelSet(record, ["name", metricName])[k].name == Sanitize(k)
    ensures k != "name" && k in record.labels ==>
      LabelSet(record, ["name", metricName])[k].value == record.labels[k]
    ensures k != "name" && k !in record.labels && k in record.resource ==>
      LabelSet(record, ["name", metricName])[k].value == record.resource[k]
  {
    var pairs := ExtraPairs(["name", metricName]);
    assert pairs == [("name", metricName)];
    assert KeyIn(pairs, k) <==> k == "name" by {
      if k == "name" {
        assert pairs[0].0 == k;
      }
    }
    assert k == "name" ==> IsLastPairFor(pairs, k, 0);
    LabelSetPrecedence(record, ["name", metricName], k);
  }

  lemma SanitizeName()
    ensures Sanitize("name") == "name"
  {
    SanitizeFixedPoint("name");
  }

  /** The series each converter builds: one sample at the record's end time. */
  function SeriesFor(record: Record, metricName: string, value: int): (ts: TimeSeries)
    ensures NamedSeries(ts, record, metricName)
    ensures ts.samples == [Sample(value, record.endTime)]
  {
    NameLabelSet(record, metricName);
    TimeSeries(LabelSet(record, ["name", metricName]), [Sample(value, record.endTime)])
  }

  /** `convertFromSum`: the accessor's error, or one series holding the sum at the end
      time, named after the sanitized instrument name. */
  function ConvertFromSum(record: Record, sum: Result<int, AggError>): (r: Result<TimeSeries, AggError>)
    ensures r.Failure? <==> sum.Failure?
    ensures sum.Failure? ==> r.error == sum.error
    ensures sum.Success? ==>
      r.value.samples == [Sample(sum.value, record.endTime)]
      && NamedSeries(r.value, record, Sanitize(record.descriptor.name))
  {
    if sum.Failure? then Failure(sum.error)
    else Success(SeriesFor(record, Sanitize(record.descriptor.name), sum.value))
  }

  /** `convertFromLastValue`: like the sum, but the reading's own timestamp is dropped
      and the record's end time is used. */
  function ConvertFromLastValue(record: Record, lv: Result<LastValueReading, AggError>): (r: Result<TimeSeries, AggError>)
    ensures r.Failure? <==> lv.Failure?
    ensures lv.Failure? ==> r.error == lv.error
    ensures lv.Success? ==>
      r.value.samples == [Sample(lv.value.value, record.endTime)]
      && NamedSeries(r.value, record, Sanitize(record.descriptor.name))
  {
    if lv.Failure? then Failure(lv.error)
    else Success(SeriesFor(record, Sanitize(record.descriptor.name), lv.value.value))
  }

  /** `convertFromMinMaxSumCount`: three series, min, max and count in that order, named
      with the suffixes "_min", "_max" and "_count"; no sum series. The accessors are
      read in that order and the first error is returned. */
  function ConvertFromMinMaxSumCount(record: Record, mmsc: MinMaxSumCountReadings): (r: Result<seq<TimeSeries>, AggError>)
    ensures r.Failure? <==> MinMaxSumCountFails(mmsc)
    ensures r.Failure? ==> r.error == FirstMinMaxSumCountError(mmsc)
    ensures r.Success? ==>
      |r.value| == 3
      && r.value[0].samples == [Sample(mmsc.min.value, record.endTime)]
      && NamedSeries(r.value[0], record, Sanitize(record.descriptor.name + "_min"))
      && r.value[1].samples == [Sample(mmsc.max.value, record.endTime)]
      && NamedSeries(r.value[1], record, Sanitize(record.descriptor.name + "_max"))
      && r.value[2].samples == [Sample(mmsc.count.value, record.endTime)]
      && NamedSeries(r.value[2], record, Sanitize(record.descriptor.name + "_count"))
  {
    var name := record.descriptor.name;
    if mmsc.min.Failure? then Failure(mmsc.min.error)
    else
      var minSeries := SeriesFor(record, Sanitize(name + "_min"), mmsc.min.value);
      if mmsc.max.Failure? then Failure(mmsc.max.error)
      else
        var maxSeries := SeriesFor(record, Sanitize(name + "_max"), mmsc.max.value);
        if mmsc.count.Failure? then Failure(mmsc.count.error)
        else
          var countSeries := SeriesFor(record, Sanitize(name + "_count"), mmsc.count.value);
          Success([minSeries, maxSeries, countSeries])
  }

  /** Some accessor that the record's conversion reads returns an error: the sum, then
      min, max and count, or else the last value. */
  predicate ReadFails(agg: Aggregation)
  {
    (agg.sum.Some? && agg.sum.value.Failure?)
    || (agg.mmsc.Some? && MinMaxSumCountFails(agg.mmsc.value))
    || (agg.mmsc.None? && agg.lastValue.Some? && agg.lastValue.value.Failure?)
  }

  predicate MinMaxSumCountFails(mmsc: MinMaxSumCountReadings)
  {
    mmsc.min.Failure? || mmsc.max.Failure? || mmsc.count.Failure?
  }

  /** The error of the first of those accessors, in the order they are read. */
  function FirstReadError(agg: Aggregation): AggError
    requires ReadFails(agg)
  {
    if agg.sum.Some? && agg.sum.value.Failure? then agg.sum.value.error
    else if agg.mmsc.Some? then FirstMinMaxSumCountError(agg.mmsc.value)
    else agg.lastValue.value.error
  }

  function FirstMinMaxSumCountError(mmsc: MinMaxSumCountReadings): AggError
    requires MinMaxSumCountFails(mmsc)
  {
    if mmsc.min.Failure? then mmsc.min.error
    else if mmsc.max.Failure? then mmsc.max.error
    else mmsc.count.error
  }

  /** The number of series a record yields when it converts: one for a sum, three for
      a min/max/sum/count, otherwise one for a last value, none for anything else. */
  function SeriesCount(agg: Aggregation): nat
  {
    (if agg.sum.Some? then 1 else 0)
    + (if agg.mmsc.Some? then 3 else if agg.lastValue.Some? then 1 else 0)
  }

  /** What the sum test contributes: the sum series when the aggregation has a sum. */
  function SumSeries(record: Record): (r: Result<seq<TimeSeries>, AggError>)
    ensures r.Failure? <==> record.aggregation.sum.Some? && record.aggregation.sum.value.Failure?
    ensures r.Failure? ==> r.error == record.aggregation.sum.value.error
    ensures r.Success? ==> |r.value| == if record.aggregation.sum.Some? then 1 else 0
    ensures r.Success? && record.aggregation.sum.Some? ==>
      r.value == [ConvertFromSum(record, record.aggregation.sum.value).value]
  {
    var agg := record.aggregation;
    if agg.sum.Some? then
      var ts :- ConvertFromSum(record, agg.sum.value);
      Success([ts])
    else Success([])
  }

  /** What the min/max/sum/count test contributes, or else the last-value test. */
  function MmscOrLastValueSeries(record: Record): (r: Result<seq<TimeSeries>, AggError>)
    ensures r.Failure? <==> ReadFails(record.aggregation.(sum := None))
    ensures r.Failure? ==> r.error == FirstReadError(record.aggregation.(sum := None))
    ensures r.Success? ==>
      |r.value| == if record.aggregation.mmsc.Some? then 3 else if record.aggregation.lastValue.Some? then 1 else 0
    ensures r.Success? && record.aggregation.mmsc.Some? ==>
      r.value == ConvertFromMinMaxSumCount(record, record.aggregation.mmsc.value).value
    ensures r.Success? && record.aggregation.mmsc.None? && record.aggregation.lastValue.Some? ==>
      r.value == [ConvertFromLastValue(record, record.aggregation.lastValue.value).value]
  {
    var agg := record.aggregation;
    if agg.mmsc.Some? then
      ConvertFromMinMaxSumCount(record, agg.mmsc.value)
    else if agg.lastValue.Some? then
      var ts :- ConvertFromLastValue(record, agg.lastValue.value);
      Success([ts])
    else
      Success([])
  }

  /** The callback `ConvertToTimeSeries` runs on each record. The sum test and the
      min/max/sum/count test are independent; the last value is tried only when the
      aggregation is not a min/max/sum/count; histograms are not converted. The record
      fails with the first error among the accessors read, and otherwise yields the
      sum series followed by the min, max and count series or the last-value series. */
  function ConvertRecord(record: Record): (r: Result<seq<TimeSeries>, AggError>)
    ensures r.Failure? <==> ReadFails(record.aggregation)
    ensures r.Failure? ==> r.error == FirstReadError(record.aggregation)
    ensures r.Success? ==> |r.value| == SeriesCount(record.aggregation)
  {
    var sumSeries :- SumSeries(record);
    var otherSeries :- MmscOrLastValueSeries(record);
    Success(sumSeries + otherSeries)
  }

  /** Where each converter's series sit in a record's result: the sum series first, the
      min, max and count series or the last-value series at the end. */
  lemma ConvertRecordOrder(record: Record)
    requires ConvertRecord(record).Success?
    ensures var agg, series := record.aggregation, ConvertRecord(record).value;
      && (agg.sum.Some? ==> series[0] == ConvertFromSum(record, agg.sum.value).value)
      && (agg.mmsc.Some? ==>
            series[|series| - 3..] == ConvertFromMinMaxSumCount(record, agg.mmsc.value).value)
      && (agg.mmsc.None? && agg.lastValue.Some? ==>
            series[|series| - 1] == ConvertFromLastValue(record, agg.lastValue.value).value)
  {
    var s, o := SumSeries(record).value, MmscOrLastValueSeries(record).value;
    assert ConvertRecord(record).value == s + o;
  }

  /** Each record's own conversion, in order. */
  function Converted(records: seq<Record>): (r: seq<Result<seq<TimeSeries>, AggError>>)
    ensures |r| == |records| && forall i :: 0 <= i < |records| ==> r[i] == ConvertRecord(records[i])
  {
    if records == [] then []
    else
      var tail := records[1..];
      var rest := Converted(tail);
      var r := [ConvertRecord(records[0])] + rest;
      assert forall i :: 1 <= i < |r| ==> r[i] == rest[i - 1] && records[i] == tail[i - 1];
      r
  }

  /** Per-record results combined: their series concatenated in order, or the error of
      the first that failed. */
  function Collect(results: seq<Result<seq<TimeSeries>, AggError>>): (r: Result<seq<TimeSeries>, AggError>)
    ensures results == [] ==> r == Success([])
    ensures results != [] && results[0].Failure? ==> r == results[0]
    ensures r.Success? && results != [] ==> results[0].Success? && |results[0].value| <= |r.value|
  {
    if results == [] then Success([])
    else
      var first :- results[0];
      var rest :- Collect(results[1..]);
      Success(first + rest)
  }

  /** The records converted in order and their series concatenated; the first failing
      record's error otherwise. */
  function ConvertAll(records: seq<Record>): Result<seq<TimeSeries>, AggError>
  {
    Collect(Converted(records))
  }

  /** Combining two runs of results one after the other. */
  lemma {:induction false} CollectAppend(a: seq<Result<seq<TimeSeries>, AggError>>, b: seq<Result<seq<TimeSeries>, AggError>>)
    ensures Collect(a + b) ==
      match Collect(a)
      case Failure(e) => Failure(e)
      case Success(s) =>
        match Collect(b)
        case Failure(e) => Failure(e)
        case Success(t) => Success(s + t)
  {
    if a != [] {
      assert (a + b)[0] == a[0] && (a + b)[1..] == a[1..] + b;
      CollectAppend(a[1..], b);
      match a[0]
      case Failure(_) =>
      case Success(f) =>
        match Collect(a[1..])
        case Failure(_) =>
        case Success(s) =>
          if Collect(b).Success? {
            var t := Collect(b).value;
            assert f + (s + t) == (f + s) + t;
          }
    } else {
      assert a + b == b;
      if Collect(b).Success? {
        assert [] + Collect(b).value == Collect(b).value;
      }
    }
  }

  /** No partial result: combining fails exactly when some result is a failure, with the
      error of the first one. */
  lemma {:induction false} CollectFailure(results: seq<Result<seq<TimeSeries>, AggError>>)
    ensures Collect(results).Failure? <==> exists i :: 0 <= i < |results| && results[i].Failure?
    ensures Collect(results).Failure? ==>
      exists i :: 0 <= i < |results| && results[i].Failure? && Collect(results).error == results[i].error
        && (forall j :: 0 <= j < i ==> results[j].Success?)
  {
    if results != [] {
      var rest := results[1..];
      CollectFailure(rest);
      if results[0].Success? {
        if exists i :: 0 <= i < |results| && results[i].Failure? {
          var i :| 0 <= i < |results| && results[i].Failure?;
          assert rest[i - 1].Failure?;
        }
        if Collect(results).Failure? {
          var i :| 0 <= i < |rest| && rest[i].Failure? && Collect(rest).error == rest[i].error
            && (forall j :: 0 <= j < i ==> rest[j].Success?);
          assert results[i + 1] == rest[i];
          forall j | 0 <= j < i + 1 ensures results[j].Success? {
            if j > 0 {
              assert results[j] == rest[j - 1];
            }
          }
        }
      }
    }
  }

  /** No partial result: the conversion fails exactly when some record fails, with the
      error of the first failing record. */
  lemma ConvertAllFailure(records: seq<Record>)
    ensures ConvertAll(records).Failure? <==>
      exists i :: 0 <= i < |records| && ConvertRecord(records[i]).Failure?
    ensures ConvertAll(records).Failure? ==>
      exists i :: 0 <= i < |records| && ConvertRecord(records[i]).Failure?
        && ConvertAll(records).error == ConvertRecord(records[i]).error
        && (forall j :: 0 <= j < i ==> ConvertRecord(records[j]).Success?)
  {
    CollectFailure(Converted(records));
  }

  /** `ConvertToTimeSeries`: walks the records in order, appending each record's series;
      on the first error it returns that error and no series. The checkpoint set is a
      sequence, and its `ForEach` is taken to stop at the first callback error. */
  method ConvertToTimeSeries(records: seq<Record>) returns (series: seq<TimeSeries>, err: Option<AggError>)
    ensures err.None? <==> ConvertAll(records).Success?
    ensures err.None? ==> series == ConvertAll(records).value
    ensures err.Some? ==> series == [] && err.value == ConvertAll(records).error
  {
    ghost var results := Converted(records);
    series := [];
    var i := 0;
    while i < |records|
      invariant 0 <= i <= |records|
      invariant Collect(results[..i]) == Success(series)
    {
      var converted := ConvertRecord(records[i]);
      CollectStep(results, i, series);
      if converted.Failure? {
        return [], Some(converted.error);
      }
      series := series + converted.value;
      i := i + 1;
    }
    assert results[..i] == results;
    err := None;
  }

  /** One more result combined: its series are appended, or its error is the error of
      the whole. */
  lemma CollectStep(results: seq<Result<seq<TimeSeries>, AggError>>, i: int, series: seq<TimeSeries>)
    requires 0 <= i < |results| && Collect(results[..i]) == Success(series)
    ensures results[i].Success? ==> Collect(results[..i + 1]) == Success(series + results[i].value)
    ensures results[i].Failure? ==> Collect(results) == Failure(results[i].error)
  {
    var prefix, result := results[..i], results[i];
    assert results[..i + 1] == prefix + [result];
    CollectSnoc(prefix, series, result);
    if result.Failure? {
      CollectPrefixFailure(results, i + 1);
    }
  }

  /** A result combined after a successful run: its series are appended, or its error
      is the outcome. */
  lemma CollectSnoc(prefix: seq<Result<seq<TimeSeries>, AggError>>, series: seq<TimeSeries>,
    result: Result<seq<TimeSeries>, AggError>)
    requires Collect(prefix) == Success(series)
    ensures Collect(prefix + [result]) ==
      if result.Success? then Success(series + result.value) else Failure(result.error)
  {
    CollectSingle(result);
    CollectAppend(prefix, [result]);
  }

  /** A failing prefix decides the whole. */
  lemma CollectPrefixFailure(results: seq<Result<seq<TimeSeries>, AggError>>, k: int)
    requires 0 <= k <= |results| && Collect(results[..k]).Failure?
    ensures Collect(results) == Collect(results[..k])
  {
    assert results == results[..k] + results[k..];
    CollectAppend(results[..k], results[k..]);
  }

  /** `Export`: converts the checkpoint and fails with the conversion's error; printing
      the series is not modelled. */
  method Export(records: seq<Record>) returns (err: Option<AggError>)
    ensures err.None? <==> ConvertAll(records).Success?
    ensures err.Some? ==> err.value == ConvertAll(records).error
  {
    var _, convertErr := ConvertToTimeSeries(records);
    err := convertErr;
  }

  // ---------------------------------------------------------------------------
  // The shape of the records in the exporter's own tests

  /** A record with no labels of its own on a resource with the single label
      `rk = rv`, for an instrument called `name`. */
  function OneLabelRecord(name: string, rk: string, rv: string, agg: Aggregation, endTime: int): Record
  {
    Record(Descriptor(name), agg, map[], map[rk := rv], endTime)
  }

  /** Any series named after such an instrument carries exactly the labels `rk = rv`
      and `name = <name>`, when both keys are already sanitized. */
  lemma OneLabelSeries(name: string, rk: string, rv: string, agg: Aggregation, endTime: int, ts: TimeSeries)
    requires IsSanitized(name) && IsSanitized(rk) && rk != "name"
    requires NamedSeries(ts, OneLabelRecord(name, rk, rv, agg, endTime), Sanitize(name))
    ensures ts.labels == map[rk := Label(rk, rv), "name" := Label("name", name)]
  {
    OneLabelSeriesKeys(OneLabelRecord(name, rk, rv, agg, endTime), rk, rv, ts);
    OneLabelSeriesValues(name, rk, rv, agg, endTime, ts);
    TwoKeyMap(ts.labels, rk, Label(rk, rv), "name", Label("name", name));
  }

  lemma OneLabelSeriesKeys(record: Record, rk: string, rv: string, ts: TimeSeries)
    requires record.labels == map[] && record.resource == map[rk := rv]
    requires ts.labels.Keys == record.labels.Keys + record.resource.Keys + {"name"}
    ensures ts.labels.Keys == {rk, "name"}
  {
  }

  lemma OneLabelSeriesValues(name: string, rk: string, rv: string, agg: Aggregation, endTime: int, ts: TimeSeries)
    requires IsSanitized(name) && IsSanitized(rk) && rk != "name"
    requires NamedSeries(ts, OneLabelRecord(name, rk, rv, agg, endTime), Sanitize(name))
    ensures rk in ts.labels && ts.labels[rk] == Label(rk, rv)
    ensures "name" in ts.labels && ts.labels["name"] == Label("name", name)
  {
    SanitizeFixedPoint(rk);
    SanitizeFixedPoint(name);
  }

  lemma TwoKeyMap(m: map<string, Label>, k1: string, v1: Label, k2: string, v2: Label)
    requires m.Keys == {k1, k2} && m[k1] == v1 && m[k2] == v2
    ensures m == map[k1 := v1, k2 := v2]
  {
  }

  /** A sum on such a record converts to one series with those two labels and one
      sample holding the sum at the end time (the sum case of the conversion tests). */
  lemma SumOnOneLabel(name: string, rk: string, rv: string, value: int, endTime: int)
    requires IsSanitized(name) && IsSanitized(rk) && rk != "name"
    ensures var record := OneLabelRecord(name, rk, rv, Aggregation(Some(Success(value)), None, None), endTime);
      ConvertAll([record])
      == Success([TimeSeries(map[rk := Label(rk, rv), "name" := Label("name", name)], [Sample(value, endTime)])])
  {
    var record := OneLabelRecord(name, rk, rv, Aggregation(Some(Success(value)), None, None), endTime);
    var ts := ConvertFromSum(record, Success(value)).value;
    OneLabelSeries(name, rk, rv, record.aggregation, endTime, ts);
    SumOnly(record);
    ConvertAllSingle(record);
  }

  /** A record whose aggregation is only a sum converts to its sum series. */
  lemma SumOnly(record: Record)
    requires record.aggregation.sum.Some? && record.aggregation.sum.value.Success?
    requires record.aggregation.mmsc.None? && record.aggregation.lastValue.None?
    ensures ConvertRecord(record) == Success([ConvertFromSum(record, record.aggregation.sum.value).value])
  {
    assert !ReadFails(record.aggregation);
    ConvertRecordOrder(record);
    var series := ConvertRecord(record).value;
    assert series == [series[0]];
  }

  /** A record whose aggregation is only a last value converts to its last-value series. */
  lemma LastValueOnly(record: Record)
    requires record.aggregation.lastValue.Some? && record.aggregation.lastValue.value.Success?
    requires record.aggregation.mmsc.None? && record.aggregation.sum.None?
    ensures ConvertRecord(record) == Success([ConvertFromLastValue(record, record.aggregation.lastValue.value).value])
  {
    assert !ReadFails(record.aggregation);
    ConvertRecordOrder(record);
    var series := ConvertRecord(record).value;
    assert series == [series[0]];
  }

  /** A last value on such a record converts the same way; the reading's own timestamp
      is dropped for the end time (the last-value case of the conversion tests). */
  lemma LastValueOnOneLabel(name: string, rk: string, rv: string, value: int, readingTime: int, endTime: int)
    requires IsSanitized(name) && IsSanitized(rk) && rk != "name"
    ensures var record := OneLabelRecord(name, rk, rv,
                            Aggregation(None, Some(Success(LastValueReading(value, readingTime))), None), endTime);
      ConvertAll([record])
      == Success([TimeSeries(map[rk := Label(rk, rv), "name" := Label("name", name)], [Sample(value, endTime)])])
  {
    var reading := Success(LastValueReading(value, readingTime));
    var record := OneLabelRecord(name, rk, rv, Aggregation(None, Some(reading), None), endTime);
    var ts := ConvertFromLastValue(record, reading).value;
    OneLabelSeries(name, rk, rv, record.aggregation, endTime, ts);
    LastValueOnly(record);
    ConvertAllSingle(record);
  }

  /** Converting a single record is converting that record. */
  lemma ConvertAllSingle(record: Record)
    ensures ConvertAll([record]) == ConvertRecord(record)
  {
    assert Converted([record]) == [ConvertRecord(record)];
    CollectSingle(ConvertRecord(record));
  }

  lemma CollectSingle(result: Result<seq<TimeSeries>, AggError>)
    ensures Collect([result]) == result
  {
    assert [result][1..] == [];
    if result.Success? {
      assert result.value + [] == result.value;
    }
  }

  /** Distinct raw keys that sanitize alike (such as "a-b" and "a.b") both stay in the
      label set, under the same label name. */
  lemma LabelNamesMayCollide(record: Record, extras: seq<string>, k1: string, k2: string)
    requires k1 in record.labels && k2 in record.labels && k1 != k2
    requires Sanitize(k1) == Sanitize(k2)
    ensures k1 in LabelSet(record, extras) && k2 in LabelSet(record, extras)
    ensures LabelSet(record, extras)[k1].name == LabelSet(record, extras)[k2].name
  {
    LabelSetPrecedence(record, extras, k1);
    LabelSetPrecedence(record, extras, k2);
  }
}
