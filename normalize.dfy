/** Flattening the provider's GeoJSON FeatureCollection (RFC 7946) into one
    flat record per feature, as the loop in `fetch_earthquake_data` does. */
module Normalize {
  import opened Outcomes
  import opened Calendar
  import opened Timestamps

  /** A decoded JSON value, as `response.json()` returns it: integers and
      floats are distinct (Python's `json` keeps them apart), objects are
      dicts. */
  datatype Json =
    | JNull
    | JBool(b: bool)
    | JInt(i: int)
    | JFloat(f: real)
    | JStr(s: string)
    | JArr(items: seq<Json>)
    | JObj(fields: map<string, Json>)

  /** `value.get(key, default)`: only a dict has `.get`. */
  function Get(value: Json, key: string, default: Json): (r: Result<Json>)
    ensures r.Ok? <==> value.JObj?
    ensures r.Ok? ==> r.value == (if key in value.fields then value.fields[key] else default)
    ensures r.Err? ==> r.error == NoAttribute
  {
    match value
    case JObj(fields) => Ok(if key in fields then fields[key] else default)
    case _ => Err(NoAttribute)
  }

  /** `value[i]` for a small non-negative literal `i`: lists and strings are
      indexed, a dict has no integer key, anything else cannot be indexed. */
  function Index(value: Json, i: nat): (r: Result<Json>)
    ensures value.JArr? && i < |value.items| <==> r.Ok? && !value.JStr?
    ensures value.JArr? && i < |value.items| ==> r == Ok(value.items[i])
  {
    match value
    case JArr(items) => if i < |items| then Ok(items[i]) else Err(IndexOutOfRange)
    case JStr(s) => if i < |s| then Ok(JStr([s[i]])) else Err(IndexOutOfRange)
    case JObj(_) => Err(KeyMissing)
    case _ => Err(NotSubscriptable)
  }

  /** What `for feature in value` goes through. A list yields its items.
      A non-empty string or dict yields strings, and the first of them
      already fails on `feature.get`, so those are reported as that
      failure; empty ones give an empty loop. Other values are not
      iterable. */
  function Elements(value: Json): (r: Result<seq<Json>>)
    ensures value.JArr? ==> r == Ok(value.items)
  {
    match value
    case JArr(items) => Ok(items)
    case JStr(s) => if s == [] then Ok([]) else Err(NoAttribute)
    case JObj(fields) => if fields == map[] then Ok([]) else Err(NoAttribute)
    case _ => Err(NotIterable)
  }

  /** `properties.get('time') / 1000.0` kept to whole seconds: an integer
      (or a bool, which Python treats as 0 or 1) in milliseconds is floored
      to seconds; a float is floored after the division; anything else is
      a TypeError. */
  function TimeSeconds(time: Json): (r: Result<int>)
    ensures time.JInt? ==> r == Ok(time.i / 1000)
    ensures time.JNull? ==> r == Err(BadOperand)
  {
    match time
    case JInt(ms) => Ok(ms / 1000)
    case JBool(_) => Ok(0)
    case JFloat(ms) => Ok((ms / 1000.0).Floor)
    case _ => Err(BadOperand)
  }

  /** One flat row; the names are the columns after the rename at the end
      of `fetch_earthquake_data`. Coordinates, magnitude and place are
      passed through as the provider sent them (null stays null). */
  datatype Record = Record(
    time: string,
    latitude: Json,
    longitude: Json,
    depth: Json,
    magnitude: Json,
    place: Json)

  /** The body of the `for feature in features` loop, in the order Python
      evaluates it. */
  function NormalizeFeature(feature: Json): Result<Record> {
    var properties :- Get(feature, "properties", JObj(map[]));
    var geometry :- Get(feature, "geometry", JObj(map[]));
    var coordinates :- Get(geometry, "coordinates", JArr([JNull, JNull]));
    var time :- Get(properties, "time", JNull);
    var seconds :- TimeSeconds(time);
    var eventTime :- UtcFromTimestamp(seconds);
    var latitude :- Index(coordinates, 1);
    var longitude :- Index(coordinates, 0);
    var depth :- Index(coordinates, 2);
    var magnitude :- Get(properties, "mag", JNull);
    var place :- Get(properties, "place", JNull);
    Ok(Record(FormatTimestamp(eventTime), latitude, longitude, depth, magnitude, place))
  }

  /** A well-formed USGS feature: an object whose `properties` hold an
      integer `time` (epoch milliseconds) and whose `geometry` holds a
      `coordinates` list [longitude, latitude, depth, ...]. */
  predicate WellFormed(feature: Json) {
    && feature.JObj?
    && "properties" in feature.fields && feature.fields["properties"].JObj?
    && "time" in feature.fields["properties"].fields
    && feature.fields["properties"].fields["time"].JInt?
    && "geometry" in feature.fields && feature.fields["geometry"].JObj?
    && "coordinates" in feature.fields["geometry"].fields
    && feature.fields["geometry"].fields["coordinates"].JArr?
  }

  function PropertiesOf(feature: Json): map<string, Json>
    requires WellFormed(feature)
  {
    feature.fields["properties"].fields
  }

  function MillisOf(feature: Json): int
    requires WellFormed(feature)
  {
    PropertiesOf(feature)["time"].i
  }

  function CoordinatesOf(feature: Json): seq<Json>
    requires WellFormed(feature)
  {
    feature.fields["geometry"].fields["coordinates"].items
  }

  /** The field mapping: longitude is the first position element, latitude
      the second and depth the third (RFC 7946 section 3.1.1 orders a
      position longitude, latitude, altitude); magnitude and place are
      `properties.mag` and `properties.place` unchanged, null when absent;
      the time is the 12-hour UTC rendering of the epoch milliseconds. A
      well-formed feature with at least three coordinates and a time in
      years 1..9999 always gives a record. */
  lemma FieldMapping(feature: Json)
    requires WellFormed(feature)
    ensures var r := NormalizeFeature(feature);
      var c, p, ms := CoordinatesOf(feature), PropertiesOf(feature), MillisOf(feature);
      && (r.Ok? <==> |c| >= 3 && UtcFromMillis(ms).Ok?)
      && (r.Ok? ==>
            && r.value.longitude == c[0]
            && r.value.latitude == c[1]
            && r.value.depth == c[2]
            && r.value.magnitude == (if "mag" in p then p["mag"] else JNull)
            && r.value.place == (if "place" in p then p["place"] else JNull)
            && r.value.time == FormatTimestamp(UtcFromMillis(ms).value))
  {
  }

  /** A feature without `properties.time` (including one without
      `properties`, whose `{}` default has no time), or with a null time,
      makes the loop raise (`None / 1000.0`) instead of producing a record. */
  lemma MissingTimeFails(feature: Json)
    requires feature.JObj?
    requires "properties" !in feature.fields || feature.fields["properties"].JObj?
    requires var p := if "properties" in feature.fields then feature.fields["properties"].fields else map[];
      "time" !in p || p["time"].JNull?
    requires "geometry" !in feature.fields || feature.fields["geometry"].JObj?
    ensures NormalizeFeature(feature) == Err(BadOperand)
  {
  }

  /** Fewer than three coordinates (including the `[None, None]` default
      for a geometry without coordinates) make `coordinates[2]` raise. */
  lemma ShortCoordinatesFail(feature: Json)
    requires feature.JObj?
    requires "properties" in feature.fields && feature.fields["properties"].JObj?
    requires var p := feature.fields["properties"].fields;
      "time" in p && p["time"].JInt? && UtcFromMillis(p["time"].i).Ok?
    requires "geometry" !in feature.fields || feature.fields["geometry"].JObj?
    requires var g := if "geometry" in feature.fields then feature.fields["geometry"].fields else map[];
      "coordinates" !in g || (g["coordinates"].JArr? && |g["coordinates"].items| < 3)
    ensures NormalizeFeature(feature) == Err(IndexOutOfRange)
  {
  }

  /** The record's time string reads back as the UTC date-time of the
      feature's epoch milliseconds (floored to the second). */
  lemma RecordTimeReadsBack(feature: Json)
    requires WellFormed(feature) && NormalizeFeature(feature).Ok?
    ensures UtcFromMillis(MillisOf(feature)).Ok?
    ensures ParseTimestamp(NormalizeFeature(feature).value.time)
         == Some(UtcFromMillis(MillisOf(feature)).value)
  {
    FieldMapping(feature);
    ParseFormatTimestamp(UtcFromMillis(MillisOf(feature)).value);
  }

  /** The features the loop walks: `data.get('features', [])`. */
  function Features(data: Json): (r: Result<seq<Json>>)
    ensures !data.JObj? ==> r == Err(NoAttribute)
    ensures data.JObj? && "features" !in data.fields ==> r == Ok([])
    ensures data.JObj? && "features" in data.fields && data.fields["features"].JArr?
      ==> r == Ok(data.fields["features"].items)
  {
    var features :- Get(data, "features", JArr([]));
    Elements(features)
  }

  /** Feature `k` is the first one the loop body cannot turn into a record,
      and it raises `failure`. */
  predicate FirstFailure(features: seq<Json>, k: int, failure: Failure) {
    && 0 <= k < |features|
    && (forall i :: 0 <= i < k ==> NormalizeFeature(features[i]).Ok?)
    && NormalizeFeature(features[k]) == Err(failure)
  }

  /** `records` holds, in order, the record of each feature. */
  predicate RecordsOf(features: seq<Json>, records: seq<Record>) {
    && |records| == |features|
    && forall i :: 0 <= i < |features| ==>
         NormalizeFeature(features[i]).Ok? && records[i] == NormalizeFeature(features[i]).value
  }

  lemma RecordsOfExtend(features: seq<Json>, k: int, records: seq<Record>, record: Record)
    requires 0 <= k < |features| && RecordsOf(features[..k], records)
    requires NormalizeFeature(features[k]) == Ok(record)
    ensures RecordsOf(features[..k + 1], records + [record])
  {
    var prefix, rows := features[..k + 1], records + [record];
    forall i | 0 <= i < k + 1
      ensures NormalizeFeature(prefix[i]).Ok? && rows[i] == NormalizeFeature(prefix[i]).value
    {
      if i < k {
        assert prefix[i] == features[..k][i];
        assert rows[i] == records[i];
      }
    }
  }

  /** `fetch_earthquake_data` after the HTTP call: builds `records` one
      feature at a time, in the provider's order; the first feature that
      raises aborts the whole batch with that feature's failure. */
  method NormalizeResponse(data: Json) returns (r: Result<seq<Record>>)
    ensures Features(data).Err? ==> r == Err(Features(data).error)
    ensures Features(data).Ok? && r.Ok? ==> RecordsOf(Features(data).value, r.value)
    ensures Features(data).Ok? && r.Err? ==>
      exists k :: FirstFailure(Features(data).value, k, r.error)
    ensures data.JObj? && "features" !in data.fields ==> r == Ok([])
  {
    var found := Features(data);
    if found.Err? {
      return Err(found.error);
    }
    var features := found.value;
    var records: seq<Record> := [];
    var k := 0;
    while k < |features|
      invariant 0 <= k <= |features|
      invariant RecordsOf(features[..k], records)
    {
      var record := NormalizeFeature(features[k]);
      if record.Err? {
        assert FirstFailure(features, k, record.error);
        return Err(record.error);
      }
      RecordsOfExtend(features, k, records, record.value);
      records := records + [record.value];
      k := k + 1;
    }
    assert features[..k] == features;
    return Ok(records);
  }

  /** Every feature is either turned into a record or the batch fails, and
      a batch succeeds exactly when each of its features does. */
  lemma RecordsOrFirstFailure(features: seq<Json>, records: seq<Record>, k: int, failure: Failure)
    ensures RecordsOf(features, records) ==> forall i :: 0 <= i < |features| ==> NormalizeFeature(features[i]).Ok?
    ensures (forall i :: 0 <= i < |features| ==> NormalizeFeature(features[i]).Ok?) ==>
      exists rows :: RecordsOf(features, rows)
    ensures FirstFailure(features, k, failure) ==> !RecordsOf(features, records)
  {
    if forall i :: 0 <= i < |features| ==> NormalizeFeature(features[i]).Ok? {
      var rows := seq(|features|, i requires 0 <= i < |features| => NormalizeFeature(features[i]).value);
      assert RecordsOf(features, rows);
    }
  }

  /** 1700000000000 ms is 2023-11-14 22:13:20 UTC. */
  lemma ExampleInstant()
    ensures UtcFromMillis(1700000000000) == Ok(DateTime(Date(2023, 11, 14), 22, 13, 20))
  {
    var t := DateTime(Date(2023, 11, 14), 22, 13, 20);
    ExampleEpochSeconds();
    UtcFromTimestampOfEpochSeconds(t);
    assert 1700000000000 / 1000 == 1700000000;
  }

  lemma ExampleEpochSeconds()
    ensures EpochSeconds(DateTime(Date(2023, 11, 14), 22, 13, 20)) == 1700000000
  {
    assert DaysBeforeYear(2023) == 738520 by {
      assert 2022 / 4 == 505 && 2022 / 100 == 20 && 2022 / 400 == 5;
    }
    assert Ordinal(Date(2023, 11, 14)) == 738838;
  }

  /** The 12-hour rendering of that instant. */
  lemma ExampleTimeString()
    ensures FormatTimestamp(DateTime(Date(2023, 11, 14), 22, 13, 20)) == "2023-11-14 10:13:20 PM"
  {
    assert FormatDate(Date(2023, 11, 14)) == "2023-11-14";
    assert Pad2(Hour12(22)) == "10";
  }

  /** The example feature of the USGS format becomes the expected row. */
  lemma ExampleFeature()
    ensures NormalizeFeature(JObj(map[
      "properties" := JObj(map["time" := JInt(1700000000000), "mag" := JFloat(4.5), "place" := JStr("Test")]),
      "geometry" := JObj(map["coordinates" := JArr([JFloat(40.0), JFloat(9.0), JFloat(10.0)])])]))
      == Ok(Record("2023-11-14 10:13:20 PM", JFloat(9.0), JFloat(40.0), JFloat(10.0), JFloat(4.5), JStr("Test")))
  {
    var properties := map["time" := JInt(1700000000000), "mag" := JFloat(4.5), "place" := JStr("Test")];
    var coordinates := [JFloat(40.0), JFloat(9.0), JFloat(10.0)];
    var feature := JObj(map[
      "properties" := JObj(properties),
      "geometry" := JObj(map["coordinates" := JArr(coordinates)])]);
    assert WellFormed(feature) && PropertiesOf(feature) == properties
        && CoordinatesOf(feature) == coordinates && MillisOf(feature) == 1700000000000;
    assert properties["mag"] == JFloat(4.5) && properties["place"] == JStr("Test");
    ExampleInstant();
    ExampleTimeString();
    FieldMapping(feature);
    var r := NormalizeFeature(feature);
    assert r.Ok? && r.value.time == "2023-11-14 10:13:20 PM";
  }
}
