/** The `Point` record: a latitude and a longitude, each a magnitude with
    its hemisphere, a date and a time-zone name, together with its
    dictionary and JSON codec gated on schema version 1. */
module Points {
  import opened Foundation

  const PointKey := "pointKey"

  const LatitudeDegreesKey := "latitudeDegreesKey"
  const LatitudeHemisphereKey := "latitudeHemisphereKey"
  const LongitudeDegreesKey := "longitudeDegreesKey"
  const LongitudeHemisphereKey := "longitudeHemisphereKey"
  const DatetimeKey := "datetimeKey"
  const TimezoneKey := "timezoneKey"
  const VersionKey := "versionKey"
  const Iso8601Format := "yyyy-MM-dd'T'HH:mm:ssZZZZZ"

  const CurrentVersion := 1

  /** The seven keys of an encoded point. */
  const Keys: set<string> :=
    {LatitudeDegreesKey, LatitudeHemisphereKey, LongitudeDegreesKey,
     LongitudeHemisphereKey, TimezoneKey, DatetimeKey, VersionKey}

  datatype LatitudeHemisphere = North | South

  datatype LongitudeHemisphere = East | West

  /** The enum's raw value. */
  function LatitudeRawValue(h: LatitudeHemisphere): string {
    match h
    case North => "N"
    case South => "S"
  }

  function LongitudeRawValue(h: LongitudeHemisphere): string {
    match h
    case East => "E"
    case West => "W"
  }

  /** `LatitudeHemisphereEnum(rawValue:)`: exactly the two raw values are
      accepted, each giving back the case it came from. */
  function LatitudeHemisphereFromRaw(raw: string): (r: Option<LatitudeHemisphere>)
    ensures r.Some? <==> raw == "N" || raw == "S"
    ensures forall h :: r == Some(h) <==> raw == LatitudeRawValue(h)
  {
    if raw == "N" then Some(North)
    else if raw == "S" then Some(South)
    else None
  }

  /** `LongitudeHemisphereEnum(rawValue:)` */
  function LongitudeHemisphereFromRaw(raw: string): (r: Option<LongitudeHemisphere>)
    ensures r.Some? <==> raw == "E" || raw == "W"
    ensures forall h :: r == Some(h) <==> raw == LongitudeRawValue(h)
  {
    if raw == "E" then Some(East)
    else if raw == "W" then Some(West)
    else None
  }

  datatype Point = Point(
    latitudeDegrees: real,
    latitudeHemisphere: LatitudeHemisphere,
    longitudeDegrees: real,
    longitudeHemisphere: LongitudeHemisphere,
    datetime: Date,
    timezone: string,
    version: int)

  /** `init(lat:latHemisphere:long:longHemisphere:datetime:timezone:)`:
      stores its arguments as given (no sign normalisation, no range check)
      and stamps the current schema version. */
  function NewPoint(lat: real, latHemisphere: LatitudeHemisphere, long: real,
                    longHemisphere: LongitudeHemisphere, datetime: Date,
                    timezone: string): (p: Point)
    ensures p.latitudeDegrees == lat && p.latitudeHemisphere == latHemisphere
    ensures p.longitudeDegrees == long && p.longitudeHemisphere == longHemisphere
    ensures p.datetime == datetime && p.timezone == timezone
    ensures p.version == CurrentVersion
  {
    Point(lat, latHemisphere, long, longHemisphere, datetime, timezone, CurrentVersion)
  }

  /** The formatter after the codec's `if dateFormat != iso8601Format {
      dateFormat = iso8601Format }`: the ISO pattern, and otherwise the
      caller's formatter. */
  function WithIsoFormat(dateFormatter: DateFormatter): (f: DateFormatter)
    ensures f == dateFormatter.(dateFormat := Iso8601Format)
  {
    if dateFormatter.dateFormat != Iso8601Format then
      dateFormatter.(dateFormat := Iso8601Format)
    else
      dateFormatter
  }

  /** Under the ISO pattern, the formatter parses back what it prints for `d`. */
  ghost predicate DateRoundTrips(dateFormatter: DateFormatter, d: Date) {
    var f := WithIsoFormat(dateFormatter);
    f.DateFrom(f.StringFrom(d)) == Some(d)
  }

  /** What a dictionary must hold for `init?(fromDict:)` to succeed, stated
      key by key. */
  ghost predicate Decodable(dict: map<string, Value>, dateFormatter: DateFormatter) {
    && LatitudeDegreesKey in dict && dict[LatitudeDegreesKey].Double?
    && LongitudeDegreesKey in dict && dict[LongitudeDegreesKey].Double?
    && LatitudeHemisphereKey in dict
    && (dict[LatitudeHemisphereKey] == Str("N") || dict[LatitudeHemisphereKey] == Str("S"))
    && LongitudeHemisphereKey in dict
    && (dict[LongitudeHemisphereKey] == Str("E") || dict[LongitudeHemisphereKey] == Str("W"))
    && DatetimeKey in dict && dict[DatetimeKey].Str?
    && WithIsoFormat(dateFormatter).DateFrom(dict[DatetimeKey].s).Some?
    && TimezoneKey in dict && dict[TimezoneKey].Str?
    && VersionKey in dict && dict[VersionKey] == Int(CurrentVersion)
  }

  /** Every field of `p` is what the dictionary holds under its key. */
  ghost predicate Describes(dict: map<string, Value>, p: Point, dateFormatter: DateFormatter) {
    && LatitudeDegreesKey in dict && dict[LatitudeDegreesKey] == Double(p.latitudeDegrees)
    && LongitudeDegreesKey in dict && dict[LongitudeDegreesKey] == Double(p.longitudeDegrees)
    && LatitudeHemisphereKey in dict
    && dict[LatitudeHemisphereKey] == Str(LatitudeRawValue(p.latitudeHemisphere))
    && LongitudeHemisphereKey in dict
    && dict[LongitudeHemisphereKey] == Str(LongitudeRawValue(p.longitudeHemisphere))
    && DatetimeKey in dict && dict[DatetimeKey].Str?
    && WithIsoFormat(dateFormatter).DateFrom(dict[DatetimeKey].s) == Some(p.datetime)
    && TimezoneKey in dict && dict[TimezoneKey] == Str(p.timezone)
    && VersionKey in dict && dict[VersionKey] == Int(p.version)
  }

  /** `init?(fromDict:dateFormatter:)`: the guard chain, in the source's
      order; nil as soon as one binding or the version test fails. */
  function FromDict(dict: map<string, Value>, dateFormatter: DateFormatter): (r: Option<Point>)
    ensures r.Some? <==> Decodable(dict, dateFormatter)
    ensures r.Some? ==> Describes(dict, r.value, dateFormatter)
    ensures r.Some? ==> r.value.version == CurrentVersion
  {
    var formatter := WithIsoFormat(dateFormatter);
    var lat :- DoubleAt(dict, LatitudeDegreesKey);
    var long :- DoubleAt(dict, LongitudeDegreesKey);
    var latHemiString :- StringAt(dict, LatitudeHemisphereKey);
    var latitudeHemisphere :- LatitudeHemisphereFromRaw(latHemiString);
    var longHemiString :- StringAt(dict, LongitudeHemisphereKey);
    var longitudeHemisphere :- LongitudeHemisphereFromRaw(longHemiString);
    var datetimeString :- StringAt(dict, DatetimeKey);
    var datetime :- formatter.DateFrom(datetimeString);
    var timezone :- StringAt(dict, TimezoneKey);
    var version :- IntAt(dict, VersionKey);
    if version != CurrentVersion then None
    else Some(Point(lat, latitudeHemisphere, long, longitudeHemisphere, datetime, timezone, version))
  }

  /** `init?(fromJSON:dateFormatter:)`: nil when the bytes do not parse or
      are not a JSON object; otherwise the same guard chain as `fromDict`,
      which the source repeats word for word. */
  function FromJSON(data: seq<byte>, dateFormatter: DateFormatter, json: JSONSerialization): (r: Option<Point>)
    ensures r.Some? <==> json.jsonObject(data).Some? && json.jsonObject(data).value.Object?
                         && Decodable(json.jsonObject(data).value.fields, dateFormatter)
    ensures r.Some? ==> Describes(json.jsonObject(data).value.fields, r.value, dateFormatter)
    ensures r.Some? ==> r.value.version == CurrentVersion
  {
    var obj :- json.jsonObject(data);
    var dict :- AsDictionary(obj);
    FromDict(dict, dateFormatter)
  }

  /** `toDictionary(_:)`: the seven keys, the date printed under the ISO
      pattern. */
  function ToDictionary(p: Point, dateFormatter: DateFormatter): (dict: map<string, Value>)
    ensures dict.Keys == Keys
    ensures |dict| == 7
  {
    var formatter := WithIsoFormat(dateFormatter);
    map[
      LatitudeDegreesKey := Double(p.latitudeDegrees),
      LatitudeHemisphereKey := Str(LatitudeRawValue(p.latitudeHemisphere)),
      LongitudeDegreesKey := Double(p.longitudeDegrees),
      LongitudeHemisphereKey := Str(LongitudeRawValue(p.longitudeHemisphere)),
      TimezoneKey := Str(p.timezone),
      DatetimeKey := Str(formatter.StringFrom(p.datetime)),
      VersionKey := Int(p.version)
    ]
  }

  /** `toJSON(dateFormatter:)`: serialises the dictionary; None where
      `JSONSerialization` throws. */
  function ToJSON(p: Point, dateFormatter: DateFormatter, json: JSONSerialization): (r: Option<seq<byte>>)
    ensures r == json.data(Object(ToDictionary(p, dateFormatter)))
  {
    var formatter := WithIsoFormat(dateFormatter);
    json.data(Object(ToDictionary(p, formatter)))
  }

  // ---------------------------------------------------------------------
  // Properties

  /** Each hemisphere survives a trip through its raw value. */
  lemma HemisphereRawValuesRoundTrip(lat: LatitudeHemisphere, long: LongitudeHemisphere)
    ensures LatitudeHemisphereFromRaw(LatitudeRawValue(lat)) == Some(lat)
    ensures LongitudeHemisphereFromRaw(LongitudeRawValue(long)) == Some(long)
  {
  }

  /** The constructor keeps a negative magnitude as given: there is no
      normalisation of sign against the hemisphere. */
  lemma NewPointKeepsSign(lat: real, long: real, datetime: Date, timezone: string)
    requires lat < 0.0
    ensures NewPoint(lat, South, long, West, datetime, timezone)
            != NewPoint(-lat, South, long, West, datetime, timezone)
  {
  }

  /** A value under either hemisphere key other than that enum's raw values
      makes the decode fail. */
  lemma FromDictRejectsBadHemisphere(dict: map<string, Value>, dateFormatter: DateFormatter)
    requires || (&& LatitudeHemisphereKey in dict
                 && dict[LatitudeHemisphereKey] != Str("N")
                 && dict[LatitudeHemisphereKey] != Str("S"))
             || (&& LongitudeHemisphereKey in dict
                 && dict[LongitudeHemisphereKey] != Str("E")
                 && dict[LongitudeHemisphereKey] != Str("W"))
    ensures FromDict(dict, dateFormatter) == None
  {
  }

  /** The version gate: absent, not an Int, or not 1 means nil. */
  lemma FromDictVersionGate(dict: map<string, Value>, dateFormatter: DateFormatter)
    requires IntAt(dict, VersionKey) != Some(CurrentVersion)
    ensures FromDict(dict, dateFormatter) == None
  {
  }

  /** Any of the six data keys missing, or holding the wrong type, or a date
      that does not parse, means nil. */
  lemma FromDictNeedsEveryField(dict: map<string, Value>, dateFormatter: DateFormatter)
    requires || DoubleAt(dict, LatitudeDegreesKey).None?
             || DoubleAt(dict, LongitudeDegreesKey).None?
             || StringAt(dict, LatitudeHemisphereKey).None?
             || StringAt(dict, LongitudeHemisphereKey).None?
             || StringAt(dict, TimezoneKey).None?
             || StringAt(dict, DatetimeKey).None?
             || WithIsoFormat(dateFormatter).DateFrom(dict[DatetimeKey].s).None?
    ensures FromDict(dict, dateFormatter) == None
  {
  }

  /** The caller's `dateFormat` is overwritten before use, so it has no
      effect on the decode. */
  lemma FromDictIgnoresCallerPattern(dict: map<string, Value>, dateFormatter: DateFormatter, pattern: string)
    ensures FromDict(dict, dateFormatter) == FromDict(dict, dateFormatter.(dateFormat := pattern))
  {
  }

  /** Decoding the encoding of `p` succeeds exactly when `p` carries the
      current version and its date is read back by the formatter. */
  lemma ToDictionaryDecodable(p: Point, dateFormatter: DateFormatter)
    ensures FromDict(ToDictionary(p, dateFormatter), dateFormatter).Some?
            <==> p.version == CurrentVersion
                 && WithIsoFormat(dateFormatter).DateFrom(WithIsoFormat(dateFormatter).StringFrom(p.datetime)).Some?
  {
  }

  /** Round trip through the dictionary: every field of `p` comes back. */
  lemma FromDictToDictionary(p: Point, dateFormatter: DateFormatter)
    requires p.version == CurrentVersion
    requires DateRoundTrips(dateFormatter, p.datetime)
    ensures FromDict(ToDictionary(p, dateFormatter), dateFormatter) == Some(p)
  {
  }

  /** Round trip through JSON bytes, when `JSONSerialization` reads back
      what it writes. */
  lemma FromJSONToJSON(p: Point, dateFormatter: DateFormatter, json: JSONSerialization)
    requires p.version == CurrentVersion
    requires DateRoundTrips(dateFormatter, p.datetime)
    requires ReadsBack(json, Object(ToDictionary(p, dateFormatter)))
    ensures ToJSON(p, dateFormatter, json).Some? ==>
              FromJSON(ToJSON(p, dateFormatter, json).value, dateFormatter, json) == Some(p)
  {
  }

  /** Decode then encode: a decoded point writes back the seven entries it
      was read from, provided the date text is the one the formatter prints. */
  lemma ToDictionaryFromDict(dict: map<string, Value>, dateFormatter: DateFormatter, p: Point)
    requires FromDict(dict, dateFormatter) == Some(p)
    requires WithIsoFormat(dateFormatter).StringFrom(p.datetime) == dict[DatetimeKey].s
    ensures ToDictionary(p, dateFormatter) == map k | k in dict && k in Keys :: dict[k]
  {
  }

  /** The key-by-key conditions under which `fromDict` succeeds say exactly
      that the dictionary describes some point of the current version: the
      guard chain rejects nothing that a point could have produced, and lets
      nothing else through. */
  lemma DecodableIffDescribesSomePoint(dict: map<string, Value>, dateFormatter: DateFormatter)
    ensures Decodable(dict, dateFormatter)
            <==> exists p: Point :: p.version == CurrentVersion && Describes(dict, p, dateFormatter)
  {
    if Decodable(dict, dateFormatter) {
      var p := FromDict(dict, dateFormatter).value;
      assert p.version == CurrentVersion && Describes(dict, p, dateFormatter);
    }
  }

  /** The encoding loses nothing: two points whose dates the formatter
      reads back encode to the same dictionary only if they are equal. */
  lemma ToDictionaryInjective(p: Point, q: Point, dateFormatter: DateFormatter)
    requires DateRoundTrips(dateFormatter, p.datetime)
    requires DateRoundTrips(dateFormatter, q.datetime)
    requires ToDictionary(p, dateFormatter) == ToDictionary(q, dateFormatter)
    ensures p == q
  {
  }

  /** At the byte level too: when `JSONSerialization` reads back what it
      writes, two points with the same JSON are the same point. */
  lemma ToJSONInjective(p: Point, q: Point, dateFormatter: DateFormatter, json: JSONSerialization)
    requires DateRoundTrips(dateFormatter, p.datetime)
    requires DateRoundTrips(dateFormatter, q.datetime)
    requires ReadsBack(json, Object(ToDictionary(p, dateFormatter)))
    requires ReadsBack(json, Object(ToDictionary(q, dateFormatter)))
    requires ToJSON(p, dateFormatter, json).Some?
    requires ToJSON(p, dateFormatter, json) == ToJSON(q, dateFormatter, json)
    ensures p == q
  {
    ToDictionaryInjective(p, q, dateFormatter);
  }
}
