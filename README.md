# SpaceTimeMilieuModel: Point and Decoration codecs in Dafny

This project models the two value records of SpaceTimeMilieuModel and their
versioned codecs.

- A `Point` is a latitude magnitude with its hemisphere (`N`/`S`), a longitude
  magnitude with its hemisphere (`E`/`W`), a date, a time-zone name and a
  schema version.
- A `Decoration` is a required title, an optional description, an optional
  URL and a schema version.

Each record turns into a `[String: Any]` dictionary and into JSON bytes, and
back. Decoding yields nil (here `None`) unless every required key holds a value
of the right type and the version is exactly 1.

Files:

- `Foundation.dfy` (module `Foundation`) holds `Option` and the dictionary
  value type `Value`. It also holds the foreign collaborators, stated only at
  their interface: `DateFormatter` (its `dateFormat` pattern plus what
  `string(from:)` and `date(from:)` do under a pattern), `JSONSerialization`
  (`data(withJSONObject:)` and `jsonObject(with:)`, with None where they
  throw), and `URL(string:)` as a `UrlParser`. The model receives these as
  function values. A property that depends on how they behave says so in a
  `requires` (`DateRoundTrips`, `ReadsBack`, `UrlRoundTrips`), for one value
  at a time, instead of assuming it for all values.
- `Point.dfy` (module `Points`) models `Point.swift`.
- `Decoration.dfy` (module `Decorations`) models `Decoration.swift`.

Both source files are written as guard chains and dictionary literals, so the
model uses functions that return `Option`. The one exception is
`Decoration.toDictionary`, which builds `var retVal` and inserts the optional
entries in place. It is the method `Decorations.ToDictionary`, proved equal to
the function `Decorations.Encoded`, which `toJSON` and the lemmas use.

Every initialiser either stamps version 1 or accepts only version 1. Swift
synthesises no memberwise initialiser once a struct declares its own. So
every `Point` and `Decoration` the source can build has version 1. The
round-trip lemmas take that as a `requires`.

A few facts about the code shape the model:

- The point initialiser stores its arguments unchanged, with no sign
  normalisation and no range check (`Points.NewPointKeepsSign`). So
  `-10, South` and `10, South` give different points.
- The date pattern is `yyyy-MM-dd'T'HH:mm:ssZZZZZ`.
- A decoration has exactly `title`, `description`, `url` and `version`.
- The wire keys are `latitudeDegreesKey`, `titleKey` and so on, each with the
  `Key` suffix.

## Model

| member | source | states |
|---|---|---|
| `Points.LatitudeHemisphereFromRaw` | Sources/SpaceTimeMilieuModel/Point.swift:26-29 | `LatitudeHemisphereEnum(rawValue:)` accepts exactly "N" and "S". For every case h, it returns h iff the string is h's raw value. |
| `Points.LongitudeHemisphereFromRaw` | Sources/SpaceTimeMilieuModel/Point.swift:32-35 | `LongitudeHemisphereEnum(rawValue:)` accepts exactly "E" and "W". For every case h, it returns h iff the string is h's raw value. |
| `Points.HemisphereRawValuesRoundTrip` | Sources/SpaceTimeMilieuModel/Point.swift:26-35 | `Enum(rawValue: h.rawValue) == h` for both hemisphere enums. |
| `Points.NewPoint` | Sources/SpaceTimeMilieuModel/Point.swift:44-52 | The initialiser stores lat, long, both hemispheres, date and time zone unchanged, and sets version to 1. |
| `Points.NewPointKeepsSign` | Sources/SpaceTimeMilieuModel/Point.swift:45-48 | A negative latitude is kept as given. `-x, South` and `x, South` are different points, so there is no normalisation. |
| `Points.WithIsoFormat` | Sources/SpaceTimeMilieuModel/Point.swift:92-94 | After the codec's `if`, the formatter has the ISO pattern, whatever pattern the caller left on it. Nothing else changes. |
| `Points.FromDict` | Sources/SpaceTimeMilieuModel/Point.swift:91-118 | `init?(fromDict:)` succeeds iff all seven keys hold the right types, both hemisphere strings are raw values, the date parses and the version is the Int 1. On success every field is the dictionary's value, and the version is 1. |
| `Points.FromJSON` | Sources/SpaceTimeMilieuModel/Point.swift:54-89 | `init?(fromJSON:)` is nil when the bytes do not parse or are not an object. Otherwise it succeeds iff that object passes the same checks as `fromDict`, with the same fields. |
| `Points.ToDictionary` | Sources/SpaceTimeMilieuModel/Point.swift:120-133 | `toDictionary` writes exactly the seven keys. |
| `Points.ToJSON` | Sources/SpaceTimeMilieuModel/Point.swift:135-140 | `toJSON` serialises the dictionary that `toDictionary` gives with the caller's formatter. The pattern reset before it changes nothing. |
| `Points.FromDictRejectsBadHemisphere` | Sources/SpaceTimeMilieuModel/Point.swift:98-101 | A latitude hemisphere value other than "N" or "S", or a longitude hemisphere value other than "E" or "W", makes the decode nil. |
| `Points.FromDictVersionGate` | Sources/SpaceTimeMilieuModel/Point.swift:105-106 | A version that is absent, not an Int, or not 1 makes the decode nil. |
| `Points.FromDictNeedsEveryField` | Sources/SpaceTimeMilieuModel/Point.swift:95-104 | Any of the six data keys missing or mistyped, or a date that does not parse, makes the decode nil. |
| `Points.FromDictIgnoresCallerPattern` | Sources/SpaceTimeMilieuModel/Point.swift:92-94 | The decode result does not depend on the `dateFormat` the caller's formatter had. |
| `Points.ToDictionaryDecodable` | Sources/SpaceTimeMilieuModel/Point.swift:120-133 | Decoding `p`'s dictionary succeeds iff `p` has version 1 and the formatter parses the text it prints for `p`'s date. |
| `Points.FromDictToDictionary` | Sources/SpaceTimeMilieuModel/Point.swift:91-133 | Round trip: `fromDict(p.toDictionary()) == p` for a version-1 point whose date the formatter reads back. |
| `Points.FromJSONToJSON` | Sources/SpaceTimeMilieuModel/Point.swift:54-140 | Round trip through bytes: if `toJSON` does not throw, `fromJSON` gives `p` back, given that JSONSerialization reads back what it writes. |
| `Points.ToDictionaryFromDict` | Sources/SpaceTimeMilieuModel/Point.swift:91-133 | Decode then encode: a decoded point writes back exactly the seven entries it was read from, when the date text is the formatter's own. |
| `Points.DecodableIffDescribesSomePoint` | Sources/SpaceTimeMilieuModel/Point.swift:95-117 | The conditions under which `fromDict` succeeds hold iff some version-1 point has every field equal to the dictionary's entries. |
| `Points.ToDictionaryInjective` | Sources/SpaceTimeMilieuModel/Point.swift:124-132 | Two points whose dates round-trip and whose dictionaries are equal are equal. |
| `Points.ToJSONInjective` | Sources/SpaceTimeMilieuModel/Point.swift:135-140 | Two points with the same JSON bytes are equal, given that serialisation reads back. |
| `Decorations.NewDecoration` | Sources/SpaceTimeMilieuModel/Decoration.swift:29-34 | The initialiser stores title, description and url unchanged, and sets version to 1. |
| `Decorations.FromDictionary` | Sources/SpaceTimeMilieuModel/Decoration.swift:39-55 | The guard succeeds iff the title is a String and the version is the Int 1. The description is present iff it is a String. A url is present only if its String parses, and it is present whenever the String parses. |
| `Decorations.FromJSON` | Sources/SpaceTimeMilieuModel/Decoration.swift:36-60 | `init?(fromJSON:)` is nil when the bytes do not parse or are not an object. Otherwise it succeeds iff the object passes the guard. Its result is then exactly what `FromDictionary` makes of that object: the title is the object's String, a missing or non-String description gives nil, and an unparsable url gives nil while the decode still succeeds. The version is always 1. |
| `Decorations.ToJSON` | Sources/SpaceTimeMilieuModel/Decoration.swift:76-78 | `toJSON` serialises `Encoded(d)`, and gives None exactly where `JSONSerialization` throws. Bytes that serialisation reads back are exactly that dictionary. Its partner is `Decorations.FromJSONToJSON`. |
| `Decorations.Encoded` | Sources/SpaceTimeMilieuModel/Decoration.swift:62-74 | The dictionary always has version and title. It has the description key iff description is non-nil, and the url key iff url is non-nil. It holds only those four keys. |
| `Decorations.ToDictionary` | Sources/SpaceTimeMilieuModel/Decoration.swift:62-74 | Building `retVal` in place, with the two conditional inserts, yields exactly `Encoded(d)`. |
| `Decorations.FromDictionaryIgnoresOtherKeys` | Sources/SpaceTimeMilieuModel/Decoration.swift:39-55 | Adding keys other than title, description, url and version does not change the decode. |
| `Decorations.FromDictionaryDropsBadOptionals` | Sources/SpaceTimeMilieuModel/Decoration.swift:50-55 | A non-String description, or a url that is not a String or does not parse, acts as if the key were absent. The decode does not fail, and the field is nil. |
| `Decorations.FromDictionaryEncoded` | Sources/SpaceTimeMilieuModel/Decoration.swift:39-74 | Decoding `d`'s dictionary succeeds. It gives back version, title and description, and for url, `URL(string:)` of its `absoluteString`. |
| `Decorations.FromJSONToJSON` | Sources/SpaceTimeMilieuModel/Decoration.swift:36-78 | Round trip: if `toJSON` does not throw, `fromJSON` gives `d` back, given that serialisation reads back and URL parsing of `absoluteString` is the identity. |
| `Decorations.EncodedInjective` | Sources/SpaceTimeMilieuModel/Decoration.swift:62-74 | Equal dictionaries come only from equal decorations. |

## Left out

- Byte-level JSON parsing and printing (`JSONSerialization`) is foreign. It is a pair of function parameters, and the round trips assume it reads back what it writes.
- `DateFormatter` is foreign. The model keeps its `dateFormat` and the codec's reset of it, and leaves the printing and parsing abstract. The round trips assume the date is read back. Real ISO text drops sub-second precision, so that assumption holds only for whole-second dates.
- The reset of `dateFormat` is visible to the caller, because `DateFormatter` is a reference type. The model does not return the changed formatter.
- `URL(string:)` and `absoluteString` are foreign. A URL is modelled by its absolute string, and parsing is a function parameter.
- `Double` is modelled as `real`. Coordinates are only stored and copied, so NaN, infinities and precision are not modelled. `JSONSerialization` throwing on a NaN is covered only as "may throw".
- Swift's `NSNumber` bridging is not modelled. For example, `as? Int` may succeed on `1.0`. Here a `Double` value is never an `Int` and the other way round.
- The `print` logging on failure paths has no effect on results and is left out.
- The source writes the guard chain twice, in `init?(fromJSON:)` and `init?(fromDict:)`. The model states it once, in `FromDict`, and `FromJSON` calls it after the cast to a dictionary.
