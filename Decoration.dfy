/** The `Decoration` record: a required title, an optional description and
    an optional URL, with its JSON codec gated on schema version 1. */
module Decorations {
  import opened Foundation

  const DecorationKey := "decorationKey"

  const TitleKey := "titleKey"
  const DescriptionKey := "descriptionKey"
  const UrlKey := "urlKey"
  const VersionKey := "versionKey"

  const CurrentVersion := 1

  /** The keys `fromJSON` looks at. */
  const Keys: set<string> := {TitleKey, DescriptionKey, UrlKey, VersionKey}

  datatype Decoration = Decoration(
    version: int,
    title: string,
    description: Option<string>,
    url: Option<Url>)

  /** `init(title:description:url:)`: stores its arguments as given and
      stamps the current schema version. */
  function NewDecoration(title: string, description: Option<string> := None,
                         url: Option<Url> := None): (d: Decoration)
    ensures d.title == title && d.description == description && d.url == url
    ensures d.version == CurrentVersion
  {
    Decoration(CurrentVersion, title, description, url)
  }

  /** The guard and the optional bindings of `init?(fromJSON:)`, once the
      bytes have become a dictionary. `parseUrl` is `URL(string:)`. */
  function FromDictionary(dict: map<string, Value>, parseUrl: UrlParser): (r: Option<Decoration>)
    ensures r.Some? <==> TitleKey in dict && dict[TitleKey].Str?
                         && VersionKey in dict && dict[VersionKey] == Int(CurrentVersion)
    ensures r.Some? ==> r.value.version == CurrentVersion && dict[TitleKey] == Str(r.value.title)
    ensures r.Some? ==> (r.value.description.Some? <==> DescriptionKey in dict && dict[DescriptionKey].Str?)
    ensures r.Some? && r.value.description.Some? ==> dict[DescriptionKey] == Str(r.value.description.value)
    ensures r.Some? && r.value.url.Some? ==>
              UrlKey in dict && dict[UrlKey].Str? && parseUrl(dict[UrlKey].s) == r.value.url
    ensures r.Some? && UrlKey in dict && dict[UrlKey].Str? && parseUrl(dict[UrlKey].s).Some? ==>
              r.value.url.Some?
  {
    var title :- StringAt(dict, TitleKey);
    var version :- IntAt(dict, VersionKey);
    if version != CurrentVersion then None
    else
      var description := StringAt(dict, DescriptionKey);
      var url := match StringAt(dict, UrlKey)
        case Some(urlString) => parseUrl(urlString)
        case None => None;
      Some(Decoration(version, title, description, url))
  }

  /** `init?(fromJSON:)`: nil when the bytes do not parse or are not a JSON
      object, otherwise `FromDictionary` of that object. */
  function FromJSON(data: seq<byte>, json: JSONSerialization, parseUrl: UrlParser): (r: Option<Decoration>)
    ensures r.Some? <==> && json.jsonObject(data).Some?
                         && json.jsonObject(data).value.Object?
                         && FromDictionary(json.jsonObject(data).value.fields, parseUrl).Some?
    ensures r.Some? ==> Some(r.value) == FromDictionary(json.jsonObject(data).value.fields, parseUrl)
    ensures r.Some? ==> r.value.version == CurrentVersion
  {
    var obj :- json.jsonObject(data);
    var dict :- AsDictionary(obj);
    FromDictionary(dict, parseUrl)
  }

  /** The dictionary `toDictionary()` builds: version and title always,
      description and url only when present. */
  function Encoded(d: Decoration): (dict: map<string, Value>)
    ensures VersionKey in dict && dict[VersionKey] == Int(d.version)
    ensures TitleKey in dict && dict[TitleKey] == Str(d.title)
    ensures DescriptionKey in dict <==> d.description.Some?
    ensures d.description.Some? ==> dict[DescriptionKey] == Str(d.description.value)
    ensures UrlKey in dict <==> d.url.Some?
    ensures d.url.Some? ==> dict[UrlKey] == Str(d.url.value.absoluteString)
    ensures dict.Keys <= Keys
  {
    map[VersionKey := Int(d.version), TitleKey := Str(d.title)]
    + (if d.description.Some? then map[DescriptionKey := Str(d.description.value)] else map[])
    + (if d.url.Some? then map[UrlKey := Str(d.url.value.absoluteString)] else map[])
  }

  /** `toDictionary()`: starts from version and title and inserts the
      optional entries in place. */
  method ToDictionary(d: Decoration) returns (retVal: map<string, Value>)
    ensures retVal == Encoded(d)
  {
    retVal := map[VersionKey := Int(d.version), TitleKey := Str(d.title)];
    if d.description.Some? {
      retVal := retVal[DescriptionKey := Str(d.description.value)];
    }
    if d.url.Some? {
      retVal := retVal[UrlKey := Str(d.url.value.absoluteString)];
    }
  }

  /** `toJSON()`: serialises the dictionary; None where `JSONSerialization`
      throws. */
  function ToJSON(d: Decoration, json: JSONSerialization): (r: Option<seq<byte>>)
    ensures r.None? <==> json.data(Object(Encoded(d))).None?
    ensures r.Some? && ReadsBack(json, Object(Encoded(d))) ==>
              json.jsonObject(r.value) == Some(Object(Encoded(d)))
  {
    json.data(Object(Encoded(d)))
  }

  // ---------------------------------------------------------------------
  // Properties

  /** `URL(string:)` gives back `u` from its absolute string. */
  ghost predicate UrlRoundTrips(parseUrl: UrlParser, u: Option<Url>) {
    u.Some? ==> parseUrl(u.value.absoluteString) == u
  }

  /** Only the four known keys matter: anything else in the dictionary is
      ignored. */
  lemma FromDictionaryIgnoresOtherKeys(dict: map<string, Value>, other: map<string, Value>, parseUrl: UrlParser)
    requires TitleKey !in other && DescriptionKey !in other
    requires UrlKey !in other && VersionKey !in other
    ensures FromDictionary(dict + other, parseUrl) == FromDictionary(dict, parseUrl)
  {
  }

  /** A description that is not a string reads as no description, and a url
      that is not a string or that `URL(string:)` rejects reads as no url:
      neither makes the decode fail. */
  lemma FromDictionaryDropsBadOptionals(dict: map<string, Value>, parseUrl: UrlParser)
    requires DescriptionKey in dict ==> !dict[DescriptionKey].Str?
    requires UrlKey in dict ==> !dict[UrlKey].Str? || parseUrl(dict[UrlKey].s).None?
    ensures FromDictionary(dict, parseUrl)
            == FromDictionary(dict - {DescriptionKey, UrlKey}, parseUrl)
    ensures FromDictionary(dict, parseUrl).Some? ==>
              FromDictionary(dict, parseUrl).value.description.None?
              && FromDictionary(dict, parseUrl).value.url.None?
  {
  }

  /** Decoding the encoding of a decoration gives back its version, title and
      description, and for its url whatever `URL(string:)` makes of the
      absolute string. */
  lemma FromDictionaryEncoded(d: Decoration, parseUrl: UrlParser)
    requires d.version == CurrentVersion
    ensures FromDictionary(Encoded(d), parseUrl).Some?
    ensures FromDictionary(Encoded(d), parseUrl).value
            == d.(url := if d.url.Some? then parseUrl(d.url.value.absoluteString) else None)
  {
  }

  /** Round trip through JSON bytes: every field comes back when
      `JSONSerialization` reads back what it writes and `URL(string:)`
      reads back the absolute string. */
  lemma FromJSONToJSON(d: Decoration, json: JSONSerialization, parseUrl: UrlParser)
    requires d.version == CurrentVersion
    requires ReadsBack(json, Object(Encoded(d)))
    requires UrlRoundTrips(parseUrl, d.url)
    ensures ToJSON(d, json).Some? ==> FromJSON(ToJSON(d, json).value, json, parseUrl) == Some(d)
  {
  }

  /** The encoding loses nothing: equal dictionaries come from equal
      decorations. */
  lemma EncodedInjective(d: Decoration, e: Decoration)
    requires Encoded(d) == Encoded(e)
    ensures d == e
  {
  }
}
