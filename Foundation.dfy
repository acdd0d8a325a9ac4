/** The few pieces of Apple's Foundation framework that the Point and
    Decoration codecs call, stated only at their interface.

    - `Value` is what a `[String: Any]` dictionary built from JSON may hold.
    - `DateFormatter`, `JSONSerialization` and `URL(string:)` are foreign
      collaborators: the model receives their behaviour as function values,
      and every property that depends on them names what it assumes. */
module Foundation {

  datatype Option<+T> = None | Some(value: T) {
    predicate IsFailure() { None? }

    function PropagateFailure<U>(): Option<U>
      requires None?
    {
      None
    }

    function Extract(): T
      requires Some?
    {
      value
    }
  }

  newtype byte = x: int | 0 <= x < 256

  /** A point in time, as Foundation's `Date` stores it: seconds since the
      reference date. Only stored and copied here. */
  datatype Date = Date(timeIntervalSinceReferenceDate: real)

  /** A URL that `URL(string:)` accepted, known by its absolute string. */
  datatype Url = Url(absoluteString: string)

  /** A value of a `[String: Any]` dictionary that came from, or goes to,
      JSON. Swift's `Double` is modelled by `real`, `Int` by `int`. */
  datatype Value =
    | Null
    | Bool(b: bool)
    | Int(i: int)
    | Double(d: real)
    | Str(s: string)
    | Array(items: seq<Value>)
    | Object(fields: map<string, Value>)

  /** `obj as? [String: Any]` */
  function AsDictionary(v: Value): Option<map<string, Value>>
  {
    if v.Object? then Some(v.fields) else None
  }

  /** `dict[key] as? Double`: nil when the key is missing or holds another type. */
  function DoubleAt(dict: map<string, Value>, key: string): Option<real>
  {
    if key in dict && dict[key].Double? then Some(dict[key].d) else None
  }

  /** `dict[key] as? Int` */
  function IntAt(dict: map<string, Value>, key: string): Option<int>
  {
    if key in dict && dict[key].Int? then Some(dict[key].i) else None
  }

  /** `dict[key] as? String` */
  function StringAt(dict: map<string, Value>, key: string): Option<string>
  {
    if key in dict && dict[key].Str? then Some(dict[key].s) else None
  }

  /** A `DateFormatter`: its current `dateFormat` pattern, and what
      `string(from:)` and `date(from:)` do under a given pattern (the
      platform's locale and time-zone settings are folded into these). */
  datatype DateFormatter = DateFormatter(
    dateFormat: string,
    render: (string, Date) -> string,
    read: (string, string) -> Option<Date>)
  {
    /** `dateFormatter.string(from: date)` */
    function StringFrom(date: Date): string {
      render(dateFormat, date)
    }

    /** `dateFormatter.date(from: text)`: nil when the text does not parse. */
    function DateFrom(text: string): Option<Date> {
      read(dateFormat, text)
    }
  }

  /** `JSONSerialization`: `data(withJSONObject:)` and `jsonObject(with:)`,
      where None stands for the error either of them may throw. */
  datatype JSONSerialization = JSONSerialization(
    data: Value -> Option<seq<byte>>,
    jsonObject: seq<byte> -> Option<Value>)

  /** Serialising `v` either throws, or gives bytes that parse back to `v`. */
  ghost predicate ReadsBack(json: JSONSerialization, v: Value) {
    json.data(v).Some? ==> json.jsonObject(json.data(v).value) == Some(v)
  }

  /** `URL(string:)`: nil when the string is not a URL. */
  type UrlParser = string -> Option<Url>
}
