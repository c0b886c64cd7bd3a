/** What the tailer sees of a parsed JSON log record. Parsing itself
    (`JSON.parse`) is not modelled: it is an oracle supplied by the caller. */
module Json {
  import opened Wrappers
  import opened RubyText

  /** A JSON value as Ruby's parser returns it. A JSON number with a fraction
      or an exponent becomes a Float: `x` is its value and `rendered` the text
      `Float#to_s` gives for it. Arrays and objects are not looked into by the
      tailer; `JOther` carries the text their `to_s` produces. */
  datatype JVal =
    | JNull
    | JBool(b: bool)
    | JInt(i: int)
    | JFloat(x: real, rendered: string)
    | JStr(s: string)
    | JOther(rendered: string)

  /** A parsed JSON object: a Hash from keys to values. */
  type JObject = map<string, JVal>

  /** `JSON.parse`: the object a log line denotes, or `None` when parsing
      raises `JSON::ParserError`. */
  type Parser = string -> Option<JObject>

  /** `json[key]`: `nil` for a missing key. */
  function Get(o: JObject, key: string): (v: JVal)
    ensures key !in o ==> v == JNull
  {
    if key in o then o[key] else JNull
  }

  /** `"#{v}"` for a parsed value. */
  function Interpolate(v: JVal): string {
    match v
    case JNull => ""
    case JBool(b) => if b then "true" else "false"
    case JInt(i) => IntToString(i)
    case JFloat(_, r) => r
    case JStr(s) => s
    case JOther(r) => r
  }

  /** `"#{json[key]}"`: a missing key or a null renders as "". */
  function Field(o: JObject, key: string): (r: string)
    ensures key !in o ==> r == ""
  {
    Interpolate(Get(o, key))
  }
}
