/** Ruby's dynamically typed arguments, as far as the validators look at
    them, and the text string interpolation (`"#{v}"`) makes of them. */
module Values {
  import opened RubyText

  /** A Ruby object handed to a constructor: `nil`, a String, an Integer, a
      Float (with the text `Float#to_s` gives for it), `true`/`false`, or an
      Array of such objects. */
  datatype Value = Nil | Str(s: string) | Int(i: int) | Float(x: real, rendered: string) | Bool(b: bool) | Arr(items: seq<Value>)

  /** `"#{v}"`: `to_s` of the object. `nil` interpolates as "", an Array as
      its `inspect` form. */
  function ToS(v: Value): string
    decreases v, 1
  {
    match v
    case Nil => ""
    case Str(s) => s
    case Int(i) => IntToString(i)
    case Float(_, rendered) => rendered
    case Bool(b) => if b then "true" else "false"
    case Arr(items) => "[" + InspectAll(items) + "]"
  }

  /** `v.inspect`: strings are quoted (escaping of special characters is not
      modelled), `nil` is spelled out. */
  function Inspect(v: Value): string
    decreases v, 1
  {
    match v
    case Nil => "nil"
    case Str(s) => "\"" + s + "\""
    case Int(i) => IntToString(i)
    case Float(_, rendered) => rendered
    case Bool(b) => if b then "true" else "false"
    case Arr(items) => "[" + InspectAll(items) + "]"
  }

  /** The elements' `inspect` forms separated by ", ". */
  function InspectAll(items: seq<Value>): string
    decreases items, 0
  {
    if |items| == 0 then ""
    else if |items| == 1 then Inspect(items[0])
    else Inspect(items[0]) + ", " + InspectAll(items[1..])
  }

  /** `v.is_a?(Boolean)`: the `Boolean` module is mixed into `TrueClass` and
      `FalseClass` only. */
  predicate IsBoolean(v: Value): (r: bool)
    ensures r <==> v == Bool(true) || v == Bool(false)
  {
    v.Bool?
  }

  /** The values the test suites use as invalid booleans are all rejected. */
  lemma NonBooleansOfTheTests()
    ensures !IsBoolean(Nil) && !IsBoolean(Arr([])) && !IsBoolean(Int(0))
    ensures !IsBoolean(Int(-1)) && !IsBoolean(Str("a string"))
  {
  }

  /** A list of two Strings interpolates as both, quoted and separated by
      a comma. */
  lemma PairInterpolation(a: string, b: string)
    ensures ToS(Arr([Str(a), Str(b)])) == "[\"" + a + "\", \"" + b + "\"]"
  {
    var items := [Str(a), Str(b)];
    var qa, qb := "\"" + a + "\"", "\"" + b + "\"";
    assert items[1..] == [Str(b)];
    assert InspectAll(items[1..]) == Inspect(Str(b)) == qb;
    assert InspectAll(items) == Inspect(Str(a)) + ", " + qb;
    assert ToS(Arr(items)) == "[" + (qa + ", " + qb) + "]";
  }

  /** `"#{NAMESPACE_FLAGS}"` is the inspect form of the two flags. */
  lemma FlagListInterpolation()
    ensures ToS(Arr([Str("-n"), Str("--namespace")])) == "[\"-n\", \"--namespace\"]"
  {
    PairInterpolation("-n", "--namespace");
  }
}
