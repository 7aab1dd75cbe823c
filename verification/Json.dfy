// JSON values as the source handles them, and the library calls it makes on the way.
module Json {
  import opened Wrappers
  import opened Text

  datatype Value =
    | Null
    | Bool(b: bool)
    | Int(i: int)
    | Float(d: Decimal)
    | Str(s: string)
    | Arr(items: seq<Value>)
    | Obj(fields: map<string, Value>)

  /** What the source gets from crates outside this model. Results hold for every choice
      of these functions, unless they ask for more. */
  datatype Host = Host(
    compiles: string -> bool,              // the `regex` crate, under its size limits
    isMatch: (string, string) -> bool,     // pattern, text
    instant: string -> Option<int>,        // `chrono`: RFC 3339 or a plain date, in milliseconds
    lower: string -> string)               // `str::to_lowercase`

  function Get(v: Value, key: string): Option<Value> {
    if v.Obj? && key in v.fields then Some(v.fields[key]) else None
  }

  predicate IsNumber(v: Value) {
    v.Int? || v.Float?
  }

  /** `Number::as_f64`. */
  function AsF64(v: Value): Decimal
    requires IsNumber(v)
  {
    if v.Int? then Decimal(v.i, 0) else v.d
  }

  /** `Number::to_string`: a whole float keeps its ".0". */
  function NumberText(v: Value): string
    requires IsNumber(v)
  {
    DecimalText(AsF64(v)) + if v.Float? && IsWhole(v.d) then ".0" else ""
  }

  function BoolText(b: bool): string {
    if b then "true" else "false"
  }

  /** The strings among some values, in order: `filter_map(as_str)`. */
  function Strings(vs: seq<Value>): (r: seq<string>)
    ensures forall s :: s in r <==> Str(s) in vs
  {
    if vs == [] then []
    else
      assert vs == [vs[0]] + vs[1..];
      (if vs[0].Str? then [vs[0].s] else []) + Strings(vs[1..])
  }
}
