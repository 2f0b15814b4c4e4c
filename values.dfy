/** JavaScript values as the row normaliser sees them, and the two JS
    coercions it relies on: truthiness (the `||` operator) and `parseFloat`. */
module Values {

  datatype Option<+T> = None | Some(value: T)

  /** One raw cell of a spreadsheet or CSV row: a missing key reads as
      `undefined`, a spreadsheet reader may give numbers or booleans, a CSV
      reader gives text. `NotANumber` is the JS number NaN; every other
      number is finite and held exactly. */
  datatype Raw =
    | Missing
    | Null
    | Str(s: string)
    | Num(x: real)
    | NotANumber
    | Bool(b: bool)

  /** JS truthiness: `undefined`, `null`, `""`, `0`, `NaN` and `false` are
      falsy, every other value is truthy. */
  predicate Truthy(v: Raw)
    ensures !Truthy(v) <==> v in {Missing, Null, Str(""), Num(0.0), NotANumber, Bool(false)}
  {
    match v
    case Missing => false
    case Null => false
    case Str(s) => s != ""
    case Num(x) => x != 0.0
    case NotANumber => false
    case Bool(b) => b
  }

  /** How `parseFloat` reads a non-empty string: the number its longest
      decimal-literal prefix denotes, or None for NaN. Its grammar is not
      part of this model, so it is a parameter wherever it is used. */
  type Parser = string -> Option<real>

  /** How JS turns a number into text (`String(x)`, template literals). */
  type Formatter = real -> string

  /** `parseFloat(v)`: a number parses to itself, text goes to the parser
      (the empty string is NaN), `undefined`, `null`, NaN and booleans
      (which read as "undefined", "null", "NaN", "true", "false") are NaN. */
  function ParseFloat(v: Raw, parse: Parser): (r: Option<real>)
    ensures !Truthy(v) ==> r == None || r == Some(0.0)
    ensures v.Num? ==> r == Some(v.x)
  {
    match v
    case Str(s) => if s == "" then None else parse(s)
    case Num(x) => Some(x)
    case _ => None
  }

  /** `parseFloat(v) || 0`: NaN and 0 both become 0, so the result is
      always a number. */
  function NumberOf(v: Raw, parse: Parser): (r: real)
    ensures r == 0.0 || ParseFloat(v, parse) == Some(r)
    ensures ParseFloat(v, parse).Some? ==> r == ParseFloat(v, parse).value
    ensures ParseFloat(v, parse).None? ==> r == 0.0
    ensures !Truthy(v) ==> r == 0.0
  {
    match ParseFloat(v, parse)
    case Some(x) => x
    case None => 0.0
  }

  /** The text a template literal `${v}` produces for a raw value. */
  function TextOf(v: Raw, show: Formatter): string
  {
    match v
    case Missing => "undefined"
    case Null => "null"
    case Str(s) => s
    case Num(x) => show(x)
    case NotANumber => "NaN"
    case Bool(b) => if b then "true" else "false"
  }
}
