/** Spreadsheet cell values as the parser receives them from the decoded
    workbook, and the JavaScript conversions the parser applies to them:
    truthiness, `a || b`, `parseFloat` and `toString`. */
module Values {

  datatype Option<+T> = None | Some(value: T)

  /** A computation that either yields a value or fails with an error. */
  datatype Result<+T, +E> = Success(value: T) | Failure(error: E) {
    predicate IsFailure() {
      Failure?
    }

    function PropagateFailure<U>(): Result<U, E>
      requires Failure?
    {
      Failure(error)
    }

    function Extract(): T
      requires Success?
    {
      value
    }
  }

  /** One cell: blank (`null`/`undefined`), a number, or text. */
  datatype Cell = Empty | Num(n: real) | Str(s: string)

  /** The host conversions the model takes as given: `parseFloat` applied to
      text (`None` stands for NaN) and `Number.prototype.toString`. */
  datatype Host = Host(parseText: string -> Option<real>, numberText: real -> string)

  /** JavaScript truthiness: blank, 0 and "" are falsy. */
  predicate Truthy(c: Cell) {
    match c
    case Empty => false
    case Num(x) => x != 0.0
    case Str(s) => s != ""
  }

  /** `a || b` on cell values. */
  function Or(a: Cell, b: Cell): Cell {
    if Truthy(a) then a else b
  }

  /** `parseFloat(c)`: a number parses to itself, a blank cell to NaN. */
  function ParseFloat(h: Host, c: Cell): Option<real> {
    match c
    case Empty => None
    case Num(x) => Some(x)
    case Str(s) => h.parseText(s)
  }

  /** `parseFloat(c) || fallback`: both NaN and 0 give the fallback. */
  function NumberOr(h: Host, c: Cell, fallback: real): (r: real)
    ensures r == fallback || (ParseFloat(h, c) == Some(r) && r != 0.0)
    ensures ParseFloat(h, c).Some? && ParseFloat(h, c).value != 0.0 ==> r == ParseFloat(h, c).value
  {
    match ParseFloat(h, c)
    case Some(x) => if x != 0.0 then x else fallback
    case None => fallback
  }

  /** `c?.toString() || ''`; a blank cell reads as the empty text. */
  function Text(h: Host, c: Cell): string {
    match c
    case Empty => ""
    case Num(x) => h.numberText(x)
    case Str(s) => s
  }

  /** `c?.toString() || fallback`. */
  function TextOr(h: Host, c: Cell, fallback: string): (r: string)
    ensures Text(h, c) != "" ==> r == Text(h, c)
    ensures Text(h, c) == "" ==> r == fallback
    ensures fallback != "" ==> r != ""
  {
    var t := Text(h, c);
    if t != "" then t else fallback
  }
}
