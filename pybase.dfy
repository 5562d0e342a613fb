/**
  What the Python importers share: datetime values, the exceptions they raise
  (as the error half of a Result), Python list indexing and Decimal text.
*/
module PyBase {
  import opened Wrappers
  import opened Text
  import Calendar

  /** A datetime.date/datetime at midnight: a valid civil date in datetime's year range. */
  type PyDate = d: Calendar.Date | Calendar.Valid(d) && 1 <= d.year <= 9999 witness Calendar.Date(1970, 1, 1)

  /** datetime.strptime(text, format), supplied by the caller; None is its ValueError. */
  type Strptime = (string, string) -> Option<PyDate>

  /** The exceptions the modelled code raises. */
  datatype PyError =
    | IndexError                    // a list index past either end
    | ValueError(text: string)      // strptime mismatch, or unpacking into the wrong number of names
    | InvalidDecimal(text: string)  // decimal.InvalidOperation from Decimal(text)
    | DivisionByZero                // Decimal division by zero
    | AttributeError(name: string)  // an attribute of None, or one a class does not define
    | NameError(name: string)       // an undefined variable
    | ReError(pattern: string)      // re.error from re.compile(pattern)
    | Raised(message: string)       // raise Exception(message)

  /** parts[i], with Python's negative indices counting from the end. */
  function Field(parts: seq<string>, i: int): (r: Result<string, PyError>)
    ensures r.Success? <==> -|parts| <= i < |parts|
    ensures r.Success? ==> r.value == parts[if i >= 0 then i else |parts| + i]
  {
    if 0 <= i < |parts| then Success(parts[i])
    else if -|parts| <= i < 0 then Success(parts[|parts| + i])
    else Failure(IndexError)
  }

  /** Decimal(text). */
  function Dec(text: string): (r: Result<real, PyError>)
    ensures r.Success? <==> ParseDecimal(text).Some?
    ensures r.Success? ==> r.value == ParseDecimal(text).value
  {
    match ParseDecimal(text)
    case None => Failure(InvalidDecimal(text))
    case Some(v) => Success(v)
  }

  /** Decimal division, which raises on a zero divisor. */
  function Div(a: real, b: real): (r: Result<real, PyError>)
    ensures r.Success? <==> b != 0.0
    ensures r.Success? ==> r.value == a / b
  {
    if b == 0.0 then Failure(DivisionByZero) else Success(a / b)
  }

  /** Decimal multiplication, exact here; named so that a product read from a row is one term. */
  function Mul(a: real, b: real): real {
    a * b
  }

  function Abs(x: real): real {
    if x < 0.0 then -x else x
  }

  /** Python's max(a, b), which returns a when they are equal. */
  function Max(a: real, b: real): real {
    if b > a then b else a
  }
}
