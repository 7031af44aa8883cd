/**
 * The values that the bus-position tables hold: the scalars and nested
 * lists/objects of the positioning API's JSON payload, and the instants that
 * pandas stores in a datetime64[ns] column.
 */
module Values {

  datatype Option<T> = None | Some(value: T)

  predicate IsLeap(year: int) {
    year % 4 == 0 && (year % 100 != 0 || year % 400 == 0)
  }

  function DaysInMonth(year: int, month: int): (n: int)
    requires 1 <= month <= 12
    ensures 28 <= n <= 31
  {
    if month == 2 then (if IsLeap(year) then 29 else 28)
    else if month == 4 || month == 6 || month == 9 || month == 11 then 30
    else 31
  }

  /**
   * A civil date and time of day with the nanoseconds within the second, as a
   * pandas Timestamp holds it. pandas keeps instants as signed 64-bit
   * nanosecond counts, from 1677-09-21 to 2262-04-11; the valid values here
   * are a superset of that range, every date of the years 1677 to 2262.
   */
  datatype DateTime = DateTime(year: int, month: int, day: int,
                               hour: int, minute: int, second: int,
                               nanosecond: int)
  {
    predicate Valid() {
      && 1677 <= year <= 2262
      && 1 <= month <= 12
      && 1 <= day <= DaysInMonth(year, month)
      && 0 <= hour < 24
      && 0 <= minute < 60
      && 0 <= second < 60
      && 0 <= nanosecond < 1_000_000_000
    }
  }

  type Instant = t: DateTime | t.Valid() witness DateTime(1970, 1, 1, 0, 0, 0, 0)

  /**
   * One cell of a table. JSON null, booleans, integers, floating-point numbers
   * (kept as reals: the pipeline only copies them), strings, arrays and
   * objects (an object's values in key order: every field mapping in the
   * pipeline is positional), plus parsed instants.
   */
  datatype Cell =
    | Null
    | Bool(b: bool)
    | Int(i: int)
    | Num(r: real)
    | Str(s: string)
    | Time(t: Instant)
    | List(items: seq<Cell>)
    | Record(fields: seq<Cell>)
}
