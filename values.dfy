/** Scalar values of the energy table: missing-aware numbers, spreadsheet
    cells, timestamps, and the coercions `pd.to_numeric` / `pd.to_datetime`
    apply to a cell. */
module Values {

  /** A possibly missing value: `None` stands for pandas' NaN / NaT. */
  datatype Option<+T> = None | Some(value: T)

  /** Why a load fails as a whole (a pandas exception in the source). */
  datatype LoadError =
    | MissingColumn(name: string)   // KeyError raised by `melt` for an absent id column
    | RepeatedIdColumn(name: string) // KeyError raised by `melt` popping an id column a second time
    | TooFewColumns                 // IndexError raised by `df.columns[-2]`
    | UnparseableTime(value: Cell)  // ValueError raised by a strict `pd.to_datetime`

  datatype Result<+T> = Ok(value: T) | Err(error: LoadError)

  /** A spreadsheet cell as the workbook reader hands it over. */
  datatype Cell = Blank | Number(x: real) | Text(s: string)

  /** A calendar timestamp; its order is the lexicographic order of the fields. */
  datatype Timestamp = Timestamp(year: int, month: int, day: int, second: int)

  /** `a <= b` on timestamps. */
  predicate NotAfter(a: Timestamp, b: Timestamp)
  {
    a.year < b.year || (a.year == b.year &&
    (a.month < b.month || (a.month == b.month &&
    (a.day < b.day || (a.day == b.day && a.second <= b.second)))))
  }

  /** `NotAfter` is a total order, so `start <= t <= end` means what it says. */
  lemma NotAfterIsTotalOrder(a: Timestamp, b: Timestamp, c: Timestamp)
    ensures NotAfter(a, a)
    ensures NotAfter(a, b) && NotAfter(b, a) ==> a == b
    ensures NotAfter(a, b) && NotAfter(b, c) ==> NotAfter(a, c)
    ensures NotAfter(a, b) || NotAfter(b, a)
  {
  }

  /** What `pd.to_datetime` makes of one non-blank cell: a date, a text that
      stands for a missing time (such as "NaT" or "nan", read as NaT without
      an error), or something it cannot parse. */
  datatype TimeParse = Parsed(t: Timestamp) | NullTime | Unparseable

  /** The parsers of the spreadsheet library, which this model does not see:
      `number` reads numeric text, `time` reads a (non-blank) cell as a date. */
  datatype Parsers = Parsers(number: string -> Option<real>, time: Cell -> TimeParse)

  /** `pd.to_numeric(..., errors="coerce")` on one cell. */
  function ToNumeric(c: Cell, p: Parsers): (r: Option<real>)
    ensures c.Blank? ==> r.None?
    ensures c.Number? ==> r == Some(c.x)
  {
    match c
    case Blank => None
    case Number(x) => Some(x)
    case Text(s) => p.number(s)
  }

  /** `pd.to_datetime(..., errors="coerce")` on one cell: a blank cell, a
      missing-time text and an unparseable cell all become NaT. */
  function ToDatetime(c: Cell, p: Parsers): (r: Option<Timestamp>)
    ensures c.Blank? ==> r.None?
    ensures r.Some? <==> !c.Blank? && p.time(c).Parsed?
  {
    if c.Blank? then None
    else match p.time(c)
      case Parsed(t) => Some(t)
      case _ => None
  }

  /** A cell on which a strict `pd.to_datetime` raises: it is not blank
      (blank reads as NaT) and is neither a date nor a missing-time text. */
  predicate BadTime(c: Cell, p: Parsers)
  {
    !c.Blank? && p.time(c).Unparseable?
  }

  /** `.dt.year` of a possibly missing timestamp. */
  function YearOf(t: Option<Timestamp>): (r: Option<int>)
  {
    if t.Some? then Some(t.value.year) else None
  }

  /** `.dt.month` of a possibly missing timestamp. */
  function MonthOf(t: Option<Timestamp>): (r: Option<int>)
  {
    if t.Some? then Some(t.value.month) else None
  }

  /** Elementwise product of two columns: NaN in either operand gives NaN. */
  function Times(a: Option<real>, b: Option<real>): (r: Option<real>)
  {
    if a.Some? && b.Some? then Some(a.value * b.value) else None
  }

  /** `column / 1000`: NaN stays NaN. */
  function PerThousand(a: Option<real>): (r: Option<real>)
  {
    if a.Some? then Some(a.value / 1000.0) else None
  }
}
