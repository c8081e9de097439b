/** Cell values of the selected spreadsheet column, and the error the
    analysis can raise. */
module Cells {

  /** One non-missing cell of the column, tagged by its runtime type:
      a text value, an integer, a floating-point number (modelled as an
      exact real) or anything else the spreadsheet reader may produce
      (dates, times, ...). */
  datatype Cell = Str(text: string) | Int(i: int) | Num(r: real) | Other

  /** `isinstance(d, str)` */
  predicate IsText(c: Cell) { c.Str? }

  /** `isinstance(d, (int, float))` */
  predicate IsNumber(c: Cell) { c.Int? || c.Num? }

  /** `float(d)` for a numeric cell. */
  function ToReal(c: Cell): real
    requires IsNumber(c)
  {
    match c
    case Int(i) => i as real
    case Num(r) => r
  }

  /** The exception raised when a reduction (`np.argmax`, `max`, `np.min`)
      is applied to an empty sequence. */
  datatype Error = EmptyArgument

  datatype Result<T> = Success(value: T) | Failure(error: Error)
}
