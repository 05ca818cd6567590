/**
 * A spreadsheet cell as pandas hands it to the plotters, and the Python
 * arithmetic the plotters apply to cells.
 */
module Cells {
  import opened Wrappers

  /**
   * A cell of a sheet: a number, an empty cell (pandas NaN), or text that
   * does not read as a number.
   */
  datatype Cell = Num(v: real) | NaN | Text(s: string)

  /**
   * Python `a - b` on two cells: text on either side raises TypeError (None);
   * otherwise NaN on either side gives NaN, and two numbers their difference.
   */
  function Minus(a: Cell, b: Cell): (r: Option<Cell>)
    ensures r.None? <==> a.Text? || b.Text?
    ensures r.Some? ==> !r.value.Text?
    ensures r.Some? ==> (r.value.NaN? <==> a.NaN? || b.NaN?)
    ensures r.Some? && r.value.Num? ==> r.value.v + b.v == a.v
  {
    if a.Text? || b.Text? then None
    else if a.NaN? || b.NaN? then Some(NaN)
    else Some(Num(a.v - b.v))
  }

  /** A product of two non-negative reals is non-negative. */
  lemma ProductNonnegative(x: real, y: real)
    ensures x >= 0.0 && y >= 0.0 ==> x * y >= 0.0
  {
    if x > 0.0 && y > 0.0 {
      assert x * y > 0.0;
    }
  }

  /**
   * Python `a * f` for a cell and a number: text raises TypeError (None); NaN
   * stays NaN; a number is scaled by `f`.
   */
  function Times(a: Cell, f: real): (r: Option<Cell>)
    ensures r.None? <==> a.Text?
    ensures r.Some? ==> (r.value.NaN? <==> a.NaN?)
    ensures a.Num? ==> r == Some(Num(a.v * f))
    ensures a.Num? && a.v >= 0.0 && f >= 0.0 ==> r.Some? && r.value.Num? && r.value.v >= 0.0
    ensures f == 1.0 && !a.Text? ==> r == Some(a)
  {
    if a.Num? then
      ProductNonnegative(a.v, f);
      Some(Num(a.v * f))
    else if a.NaN? then Some(NaN)
    else None
  }

  /** `pd.to_numeric(..., errors='coerce')`: text that is no number becomes NaN. */
  function ToNumeric(c: Cell): (r: Cell)
    ensures !r.Text?
    ensures r.Num? <==> c.Num?
    ensures c.Num? ==> r == c
  {
    if c.Text? then NaN else c
  }
}
