/**
 * The particle size distribution (PSD) arithmetic that both soil plotters
 * share: the sieve sizes taken from the sheet's columns, the palette index of
 * a curve, and the gravel, sand and fines contents of one sample.
 */
module Psd {
  import opened Wrappers
  import opened Cells
  import Seqs

  /** A column header of the PSD sheet: a text label, or a sieve aperture in mm. */
  datatype Column = Label(name: string) | Size(mm: real)

  /** The four columns that are not sieves. */
  const MetaColumns: seq<string> := ["ID", "From (m)", "To (m)", "Geology Unit"]

  /** What the plotters raise: a header or a cell that `astype(float)` cannot read. */
  datatype PsdError = NonNumericColumn | NonNumericCell

  predicate StrictlyDecreasing(s: seq<real>) {
    forall i, j :: 0 <= i < j < |s| ==> s[i] > s[j]
  }

  /** Puts `x` into its place in a strictly decreasing sequence, unless it is there already. */
  function InsertDescending(x: real, s: seq<real>): (r: seq<real>)
    requires StrictlyDecreasing(s)
    ensures StrictlyDecreasing(r)
    ensures forall y :: y in r <==> y == x || y in s
  {
    if |s| == 0 then [x]
    else if x == s[0] then s
    else if x > s[0] then [x] + s
    else
      var rest := InsertDescending(x, s[1..]);
      assert forall y :: y in rest ==> y < s[0];
      var r := [s[0]] + rest;
      assert forall j :: 1 <= j < |r| ==> r[j] == rest[j - 1] && rest[j - 1] in rest;
      r
  }

  /** `sorted(set(s), reverse=True)`: the distinct values of `s`, largest first. */
  function SortDescending(s: seq<real>): (r: seq<real>)
    ensures StrictlyDecreasing(r)
    ensures forall y :: y in r <==> y in s
  {
    if |s| == 0 then []
    else
      assert s == s[..|s| - 1] + [s[|s| - 1]];
      InsertDescending(s[|s| - 1], SortDescending(s[..|s| - 1]))
  }

  /** A strictly decreasing sequence is fixed by its elements. */
  lemma {:induction false} DescendingDetermined(a: seq<real>, b: seq<real>)
    requires StrictlyDecreasing(a) && StrictlyDecreasing(b)
    requires forall y :: y in a <==> y in b
    ensures a == b
  {
    if |a| > 0 {
      assert a[0] in a;
    }
    if |b| > 0 {
      assert b[0] in b;
    }
    if |a| > 0 && |b| > 0 {
      assert a[0] == b[0];
      forall y
        ensures y in a[1..] <==> y in b[1..]
      {
        if y in a[1..] {
          assert y in a;
          var j :| 0 <= j < |b| && b[j] == y;
          assert j != 0 && b[1..][j - 1] == y;
        }
        if y in b[1..] {
          assert y in b;
          var i :| 0 <= i < |a| && a[i] == y;
          assert i != 0 && a[1..][i - 1] == y;
        }
      }
      DescendingDetermined(a[1..], b[1..]);
      assert a == [a[0]] + a[1..] && b == [b[0]] + b[1..];
    }
  }

  /** The apertures among the headers, in column order. */
  function Apertures(columns: seq<Column>): (r: seq<real>)
    ensures forall x :: x in r <==> Size(x) in columns
  {
    if |columns| == 0 then []
    else (if columns[0].Size? then [columns[0].mm] else []) + Apertures(columns[1..])
  }

  predicate IsUnreadableHeader(c: Column) {
    c.Label? && c.name !in MetaColumns
  }

  /**
   * `sorted(df.columns.difference(meta).astype(float), reverse=True)`: a label
   * that is neither a meta column nor a number makes the cast raise; otherwise
   * every aperture once, largest first.
   */
  function SieveSizes(columns: seq<Column>): (r: Result<seq<real>, PsdError>)
    ensures r.Err? <==> exists c :: c in columns && IsUnreadableHeader(c)
    ensures r.Ok? ==> StrictlyDecreasing(r.value)
    ensures r.Ok? ==> forall x :: x in r.value <==> Size(x) in columns
  {
    if exists c :: c in columns && IsUnreadableHeader(c) then Err(NonNumericColumn)
    else Ok(SortDescending(Apertures(columns)))
  }

  /** The order and the set of sieves fix the result: no other list meets the contract. */
  lemma SieveSizesUnique(columns: seq<Column>, sizes: seq<real>)
    requires SieveSizes(columns).Ok?
    requires StrictlyDecreasing(sizes) && forall x :: x in sizes <==> Size(x) in columns
    ensures SieveSizes(columns).value == sizes
  {
    DescendingDetermined(SieveSizes(columns).value, sizes);
  }

  /** The number of colours in plotly's Dark24 qualitative palette. */
  const Dark24Size: nat := 24

  /** `i % len(color_list)`: the palette entry of the `i`-th curve. */
  function PaletteIndex(i: nat): (k: nat)
    ensures k < Dark24Size
    ensures i < Dark24Size ==> k == i
  {
    i % Dark24Size
  }

  /** The palette repeats after 24 curves, and any 24 consecutive curves get distinct colours. */
  lemma PaletteCycles(i: nat, j: nat)
    ensures PaletteIndex(i + Dark24Size) == PaletteIndex(i)
    ensures i < j < i + Dark24Size ==> PaletteIndex(i) != PaletteIndex(j)
  {
  }

  /** The sieve that bounds fines from above: 0.075 mm. */
  const FinesSieve: real := 0.075

  /** The sieve that bounds sand from above: 2.36 mm. */
  const SandSieve: real := 2.36

  /** One sample's contents in percent; each part is a number or NaN. */
  datatype Fractions = Fractions(gravel: Cell, sand: Cell, fines: Cell)

  /** The three cells the contents read exist and none of them is text. */
  predicate Readable(gravelSieve: real, sample: map<real, Cell>) {
    gravelSieve in sample && SandSieve in sample && FinesSieve in sample &&
    !sample[gravelSieve].Text? && !sample[SandSieve].Text? && !sample[FinesSieve].Text?
  }

  /**
   * `calculate_contents_psd` with the gravel read at `gravelSieve`:
   * gravel = 100 - p(gravelSieve), sand = p(2.36) - p(0.075), fines = p(0.075).
   * A missing sieve (KeyError) or a text cell (TypeError) is caught and gives
   * the all-None row, never a partial one.
   */
  function Contents(gravelSieve: real, sample: map<real, Cell>): (r: Option<Fractions>)
    ensures r.Some? <==> Readable(gravelSieve, sample)
    ensures r.Some? ==> r.value.fines == sample[FinesSieve]
  {
    if gravelSieve !in sample || SandSieve !in sample || FinesSieve !in sample then None
    else
      var gravel := Minus(Num(100.0), sample[gravelSieve]);
      var sand := Minus(sample[SandSieve], sample[FinesSieve]);
      if gravel.None? || sand.None? then None
      else Some(Fractions(gravel.value, sand.value, sample[FinesSieve]))
  }

  predicate AllNumbers(f: Fractions) {
    f.gravel.Num? && f.sand.Num? && f.fines.Num?
  }

  /** With numbers at the three sieves, the three parts add up to 100 - p(gravelSieve) + p(2.36). */
  lemma ContentsSum(gravelSieve: real, sample: map<real, Cell>)
    requires gravelSieve in sample && SandSieve in sample && FinesSieve in sample
    requires sample[gravelSieve].Num? && sample[SandSieve].Num? && sample[FinesSieve].Num?
    ensures Contents(gravelSieve, sample).Some?
    ensures AllNumbers(Contents(gravelSieve, sample).value)
    ensures var f := Contents(gravelSieve, sample).value;
      f.gravel.v + f.sand.v + f.fines.v == 100.0 - sample[gravelSieve].v + sample[SandSieve].v
  {
  }

  /** A NaN at a read sieve does not make the row None: it leaves a NaN in the part that reads it. */
  lemma ContentsNaN(gravelSieve: real, sample: map<real, Cell>)
    requires Readable(gravelSieve, sample)
    ensures var f := Contents(gravelSieve, sample).value;
      (f.gravel.NaN? <==> sample[gravelSieve].NaN?) &&
      (f.sand.NaN? <==> sample[SandSieve].NaN? || sample[FinesSieve].NaN?) &&
      (f.fines.NaN? <==> sample[FinesSieve].NaN?)
  {
  }

  /** A row of the PSD sheet: its meta cells and its passing percentage per sieve. */
  datatype PsdRow = PsdRow(id: string, from: Cell, to: Cell, unit: Option<string>, passing: map<real, Cell>)

  function UnitOf(x: PsdRow): Option<string> {
    x.unit
  }

  /** `df_psd[df_psd["Geology Unit"] == selected_unit]`; an empty unit cell never matches. */
  function RowsOfUnit(rows: seq<PsdRow>, unit: string): seq<PsdRow> {
    Seqs.RowsWhere(rows, UnitOf, Some(unit))
  }

  /** Every row has a cell for every sieve. */
  predicate HasSieves(rows: seq<PsdRow>, sizes: seq<real>) {
    forall k, j :: 0 <= k < |rows| && 0 <= j < |sizes| ==> sizes[j] in rows[k].passing
  }

  /** Every sheet row has a cell under every aperture header. */
  predicate RectangularSheet(rows: seq<PsdRow>, columns: seq<Column>) {
    forall k, c :: 0 <= k < |rows| && c in columns && c.Size? ==> c.mm in rows[k].passing
  }

  /** The rows of a unit have a cell for every sieve the headers name. */
  lemma UnitRowsHaveSieves(rows: seq<PsdRow>, columns: seq<Column>, unit: string)
    requires RectangularSheet(rows, columns) && SieveSizes(columns).Ok?
    ensures HasSieves(RowsOfUnit(rows, unit), SieveSizes(columns).value)
  {
    var selected := RowsOfUnit(rows, unit);
    var sizes := SieveSizes(columns).value;
    forall k, j | 0 <= k < |selected| && 0 <= j < |sizes|
      ensures sizes[j] in selected[k].passing
    {
      assert selected[k] in rows;
      var k' :| 0 <= k' < |rows| && rows[k'] == selected[k];
      assert sizes[j] in sizes;
    }
  }

  /** `row[sieve_sizes]`: one row's cells, sieve by sieve. */
  function Passing(row: PsdRow, sizes: seq<real>): (r: seq<Cell>)
    requires forall j :: 0 <= j < |sizes| ==> sizes[j] in row.passing
    ensures |r| == |sizes| && forall j :: 0 <= j < |sizes| ==> r[j] == row.passing[sizes[j]]
  {
    seq(|sizes|, j requires 0 <= j < |sizes| => row.passing[sizes[j]])
  }

  predicate HasText(cells: seq<Cell>) {
    exists j :: 0 <= j < |cells| && cells[j].Text?
  }
}
