/**
 * Soil_Result_Plotting.py: the earlier soil plotter. Its PSD chart draws one
 * curve per sample ID, the mean of that ID's rows at each sieve, and its
 * contents read the gravel at the 4.75 mm sieve rather than at 2.36 mm.
 */
module SoilResults {
  import opened Wrappers
  import opened Cells
  import Strings
  import Seqs
  import Psd

  /** The sieve this plotter reads the gravel at. */
  const GravelSieve: real := 4.75

  /**
   * `calculate_contents_psd` as this plotter writes it: gravel = 100 - p(4.75),
   * sand = p(2.36) - p(0.075), fines = p(0.075). With numbers at the three
   * sieves the parts make up 100 exactly when nothing is retained between
   * 4.75 and 2.36 mm.
   */
  function CalculateContents(sample: map<real, Cell>): (r: Option<Psd.Fractions>)
    ensures r.Some? <==> Psd.Readable(GravelSieve, sample)
    ensures r.Some? ==> r.value.fines == sample[Psd.FinesSieve]
    ensures r.Some? && sample[GravelSieve].Num? && sample[Psd.SandSieve].Num? && sample[Psd.FinesSieve].Num? ==>
      Psd.AllNumbers(r.value) &&
      (r.value.gravel.v + r.value.sand.v + r.value.fines.v == 100.0 <==> sample[GravelSieve].v == sample[Psd.SandSieve].v)
  {
    Psd.Contents(GravelSieve, sample)
  }

  /**
   * A sample with 90 % passing 4.75 mm, 80 % passing 2.36 mm and 10 % passing
   * 0.075 mm gets 10 % gravel, 70 % sand and 10 % fines: 10 % of the sample,
   * the part between 2.36 and 4.75 mm, is in no class.
   */
  lemma ContentsMissTheFineGravel()
    ensures var sample := map[4.75 := Num(90.0), 2.36 := Num(80.0), 0.075 := Num(10.0)];
      var r := CalculateContents(sample);
      r == Some(Psd.Fractions(Num(10.0), Num(70.0), Num(10.0))) &&
      r.value.gravel.v + r.value.sand.v + r.value.fines.v == 90.0
  {
    var sample := map[4.75 := Num(90.0), 2.36 := Num(80.0), 0.075 := Num(10.0)];
    assert GravelSieve in sample && Psd.SandSieve in sample && Psd.FinesSieve in sample;
  }

  // ---------------------------------------------------------------- mean curves

  /** The numbers among the cells, in order, each as often as it occurs. */
  function Numbers(cells: seq<Cell>): (r: seq<real>)
    ensures |r| <= |cells|
    ensures forall x :: x in r <==> Num(x) in cells
    ensures forall x {:trigger multiset(r)[x]} :: multiset(r)[x] == multiset(cells)[Num(x)]
  {
    if |cells| == 0 then []
    else
      var rest := Numbers(cells[1..]);
      assert cells == [cells[0]] + cells[1..];
      assert forall c :: c in cells <==> c == cells[0] || c in cells[1..];
      (if cells[0].Num? then [cells[0].v] else []) + rest
  }

  function Sum(xs: seq<real>): real {
    if |xs| == 0 then 0.0 else xs[0] + Sum(xs[1..])
  }

  /** `mean()` of a column of cells: NaN is skipped, and with no number left the mean is NaN. */
  function MeanCell(cells: seq<Cell>): (r: Cell)
    ensures !r.Text?
    ensures r.NaN? <==> forall c :: c in cells ==> !c.Num?
  {
    var xs := Numbers(cells);
    if |xs| == 0 then NaN
    else
      assert xs[0] in xs;
      Num(Sum(xs) / |xs| as real)
  }

  lemma {:induction false} SumWithin(xs: seq<real>, lo: real, hi: real)
    requires forall x :: x in xs ==> lo <= x <= hi
    ensures lo * |xs| as real <= Sum(xs) <= hi * |xs| as real
  {
    if |xs| > 0 {
      assert xs[0] in xs;
      assert forall x :: x in xs[1..] ==> x in xs;
      SumWithin(xs[1..], lo, hi);
    }
  }

  lemma ScaleStrict(a: real, b: real, n: real)
    requires a < b && n > 0.0
    ensures a * n < b * n
  {
  }

  lemma DivideWithin(total: real, n: real, lo: real, hi: real)
    requires n > 0.0 && lo * n <= total <= hi * n
    ensures lo <= total / n <= hi
  {
    var m := total / n;
    assert m * n == total;
    if m < lo {
      ScaleStrict(m, lo, n);
    }
    if hi < m {
      ScaleStrict(hi, m, n);
    }
  }

  /** The mean of values within [lo, hi] lies within [lo, hi]. */
  lemma MeanWithin(cells: seq<Cell>, lo: real, hi: real)
    requires forall c :: c in cells && c.Num? ==> lo <= c.v <= hi
    ensures MeanCell(cells).Num? ==> lo <= MeanCell(cells).v <= hi
  {
    var xs := Numbers(cells);
    if |xs| > 0 {
      SumWithin(xs, lo, hi);
      DivideWithin(Sum(xs), |xs| as real, lo, hi);
    }
  }

  /** Every row has a cell at this sieve. */
  predicate HasSieve(rows: seq<Psd.PsdRow>, size: real) {
    forall k :: 0 <= k < |rows| ==> size in rows[k].passing
  }

  function SampleIdOf(x: Psd.PsdRow): string {
    x.id
  }

  /** The rows of sample `id`: the group `groupby('ID')` forms for it. */
  function SampleRows(rows: seq<Psd.PsdRow>, id: string): seq<Psd.PsdRow> {
    Seqs.RowsWhere(rows, SampleIdOf, id)
  }

  /**
   * The cells of sample `id`'s rows at one sieve: the column `groupby('ID')`
   * averages, one cell per row of the sample, each row counted as often as it occurs.
   */
  function GroupCells(rows: seq<Psd.PsdRow>, id: string, size: real): (r: seq<Cell>)
    requires HasSieve(rows, size)
    ensures forall c :: c in r ==> exists k :: 0 <= k < |rows| && rows[k].id == id && rows[k].passing[size] == c
    ensures forall k :: 0 <= k < |rows| && rows[k].id == id ==> rows[k].passing[size] in r
  {
    if |rows| == 0 then []
    else
      var rest := GroupCells(rows[1..], id, size);
      assert forall c :: c in rest ==> exists k :: 1 <= k < |rows| && rows[k].id == id && rows[k].passing[size] == c by {
        forall c | c in rest
          ensures exists k :: 1 <= k < |rows| && rows[k].id == id && rows[k].passing[size] == c
        {
          var k :| 0 <= k < |rows[1..]| && rows[1..][k].id == id && rows[1..][k].passing[size] == c;
          assert rows[k + 1] == rows[1..][k];
        }
      }
      assert forall k :: 1 <= k < |rows| ==> rows[k] == rows[1..][k - 1];
      (if rows[0].id == id then [rows[0].passing[size]] else []) + rest
  }

  /**
   * A group holds one cell per row of the sample, in sheet order, so each row
   * of the sample weighs in its mean as often as it occurs.
   */
  lemma {:induction false} GroupCellsPerSampleRow(rows: seq<Psd.PsdRow>, id: string, size: real)
    requires HasSieve(rows, size)
    ensures |GroupCells(rows, id, size)| == |SampleRows(rows, id)|
    ensures forall k :: 0 <= k < |SampleRows(rows, id)| ==>
      SampleRows(rows, id)[k] in rows && size in SampleRows(rows, id)[k].passing &&
      GroupCells(rows, id, size)[k] == SampleRows(rows, id)[k].passing[size]
  {
    if |rows| > 0 {
      assert HasSieve(rows[1..], size) by {
        forall k | 0 <= k < |rows[1..]| ensures size in rows[1..][k].passing {
          assert rows[1..][k] == rows[k + 1];
        }
      }
      GroupCellsPerSampleRow(rows[1..], id, size);
      var rest := GroupCells(rows[1..], id, size);
      var tail := SampleRows(rows[1..], id);
      assert size in rows[0].passing;
      if rows[0].id == id {
        assert SampleRows(rows, id) == [rows[0]] + tail;
        assert GroupCells(rows, id, size) == [rows[0].passing[size]] + rest;
        ConsCorrespondence(rows, rows[0], tail, rows[0].passing[size], rest, size);
      } else {
        assert SampleRows(rows, id) == tail;
        assert GroupCells(rows, id, size) == rest;
        assert forall x :: x in rows[1..] ==> x in rows;
      }
    }
  }

  /** Putting a row and its cell in front keeps the row-to-cell correspondence. */
  lemma ConsCorrespondence(rows: seq<Psd.PsdRow>, a: Psd.PsdRow, tail: seq<Psd.PsdRow>, c: Cell, rest: seq<Cell>, size: real)
    requires |rest| == |tail| && a in rows && size in a.passing && c == a.passing[size]
    requires forall x :: x in tail ==> x in rows
    requires forall k :: 0 <= k < |tail| ==> size in tail[k].passing && rest[k] == tail[k].passing[size]
    ensures forall k :: 0 <= k < |tail| + 1 ==>
      ([a] + tail)[k] in rows && size in ([a] + tail)[k].passing && ([c] + rest)[k] == ([a] + tail)[k].passing[size]
  {
    forall k | 0 <= k < |tail| + 1
      ensures ([a] + tail)[k] in rows && size in ([a] + tail)[k].passing && ([c] + rest)[k] == ([a] + tail)[k].passing[size]
    {
      if k > 0 {
        assert ([a] + tail)[k] == tail[k - 1];
        assert ([c] + rest)[k] == rest[k - 1];
      }
    }
  }

  /** The mean curve of sample `id`: one mean per sieve, in sieve order. */
  function GroupMeans(rows: seq<Psd.PsdRow>, id: string, sizes: seq<real>): (r: seq<Cell>)
    requires Psd.HasSieves(rows, sizes)
    ensures |r| == |sizes|
  {
    seq(|sizes|, j requires 0 <= j < |sizes| && Psd.HasSieves(rows, sizes) => MeanCell(GroupCells(rows, id, sizes[j])))
  }

  /** Passing percentages stay percentages under the mean. */
  lemma GroupMeansArePercentages(rows: seq<Psd.PsdRow>, id: string, sizes: seq<real>)
    requires Psd.HasSieves(rows, sizes)
    requires forall k, j :: 0 <= k < |rows| && 0 <= j < |sizes| && rows[k].passing[sizes[j]].Num? ==>
      0.0 <= rows[k].passing[sizes[j]].v <= 100.0
    ensures forall j :: 0 <= j < |sizes| && GroupMeans(rows, id, sizes)[j].Num? ==>
      0.0 <= GroupMeans(rows, id, sizes)[j].v <= 100.0
  {
    forall j | 0 <= j < |sizes|
      ensures GroupMeans(rows, id, sizes)[j] == MeanCell(GroupCells(rows, id, sizes[j]))
      ensures MeanCell(GroupCells(rows, id, sizes[j])).Num? ==> 0.0 <= MeanCell(GroupCells(rows, id, sizes[j])).v <= 100.0
    {
      MeanWithin(GroupCells(rows, id, sizes[j]), 0.0, 100.0);
    }
  }

  /** `mean()` raises on a text cell in a sieve column. */
  predicate AnyText(rows: seq<Psd.PsdRow>, sizes: seq<real>)
    requires Psd.HasSieves(rows, sizes)
  {
    exists k, j :: 0 <= k < |rows| && 0 <= j < |sizes| && rows[k].passing[sizes[j]].Text?
  }

  function SampleIds(rows: seq<Psd.PsdRow>): (r: seq<string>)
    ensures |r| == |rows| && forall k :: 0 <= k < |rows| ==> r[k] == rows[k].id
  {
    seq(|rows|, k requires 0 <= k < |rows| => rows[k].id)
  }

  /** The IDs `groupby` forms groups for, in its sorted order. */
  function GroupIds(rows: seq<Psd.PsdRow>): seq<string> {
    Strings.SortedUnique(SampleIds(rows))
  }

  /** One curve of this chart: the mean passing values of one sample ID. */
  datatype MeanTrace = MeanTrace(sizes: seq<real>, means: seq<Cell>, sampleId: string, colour: nat)

  /**
   * The grouped means and the trace loop over the groups: one curve per
   * sample ID in sorted order, coloured by its position.
   */
  method PsdTraces(selected: seq<Psd.PsdRow>, sizes: seq<real>) returns (r: Result<seq<MeanTrace>, Psd.PsdError>)
    requires Psd.HasSieves(selected, sizes)
    ensures r.Err? <==> AnyText(selected, sizes)
    ensures r.Ok? ==> (|r.value| == |GroupIds(selected)| &&
      forall k :: 0 <= k < |r.value| ==>
        r.value[k] == MeanTrace(sizes, GroupMeans(selected, GroupIds(selected)[k], sizes), GroupIds(selected)[k], Psd.PaletteIndex(k)))
  {
    if AnyText(selected, sizes) {
      return Err(Psd.NonNumericCell);
    }
    var ids := GroupIds(selected);
    var traces: seq<MeanTrace> := [];
    for i := 0 to |ids|
      invariant |traces| == i
      invariant forall k :: 0 <= k < i ==>
        traces[k] == MeanTrace(sizes, GroupMeans(selected, ids[k], sizes), ids[k], Psd.PaletteIndex(k))
    {
      ghost var previous := traces;
      var trace := MeanTrace(sizes, GroupMeans(selected, ids[i], sizes), ids[i], Psd.PaletteIndex(i));
      traces := traces + [trace];
      assert traces[i] == trace && forall k :: 0 <= k < i ==> traces[k] == previous[k];
    }
    return Ok(traces);
  }

  /** Every sample ID has its curve, exactly one, and the curves come in increasing ID order. */
  lemma OneCurvePerId(selected: seq<Psd.PsdRow>)
    ensures forall x :: x in selected ==> x.id in GroupIds(selected)
    ensures forall i, j :: (0 <= i < |GroupIds(selected)| && 0 <= j < |GroupIds(selected)| &&
      GroupIds(selected)[i] == GroupIds(selected)[j]) ==> i == j
    ensures Strings.StrictlyIncreasing(GroupIds(selected))
  {
    var ids := SampleIds(selected);
    forall x | x in selected
      ensures x.id in GroupIds(selected)
    {
      var k :| 0 <= k < |selected| && selected[k] == x;
      assert ids[k] == x.id;
    }
    Strings.StrictlyIncreasingHasNoDuplicates(GroupIds(selected));
  }

  /** `plot_psd_for_unit` of this plotter: the sieve sizes, the rows of the unit and their mean curves. */
  method PlotPsdForUnit(rows: seq<Psd.PsdRow>, columns: seq<Psd.Column>, unit: string)
    returns (r: Result<seq<MeanTrace>, Psd.PsdError>)
    requires Psd.RectangularSheet(rows, columns)
    ensures Psd.SieveSizes(columns).Err? ==> r == Err(Psd.NonNumericColumn)
    ensures Psd.SieveSizes(columns).Ok? ==>
      var sizes := Psd.SieveSizes(columns).value;
      var selected := Psd.RowsOfUnit(rows, unit);
      Psd.HasSieves(selected, sizes) &&
      (r.Err? <==> AnyText(selected, sizes)) &&
      (r.Ok? ==> (|r.value| == |GroupIds(selected)| &&
        forall k :: 0 <= k < |r.value| ==>
          (r.value[k].sampleId == GroupIds(selected)[k] &&
           r.value[k].means == GroupMeans(selected, GroupIds(selected)[k], sizes))))
  {
    var sizes := Psd.SieveSizes(columns);
    if sizes.Err? {
      return Err(sizes.error);
    }
    var selected := Psd.RowsOfUnit(rows, unit);
    Psd.UnitRowsHaveSieves(rows, columns, unit);
    r := PsdTraces(selected, sizes.value);
  }
}
