/**
 * Lab_Results_Plotter.py: the PSD curves and contents of one geology unit, the
 * Atterberg samples of the Casagrande chart grouped by unit, and the factored
 * point load index (PLI) per rock unit.
 */
module LabResults {
  import opened Wrappers
  import opened Cells
  import Strings
  import Seqs
  import Psd

  // ---------------------------------------------------------------- PSD

  /**
   * `calculate_contents_psd` of this plotter: gravel above 2.36 mm, sand
   * between 2.36 and 0.075 mm, fines below 0.075 mm. With numbers at both
   * sieves the three parts make up the whole sample.
   */
  function CalculateContents(sample: map<real, Cell>): (r: Option<Psd.Fractions>)
    ensures r.Some? <==> Psd.Readable(Psd.SandSieve, sample)
    ensures r.Some? ==> r.value.fines == sample[Psd.FinesSieve]
    ensures r.Some? && sample[Psd.SandSieve].Num? && sample[Psd.FinesSieve].Num? ==>
      Psd.AllNumbers(r.value) && r.value.gravel.v + r.value.sand.v + r.value.fines.v == 100.0
  {
    Psd.Contents(Psd.SandSieve, sample)
  }

  /** One curve of the PSD chart: a sample's passing values against the sieve sizes. */
  datatype PsdTrace = PsdTrace(sizes: seq<real>, passing: seq<Cell>, sampleId: string, from: Cell, colour: nat)

  /**
   * The trace loop: one curve per selected row in sheet order, coloured by its
   * position. `astype(float)` raises on a text cell.
   */
  method PsdTraces(selected: seq<Psd.PsdRow>, sizes: seq<real>) returns (r: Result<seq<PsdTrace>, Psd.PsdError>)
    requires Psd.HasSieves(selected, sizes)
    ensures r.Err? <==> exists k :: 0 <= k < |selected| && Psd.HasText(Psd.Passing(selected[k], sizes))
    ensures r.Ok? ==> (|r.value| == |selected| &&
      forall k :: 0 <= k < |selected| ==>
        r.value[k] == PsdTrace(sizes, Psd.Passing(selected[k], sizes), selected[k].id, selected[k].from, Psd.PaletteIndex(k)))
  {
    var traces: seq<PsdTrace> := [];
    for i := 0 to |selected|
      invariant |traces| == i
      invariant forall k :: 0 <= k < i ==> !Psd.HasText(Psd.Passing(selected[k], sizes))
      invariant forall k :: 0 <= k < i ==>
        traces[k] == PsdTrace(sizes, Psd.Passing(selected[k], sizes), selected[k].id, selected[k].from, Psd.PaletteIndex(k))
    {
      var row := selected[i];
      var y := Psd.Passing(row, sizes);
      if Psd.HasText(y) {
        return Err(Psd.NonNumericCell);
      }
      traces := traces + [PsdTrace(sizes, y, row.id, row.from, Psd.PaletteIndex(i))];
    }
    return Ok(traces);
  }

  /**
   * `plot_psd_for_unit`: the sieve sizes, the rows of the unit and their curves;
   * the first error raised is the result.
   */
  method PlotPsdForUnit(rows: seq<Psd.PsdRow>, columns: seq<Psd.Column>, unit: string)
    returns (r: Result<seq<PsdTrace>, Psd.PsdError>)
    requires Psd.RectangularSheet(rows, columns)
    ensures Psd.SieveSizes(columns).Err? ==> r == Err(Psd.NonNumericColumn)
    ensures Psd.SieveSizes(columns).Ok? ==>
      var sizes := Psd.SieveSizes(columns).value;
      var selected := Psd.RowsOfUnit(rows, unit);
      Psd.HasSieves(selected, sizes) &&
      (r.Err? <==> exists k :: 0 <= k < |selected| && Psd.HasText(Psd.Passing(selected[k], sizes))) &&
      (r.Ok? ==> (|r.value| == |selected| &&
        forall k :: 0 <= k < |selected| ==>
          (r.value[k].passing == Psd.Passing(selected[k], sizes) && r.value[k].colour == Psd.PaletteIndex(k))))
  {
    var sizes := Psd.SieveSizes(columns);
    if sizes.Err? {
      return Err(sizes.error);
    }
    var selected := Psd.RowsOfUnit(rows, unit);
    Psd.UnitRowsHaveSieves(rows, columns, unit);
    r := PsdTraces(selected, sizes.value);
  }

  // ---------------------------------------------------------------- Atterberg limits

  /** A row of the Atterberg sheet as read: any cell may be empty. */
  datatype AtterbergRow = AtterbergRow(id: Option<string>, from: Cell, ll: Cell, pi: Cell, unit: Option<string>)

  /** A row that survives the cleaning: liquid limit and plasticity index are numbers. */
  datatype LimitsSample = LimitsSample(id: string, from: Cell, ll: real, pi: real, unit: string)

  /**
   * `dropna(subset=['ID', 'From (m)', 'LL', 'PI', 'Geology Unit'])` after the
   * two `to_numeric(errors='coerce')`: text limits count as missing.
   */
  predicate Complete(x: AtterbergRow) {
    x.id.Some? && !x.from.NaN? && ToNumeric(x.ll).Num? && ToNumeric(x.pi).Num? && x.unit.Some?
  }

  function SampleOf(x: AtterbergRow): LimitsSample
    requires Complete(x)
  {
    LimitsSample(x.id.value, x.from, ToNumeric(x.ll).v, ToNumeric(x.pi).v, x.unit.value)
  }

  /** The cleaned Atterberg rows, in sheet order. */
  function CleanAtterberg(rows: seq<AtterbergRow>): (r: seq<LimitsSample>)
    ensures |r| <= |rows|
    ensures forall s :: s in r <==> exists x :: x in rows && Complete(x) && s == SampleOf(x)
  {
    if |rows| == 0 then []
    else
      var rest := CleanAtterberg(rows[1..]);
      assert forall x :: x in rows <==> x == rows[0] || x in rows[1..];
      (if Complete(rows[0]) then [SampleOf(rows[0])] else []) + rest
  }

  function SampleUnit(s: LimitsSample): string {
    s.unit
  }

  function SampleUnits(samples: seq<LimitsSample>): (r: seq<string>)
    ensures |r| == |samples| && forall k :: 0 <= k < |samples| ==> r[k] == samples[k].unit
  {
    seq(|samples|, k requires 0 <= k < |samples| => samples[k].unit)
  }

  /** `df_atterberg['Geology Unit'].unique()`: the choices of the unit selector. */
  function AtterbergUnits(samples: seq<LimitsSample>): seq<string> {
    Seqs.Unique(SampleUnits(samples))
  }

  /** `df[df['Geology Unit'].isin(selected_units)]`. */
  function SelectUnits(samples: seq<LimitsSample>, selected: seq<string>): (r: seq<LimitsSample>)
    ensures forall s :: s in r <==> s in samples && s.unit in selected
  {
    if |samples| == 0 then []
    else (if samples[0].unit in selected then [samples[0]] else []) + SelectUnits(samples[1..], selected)
  }

  /**
   * After the cleaning and the unit filter, every sample comes from a row with
   * an ID, a From depth, numeric limits and a unit, and its unit is selected.
   */
  lemma FilteredSamplesAreComplete(rows: seq<AtterbergRow>, selected: seq<string>)
    ensures forall s :: s in SelectUnits(CleanAtterberg(rows), selected) ==>
      s.unit in selected &&
      exists x :: x in rows && Complete(x) && x.id == Some(s.id) && x.unit == Some(s.unit) &&
        ToNumeric(x.ll) == Num(s.ll) && ToNumeric(x.pi) == Num(s.pi)
  {
  }

  /** `df_filtered[df_filtered['Geology Unit'] == unit]`. */
  function SamplesOfUnit(samples: seq<LimitsSample>, unit: string): (r: seq<LimitsSample>)
    ensures forall s :: s in r <==> s in samples && s.unit == unit
  {
    if |samples| == 0 then []
    else (if samples[0].unit == unit then [samples[0]] else []) + SamplesOfUnit(samples[1..], unit)
  }

  /** One scatter of the chart: a unit's samples, LL against PI, labelled by ID. */
  datatype UnitTrace = UnitTrace(name: string, samples: seq<LimitsSample>)

  /**
   * The loop over the selected units: one scatter per unit, in selection order.
   * `unit` is the loop variable as it stands after the loop: unbound (None)
   * when the loop never ran, else the unit of the last scatter drawn.
   */
  method UnitTraces(filtered: seq<LimitsSample>, selected: seq<string>)
    returns (traces: seq<UnitTrace>, unit: Option<string>)
    ensures |traces| == |selected|
    ensures forall k :: 0 <= k < |selected| ==> traces[k] == UnitTrace(selected[k], SamplesOfUnit(filtered, selected[k]))
    ensures unit.None? <==> traces == []
    ensures unit.Some? ==> traces != [] && unit.value == traces[|traces| - 1].name
  {
    traces := [];
    unit := None;
    for i := 0 to |selected|
      invariant |traces| == i
      invariant forall k :: 0 <= k < i ==> traces[k] == UnitTrace(selected[k], SamplesOfUnit(filtered, selected[k]))
      invariant unit.None? <==> i == 0
      invariant unit.Some? ==> i > 0 && unit.value == selected[i - 1]
    {
      unit := Some(selected[i]);
      traces := traces + [UnitTrace(selected[i], SamplesOfUnit(filtered, selected[i]))];
    }
  }

  /** The positions of the scatters that hold `s`. */
  function TracesHolding(traces: seq<UnitTrace>, s: LimitsSample): set<nat> {
    set k: nat | k < |traces| && s in traces[k].samples
  }

  /** With no unit selected twice, every filtered sample lies in exactly one scatter. */
  lemma EachSampleInOneTrace(filtered: seq<LimitsSample>, selected: seq<string>, traces: seq<UnitTrace>, s: LimitsSample)
    requires Seqs.NoDuplicates(selected)
    requires |traces| == |selected|
    requires forall k :: 0 <= k < |selected| ==> traces[k] == UnitTrace(selected[k], SamplesOfUnit(filtered, selected[k]))
    requires s in SelectUnits(filtered, selected)
    ensures TracesHolding(traces, s) == {Seqs.FirstIndex(selected, s.unit)}
  {
    var k0 := Seqs.FirstIndex(selected, s.unit);
    forall k: nat | k < |traces|
      ensures s in traces[k].samples <==> k == k0
    {
    }
  }

  /** The f-string the chart title is formatted from. */
  const TitlePrefix: string := "Casagrande Plasticity Chart - "

  /** The scatters and the title of the Casagrande chart. */
  datatype AtterbergChart = AtterbergChart(traces: seq<UnitTrace>, title: string)

  /** Raised by the chart: the title refers to a unit, but no unit was selected. */
  datatype ChartError = NoUnitSelected

  /**
   * `plot_atterberg_limits_chart_plotly` for the units the user keeps selected
   * (`selected` is a choice among the units of the cleaned rows, each at most once).
   */
  method PlotAtterbergLimits(rows: seq<AtterbergRow>, selected: seq<string>)
    returns (r: Result<AtterbergChart, ChartError>)
    requires forall u :: u in selected ==> u in AtterbergUnits(CleanAtterberg(rows))
    requires Seqs.NoDuplicates(selected)
    ensures r.Err? <==> selected == []
    ensures r.Ok? ==>
      var filtered := SelectUnits(CleanAtterberg(rows), selected);
      |r.value.traces| == |selected| &&
      (forall k :: 0 <= k < |selected| ==>
        r.value.traces[k] == UnitTrace(selected[k], SamplesOfUnit(filtered, selected[k]))) &&
      (forall s :: s in filtered ==> TracesHolding(r.value.traces, s) == {Seqs.FirstIndex(selected, s.unit)})
    ensures r.Ok? ==>
      r.value.traces != [] &&
      r.value.title == TitlePrefix + r.value.traces[|r.value.traces| - 1].name &&
      r.value.title == TitlePrefix + selected[|selected| - 1]
  {
    var filtered := SelectUnits(CleanAtterberg(rows), selected);
    var traces, unit := UnitTraces(filtered, selected);
    if unit.None? {
      return Err(NoUnitSelected);
    }
    forall s | s in filtered
      ensures TracesHolding(traces, s) == {Seqs.FirstIndex(selected, s.unit)}
    {
      EachSampleInOneTrace(filtered, selected, traces, s);
    }
    return Ok(AtterbergChart(traces, TitlePrefix + unit.value));
  }

  // ---------------------------------------------------------------- Factored PLI

  /** A row of the Rock Results sheet: its unit and its corrected Is(50) in MPa. */
  datatype RockRow = RockRow(unit: Option<string>, is50: Cell)

  function RockUnitCells(rows: seq<RockRow>): seq<string> {
    if |rows| == 0 then []
    else (if rows[0].unit.Some? then [rows[0].unit.value] else []) + RockUnitCells(rows[1..])
  }

  /** `df_rock["Geology Unit"].dropna().unique()`. */
  function RockUnits(rows: seq<RockRow>): (r: seq<string>)
    ensures Seqs.NoDuplicates(r)
    ensures forall u :: u in r <==> exists x :: x in rows && x.unit == Some(u)
  {
    RockUnitsHaveRows(rows);
    Seqs.Unique(RockUnitCells(rows))
  }

  lemma {:induction false} RockUnitsHaveRows(rows: seq<RockRow>)
    ensures forall u :: u in RockUnitCells(rows) <==> exists x :: x in rows && x.unit == Some(u)
  {
    if |rows| > 0 {
      RockUnitsHaveRows(rows[1..]);
      assert forall x :: x in rows <==> x == rows[0] || x in rows[1..];
    }
  }

  /** The default of each factor input. */
  const DefaultFactor: real := 1.0

  /** The factor of `unit`: what the user entered, else the default. */
  function Factor(entered: map<string, real>, unit: string): real {
    if unit in entered then entered[unit] else DefaultFactor
  }

  /**
   * The factor inputs, one per unit in `units` (the sorted rock units): the
   * value the user entered (the widget allows no negative value), else 1.0.
   */
  method EnterFactors(units: seq<string>, entered: map<string, real>) returns (factors: map<string, real>)
    requires forall u :: u in entered ==> entered[u] >= 0.0
    ensures forall u :: u in factors <==> u in units
    ensures forall u :: u in factors ==> factors[u] == Factor(entered, u)
    ensures forall u :: u in factors ==> factors[u] >= 0.0
  {
    factors := map[];
    for i := 0 to |units|
      invariant forall u :: u in factors <==> u in units[..i]
      invariant forall u :: u in factors ==> factors[u] == Factor(entered, u)
    {
      var unit := units[i];
      var factor := if unit in entered then entered[unit] else DefaultFactor;
      factors := factors[unit := factor];
      assert units[..i + 1] == units[..i] + [unit];
    }
    assert units[..|units|] == units;
  }

  function RockUnitOf(x: RockRow): Option<string> {
    x.unit
  }

  /** `df_rock[df_rock["Geology Unit"] == unit]`. */
  function RockRowsOfUnit(rows: seq<RockRow>, unit: string): seq<RockRow> {
    Seqs.RowsWhere(rows, RockUnitOf, Some(unit))
  }

  /** Raised by the factored column: a text Is(50) cell cannot be multiplied. */
  datatype RockError = NonNumericStrength

  /** `unit_df["Is(50) corrected (MPa)"] * factor`, row by row. */
  function FactoredPli(unitRows: seq<RockRow>, factor: real): (r: Result<seq<Cell>, RockError>)
    ensures r.Err? <==> exists x :: x in unitRows && x.is50.Text?
    ensures r.Ok? ==> (|r.value| == |unitRows| &&
      forall k :: 0 <= k < |unitRows| ==> Some(r.value[k]) == Times(unitRows[k].is50, factor))
  {
    if |unitRows| == 0 then Ok([])
    else
      var head := Times(unitRows[0].is50, factor);
      var rest := FactoredPli(unitRows[1..], factor);
      assert forall x :: x in unitRows <==> x == unitRows[0] || x in unitRows[1..];
      if head.None? then Err(NonNumericStrength)
      else if rest.Err? then Err(rest.error)
      else Ok([head.value] + rest.value)
  }

  /** A non-negative factor keeps non-negative strengths non-negative, and the default 1.0 changes nothing. */
  lemma FactoredPliProperties(unitRows: seq<RockRow>, factor: real)
    requires FactoredPli(unitRows, factor).Ok?
    ensures factor >= 0.0 ==> forall k :: 0 <= k < |unitRows| && unitRows[k].is50.Num? && unitRows[k].is50.v >= 0.0 ==>
      FactoredPli(unitRows, factor).value[k].Num? && FactoredPli(unitRows, factor).value[k].v >= 0.0
    ensures factor == DefaultFactor ==> forall k :: 0 <= k < |unitRows| ==> FactoredPli(unitRows, factor).value[k] == unitRows[k].is50
  {
    var r := FactoredPli(unitRows, factor).value;
    forall k | 0 <= k < |unitRows|
      ensures !unitRows[k].is50.Text?
    {
      assert unitRows[k] in unitRows;
    }
  }

  /** When every unit's column is readable, no row with a unit holds a text strength. */
  lemma AllColumnsReadable(rows: seq<RockRow>, entered: map<string, real>, columns: seq<seq<Cell>>)
    requires |columns| == |RockUnits(rows)|
    requires forall k :: 0 <= k < |columns| ==>
      FactoredPli(RockRowsOfUnit(rows, RockUnits(rows)[k]), Factor(entered, RockUnits(rows)[k])) == Ok(columns[k])
    ensures forall x :: x in rows && x.unit.Some? ==> !x.is50.Text?
  {
    var units := RockUnits(rows);
    forall x | x in rows && x.unit.Some?
      ensures !x.is50.Text?
    {
      var u := x.unit.value;
      assert u in units;
      var k :| 0 <= k < |units| && units[k] == u;
      assert x in RockRowsOfUnit(rows, u);
    }
  }

  /** A unit's column that raises points at a text strength among rows with a unit. */
  lemma ColumnErrorHasText(rows: seq<RockRow>, unit: string, factor: real)
    requires FactoredPli(RockRowsOfUnit(rows, unit), factor).Err?
    ensures exists x :: x in rows && x.unit.Some? && x.is50.Text?
  {
    var x :| x in RockRowsOfUnit(rows, unit) && x.is50.Text?;
    assert x in rows && x.unit.Some?;
  }

  /** The loop over the units: the factored column of each, until one raises. */
  method FactoredColumns(rows: seq<RockRow>, units: seq<string>, factors: map<string, real>)
    returns (r: Result<seq<seq<Cell>>, RockError>)
    requires forall u :: u in units ==> u in factors
    ensures r.Err? ==> exists x :: x in rows && x.unit.Some? && x.is50.Text?
    ensures r.Ok? ==> (|r.value| == |units| &&
      forall k :: 0 <= k < |units| ==> FactoredPli(RockRowsOfUnit(rows, units[k]), factors[units[k]]) == Ok(r.value[k]))
  {
    var columns: seq<seq<Cell>> := [];
    for i := 0 to |units|
      invariant |columns| == i
      invariant forall k :: 0 <= k < i ==> FactoredPli(RockRowsOfUnit(rows, units[k]), factors[units[k]]) == Ok(columns[k])
    {
      var unit := units[i];
      var column := FactoredPli(RockRowsOfUnit(rows, unit), factors[unit]);
      if column.Err? {
        ColumnErrorHasText(rows, unit, factors[unit]);
        return Err(column.error);
      }
      columns := columns + [column.value];
    }
    return Ok(columns);
  }

  /**
   * The "Factored PLI and UCS" branch of `main`: the factors of the sorted rock
   * units, then the factored column of each unit in order of first appearance.
   * Every unit finds its factor. A text cell raises, and `main` reports it.
   */
  method FactoredPliByUnit(rows: seq<RockRow>, entered: map<string, real>)
    returns (r: Result<seq<seq<Cell>>, RockError>)
    requires forall u :: u in entered ==> entered[u] >= 0.0
    ensures r.Err? <==> exists x :: x in rows && x.unit.Some? && x.is50.Text?
    ensures r.Ok? ==> (|r.value| == |RockUnits(rows)| &&
      forall k :: 0 <= k < |r.value| ==>
        (Factor(entered, RockUnits(rows)[k]) >= 0.0 &&
         FactoredPli(RockRowsOfUnit(rows, RockUnits(rows)[k]), Factor(entered, RockUnits(rows)[k])) == Ok(r.value[k])))
  {
    var units := RockUnits(rows);
    var factors := EnterFactors(Strings.SortedUnique(units), entered);
    r := FactoredColumns(rows, units, factors);
    if r.Ok? {
      AllColumnsReadable(rows, entered, r.value);
    }
  }
}
