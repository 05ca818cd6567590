# Borehole stratigraphy and soil classification, modelled in Dafny

This project models the computing core of a Streamlit tool for ground
investigation (GI) data.

**Borehole stratigraphy.** Two revisions of `plot_borehole_stratigraphy`
turn strata rows (PointID, Depth, Bottom, Geology unit) and borehole points
(PointID, East, North, Elevation) into vertical 3D line segments.
- Both revisions join the strata to the points on PointID, turn depths into
  elevations, give each unit a colour, and give the first segment of each unit
  a legend entry.
- The later revision first splits the rows into main layers and sub-layers.
  It then drops every main layer lying wholly inside a sub-layer of its
  borehole, and afterwards shows only the selected boreholes.
- That revision also joins the moisture samples to their boreholes for a heat
  map.

**Soil classification.** Two lab-result plotters share some arithmetic:
- the gravel, sand and fines contents of a particle size distribution (PSD)
  sample;
- the order of the sieve columns;
- the palette index of each curve;
- the A-line and U-line of the Casagrande plasticity chart, with its fixed
  breakpoints.

The lab plotter also filters Atterberg-limit rows by geology unit. It
multiplies point-load strength indices (Is(50)) by a factor chosen per unit,
which gives the factored PLI.

Modules:
- `Wrappers`: `Option` and `Result`.
- `Strings`: Python's string order, `sorted(set(...))`, ASCII `upper()`, and `%0Nx` hex formatting.
- `Seqs`: `unique()` in first-appearance order, and flattening.
- `GiData`: the first revision (`Visualising_GI_Data.py`). It holds the inner join, elevations, colour map, legend flags and traces.
- `GiDataRev1`: the second revision (`Visualising_GI_Data_Rev1.py`). It holds the main/sub split, nested-layer removal, visibility filter and moisture join.
- `Cells`: a spreadsheet cell. It is a number, NaN, or text that is not a number. The module also holds the Python arithmetic applied to cells.
- `Psd`: the PSD arithmetic both plotters share.
- `Casagrande`: the chart lines.
- `LabResults`: `Lab_Results_Plotter.py`.
- `SoilResults`: `Soil_Result_Plotting.py`.

Loops that fill a list or a dict in the source are methods with loop
invariants, proved against specification functions. These are:
- the colour map;
- the trace loops;
- the per-borehole nested-layer loop and its inner loop;
- the factor inputs;
- the factored-PLI columns;
- the PSD and Atterberg trace loops.

Inputs come in as parameters:
- the parsed rows;
- Python's `hash`, as an uninterpreted function;
- the colours the user picked;
- the "Select All" box and the borehole ticks;
- the selected units;
- the entered factors.

## Model

| member | source | states |
|---|---|---|
| GiData.PointsWithId | Visualising_GI_Data.py:78 | The points a PointID matches are exactly the points carrying that PointID. |
| GiData.Merge | Visualising_GI_Data.py:78 | Every row of the inner join pairs a strata row with a point of the same PointID, both taken from the inputs, so no row is fabricated. |
| GiData.MergeJoinsEveryMatch | Visualising_GI_Data.py:78 | Every strata row is joined with every point of its PointID, whether or not PointIDs repeat. |
| GiData.PointsWithUniqueId | Visualising_GI_Data.py:78 | When PointIDs are unique, a PointID matches a single point, or none when it is absent. |
| GiData.PointsWithIdAt | Visualising_GI_Data.py:78 | When PointIDs are unique, the point at position i is the only match for its PointID. |
| GiData.NoOtherPoint | Visualising_GI_Data.py:78 | A PointID that no point carries matches nothing. |
| GiData.MergeKeepsMatchedRows | Visualising_GI_Data.py:78 | With PointID a key of the points, the join keeps exactly the strata rows that have a point, in their original order. The rows without a point are dropped, and kept plus dropped rows make up the whole input. |
| GiData.Georeference | Visualising_GI_Data.py:81-82 | Top elevation = Elevation − Depth. Top minus bottom elevation equals Bottom − Depth, so a layer with Depth < Bottom has its top above its bottom. |
| GiData.AddElevations | Visualising_GI_Data.py:81-82 | Each joined row gets its elevations, one segment per row, in order. |
| GiData.SegmentsComeFromStrata | Visualising_GI_Data.py:78-82 | Every segment belongs to an input strata row and sits on a point of that row's PointID, and its thickness is Bottom − Depth. |
| GiData.TwoLayerExample | Visualising_GI_Data.py:78-82 | Sand at 0-2 m over clay at 2-5 m at a borehole 100 m high gives segments 100→98 and 98→95. |
| Strings.SortedUnique | Visualising_GI_Data.py:88 | `sorted(...unique())` gives a strictly increasing list with exactly the input's strings in it. |
| Strings.StrictlyIncreasingHasNoDuplicates | Visualising_GI_Data.py:88 | A strictly increasing list has no duplicates. |
| Strings.StrictlyIncreasingDetermined | Visualising_GI_Data.py:88 | Two strictly increasing lists with the same elements are equal, so the sorted unit list is unique. |
| Strings.LessIsStrictTotalOrder | Visualising_GI_Data.py:88 | Python's code-point order on strings is irreflexive, transitive and total. |
| Strings.ParseHexOfHex | Visualising_GI_Data.py:94 | Reading back the hex digits written for n < 16^w gives n again. |
| GiData.DefaultColour | Visualising_GI_Data.py:94 | `"#%06x" % (hash(unit) % 0xFFFFFF)` is `#` followed by exactly six lowercase hex digits, whose value is hash(unit) mod 0xFFFFFF and at most 0xFFFFFE. |
| GiData.BuildColourMap | Visualising_GI_Data.py:91-94 | The colour dict has a key for exactly the units given. Each value is the colour the user picked, or else the default colour. |
| GiData.LegendFlagsExactlyOnce | Visualising_GI_Data.py:98-107 | Every unit gets its legend flag on exactly one segment, the one where the unit first appears. |
| GiData.LegendExample | Visualising_GI_Data.py:98-107 | Segments of units A, B, A, C, B get the legend flags on, on, off, on, off. |
| GiData.LegendListsUnitsOnce | Visualising_GI_Data.py:98-114 | When traces are named by unit and carry the first-seen legend flags, the figure's legend (the names of the traces with `showlegend` set, in trace order) is the distinct units in first-appearance order. |
| GiData.BuildTraces | Visualising_GI_Data.py:97-114 | The trace loop gives one vertical trace per segment: x=[E,E], y=[N,N], z=[top, bottom]. Each trace has its unit's colour, the given width and the first-seen legend flag. The legend lists each unit of the segments once, in the order the units are first drawn. |
| GiData.PlotBoreholeStratigraphy | Visualising_GI_Data.py:72-114 | One trace per joined strata row, drawn with the picked or default colour at width 5. The colour lookup always succeeds. The legend lists each joined unit once, in first-drawn order. |
| Strings.IsTrueTextSpelling | Visualising_GI_Data_Rev1.py:78-79 | `str(x).upper() == "TRUE"` holds exactly for the four letters t, r, u, e in any case. |
| GiDataRev1.MainLayers | Visualising_GI_Data_Rev1.py:78 | A row is a main layer exactly when its flag is missing or does not read TRUE. |
| GiDataRev1.SubLayers | Visualising_GI_Data_Rev1.py:79 | A row is a sub-layer exactly when its flag reads TRUE in any case. |
| GiDataRev1.MainIffNotSub | Visualising_GI_Data_Rev1.py:78-79 | A row is a main layer exactly when it is not a sub-layer. A missing flag (NaN) makes a main layer. |
| GiDataRev1.SplitIsPartition | Visualising_GI_Data_Rev1.py:78-79 | Main layers and sub-layers together are the strata rows as a multiset: every row lands in exactly one of them. |
| GiDataRev1.RowsOf | Visualising_GI_Data_Rev1.py:84-85 | A borehole's rows are exactly the rows with its PointID. |
| GiDataRev1.DropNestedIn | Visualising_GI_Data_Rev1.py:91-94 | One pass of the inner loop drops exactly the main rows with Depth ≥ sub Depth and Bottom ≤ sub Bottom (closed at both ends). |
| GiDataRev1.KeepUncoveredStep | Visualising_GI_Data_Rev1.py:88-94 | Filtering by one more sub-layer equals filtering by all the sub-layers so far plus that one. |
| GiDataRev1.KeepUncoveredNone | Visualising_GI_Data_Rev1.py:87 | A borehole without sub-layers keeps all its main rows. |
| GiDataRev1.DropNestedMainRows | Visualising_GI_Data_Rev1.py:87-94 | The inner loop leaves, in their order, the main rows of the borehole that none of its sub-layers contains. |
| GiDataRev1.SurvivorsByBorehole | Visualising_GI_Data_Rev1.py:84-94 | Filtering a borehole's main rows by its sub-layers keeps exactly its main rows that no sub-layer of the same PointID covers. |
| GiDataRev1.Survivors | Visualising_GI_Data_Rev1.py:84-94 | A borehole's surviving main rows are exactly its main rows that no sub-layer of that borehole contains. |
| GiDataRev1.SurvivorsOfStep | Visualising_GI_Data_Rev1.py:83-96 | Each pass of the outer loop appends the next borehole's survivors. |
| GiDataRev1.NoBoreholesIffNoRows | Visualising_GI_Data_Rev1.py:83 | There are no PointIDs to loop over exactly when there are no main rows. |
| GiDataRev1.RemoveNestedMainLayers | Visualising_GI_Data_Rev1.py:82-99 | The per-borehole loop and the concatenation raise exactly when there are no main rows. Otherwise they give the survivors grouped by borehole, boreholes in first-appearance order, each group in sheet order. |
| GiDataRev1.CleanedMainMembers | Visualising_GI_Data_Rev1.py:88-94 | A row is in the cleaned main layers exactly when it is a main row that no sub-layer of its borehole covers. |
| GiDataRev1.RowsOfConcat | Visualising_GI_Data_Rev1.py:99-100 | One borehole's rows of a concatenation are its rows of each part, in order. |
| GiDataRev1.CleanedMainByBorehole | Visualising_GI_Data_Rev1.py:83-100 | Within the cleaned main layers, each borehole's rows are its survivors in their original order. A borehole without sub-layers keeps every main row. |
| GiDataRev1.NoRowsOf | Visualising_GI_Data_Rev1.py:84 | A PointID that no row carries selects no rows. |
| GiDataRev1.NoSurvivors | Visualising_GI_Data_Rev1.py:96 | A borehole with no main rows contributes no survivors. |
| GiDataRev1.NestingExamples | Visualising_GI_Data_Rev1.py:92-93 | A main layer from 0 to 5 m survives a sub-layer from 1 to 3 m. A main layer from 1 to 3 m is removed by it, because equal bounds count as nested. |
| GiDataRev1.BoreholeVisibility | Visualising_GI_Data_Rev1.py:138-141 | The visibility dict has one checkbox for each available borehole. |
| GiDataRev1.SelectedBoreholes | Visualising_GI_Data_Rev1.py:144 | The selected boreholes are exactly the available ones marked visible. |
| GiDataRev1.SegmentsIn | Visualising_GI_Data_Rev1.py:145 | `isin` keeps exactly the segments whose PointID is selected. |
| GiDataRev1.VisibleSegments | Visualising_GI_Data_Rev1.py:145 | A segment is kept exactly when it is an input segment whose borehole is visible: ticked, or left at the "Select All" default. |
| GiDataRev1.VisibilityFilterKeepsVisible | Visualising_GI_Data_Rev1.py:135-145 | The checkbox dict and the filter keep exactly the segments whose borehole is ticked, or left at the "Select All" default, in their order. |
| GiDataRev1.SelectAllKeepsEverything | Visualising_GI_Data_Rev1.py:132-145 | With "Select All" on and no box unticked, no segment is removed. |
| GiDataRev1.PlotBoreholeStratigraphy | Visualising_GI_Data_Rev1.py:72-167 | Raises exactly when there are no main layers. Otherwise it gives one trace of width 7 per visible segment, with its unit's colour and the first-seen legend flag. The segments are the cleaned main layers followed by the sub-layers, joined and georeferenced. The legend lists each visible unit once, in first-drawn order. |
| GiDataRev1.MoistureMarkers | Visualising_GI_Data_Rev1.py:36-44 | One marker per joined row, in join order. Marker k sits at the East and North of joined row k's point, at its sample's own elevation, and carries that sample's moisture. Every marker pairs a moisture sample with a point of the sample's ID. |
| GiDataRev1.MoistureMarkersPerSample | Visualising_GI_Data_Rev1.py:36-44 | With PointID a key of the points, there is one marker per sample that has a borehole, in sheet order, with that sample's elevation and moisture. Markers plus unjoined samples number the samples. |
| Seqs.Unique | Visualising_GI_Data_Rev1.py:83 | `unique()` has no duplicates and holds exactly the input's values. |
| Seqs.UniqueInFirstAppearanceOrder | Visualising_GI_Data_Rev1.py:83 | `unique()` lists the values in the order in which they first appear. |
| Cells.Minus | Lab_Results_Plotter.py:66-67 | Subtraction raises exactly when a side is text. NaN on either side gives NaN, and two numbers give their difference. |
| Cells.Times | Lab_Results_Plotter.py:843 | Multiplication by a factor raises exactly when the cell is text, and keeps NaN as NaN. A number v becomes v times the factor. A non-negative number times a non-negative factor stays non-negative, and factor 1 leaves the cell unchanged. |
| Cells.ToNumeric | Lab_Results_Plotter.py:197-198 | `to_numeric(errors='coerce')` never leaves text. Numbers stay as they are, and everything else becomes NaN. |
| Psd.SortDescending | Lab_Results_Plotter.py:20 | `sorted(..., reverse=True)` of the sizes is strictly decreasing and holds exactly the given sizes. |
| Psd.DescendingDetermined | Lab_Results_Plotter.py:20 | Two strictly decreasing lists with the same elements are equal. |
| Psd.Apertures | Lab_Results_Plotter.py:19 | The numeric headers are exactly the sieve apertures among the columns. |
| Psd.SieveSizes | Lab_Results_Plotter.py:18-20 | The float cast raises exactly when a non-meta header is not a number. Otherwise the sieve sizes are exactly the aperture headers, strictly largest to smallest. Soil_Result_Plotting.py:18-20 does the same. |
| Psd.SieveSizesUnique | Lab_Results_Plotter.py:18-20 | No other list is strictly decreasing with the same sieves. |
| Psd.PaletteIndex | Lab_Results_Plotter.py:41 | `i % len(Dark24)` is a valid palette index and is i itself for the first 24 curves. Soil_Result_Plotting.py:40 does the same. |
| Psd.PaletteCycles | Lab_Results_Plotter.py:41 | The colours repeat after 24 curves, and any 24 consecutive curves get distinct colours. |
| Psd.Contents | Lab_Results_Plotter.py:64-71 | `calculate_contents_psd` with a given gravel sieve gives its three parts exactly when the three sieves are present and none is text. Otherwise it gives the all-None triple, never a partial one. Fines is the passing at 0.075 mm. |
| Psd.ContentsSum | Lab_Results_Plotter.py:64-69 | With numbers at the three sieves, gravel + sand + fines = 100 − p(gravel sieve) + p(2.36). |
| Psd.ContentsNaN | Lab_Results_Plotter.py:64-69 | A NaN at a sieve gives NaN in exactly the parts that read it, not the all-None triple. |
| Seqs.RowsWhere | Lab_Results_Plotter.py:28 | `df[df[column] == value]` keeps exactly the rows whose cell equals the value, in sheet order, each as often as it occurs in the frame. The unit filters at Lab_Results_Plotter.py:842 and Soil_Result_Plotting.py:28 and the `groupby('ID')` groups at Soil_Result_Plotting.py:29 are this filter. An empty unit cell never matches a unit. |
| Psd.UnitRowsHaveSieves | Lab_Results_Plotter.py:28-35 | The rows of a unit have a cell for every sieve size, so `row[sieve_sizes]` never fails. |
| Psd.Passing | Lab_Results_Plotter.py:35 | `row[sieve_sizes]` is the row's cells taken sieve by sieve. |
| LabResults.CalculateContents | Lab_Results_Plotter.py:64-71 | The contents exist exactly when 2.36 and 0.075 are present and readable. With numbers there, gravel + sand + fines = 100. |
| LabResults.PsdTraces | Lab_Results_Plotter.py:34-42 | The trace loop raises exactly when some selected row has a text cell under a sieve. Otherwise it gives one curve per row, in order, with that row's passing values, name and palette colour `k % 24`. |
| LabResults.PlotPsdForUnit | Lab_Results_Plotter.py:16-42 | An unreadable header raises. Otherwise there is one curve per row of the unit, with its passing values at the descending sieve sizes and its palette colour. |
| LabResults.CleanAtterberg | Lab_Results_Plotter.py:197-201 | After the coercion and `dropna`, the samples are exactly those of the rows that have ID, From, numeric LL and PI, and a unit. |
| LabResults.SelectUnits | Lab_Results_Plotter.py:208 | `isin(selected_units)` keeps exactly the samples of the selected units. |
| LabResults.FilteredSamplesAreComplete | Lab_Results_Plotter.py:197-208 | Every filtered sample comes from a row with ID, From, LL, PI and unit, whose LL and PI read as numbers, and its unit is one of those selected. |
| LabResults.SamplesOfUnit | Lab_Results_Plotter.py:224 | A unit's scatter holds exactly the filtered samples of that unit. |
| LabResults.UnitTraces | Lab_Results_Plotter.py:223-233 | The loop gives one scatter per selected unit, in the order selected, each named by its unit. After the loop, the loop variable `unit` is unbound exactly when no scatter was drawn, and otherwise names the last scatter drawn. |
| LabResults.EachSampleInOneTrace | Lab_Results_Plotter.py:205-233 | Without a unit selected twice, every filtered sample appears in exactly one scatter, that of its unit. |
| LabResults.PlotAtterbergLimits | Lab_Results_Plotter.py:195-264 | An empty selection raises (the title reads an unbound `unit`). Otherwise the chart has one scatter per selected unit, and every filtered sample is in exactly one of them. The title is "Casagrande Plasticity Chart - " followed by the name of the last scatter drawn, which is the last selected unit. |
| Casagrande.ALineAt | Lab_Results_Plotter.py:211 | `pi / 0.73 + 20` is the liquid limit at which the A-line reaches pi. Soil_Result_Plotting.py:198 uses the same line. |
| Casagrande.ULineAt | Lab_Results_Plotter.py:212 | `pi / 0.9 + 8` is the liquid limit at which the U-line reaches pi. Soil_Result_Plotting.py:199 uses the same line. |
| Casagrande.LineInverses | Lab_Results_Plotter.py:211-212 | Reading a liquid limit off either line and back returns it. |
| Casagrande.LinesIncrease | Lab_Results_Plotter.py:211-212 | Both lines rise strictly with the liquid limit. |
| Casagrande.LineStarts | Lab_Results_Plotter.py:215-216 | The plotted A-line starts where it equals 4 and the U-line where it equals 7.5, and the U-line starts further left. Soil_Result_Plotting.py:202-203 does the same. |
| Casagrande.HorizontalLinesEndOnALine | Lab_Results_Plotter.py:240-243 | The CL line (PI 7.5) and the ML line (PI 4) both end on the A-line. The ML line ends where the plotted A-line starts. Soil_Result_Plotting.py:235-248 does the same. |
| Casagrande.Markers | Lab_Results_Plotter.py:246-247 | The LL = 35 marker runs upwards from a_line(35) = 10.95 to u_line(35) = 24.3. The LL = 50 marker runs from 0 to u_line(50) = 37.8. Soil_Result_Plotting.py:251-256 does the same. |
| Casagrande.ULineAboveALine | Lab_Results_Plotter.py:211-212 | The U-line lies above the A-line exactly for LL > −7.4/0.17, so over the whole chart. |
| LabResults.RockUnits | Lab_Results_Plotter.py:832 | `dropna().unique()` holds each unit of a rock row once. |
| LabResults.EnterFactors | Lab_Results_Plotter.py:835-838 | The factor dict has a key for exactly the sorted rock units. Each value is the number entered, else 1.0, and never negative. |
| LabResults.FactoredPli | Lab_Results_Plotter.py:843 | The column raises exactly when a row's Is(50) is text. Otherwise the factored PLI of each row is its Is(50) times the factor. |
| LabResults.FactoredPliProperties | Lab_Results_Plotter.py:837-843 | A non-negative factor keeps a non-negative Is(50) non-negative, and the default factor 1.0 leaves the column unchanged. |
| LabResults.ColumnErrorHasText | Lab_Results_Plotter.py:842-843 | A unit whose column raises has a rock row with a text Is(50). |
| LabResults.AllColumnsReadable | Lab_Results_Plotter.py:841-843 | When every unit's column is computed, no rock row with a unit has a text Is(50). |
| LabResults.FactoredColumns | Lab_Results_Plotter.py:841-843 | The loop computes one factored column per unit, with that unit's factor. It raises only on a text Is(50). |
| LabResults.FactoredPliByUnit | Lab_Results_Plotter.py:830-846 | Raises exactly when a rock row with a unit has a text Is(50). Otherwise each unit gets its rows' Is(50) times its non-negative factor. |
| SoilResults.CalculateContents | Soil_Result_Plotting.py:61-68 | The contents exist exactly when 4.75, 2.36 and 0.075 are present and readable. With numbers there, the parts sum to 100 exactly when p(4.75) = p(2.36). |
| SoilResults.ContentsMissTheFineGravel | Soil_Result_Plotting.py:63-65 | Passing 90 / 80 / 10 at 4.75 / 2.36 / 0.075 gives 10 / 70 / 10, which sums to 90. |
| SoilResults.Numbers | Soil_Result_Plotting.py:29 | The numbers a mean averages are exactly the numeric cells, each as often as it occurs in the column. |
| SoilResults.MeanCell | Soil_Result_Plotting.py:29 | A column mean skips NaN and is NaN exactly when there is no number. |
| SoilResults.SumWithin | Soil_Result_Plotting.py:29 | A sum of n values inside [lo, hi] lies inside [n·lo, n·hi]. |
| SoilResults.MeanWithin | Soil_Result_Plotting.py:29 | A mean lies within any bounds its numbers lie within. |
| SoilResults.GroupCells | Soil_Result_Plotting.py:29 | A group's cells at one sieve come from that sample ID's rows, and every row of that ID contributes its cell. |
| SoilResults.GroupCellsPerSampleRow | Soil_Result_Plotting.py:29 | A group holds one cell per row of its sample ID, in sheet order: cell k is the sieve value of the sample's row k. So every row weighs in the mean as often as it occurs. |
| SoilResults.GroupMeansArePercentages | Soil_Result_Plotting.py:29 | When the passing values are percentages, the grouped means are percentages too. |
| SoilResults.OneCurvePerId | Soil_Result_Plotting.py:29-34 | The groups are the sample IDs, each once, in sorted order, and every selected row's ID has a group. |
| SoilResults.PsdTraces | Soil_Result_Plotting.py:29-41 | The mean raises exactly when a selected row has a text cell under a sieve. Otherwise there is one curve per sample ID in sorted order, with that ID's mean passing values and palette colour `k % 24`. |
| SoilResults.PlotPsdForUnit | Soil_Result_Plotting.py:16-41 | An unreadable header raises. Otherwise there is one mean curve per sample ID of the unit, in sorted order. |

## Left out

- Streamlit widgets, uploads, sidebars, tables and messages: the user's choices enter as parameters. Rows with no decision in them are not modelled: the per-unit table display, the "Calculate Contents for All Samples" table, and the UCS and rock plot choices.
- `pd.read_excel` and column selection: the parsed rows are inputs, already cut down to the columns used.
- Plotly figure layout, axes, annotations, range boxes, hover text and minor gridlines: they are calls into a plotting library with no behaviour to state. Each trace's data, name (or the ID and From fields its name is formatted from), colour, width and legend flag are modelled, and so is the Casagrande chart's title.
- `Rock_Result_Plotting.py` and the rock, PLI and UCS chart functions of `Lab_Results_Plotter.py`: they are chart construction. The factored-PLI arithmetic is modelled.
- `np.linspace` sampling of the lines and the `math.log10` label placement: float sampling with no property beyond the line formulas, which are modelled.
- The unused `groupby('ID').mean()` at Lab_Results_Plotter.py:29: its result is never read.
- The Soil plotter's Atterberg chart: its one piece of logic is `to_numeric(errors='coerce')` (Soil_Result_Plotting.py:194-195, `Cells.ToNumeric`). Otherwise it is the same line arithmetic as `Casagrande` and chart layout.
- `plot_moisture_content_by_unit` in `Lab_Results_Plotter.py`: chart construction outside the named core.
- Floating point: all arithmetic is on exact reals. Rounding in `0.73 * (ll - 20)` and in the breakpoints is not modelled.
- Python's `hash`: an uninterpreted function parameter. Its per-process salting is not modelled.
- `Strings.Upper`: models ASCII upper-casing only. Non-ASCII case mappings, which Python also applies, are not modelled.
- Cell values: a cell is a number, NaN (empty) or non-numeric text. A missing PointID, sample ID or borehole ID is not modelled, since IDs are strings.
- `Cells.Minus`, `Cells.Times`, `SoilResults.MeanCell`: a cell stored as numeric-looking text (the string "45") is modelled as a number everywhere. In the code, `100 - x`, `x * factor` and the groupby mean raise on such a cell, while `astype(float)` and `to_numeric` read it as a number. Those raises are not captured.
- `GiData.Merge`: the row order is that of pandas 2.2 and later, where an inner merge keeps the left rows in order. Earlier pandas grouped the result by key in first-appearance order. There, the sub-layers in Visualising_GI_Data_Rev1.py would be interleaved into their borehole's group, which would change the trace order and the legend flags. That order is not modelled.
- `SoilResults.MeanCell`: the mean of a column holding text raises, as pandas 2 does. Older pandas silently dropping such columns is not modelled.
- `GiData.MergeKeepsMatchedRows`: its order-preserving equality assumes PointID is unique among the points. With repeated PointIDs, `GiData.MergeJoinsEveryMatch` and `GiData.Merge` still state what is joined.
- Empty Depth or Bottom cells in the strata sheets: depths are modelled as reals, so a NaN depth is not represented. In Visualising_GI_Data_Rev1.py:92-93 any comparison with NaN is False, so a main row with an empty Depth or Bottom is never dropped as nested, and the georeferenced elevations would be NaN. The model does not capture this.
- `LabResults.FactoredPliByUnit`: the source draws each unit's chart inside the loop (Lab_Results_Plotter.py:841-847). When a later unit raises, the charts of the earlier units are already on screen. The model's error carries no columns, so those partial charts are not captured.
- `LabResults.PlotAtterbergLimits`: requires the selected units to be among the units on offer and without repeats. The multiselect widget guarantees both.
- Concurrency and Streamlit reruns: not part of the computation.

## Findings

| source | as written | input that shows it | evidently intended | confidence | as-written member | corrected member |
|---|---|---|---|---|---|---|
| Soil_Result_Plotting.py:63 | gravel = 100 − p(4.75), while sand = p(2.36) − p(0.075), so material between 2.36 and 4.75 mm is counted in neither gravel nor sand | passing 90 % at 4.75, 80 % at 2.36, 10 % at 0.075 gives gravel 10, sand 70, fines 10, which sums to 90 | gravel = 100 − p(2.36), as the chart's gravel range 2.36-63 mm (line 23) and the lab plotter (Lab_Results_Plotter.py:66) have it, so the three parts sum to 100 | not executed | SoilResults.ContentsMissTheFineGravel | LabResults.CalculateContents |
