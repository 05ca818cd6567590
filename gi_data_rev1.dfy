/**
 * The revised stratigraphy plot of Visualising_GI_Data_Rev1.py. Before the join
 * it splits the strata rows into main layers and sub-layers and drops every main
 * layer that a sub-layer of the same borehole contains; after the join it keeps
 * only the boreholes the user leaves ticked. The moisture heat map's join is here too.
 */
module GiDataRev1 {
  import opened Wrappers
  import Strings
  import Seqs
  import GiData

  /** A STRATA_MAIN row: the layer and the Sub_Layer cell as `str()` renders it (None when the cell is empty). */
  datatype StrataRow = StrataRow(layer: GiData.Stratum, subLayer: Option<string>)

  /** The error the code raises: `pd.concat` of an empty list of frames, when there is no main layer. */
  datatype StrataError = NoObjectsToConcatenate

  /** `astype(str)` of the Sub_Layer cell: an empty cell is NaN and reads "nan". */
  function SubLayerText(r: StrataRow): string {
    match r.subLayer
    case None => "nan"
    case Some(s) => s
  }

  /** The main-layer test: the flag is missing or does not read TRUE. */
  predicate IsMainLayer(r: StrataRow) {
    r.subLayer.None? || !Strings.IsTrueText(SubLayerText(r))
  }

  /** The sub-layer test: the flag reads TRUE in any letter case. */
  predicate IsSubLayer(r: StrataRow) {
    Strings.IsTrueText(SubLayerText(r))
  }

  function MainLayers(rows: seq<StrataRow>): (r: seq<StrataRow>)
    ensures forall x :: x in r <==> x in rows && IsMainLayer(x)
  {
    if |rows| == 0 then []
    else (if IsMainLayer(rows[0]) then [rows[0]] else []) + MainLayers(rows[1..])
  }

  function SubLayers(rows: seq<StrataRow>): (r: seq<StrataRow>)
    ensures forall x :: x in r <==> x in rows && IsSubLayer(x)
  {
    if |rows| == 0 then []
    else (if IsSubLayer(rows[0]) then [rows[0]] else []) + SubLayers(rows[1..])
  }

  /** Every row is a main layer or a sub-layer and never both; a row without a flag is a main layer. */
  lemma MainIffNotSub(r: StrataRow)
    ensures IsMainLayer(r) <==> !IsSubLayer(r)
    ensures r.subLayer.None? ==> IsMainLayer(r)
  {
    assert |Strings.Upper("nan")| == 3;
  }

  /** The two selections together hold each strata row exactly once. */
  lemma {:induction false} SplitIsPartition(rows: seq<StrataRow>)
    ensures multiset(MainLayers(rows)) + multiset(SubLayers(rows)) == multiset(rows)
  {
    if |rows| > 0 {
      SplitIsPartition(rows[1..]);
      MainIffNotSub(rows[0]);
      assert rows == [rows[0]] + rows[1..];
    }
  }

  function PointIds(rows: seq<StrataRow>): (r: seq<string>)
    ensures |r| == |rows| && forall k :: 0 <= k < |rows| ==> r[k] == rows[k].layer.pointId
  {
    seq(|rows|, k requires 0 <= k < |rows| => rows[k].layer.pointId)
  }

  /** `rows[rows["PointID"] == id]`. */
  function RowsOf(rows: seq<StrataRow>, id: string): (r: seq<StrataRow>)
    ensures forall x :: x in r <==> x in rows && x.layer.pointId == id
  {
    if |rows| == 0 then []
    else (if rows[0].layer.pointId == id then [rows[0]] else []) + RowsOf(rows[1..], id)
  }

  /** The containment test of the inner loop, closed at both ends: `m` lies within `s`. */
  predicate NestedIn(m: GiData.Stratum, s: GiData.Stratum) {
    m.depth >= s.depth && m.bottom <= s.bottom
  }

  /** `borehole_main[~(nested in sub_row)]`: drops the rows that one sub-layer contains. */
  function DropNestedIn(rows: seq<StrataRow>, s: StrataRow): (r: seq<StrataRow>)
    ensures forall x :: x in r <==> x in rows && !NestedIn(x.layer, s.layer)
  {
    if |rows| == 0 then []
    else (if NestedIn(rows[0].layer, s.layer) then [] else [rows[0]]) + DropNestedIn(rows[1..], s)
  }

  predicate NestedInAny(m: StrataRow, subs: seq<StrataRow>) {
    exists s :: s in subs && NestedIn(m.layer, s.layer)
  }

  /** The rows that none of `subs` contains. */
  function KeepUncovered(rows: seq<StrataRow>, subs: seq<StrataRow>): (r: seq<StrataRow>) {
    if |rows| == 0 then []
    else (if NestedInAny(rows[0], subs) then [] else [rows[0]]) + KeepUncovered(rows[1..], subs)
  }

  /** A main layer is covered when some sub-layer of the same borehole contains it. */
  predicate Covered(m: StrataRow, sub: seq<StrataRow>) {
    exists s :: s in sub && s.layer.pointId == m.layer.pointId && NestedIn(m.layer, s.layer)
  }

  /** The main layers of borehole `id` that no sub-layer of theirs covers, in sheet order. */
  function Survivors(main: seq<StrataRow>, sub: seq<StrataRow>, id: string): (r: seq<StrataRow>)
    ensures forall x :: x in r <==> x in main && x.layer.pointId == id && !Covered(x, sub)
  {
    if |main| == 0 then []
    else (if main[0].layer.pointId == id && !Covered(main[0], sub) then [main[0]] else [])
         + Survivors(main[1..], sub, id)
  }

  /** The survivors of the boreholes `ids`, one borehole after another. */
  function SurvivorsOf(main: seq<StrataRow>, sub: seq<StrataRow>, ids: seq<string>): seq<StrataRow> {
    if |ids| == 0 then []
    else SurvivorsOf(main, sub, ids[..|ids| - 1]) + Survivors(main, sub, ids[|ids| - 1])
  }

  /** The cleaned main layers: survivors grouped by borehole, boreholes in order of first appearance. */
  function CleanedMain(main: seq<StrataRow>, sub: seq<StrataRow>): seq<StrataRow> {
    SurvivorsOf(main, sub, Seqs.Unique(PointIds(main)))
  }

  lemma NestedInAnyAppend(m: StrataRow, subs: seq<StrataRow>, s: StrataRow)
    ensures NestedInAny(m, subs + [s]) <==> NestedInAny(m, subs) || NestedIn(m.layer, s.layer)
  {
    if NestedIn(m.layer, s.layer) {
      assert s in subs + [s];
    }
    if NestedInAny(m, subs) {
      var t :| t in subs && NestedIn(m.layer, t.layer);
      assert t in subs + [s];
    }
  }

  /** Filtering by one more sub-layer is filtering by the longer list. */
  lemma {:induction false} KeepUncoveredStep(rows: seq<StrataRow>, subs: seq<StrataRow>, s: StrataRow)
    ensures DropNestedIn(KeepUncovered(rows, subs), s) == KeepUncovered(rows, subs + [s])
  {
    if |rows| > 0 {
      var m := rows[0];
      KeepUncoveredStep(rows[1..], subs, s);
      NestedInAnyAppend(m, subs, s);
      var k := KeepUncovered(rows[1..], subs);
      var k' := KeepUncovered(rows[1..], subs + [s]);
      assert KeepUncovered(rows, subs + [s]) == (if NestedInAny(m, subs + [s]) then [] else [m]) + k';
      if NestedInAny(m, subs) {
        assert KeepUncovered(rows, subs) == [] + k == k;
        assert KeepUncovered(rows, subs + [s]) == [] + k';
      } else {
        var h := [m] + k;
        assert KeepUncovered(rows, subs) == h;
        assert h[0] == m && h[1..] == k;
        assert DropNestedIn(h, s) == (if NestedIn(m.layer, s.layer) then [] else [m]) + DropNestedIn(k, s);
      }
    }
  }

  lemma {:induction false} KeepUncoveredNone(rows: seq<StrataRow>)
    ensures KeepUncovered(rows, []) == rows
  {
    if |rows| > 0 {
      KeepUncoveredNone(rows[1..]);
      assert rows == [rows[0]] + rows[1..];
    }
  }

  /** Filtering borehole `id`'s main rows by its sub-layers leaves exactly its survivors. */
  lemma {:induction false} SurvivorsByBorehole(main: seq<StrataRow>, sub: seq<StrataRow>, id: string)
    ensures KeepUncovered(RowsOf(main, id), RowsOf(sub, id)) == Survivors(main, sub, id)
  {
    if |main| > 0 {
      SurvivorsByBorehole(main[1..], sub, id);
      var m := main[0];
      var subs := RowsOf(sub, id);
      var rest := RowsOf(main[1..], id);
      if m.layer.pointId == id {
        assert NestedInAny(m, subs) <==> Covered(m, sub) by {
          if Covered(m, sub) {
            var s :| s in sub && s.layer.pointId == m.layer.pointId && NestedIn(m.layer, s.layer);
            assert s in subs;
          }
        }
        assert RowsOf(main, id) == [m] + rest;
        assert ([m] + rest)[0] == m && ([m] + rest)[1..] == rest;
        assert KeepUncovered([m] + rest, subs) ==
               (if NestedInAny(m, subs) then [] else [m]) + KeepUncovered(rest, subs);
      } else {
        assert RowsOf(main, id) == rest;
      }
    }
  }

  /** The inner loop of one borehole: its main rows filtered by each of its sub-layers in turn. */
  method DropNestedMainRows(boreholeMain: seq<StrataRow>, boreholeSub: seq<StrataRow>)
    returns (kept: seq<StrataRow>)
    ensures kept == KeepUncovered(boreholeMain, boreholeSub)
  {
    kept := boreholeMain;
    KeepUncoveredNone(boreholeMain);
    for j := 0 to |boreholeSub|
      invariant kept == KeepUncovered(boreholeMain, boreholeSub[..j])
    {
      KeepUncoveredStep(boreholeMain, boreholeSub[..j], boreholeSub[j]);
      assert boreholeSub[..j + 1] == boreholeSub[..j] + [boreholeSub[j]];
      kept := DropNestedIn(kept, boreholeSub[j]);
    }
    assert boreholeSub[..|boreholeSub|] == boreholeSub;
  }

  lemma SurvivorsOfStep(main: seq<StrataRow>, sub: seq<StrataRow>, ids: seq<string>, i: nat)
    requires i < |ids|
    ensures SurvivorsOf(main, sub, ids[..i + 1]) == SurvivorsOf(main, sub, ids[..i]) + Survivors(main, sub, ids[i])
  {
    assert ids[..i + 1][..i] == ids[..i];
  }

  /** There is a borehole to loop over exactly when there is a main row. */
  lemma NoBoreholesIffNoRows(main: seq<StrataRow>)
    ensures Seqs.Unique(PointIds(main)) == [] <==> main == []
  {
    if main != [] {
      assert PointIds(main)[0] in Seqs.Unique(PointIds(main));
    }
  }

  /**
   * The loop over the boreholes of the main layers: each borehole's main rows
   * are filtered by each of its sub-layers in turn. With no main layer at all
   * the concatenation raises.
   */
  method RemoveNestedMainLayers(main: seq<StrataRow>, sub: seq<StrataRow>)
    returns (r: Result<seq<StrataRow>, StrataError>)
    ensures r.Err? <==> main == []
    ensures r.Ok? ==> r.value == CleanedMain(main, sub)
  {
    var ids := Seqs.Unique(PointIds(main));
    var filtered: seq<seq<StrataRow>> := [];
    for i := 0 to |ids|
      invariant |filtered| == i
      invariant Seqs.Flatten(filtered) == SurvivorsOf(main, sub, ids[..i])
    {
      var pointId := ids[i];
      var boreholeMain := RowsOf(main, pointId);
      var boreholeSub := RowsOf(sub, pointId);
      if boreholeSub != [] {
        boreholeMain := DropNestedMainRows(boreholeMain, boreholeSub);
      } else {
        KeepUncoveredNone(boreholeMain);
      }
      SurvivorsByBorehole(main, sub, pointId);
      SurvivorsOfStep(main, sub, ids, i);
      Seqs.FlattenSnoc(filtered, boreholeMain);
      filtered := filtered + [boreholeMain];
    }
    assert ids[..|ids|] == ids;
    NoBoreholesIffNoRows(main);
    if |filtered| == 0 {
      return Err(NoObjectsToConcatenate);
    }
    return Ok(Seqs.Flatten(filtered));
  }

  lemma {:induction false} SurvivorsOfMembers(main: seq<StrataRow>, sub: seq<StrataRow>, ids: seq<string>)
    ensures forall x :: x in SurvivorsOf(main, sub, ids) <==>
      x in main && x.layer.pointId in ids && !Covered(x, sub)
  {
    if |ids| > 0 {
      SurvivorsOfMembers(main, sub, ids[..|ids| - 1]);
      assert ids == ids[..|ids| - 1] + [ids[|ids| - 1]];
    }
  }

  /**
   * A main layer survives exactly when no sub-layer of its borehole contains it;
   * equal bounds count as contained.
   */
  lemma CleanedMainMembers(main: seq<StrataRow>, sub: seq<StrataRow>)
    ensures forall x :: x in CleanedMain(main, sub) <==> x in main && !Covered(x, sub)
  {
    var ids := Seqs.Unique(PointIds(main));
    SurvivorsOfMembers(main, sub, ids);
    forall x | x in main
      ensures x.layer.pointId in ids
    {
      var k :| 0 <= k < |main| && main[k] == x;
      assert PointIds(main)[k] == x.layer.pointId;
    }
  }

  lemma {:induction false} RowsOfConcat(a: seq<StrataRow>, b: seq<StrataRow>, id: string)
    ensures RowsOf(a + b, id) == RowsOf(a, id) + RowsOf(b, id)
  {
    if |a| > 0 {
      RowsOfConcat(a[1..], b, id);
      assert (a + b)[0] == a[0] && (a + b)[1..] == a[1..] + b;
    } else {
      assert a + b == b;
    }
  }

  lemma {:induction false} RowsOfSurvivors(main: seq<StrataRow>, sub: seq<StrataRow>, other: string, id: string)
    ensures RowsOf(Survivors(main, sub, other), id) == if other == id then Survivors(main, sub, other) else []
  {
    if |main| > 0 {
      RowsOfSurvivors(main[1..], sub, other, id);
      var head := if main[0].layer.pointId == other && !Covered(main[0], sub) then [main[0]] else [];
      RowsOfConcat(head, Survivors(main[1..], sub, other), id);
    }
  }

  lemma {:induction false} RowsOfSurvivorsOf(main: seq<StrataRow>, sub: seq<StrataRow>, ids: seq<string>, id: string)
    requires Seqs.NoDuplicates(ids)
    ensures RowsOf(SurvivorsOf(main, sub, ids), id) == if id in ids then Survivors(main, sub, id) else []
  {
    if |ids| > 0 {
      var init := ids[..|ids| - 1];
      var last := ids[|ids| - 1];
      assert ids == init + [last];
      RowsOfSurvivorsOf(main, sub, init, id);
      RowsOfConcat(SurvivorsOf(main, sub, init), Survivors(main, sub, last), id);
      RowsOfSurvivors(main, sub, last, id);
      assert last !in init;
    }
  }

  /**
   * Each borehole's rows in the cleaned main layers are its surviving rows in
   * their sheet order; a borehole with no sub-layer keeps every main row.
   */
  lemma CleanedMainByBorehole(main: seq<StrataRow>, sub: seq<StrataRow>, id: string)
    ensures RowsOf(CleanedMain(main, sub), id) == Survivors(main, sub, id)
    ensures RowsOf(sub, id) == [] ==> RowsOf(CleanedMain(main, sub), id) == RowsOf(main, id)
  {
    var ids := Seqs.Unique(PointIds(main));
    RowsOfSurvivorsOf(main, sub, ids, id);
    if id !in ids {
      NoRowsOf(main, id);
      NoSurvivors(main, sub, id);
    }
    if RowsOf(sub, id) == [] {
      SurvivorsByBorehole(main, sub, id);
      KeepUncoveredNone(RowsOf(main, id));
    }
  }

  lemma NoRowsOf(rows: seq<StrataRow>, id: string)
    requires id !in PointIds(rows)
    ensures RowsOf(rows, id) == []
  {
  }

  lemma NoSurvivors(main: seq<StrataRow>, sub: seq<StrataRow>, id: string)
    requires id !in PointIds(main)
    ensures Survivors(main, sub, id) == []
  {
  }

  function StrataRowOf(id: string, depth: real, bottom: real, unit: string, flag: Option<string>): StrataRow {
    StrataRow(GiData.Stratum(id, depth, bottom, unit), flag)
  }

  /** A main layer from 0 to 5 m is kept beside a sub-layer from 1 to 3 m; one from 1 to 3 m is dropped. */
  lemma NestingExamples()
    ensures !Covered(StrataRowOf("P1", 0.0, 5.0, "A", None), [StrataRowOf("P1", 1.0, 3.0, "B", Some("TRUE"))])
    ensures Covered(StrataRowOf("P1", 1.0, 3.0, "A", None), [StrataRowOf("P1", 1.0, 3.0, "B", Some("TRUE"))])
  {
    var s := StrataRowOf("P1", 1.0, 3.0, "B", Some("TRUE"));
    assert s in [s];
  }

  /** Line 103: the four columns the rest of the plot reads. */
  function Layers(rows: seq<StrataRow>): (r: seq<GiData.Stratum>)
    ensures |r| == |rows| && forall k :: 0 <= k < |rows| ==> r[k] == rows[k].layer
  {
    seq(|rows|, k requires 0 <= k < |rows| => rows[k].layer)
  }

  /** The merged, geo-referenced strata: cleaned main layers, then every sub-layer, joined to the points. */
  function ResolvedSegments(rows: seq<StrataRow>, points: seq<GiData.Point>): seq<GiData.Segment> {
    var main := MainLayers(rows);
    var sub := SubLayers(rows);
    GiData.AddElevations(GiData.Merge(Layers(CleanedMain(main, sub) + sub), GiData.StratumId, points))
  }

  /** `st.checkbox(borehole, value=select_all)`: the user's tick, or the select-all default. */
  function Visible(borehole: string, selectAll: bool, ticks: map<string, bool>): bool {
    if borehole in ticks then ticks[borehole] else selectAll
  }

  function SegmentIds(segments: seq<GiData.Segment>): (r: seq<string>)
    ensures |r| == |segments| && forall k :: 0 <= k < |segments| ==> r[k] == segments[k].stratum.pointId
  {
    seq(|segments|, k requires 0 <= k < |segments| => segments[k].stratum.pointId)
  }

  /** `available_boreholes`: the sorted PointIDs of the merged rows. */
  function AvailableBoreholes(segments: seq<GiData.Segment>): seq<string> {
    Strings.SortedUnique(SegmentIds(segments))
  }

  /** `borehole_visibility`: one checkbox per available borehole. */
  function BoreholeVisibility(available: seq<string>, selectAll: bool, ticks: map<string, bool>): (m: map<string, bool>)
    ensures m.Keys == set b | b in available
  {
    map b | b in available :: Visible(b, selectAll, ticks)
  }

  /** `selected_boreholes`: the available boreholes whose box is ticked, in order. */
  function SelectedBoreholes(available: seq<string>, visibility: map<string, bool>): (r: seq<string>)
    requires forall b :: b in available ==> b in visibility
    ensures forall b :: b in r <==> b in available && visibility[b]
  {
    if |available| == 0 then []
    else (if visibility[available[0]] then [available[0]] else [])
         + SelectedBoreholes(available[1..], visibility)
  }

  /** `df[df["PointID"].isin(selected)]`. */
  function SegmentsIn(segments: seq<GiData.Segment>, selected: seq<string>): (r: seq<GiData.Segment>)
    ensures forall s :: s in r <==> s in segments && s.stratum.pointId in selected
  {
    if |segments| == 0 then []
    else (if segments[0].stratum.pointId in selected then [segments[0]] else [])
         + SegmentsIn(segments[1..], selected)
  }

  /** The segments of the visible boreholes, in order: what the user's ticks ask for. */
  function VisibleSegments(segments: seq<GiData.Segment>, selectAll: bool, ticks: map<string, bool>): (r: seq<GiData.Segment>)
    ensures forall s :: s in r <==> s in segments && Visible(s.stratum.pointId, selectAll, ticks)
  {
    if |segments| == 0 then []
    else (if Visible(segments[0].stratum.pointId, selectAll, ticks) then [segments[0]] else [])
         + VisibleSegments(segments[1..], selectAll, ticks)
  }

  /** The visibility filter as written (lines 138-145). */
  function FilterByVisibility(segments: seq<GiData.Segment>, selectAll: bool, ticks: map<string, bool>): seq<GiData.Segment> {
    var available := AvailableBoreholes(segments);
    SegmentsIn(segments, SelectedBoreholes(available, BoreholeVisibility(available, selectAll, ticks)))
  }

  lemma {:induction false} SegmentsInVisible(segments: seq<GiData.Segment>, all: seq<GiData.Segment>,
                                             selected: seq<string>, selectAll: bool, ticks: map<string, bool>)
    requires forall s :: s in segments ==> s in all
    requires forall s :: s in all ==> (s.stratum.pointId in selected <==> Visible(s.stratum.pointId, selectAll, ticks))
    ensures SegmentsIn(segments, selected) == VisibleSegments(segments, selectAll, ticks)
  {
    if |segments| > 0 {
      assert segments[0] in segments;
      SegmentsInVisible(segments[1..], all, selected, selectAll, ticks);
    }
  }

  /** The filter keeps exactly the segments of the visible boreholes, in their order. */
  lemma VisibilityFilterKeepsVisible(segments: seq<GiData.Segment>, selectAll: bool, ticks: map<string, bool>)
    ensures FilterByVisibility(segments, selectAll, ticks) == VisibleSegments(segments, selectAll, ticks)
  {
    var available := AvailableBoreholes(segments);
    var visibility := BoreholeVisibility(available, selectAll, ticks);
    var selected := SelectedBoreholes(available, visibility);
    forall s | s in segments
      ensures s.stratum.pointId in selected <==> Visible(s.stratum.pointId, selectAll, ticks)
    {
      var k :| 0 <= k < |segments| && segments[k] == s;
      assert SegmentIds(segments)[k] == s.stratum.pointId;
    }
    SegmentsInVisible(segments, segments, selected, selectAll, ticks);
  }

  /** With "Select All" on and no box cleared, no segment is removed. */
  lemma {:induction false} SelectAllKeepsEverything(segments: seq<GiData.Segment>, ticks: map<string, bool>)
    requires forall b :: b in ticks ==> ticks[b]
    ensures VisibleSegments(segments, true, ticks) == segments
  {
    if |segments| > 0 {
      SelectAllKeepsEverything(segments[1..], ticks);
      assert segments == [segments[0]] + segments[1..];
    }
  }

  /**
   * `plot_borehole_stratigraphy` of the revision: split, sub-layer precedence,
   * merge, elevations, colours for every merged unit, the visibility filter and
   * one line per visible segment.
   */
  method PlotBoreholeStratigraphy(rows: seq<StrataRow>, points: seq<GiData.Point>,
                                  picked: map<string, string>, hash: string -> int,
                                  selectAll: bool, ticks: map<string, bool>)
    returns (r: Result<seq<GiData.Trace>, StrataError>)
    ensures r.Err? <==> MainLayers(rows) == []
    ensures r.Ok? ==>
      var shown := VisibleSegments(ResolvedSegments(rows, points), selectAll, ticks);
      |r.value| == |shown| &&
      forall k :: 0 <= k < |shown| ==>
        GiData.DrawnAs(r.value[k], shown[k], GiData.PickedColour(shown[k].stratum.unit, picked, hash), 7,
                       GiData.LegendFlags(GiData.Units(shown))[k])
    ensures r.Ok? ==>
      GiData.LegendNames(r.value) ==
      Seqs.Unique(GiData.Units(VisibleSegments(ResolvedSegments(rows, points), selectAll, ticks)))
  {
    var mainLayers := MainLayers(rows);
    var subLayers := SubLayers(rows);
    var cleaned := RemoveNestedMainLayers(mainLayers, subLayers);
    if cleaned.Err? {
      return Err(cleaned.error);
    }
    var combined := Layers(cleaned.value + subLayers);
    var merged := GiData.AddElevations(GiData.Merge(combined, GiData.StratumId, points));
    var uniqueUnits := Strings.SortedUnique(GiData.Units(merged));
    var colours := GiData.BuildColourMap(uniqueUnits, picked, hash);
    var filtered := FilterByVisibility(merged, selectAll, ticks);
    VisibilityFilterKeepsVisible(merged, selectAll, ticks);
    forall s | s in filtered
      ensures s.stratum.unit in colours
    {
      assert s in merged;
      var k :| 0 <= k < |merged| && merged[k] == s;
      assert GiData.Units(merged)[k] == s.stratum.unit;
    }
    var traces := GiData.BuildTraces(filtered, colours, 7);
    return Ok(traces);
  }

  /** A row of the moisture sheet, with the sample's own elevation. */
  datatype MoistureSample = MoistureSample(id: string, origin: string, from: real, to: real,
                                           sampleElevation: real, moisture: real)

  /** One marker of the heat map. */
  datatype Marker = Marker(east: real, north: real, z: real, moisture: real)

  function SampleId(s: MoistureSample): string {
    s.id
  }

  /**
   * The heat map's markers: samples joined to their boreholes on ID = PointID,
   * placed at the borehole's East and North and at the sample's own elevation.
   */
  function MoistureMarkers(samples: seq<MoistureSample>, points: seq<GiData.Point>): (r: seq<Marker>)
    ensures |r| == |GiData.Merge(samples, SampleId, points)|
    ensures forall m :: m in r ==>
      exists s, p :: (s in samples && p in points && p.pointId == s.id &&
                      m == Marker(p.east, p.north, s.sampleElevation, s.moisture))
    ensures var joined := GiData.Merge(samples, SampleId, points);
      forall k :: 0 <= k < |r| ==>
        r[k] == Marker(joined[k].point.east, joined[k].point.north,
                       joined[k].left.sampleElevation, joined[k].left.moisture)
  {
    var joined := GiData.Merge(samples, SampleId, points);
    var r := seq(|joined|, k requires 0 <= k < |joined| =>
      Marker(joined[k].point.east, joined[k].point.north, joined[k].left.sampleElevation, joined[k].left.moisture));
    assert forall k :: 0 <= k < |joined| ==> joined[k] in joined;
    r
  }

  /**
   * With PointID a key of the POINT sheet, the heat map has one marker per
   * sample that has a borehole, in sheet order, carrying that sample's
   * elevation and moisture; samples without a borehole draw nothing.
   */
  lemma MoistureMarkersPerSample(samples: seq<MoistureSample>, points: seq<GiData.Point>)
    requires GiData.UniqueIds(points)
    ensures var kept := GiData.KeepMatched(samples, SampleId, points);
      |MoistureMarkers(samples, points)| == |kept| &&
      forall k :: 0 <= k < |kept| ==>
        MoistureMarkers(samples, points)[k].z == kept[k].sampleElevation &&
        MoistureMarkers(samples, points)[k].moisture == kept[k].moisture
    ensures |MoistureMarkers(samples, points)| + |GiData.Unmatched(samples, SampleId, points)| == |samples|
  {
    var joined := GiData.Merge(samples, SampleId, points);
    GiData.MergeKeepsMatchedRows(samples, SampleId, points);
    assert forall k :: 0 <= k < |joined| ==> GiData.Lefts(joined)[k] == joined[k].left;
  }
}
