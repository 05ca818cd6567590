/**
 * The borehole stratigraphy plot of Visualising_GI_Data.py: strata rows are joined
 * to their borehole points, depths become elevations, every geology unit gets a
 * colour, and one vertical line is drawn per layer with a legend entry on the
 * first line of each unit.
 */
module GiData {
  import Strings
  import Seqs

  /** A row of the POINT sheet: where a borehole is and the ground level there (m AHD). */
  datatype Point = Point(pointId: string, east: real, north: real, elevation: real)

  /** A row of the STRATA_MAIN sheet, as far as the plot reads it; depths are metres below ground. */
  datatype Stratum = Stratum(pointId: string, depth: real, bottom: real, unit: string)

  /** One row of `left.merge(points, ...)`: a left row with the columns of one matching point. */
  datatype Joined<L> = Joined(left: L, point: Point)

  /** A merged strata row with the two elevation columns the plot adds to it. */
  datatype Segment = Segment(stratum: Stratum, point: Point, topElev: real, bottomElev: real)

  /** One `go.Scatter3d` line: its three coordinate pairs, legend name, colour, width and legend flag. */
  datatype Trace = Trace(x: seq<real>, y: seq<real>, z: seq<real>, name: string,
                         colour: string, width: nat, showLegend: bool)

  function StratumId(s: Stratum): string {
    s.pointId
  }

  /** The points whose PointID is `id`, in sheet order. */
  function PointsWithId(points: seq<Point>, id: string): (r: seq<Point>)
    ensures forall p :: p in r <==> p in points && p.pointId == id
  {
    if |points| == 0 then []
    else (if points[0].pointId == id then [points[0]] else []) + PointsWithId(points[1..], id)
  }

  predicate HasPoint(points: seq<Point>, id: string) {
    exists p :: p in points && p.pointId == id
  }

  /** PointID is a key of the POINT sheet. */
  predicate UniqueIds(points: seq<Point>) {
    forall i, j :: 0 <= i < |points| && 0 <= j < |points| && points[i].pointId == points[j].pointId ==> i == j
  }

  /**
   * pandas' inner `merge` on PointID: for each left row in order, one joined row
   * per point with the same PointID, in the order of the points.
   */
  function Merge<L(==)>(left: seq<L>, key: L -> string, points: seq<Point>): (r: seq<Joined<L>>)
    ensures forall j :: j in r ==> j.left in left && j.point in points && j.point.pointId == key(j.left)
  {
    if |left| == 0 then []
    else
      var l := left[|left| - 1];
      Merge(left[..|left| - 1], key, points) + JoinRow(l, PointsWithId(points, key(l)))
  }

  /** The joined rows of one left row and its matching points. */
  function JoinRow<L>(l: L, matches: seq<Point>): (r: seq<Joined<L>>)
    ensures |r| == |matches| && forall k :: 0 <= k < |r| ==> r[k] == Joined(l, matches[k])
  {
    seq(|matches|, k requires 0 <= k < |matches| => Joined(l, matches[k]))
  }

  /** The left rows that have a point, in their own order. */
  function KeepMatched<L>(left: seq<L>, key: L -> string, points: seq<Point>): seq<L> {
    if |left| == 0 then []
    else KeepMatched(left[..|left| - 1], key, points)
         + (if HasPoint(points, key(left[|left| - 1])) then [left[|left| - 1]] else [])
  }

  /** The left rows with no point: the rows the join drops. */
  function Unmatched<L>(left: seq<L>, key: L -> string, points: seq<Point>): seq<L> {
    if |left| == 0 then []
    else Unmatched(left[..|left| - 1], key, points)
         + (if HasPoint(points, key(left[|left| - 1])) then [] else [left[|left| - 1]])
  }

  function Lefts<L>(rows: seq<Joined<L>>): (r: seq<L>)
    ensures |r| == |rows| && forall k :: 0 <= k < |rows| ==> r[k] == rows[k].left
  {
    seq(|rows|, k requires 0 <= k < |rows| => rows[k].left)
  }

  lemma PointsWithUniqueId(points: seq<Point>, id: string)
    requires UniqueIds(points)
    ensures HasPoint(points, id) ==> exists p :: p in points && PointsWithId(points, id) == [p]
    ensures !HasPoint(points, id) ==> PointsWithId(points, id) == []
  {
    if HasPoint(points, id) {
      var i :| 0 <= i < |points| && points[i].pointId == id;
      PointsWithIdAt(points, id, i);
    }
  }

  /** With unique keys, the points matching a present id are exactly the one at its index. */
  lemma {:induction false} PointsWithIdAt(points: seq<Point>, id: string, i: nat)
    requires UniqueIds(points) && i < |points| && points[i].pointId == id
    ensures PointsWithId(points, id) == [points[i]]
  {
    if i == 0 {
      NoOtherPoint(points[1..], id);
    } else {
      assert points[0].pointId != id;
      PointsWithIdAt(points[1..], id, i - 1);
    }
  }

  lemma NoOtherPoint(points: seq<Point>, id: string)
    requires forall p :: p in points ==> p.pointId != id
    ensures PointsWithId(points, id) == []
  {
  }

  /**
   * With PointID a key of the points, the merge keeps exactly the left rows that
   * have a point, in their order, each joined to its point; the others are dropped.
   */
  lemma {:induction false} MergeKeepsMatchedRows<L>(left: seq<L>, key: L -> string, points: seq<Point>)
    requires UniqueIds(points)
    ensures Lefts(Merge(left, key, points)) == KeepMatched(left, key, points)
    ensures |Merge(left, key, points)| + |Unmatched(left, key, points)| == |left|
  {
    if |left| > 0 {
      var l := left[|left| - 1];
      var rest := Merge(left[..|left| - 1], key, points);
      var here := JoinRow(l, PointsWithId(points, key(l)));
      MergeKeepsMatchedRows(left[..|left| - 1], key, points);
      PointsWithUniqueId(points, key(l));
      LeftsConcat(rest, here);
      assert Lefts(here) == if HasPoint(points, key(l)) then [l] else [];
    }
  }

  /**
   * Every left row is joined to every point with its PointID, whether or not
   * PointID is a key of the points; with the contract of `Merge` this makes a
   * pair joined exactly when its PointIDs agree.
   */
  lemma {:induction false} MergeJoinsEveryMatch<L>(left: seq<L>, key: L -> string, points: seq<Point>)
    ensures forall l, p :: l in left && p in points && p.pointId == key(l) ==> Joined(l, p) in Merge(left, key, points)
  {
    if |left| > 0 {
      var init := left[..|left| - 1];
      var l := left[|left| - 1];
      var matches := PointsWithId(points, key(l));
      var here := JoinRow(l, matches);
      MergeJoinsEveryMatch(init, key, points);
      assert left == init + [l];
      assert Merge(left, key, points) == Merge(init, key, points) + here;
      forall l', p | l' in left && p in points && p.pointId == key(l')
        ensures Joined(l', p) in Merge(left, key, points)
      {
        if l' in init {
          assert Joined(l', p) in Merge(init, key, points);
        } else {
          assert l' == l && p in matches;
          var k :| 0 <= k < |matches| && matches[k] == p;
          assert here[k] == Joined(l, p);
        }
      }
    }
  }

  lemma LeftsConcat<L>(a: seq<Joined<L>>, b: seq<Joined<L>>)
    ensures Lefts(a + b) == Lefts(a) + Lefts(b)
  {
  }

  /** The elevation columns: ground level minus each depth. */
  function Georeference(j: Joined<Stratum>): (s: Segment)
    ensures s.stratum == j.left && s.point == j.point
    ensures s.topElev == j.point.elevation - j.left.depth
    ensures s.topElev - s.bottomElev == j.left.bottom - j.left.depth
    ensures j.left.depth < j.left.bottom ==> s.bottomElev < s.topElev
  {
    Segment(j.left, j.point, j.point.elevation - j.left.depth, j.point.elevation - j.left.bottom)
  }

  function AddElevations(rows: seq<Joined<Stratum>>): (r: seq<Segment>)
    ensures |r| == |rows| && forall k :: 0 <= k < |rows| ==> r[k] == Georeference(rows[k])
  {
    seq(|rows|, k requires 0 <= k < |rows| => Georeference(rows[k]))
  }

  /** The merged, geo-referenced strata of the plot, in merge order. */
  function Segments(strata: seq<Stratum>, points: seq<Point>): seq<Segment> {
    AddElevations(Merge(strata, StratumId, points))
  }

  /** Every segment belongs to a stratum row and sits on that row's borehole. */
  lemma SegmentsComeFromStrata(strata: seq<Stratum>, points: seq<Point>)
    ensures forall s :: s in Segments(strata, points) ==>
      s.stratum in strata && s.point in points && s.point.pointId == s.stratum.pointId &&
      s.topElev - s.bottomElev == s.stratum.bottom - s.stratum.depth
  {
    var m := Merge(strata, StratumId, points);
    forall s | s in Segments(strata, points)
      ensures s.stratum in strata && s.point in points && s.point.pointId == s.stratum.pointId
    {
      var k :| 0 <= k < |m| && Segments(strata, points)[k] == s;
      assert m[k] in m;
    }
  }

  /** One borehole with a sand layer over a clay layer, at ground level 100 m. */
  lemma TwoLayerExample()
    ensures Segments([Stratum("P1", 0.0, 2.0, "Sand"), Stratum("P1", 2.0, 5.0, "Clay")],
                     [Point("P1", 0.0, 0.0, 100.0)]) ==
      [Segment(Stratum("P1", 0.0, 2.0, "Sand"), Point("P1", 0.0, 0.0, 100.0), 100.0, 98.0),
       Segment(Stratum("P1", 2.0, 5.0, "Clay"), Point("P1", 0.0, 0.0, 100.0), 98.0, 95.0)]
  {
    var points := [Point("P1", 0.0, 0.0, 100.0)];
    var sand := Stratum("P1", 0.0, 2.0, "Sand");
    var clay := Stratum("P1", 2.0, 5.0, "Clay");
    var p := points[0];
    PointsWithIdAt(points, "P1", 0);
    assert [sand, clay][..1] == [sand];
    assert [sand][..0] == [];
    assert Merge([sand], StratumId, points) == [Joined(sand, p)];
    assert Merge([sand, clay], StratumId, points) == [Joined(sand, p), Joined(clay, p)];
  }

  function Units(segments: seq<Segment>): (r: seq<string>)
    ensures |r| == |segments| && forall k :: 0 <= k < |segments| ==> r[k] == segments[k].stratum.unit
  {
    seq(|segments|, k requires 0 <= k < |segments| => segments[k].stratum.unit)
  }

  /** `"#%06x" % (hash(unit) % 0xFFFFFF)`: the colour picker's initial value for a unit. */
  function DefaultColour(unit: string, hash: string -> int): (c: string)
    ensures |c| == 7 && c[0] == '#'
    ensures forall i :: 1 <= i < 7 ==> c[i] in Strings.HexDigits
    ensures Strings.ParseHex(c[1..]) == hash(unit) % 0xFFFFFF
    ensures Strings.ParseHex(c[1..]) <= 0xFFFFFE
  {
    var n := hash(unit) % 0xFFFFFF;
    assert Strings.Pow16(6) == 0x1000000;
    Strings.ParseHexOfHex(n, 6);
    assert ("#" + Strings.Hex(n, 6))[1..] == Strings.Hex(n, 6);
    "#" + Strings.Hex(n, 6)
  }

  /** `st.color_picker(label, default)`: the colour the user chose, or the default until they choose. */
  function PickedColour(unit: string, picked: map<string, string>, hash: string -> int): string {
    if unit in picked then picked[unit] else DefaultColour(unit, hash)
  }

  /** The `colors` dict: one picker per unit. */
  method BuildColourMap(units: seq<string>, picked: map<string, string>, hash: string -> int)
    returns (colours: map<string, string>)
    ensures forall u :: u in colours <==> u in units
    ensures forall u :: u in colours ==> colours[u] == PickedColour(u, picked, hash)
  {
    colours := map[];
    for i := 0 to |units|
      invariant forall u :: u in colours <==> u in units[..i]
      invariant forall u :: u in colours ==> colours[u] == PickedColour(u, picked, hash)
    {
      assert units[..i + 1] == units[..i] + [units[i]];
      colours := colours[units[i] := PickedColour(units[i], picked, hash)];
    }
    assert units[..|units|] == units;
  }

  /** The legend flag of each position: its unit has not been seen earlier. */
  function LegendFlags(units: seq<string>): (r: seq<bool>)
    ensures |r| == |units|
  {
    seq(|units|, k requires 0 <= k < |units| => units[k] !in units[..k])
  }

  /** Each unit gets exactly one legend entry: on its first segment and on no other. */
  lemma LegendFlagsExactlyOnce(units: seq<string>)
    ensures forall u :: u in units ==> exists k :: 0 <= k < |units| && units[k] == u && LegendFlags(units)[k]
    ensures forall i, j ::
      (0 <= i < |units| && 0 <= j < |units| && units[i] == units[j] &&
       LegendFlags(units)[i] && LegendFlags(units)[j]) ==> i == j
  {
    forall u | u in units
      ensures exists k :: 0 <= k < |units| && units[k] == u && LegendFlags(units)[k]
    {
      var k := Seqs.FirstIndex(units, u);
      assert LegendFlags(units)[k];
    }
  }

  /** The legend of a figure: the names of the traces with `showlegend` set, in trace order. */
  function LegendNames(traces: seq<Trace>): seq<string> {
    if |traces| == 0 then []
    else
      var last := traces[|traces| - 1];
      LegendNames(traces[..|traces| - 1]) + (if last.showLegend then [last.name] else [])
  }

  /**
   * Traces named after `units` and flagged by `LegendFlags` produce a legend
   * listing the units in the order they are first drawn, each once.
   */
  lemma {:induction false} LegendListsUnitsOnce(traces: seq<Trace>, units: seq<string>)
    requires |traces| == |units|
    requires forall k :: 0 <= k < |traces| ==>
      traces[k].name == units[k] && traces[k].showLegend == LegendFlags(units)[k]
    ensures LegendNames(traces) == Seqs.Unique(units)
  {
    if |traces| > 0 {
      var n := |traces| - 1;
      var p := units[..n];
      forall k | 0 <= k < n
        ensures traces[..n][k].name == p[k] && traces[..n][k].showLegend == LegendFlags(p)[k]
      {
        assert p[..k] == units[..k];
      }
      LegendListsUnitsOnce(traces[..n], p);
      assert traces[n].showLegend == (units[n] !in p);
      assert units[..|units| - 1] == p;
    }
  }

  lemma LegendExample()
    ensures LegendFlags(["A", "B", "A", "C", "B"]) == [true, true, false, true, false]
  {
    var u := ["A", "B", "A", "C", "B"];
    assert u[..2] == ["A", "B"] && u[..3] == ["A", "B", "A"] && u[..4] == ["A", "B", "A", "C"];
    assert u[..1] == ["A"];
  }

  /** The line drawn for one segment: vertical at its borehole, from its top elevation to its bottom. */
  predicate DrawnAs(t: Trace, s: Segment, colour: string, width: nat, showLegend: bool) {
    t.x == [s.point.east, s.point.east] && t.y == [s.point.north, s.point.north] &&
    t.z == [s.topElev, s.bottomElev] && t.name == s.stratum.unit &&
    t.colour == colour && t.width == width && t.showLegend == showLegend
  }

  /** The trace loop: one line per segment, a legend entry on the first line of each unit. */
  method BuildTraces(segments: seq<Segment>, colours: map<string, string>, width: nat)
    returns (traces: seq<Trace>)
    requires forall s :: s in segments ==> s.stratum.unit in colours
    ensures |traces| == |segments|
    ensures forall k :: 0 <= k < |segments| ==>
      DrawnAs(traces[k], segments[k], colours[segments[k].stratum.unit], width, LegendFlags(Units(segments))[k])
    ensures LegendNames(traces) == Seqs.Unique(Units(segments))
  {
    traces := [];
    var addedToLegend: set<string> := {};
    ghost var units := Units(segments);
    for i := 0 to |segments|
      invariant |traces| == i
      invariant forall u :: u in addedToLegend <==> u in units[..i]
      invariant forall k :: 0 <= k < i ==>
        DrawnAs(traces[k], segments[k], colours[segments[k].stratum.unit], width, LegendFlags(units)[k])
    {
      var row := segments[i];
      var unit := row.stratum.unit;
      assert row in segments;
      var colour := colours[unit];
      var showLegend := unit !in addedToLegend;
      if showLegend {
        addedToLegend := addedToLegend + {unit};
      }
      assert units[..i + 1] == units[..i] + [unit];
      var trace := Trace([row.point.east, row.point.east], [row.point.north, row.point.north],
                         [row.topElev, row.bottomElev], unit, colour, width, showLegend);
      traces := traces + [trace];
    }
    forall k | 0 <= k < |traces|
      ensures traces[k].name == units[k] && traces[k].showLegend == LegendFlags(units)[k]
    {
      assert DrawnAs(traces[k], segments[k], colours[segments[k].stratum.unit], width, LegendFlags(units)[k]);
    }
    LegendListsUnitsOnce(traces, units);
  }

  /**
   * `plot_borehole_stratigraphy`: the merge, the elevations, the colours chosen
   * for the sorted units, and one line per merged row.
   */
  method PlotBoreholeStratigraphy(strata: seq<Stratum>, points: seq<Point>,
                                  picked: map<string, string>, hash: string -> int)
    returns (traces: seq<Trace>)
    ensures |traces| == |Segments(strata, points)|
    ensures forall k :: 0 <= k < |traces| ==>
      var s := Segments(strata, points)[k];
      DrawnAs(traces[k], s, PickedColour(s.stratum.unit, picked, hash), 5,
              LegendFlags(Units(Segments(strata, points)))[k])
    ensures LegendNames(traces) == Seqs.Unique(Units(Segments(strata, points)))
  {
    var merged := AddElevations(Merge(strata, StratumId, points));
    var uniqueUnits := Strings.SortedUnique(Units(merged));
    var colours := BuildColourMap(uniqueUnits, picked, hash);
    forall s | s in merged
      ensures s.stratum.unit in colours
    {
      var k :| 0 <= k < |merged| && merged[k] == s;
      assert Units(merged)[k] == s.stratum.unit;
    }
    traces := BuildTraces(merged, colours, 5);
  }
}
