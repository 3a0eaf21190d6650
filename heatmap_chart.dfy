/** The heat-map data of `src/components/visualization/HeatmapChart.jsx`: the
    sorted distinct X and Y values and the Z grid, one row per Y value and one
    column per X value, filled from a lookup of the last Z seen at each (X, Y). */
module Heatmap {
  import opened Values
  import opened Seqs

  /** One data row, read at the three chosen variables; the axes are numeric
      and a missing Z is `None`. */
  datatype Point = Point(x: real, y: real, z: Option<Value>)

  predicate SortedAsc(s: seq<real>)
  {
    forall i, j :: 0 <= i < j < |s| ==> s[i] <= s[j]
  }

  function InsertAsc(x: real, s: seq<real>): (r: seq<real>)
    ensures multiset(r) == multiset(s) + multiset{x}
  {
    if s == [] || x <= s[0] then [x] + s
    else
      assert s == [s[0]] + s[1..];
      [s[0]] + InsertAsc(x, s[1..])
  }

  /** Every element of `s` is at least `lo`. */
  predicate AtLeast(s: seq<real>, lo: real)
  {
    forall j :: 0 <= j < |s| ==> lo <= s[j]
  }

  /** Insertion keeps a lower bound that the inserted value meets. */
  lemma {:induction false} InsertAscBounded(x: real, s: seq<real>, lo: real)
    requires AtLeast(s, lo) && lo <= x
    ensures AtLeast(InsertAsc(x, s), lo)
  {
    if s != [] && x > s[0] {
      InsertAscBounded(x, s[1..], lo);
    }
  }

  /** Insertion keeps a list ascending. */
  lemma {:induction false} InsertAscSorted(x: real, s: seq<real>)
    requires SortedAsc(s)
    ensures SortedAsc(InsertAsc(x, s))
  {
    if s != [] && x > s[0] {
      var t := InsertAsc(x, s[1..]);
      InsertAscSorted(x, s[1..]);
      InsertAscBounded(x, s[1..], s[0]);
      assert InsertAsc(x, s) == [s[0]] + t;
    }
  }

  /** `.sort((a, b) => a - b)` on numbers: ascending, a permutation of its input. */
  function SortAsc(s: seq<real>): (r: seq<real>)
    ensures SortedAsc(r)
    ensures multiset(r) == multiset(s)
  {
    if s == [] then []
    else
      assert s == [s[0]] + s[1..];
      InsertAscSorted(s[0], SortAsc(s[1..]));
      InsertAsc(s[0], SortAsc(s[1..]))
  }

  /** `[...new Set(values)].sort((a, b) => a - b)`. */
  function AxisValues(values: seq<real>): (r: seq<real>)
    ensures forall i, j :: 0 <= i < j < |r| ==> r[i] < r[j]
    ensures forall v :: v in r <==> v in values
  {
    var d := Distinct(values);
    var r := SortAsc(d);
    assert forall v :: v in r <==> v in multiset(r);
    forall i, j | 0 <= i < j < |r| ensures r[i] < r[j] {
      if r[i] == r[j] {
        RepeatCounts(r, i, j);
        DistinctCount(values, r[i]);
      }
    }
    r
  }

  /** A value at two positions occurs at least twice. */
  lemma {:induction false} RepeatCounts(s: seq<real>, i: nat, j: nat)
    requires i < j < |s| && s[i] == s[j]
    ensures multiset(s)[s[i]] >= 2
  {
    assert s == [s[0]] + s[1..];
    if i == 0 {
      assert s[j] == s[1..][j - 1];
    } else {
      RepeatCounts(s[1..], i - 1, j - 1);
    }
  }

  /** The de-duplicated list holds each value once. */
  lemma DistinctCount(values: seq<real>, v: real)
    ensures multiset(Distinct(values))[v] <= 1
  {
    var d := Distinct(values);
    NoDupCount(d, v);
  }

  lemma {:induction false} NoDupCount(s: seq<real>, v: real)
    requires NoDup(s)
    ensures multiset(s)[v] <= 1
  {
    if s != [] {
      assert s == [s[0]] + s[1..];
      assert NoDup(s[1..]);
      NoDupCount(s[1..], v);
      assert s[0] !in s[1..];
    }
  }

  function Xs(points: seq<Point>): seq<real>
  {
    seq(|points|, i requires 0 <= i < |points| => points[i].x)
  }

  function Ys(points: seq<Point>): seq<real>
  {
    seq(|points|, i requires 0 <= i < |points| => points[i].y)
  }

  /** `dataMap` after the first `|points|` rows: the Z of each (X, Y) key. */
  function DataMapOf(points: seq<Point>): map<(real, real), Option<Value>>
  {
    if points == [] then map[]
    else
      var n := |points| - 1;
      DataMapOf(points[..n])[(points[n].x, points[n].y) := points[n].z]
  }

  /** The `forEach` filling `dataMap`; a later row with the same X and Y overwrites. */
  method BuildDataMap(points: seq<Point>) returns (dataMap: map<(real, real), Option<Value>>)
    ensures dataMap == DataMapOf(points)
  {
    dataMap := map[];
    for i := 0 to |points|
      invariant dataMap == DataMapOf(points[..i])
    {
      assert points[..i + 1][..i] == points[..i];
      dataMap := dataMap[(points[i].x, points[i].y) := points[i].z];
    }
    assert points[..|points|] == points;
  }

  /** The key holds the Z of the last row at that X and Y, and only keys of
      some row are present. */
  lemma {:induction false} DataMapLastWins(points: seq<Point>, x: real, y: real)
    ensures (x, y) in DataMapOf(points) <==> exists i :: 0 <= i < |points| && points[i].x == x && points[i].y == y
    ensures forall i :: 0 <= i < |points| && points[i].x == x && points[i].y == y
                        && (forall j :: i < j < |points| ==> points[j].x != x || points[j].y != y) ==>
              DataMapOf(points)[(x, y)] == points[i].z
  {
    if points != [] {
      var n := |points| - 1;
      DataMapLastWins(points[..n], x, y);
      assert forall i :: 0 <= i < n ==> points[..n][i] == points[i];
    }
  }

  /** `dataMap.get(key) || null`: a missing key and a falsy Z both give `null`. */
  function Lookup(dataMap: map<(real, real), Option<Value>>, x: real, y: real): (v: Value)
    ensures Truthy(v) || v == Null
    ensures v != Null ==> (x, y) in dataMap && dataMap[(x, y)] == Some(v)
  {
    if (x, y) in dataMap && TruthyOpt(dataMap[(x, y)]) then dataMap[(x, y)].value else Null
  }

  /** `zVals`: one row per Y value, one column per X value. */
  function ZGrid(xVals: seq<real>, yVals: seq<real>, dataMap: map<(real, real), Option<Value>>): (z: seq<seq<Value>>)
    ensures |z| == |yVals|
    ensures forall i :: 0 <= i < |yVals| ==> |z[i]| == |xVals|
  {
    seq(|yVals|, i requires 0 <= i < |yVals| =>
      seq(|xVals|, j requires 0 <= j < |xVals| => Lookup(dataMap, xVals[j], yVals[i])))
  }

  /** The chart's data. */
  datatype Heat = Heat(x: seq<real>, y: seq<real>, z: seq<seq<Value>>)

  method Build(points: seq<Point>) returns (h: Heat)
    ensures h.x == AxisValues(Xs(points)) && h.y == AxisValues(Ys(points))
    ensures h.z == ZGrid(h.x, h.y, DataMapOf(points))
  {
    var xVals := AxisValues(Xs(points));
    var yVals := AxisValues(Ys(points));
    var dataMap := BuildDataMap(points);
    h := Heat(xVals, yVals, ZGrid(xVals, yVals, dataMap));
  }

  /** Cell (i, j) of the grid is the Z of the last row at `xVals[j]`, `yVals[i]`
      when that Z is truthy, and `null` when it is falsy or no row is there. */
  lemma ZCell(points: seq<Point>, i: nat, j: nat)
    requires i < |AxisValues(Ys(points))| && j < |AxisValues(Xs(points))|
    ensures var x, y := AxisValues(Xs(points))[j], AxisValues(Ys(points))[i];
      var cell := ZGrid(AxisValues(Xs(points)), AxisValues(Ys(points)), DataMapOf(points))[i][j];
      && (forall k :: 0 <= k < |points| && points[k].x == x && points[k].y == y
                     && (forall l :: k < l < |points| ==> points[l].x != x || points[l].y != y)
            ==> cell == if TruthyOpt(points[k].z) then points[k].z.value else Null)
      && ((forall k :: 0 <= k < |points| ==> points[k].x != x || points[k].y != y) ==> cell == Null)
  {
    var x, y := AxisValues(Xs(points))[j], AxisValues(Ys(points))[i];
    DataMapLastWins(points, x, y);
  }
}
