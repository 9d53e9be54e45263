/**
 * The console's LiDAR map and sensor charts, without drawing: decoding the points of a
 * LIDAR message, the bounded global point cloud, and the 300-sample line chart.
 * The pose rotation into map coordinates is floating-point trigonometry and is taken
 * as already applied: `AddScan` receives the transformed points.
 */
module LidarView {
  import opened Wrappers
  import opened Json
  import Capped

  datatype Point = Point(x: real, y: real)

  /** org.json's `getDouble` on a number (a numeric string is not modelled and counts as malformed). */
  function NumberOf(j: Json): (r: Option<real>)
    ensures r.Some? <==> j.JNum?
  {
    if j.JNum? then Some(j.value) else None
  }

  /** One element of `points`: `[x, y, ...]` or `{"x":..,"y":..}`; None when the loop would `continue`. */
  function DecodePoint(e: Json): (r: Option<Point>)
    ensures e.JArr? && |e.items| < 2 ==> r.None?
    ensures !e.JArr? && !e.JObj? ==> r.None?
    ensures r.Some? && e.JArr? ==> NumberOf(e.items[0]) == Some(r.value.x) && NumberOf(e.items[1]) == Some(r.value.y)
    ensures r.Some? && e.JObj? ==> ("x" in e.fields && "y" in e.fields
      && NumberOf(e.fields["x"]) == Some(r.value.x) && NumberOf(e.fields["y"]) == Some(r.value.y))
  {
    match e
    case JArr(items) =>
      if |items| < 2 then None
      else
        var x :- NumberOf(items[0]);
        var y :- NumberOf(items[1]);
        Some(Point(x, y))
    case JObj(o) =>
      if "x" !in o || "y" !in o then None
      else
        var x :- NumberOf(o["x"]);
        var y :- NumberOf(o["y"]);
        Some(Point(x, y))
    case _ => None
  }

  /** The decodable elements, in order. */
  function DecodePoints(items: seq<Json>): (r: seq<Point>)
    ensures |r| <= |items|
    ensures (forall i :: 0 <= i < |items| ==> DecodePoint(items[i]).Some?) ==> |r| == |items|
  {
    if items == [] then []
    else
      (match DecodePoint(items[0]) case Some(p) => [p] case None => [])
      + DecodePoints(items[1..])
  }

  datatype Scan = Scan(points: seq<Point>, robotX: real, robotY: real, robotTheta: real)

  /** `optDouble(key, 0.0)`. */
  function OptDouble(o: Object, key: string): real {
    if key in o then NumberOf(o[key]).GetOr(0.0) else 0.0
  }

  /** The LIDAR branch of `handleJsonLine`: None when `points` is not an array (the message is dropped). */
  function DecodeScan(msg: Object): (r: Option<Scan>)
    ensures r.None? <==> !HasArray(msg, "points")
    ensures r.Some? ==> r.value.points == DecodePoints(msg["points"].items)
    ensures r.Some? && "robotX" !in msg ==> r.value.robotX == 0.0
  {
    if !HasArray(msg, "points") then None
    else Some(Scan(DecodePoints(msg["points"].items), OptDouble(msg, "robotX"), OptDouble(msg, "robotY"), OptDouble(msg, "robotTheta")))
  }

  // ----- the point cloud -----

  const MaxPoints: nat := 20000

  datatype Cloud = Cloud(global: seq<Point>, lastScan: seq<Point>, robotX: real, robotY: real, robotTheta: real)

  const EmptyCloud := Cloud([], [], 0.0, 0.0, 0.0)

  /** `addScan`, with `transformed` the scan's points already placed in map coordinates. */
  function AddScan(c: Cloud, transformed: seq<Point>, robotX: real, robotY: real, robotTheta: real): (r: Cloud)
    ensures |r.global| <= MaxPoints
    ensures r.lastScan == transformed
    ensures r.global == Capped.Newest(c.global + transformed, MaxPoints)
    ensures |c.global + transformed| <= MaxPoints ==> r.global == c.global + transformed
    ensures r.robotX == robotX && r.robotY == robotY && r.robotTheta == robotTheta
  {
    var all := c.global + transformed;
    var kept := if |all| > MaxPoints then all[|all| - MaxPoints..] else all;
    Cloud(kept, transformed, robotX, robotY, robotTheta)
  }

  // ----- the line chart -----

  const MaxSamples: nat := 300

  datatype Sample = Sample(x: int, value: real)

  datatype Chart = Chart(samples: seq<Sample>, xIndex: int)

  const EmptyChart := Chart([], 0)

  /** The chart's invariant: at most 300 samples, x strictly increasing and below the next index. */
  predicate ChartValid(c: Chart) {
    |c.samples| <= MaxSamples && Increasing(c.samples) && Below(c.samples, c.xIndex)
  }

  predicate Increasing(s: seq<Sample>) {
    forall i, j :: 0 <= i < j < |s| ==> s[i].x < s[j].x
  }

  predicate Below(s: seq<Sample>, bound: int) {
    forall i :: 0 <= i < |s| ==> s[i].x < bound
  }

  /** `LineChartWithApi.addValue`. */
  function AddValue(c: Chart, v: real): (r: Chart)
    requires |c.samples| <= MaxSamples
    ensures r.xIndex == c.xIndex + 1
    ensures r.samples == Capped.Push(c.samples, Sample(c.xIndex, v), MaxSamples)
  {
    Chart(Capped.Push(c.samples, Sample(c.xIndex, v), MaxSamples), c.xIndex + 1)
  }

  // ----- properties -----

  /** Adding a value keeps the chart valid and makes it the newest sample. */
  lemma AddValueKeepsValid(c: Chart, v: real)
    requires ChartValid(c)
    ensures ChartValid(AddValue(c, v))
    ensures AddValue(c, v).samples[|AddValue(c, v).samples| - 1] == Sample(c.xIndex, v)
  {
    var all := c.samples + [Sample(c.xIndex, v)];
    SnocKeepsOrder(c.samples, Sample(c.xIndex, v));
    SuffixKeepsOrder(all, |all| - |AddValue(c, v).samples|, c.xIndex + 1);
  }

  lemma SnocKeepsOrder(s: seq<Sample>, last: Sample)
    requires Increasing(s) && Below(s, last.x)
    ensures Increasing(s + [last]) && Below(s + [last], last.x + 1)
  {
    var all := s + [last];
    forall i, j | 0 <= i < j < |all|
      ensures all[i].x < all[j].x
    {
      assert all[i] == s[i];
      if j < |s| { assert all[j] == s[j]; }
    }
    forall i | 0 <= i < |all|
      ensures all[i].x < last.x + 1
    {
      if i < |s| { assert all[i] == s[i]; }
    }
  }

  lemma SuffixKeepsOrder(s: seq<Sample>, k: nat, bound: int)
    requires k <= |s| && Increasing(s) && Below(s, bound)
    ensures Increasing(s[k..]) && Below(s[k..], bound)
  {
    var t := s[k..];
    forall i, j | 0 <= i < j < |t|
      ensures t[i].x < t[j].x
    {
      assert t[i] == s[k + i] && t[j] == s[k + j];
    }
    forall i | 0 <= i < |t|
      ensures t[i].x < bound
    {
      assert t[i] == s[k + i];
    }
  }

  /** A scan of 20000 points or more replaces the whole cloud by its newest 20000. */
  lemma HugeScanReplaces(c: Cloud, t: seq<Point>, x: real, y: real, th: real)
    requires |t| >= MaxPoints
    ensures AddScan(c, t, x, y, th).global == t[|t| - MaxPoints..]
  {
    var all := c.global + t;
    assert all[|all| - MaxPoints..] == t[|t| - MaxPoints..];
  }

  /** Adding scans one after another keeps the newest 20000 points of all of them. */
  lemma TwoScansKeepNewest(c: Cloud, t1: seq<Point>, t2: seq<Point>, x: real, y: real, th: real)
    ensures AddScan(AddScan(c, t1, x, y, th), t2, x, y, th).global == Capped.Newest(c.global + t1 + t2, MaxPoints)
  {
    Capped.NewestAppend(c.global + t1, t2, MaxPoints);
  }

  /** Points written as pairs decode back to themselves. */
  lemma {:induction false} PairsRoundTrip(ps: seq<Point>)
    ensures DecodePoints(Pairs(ps)) == ps
  {
    if ps != [] {
      assert Pairs(ps)[1..] == Pairs(ps[1..]);
      PairsRoundTrip(ps[1..]);
    }
  }

  /** The `[x, y]` form of each point, with an arbitrary lexeme. */
  function Pairs(ps: seq<Point>): (r: seq<Json>)
    ensures |r| == |ps|
  {
    if ps == [] then [] else [JArr([JNum(ps[0].x, "x"), JNum(ps[0].y, "y")])] + Pairs(ps[1..])
  }

  /** Malformed elements are skipped without disturbing the others. */
  lemma MalformedSkipped(p: Point, q: Point)
    ensures DecodePoints([JArr([JNum(p.x, "a"), JNum(p.y, "b")]), JArr([JNum(1.0, "1")]), JStr("bad"),
                          JObj(map["x" := JNum(q.x, "c"), "y" := JNum(q.y, "d")])]) == [p, q]
  {
    var items := [JArr([JNum(p.x, "a"), JNum(p.y, "b")]), JArr([JNum(1.0, "1")]), JStr("bad"),
                  JObj(map["x" := JNum(q.x, "c"), "y" := JNum(q.y, "d")])];
    var obj := JObj(map["x" := JNum(q.x, "c"), "y" := JNum(q.y, "d")]);
    assert DecodePoint(items[0]) == Some(p);
    assert DecodePoint(items[1]).None? && DecodePoint(items[2]).None?;
    assert DecodePoint(obj) == Some(q);
    assert DecodePoints([obj]) == [q];
    assert items[3..] == [obj];
    assert DecodePoints(items[2..]) == DecodePoints(items[3..]);
    assert DecodePoints(items[1..]) == DecodePoints(items[2..]);
  }
}
