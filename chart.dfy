/**
 * The history chart (public/app.js `drawChart`): the scale that maps a
 * series of (time, total bytes) points onto the canvas, the five gridlines
 * and the polyline. Coordinates are exact reals; canvas calls are left out.
 */
module Chart {
  import opened Wrappers

  /** One history point: `t` and `Number(p.total_bytes || 0)`. */
  datatype Point = Point(t: real, totalBytes: real)

  /** The margin around the plot (`pad`). */
  const Pad: real := 30.0

  /** The number of horizontal gridlines. */
  const GridlineCount: nat := 5

  /** The scale of one drawing: first and last time, the value ceiling, the canvas size. */
  datatype Scale = Scale(minT: real, maxT: real, maxVal: real, w: real, h: real)

  /** `maxT - minT || 1`. */
  function Span(s: Scale): (d: real)
    ensures d != 0.0
  {
    if s.maxT - s.minT != 0.0 then s.maxT - s.minT else 1.0
  }

  /** `xFor(t)`. */
  function XFor(s: Scale, t: real): real
  {
    Pad + (t - s.minT) / Span(s) * (s.w - Pad * 2.0)
  }

  /** `yFor(v)`; the ceiling is at least 1, so it never divides by zero. */
  function YFor(s: Scale, v: real): real
    requires s.maxVal >= 1.0
  {
    s.h - Pad - (v / s.maxVal) * (s.h - Pad * 2.0)
  }

  /** The y of gridline `i`: `pad + i * ((h - pad * 2) / 4)`. */
  function GridlineY(h: real, i: nat): real
  {
    Pad + (i as real) * ((h - Pad * 2.0) / 4.0)
  }

  /** The first time maps to the left margin, and a distinct last time to the right margin. */
  lemma {:induction false} XForEnds(s: Scale)
    ensures XFor(s, s.minT) == Pad
    ensures s.maxT != s.minT ==> XFor(s, s.maxT) == s.w - Pad
  {
    if s.maxT != s.minT {
      calc {
        XFor(s, s.maxT);
        Pad + (s.maxT - s.minT) / (s.maxT - s.minT) * (s.w - Pad * 2.0);
        Pad + 1.0 * (s.w - Pad * 2.0);
      }
    }
  }

  /** Off the degenerate case the denominator is the time span itself. */
  lemma {:induction false} XForOverSpan(s: Scale, t: real)
    requires s.minT != s.maxT
    ensures XFor(s, t) == Pad + ((t - s.minT) / (s.maxT - s.minT)) * (s.w - Pad * 2.0)
  {
  }

  /**
   * Off the degenerate case `xFor` is affine: the time a fraction `a` of the
   * way from minT to maxT lands the same fraction of the way across the plot.
   */
  lemma {:induction false} XForAffine(s: Scale, a: real)
    requires s.minT != s.maxT
    ensures XFor(s, s.minT + a * (s.maxT - s.minT)) == Pad + a * (s.w - Pad * 2.0)
  {
  }

  /** Later times land further right, when the canvas is wider than both margins. */
  lemma {:induction false} XForMonotone(s: Scale, t1: real, t2: real)
    requires s.minT < s.maxT && s.w >= Pad * 2.0
    requires t1 <= t2
    ensures XFor(s, t1) <= XFor(s, t2)
  {
    var d := s.maxT - s.minT;
    var span := s.w - Pad * 2.0;
    assert Span(s) == d;
    var q1 := (t1 - s.minT) / d;
    var q2 := (t2 - s.minT) / d;
    XForOverSpan(s, t1);
    XForOverSpan(s, t2);
    assert XFor(s, t1) == Pad + q1 * span;
    assert XFor(s, t2) == Pad + q2 * span;
    DivMonotone(t1 - s.minT, t2 - s.minT, d);
    MulMonotone(q1, q2, span);
    assert q1 * span <= q2 * span;
  }

  /** Times in `[minT, maxT]` land between the margins, when the canvas is wider than both margins. */
  lemma {:induction false} XForWithinMargins(s: Scale, t: real)
    requires s.minT < s.maxT && s.w >= Pad * 2.0
    requires s.minT <= t <= s.maxT
    ensures Pad <= XFor(s, t) <= s.w - Pad
  {
    XForMonotone(s, s.minT, t);
    XForMonotone(s, t, s.maxT);
    XForEnds(s);
  }

  lemma {:induction false} DivMonotone(a: real, b: real, d: real)
    requires a <= b && d > 0.0
    ensures a / d <= b / d
  {
    assert b / d - a / d == (b - a) / d;
  }

  lemma {:induction false} MulMonotone(a: real, b: real, c: real)
    requires a <= b && c >= 0.0
    ensures a * c <= b * c
  {
  }

  /**
   * When the first and last time coincide, a series whose time does not
   * decrease maps every point to the left margin, with no division by zero.
   */
  lemma {:induction false} XForDegenerate(s: Scale, points: seq<Point>)
    requires |points| > 0 && s.minT == points[0].t && s.maxT == points[|points| - 1].t
    requires s.maxT == s.minT
    requires forall i, j :: 0 <= i <= j < |points| ==> points[i].t <= points[j].t
    ensures forall k :: 0 <= k < |points| ==> XFor(s, points[k].t) == Pad
  {
    forall k | 0 <= k < |points| ensures XFor(s, points[k].t) == Pad {
      assert points[0].t <= points[k].t <= points[|points| - 1].t;
    }
  }

  /** Zero maps to the bottom margin and the ceiling to the top margin. */
  lemma {:induction false} YForEnds(s: Scale)
    requires s.maxVal >= 1.0
    ensures YFor(s, 0.0) == s.h - Pad
    ensures YFor(s, s.maxVal) == Pad
  {
  }

  /** Larger values are drawn higher (smaller y) when the canvas is taller than both margins. */
  lemma {:induction false} YForDecreasing(s: Scale, v1: real, v2: real)
    requires s.maxVal >= 1.0 && s.h > Pad * 2.0
    requires v1 < v2
    ensures YFor(s, v2) < YFor(s, v1)
  {
    var span := s.h - Pad * 2.0;
    assert v1 / s.maxVal < v2 / s.maxVal;
    assert (v1 / s.maxVal) * span < (v2 / s.maxVal) * span;
  }

  /** Values between 0 and the ceiling land between the margins. */
  lemma {:induction false} YForWithinPlot(s: Scale, v: real)
    requires s.maxVal >= 1.0 && s.h >= Pad * 2.0
    requires 0.0 <= v <= s.maxVal
    ensures Pad <= YFor(s, v) <= s.h - Pad
  {
    var span := s.h - Pad * 2.0;
    assert 0.0 <= v / s.maxVal <= 1.0;
    MulMonotone(0.0, v / s.maxVal, span);
    MulMonotone(v / s.maxVal, 1.0, span);
  }

  /**
   * Gridline 0 is the top margin and gridline 4 the bottom margin; gridline
   * `i` is where the value `maxVal * (4 - i) / 4` is drawn.
   */
  lemma {:induction false} GridlinesMatchScale(s: Scale, i: nat)
    requires s.maxVal >= 1.0 && i < GridlineCount
    ensures GridlineY(s.h, 0) == Pad && GridlineY(s.h, 4) == s.h - Pad
    ensures GridlineY(s.h, i) == YFor(s, s.maxVal * ((4 - i) as real) / 4.0)
  {
    var q := ((4 - i) as real) / 4.0;
    assert s.maxVal * ((4 - i) as real) / 4.0 == s.maxVal * q;
    assert (s.maxVal * q) / s.maxVal == q;
  }

  /**
   * The value ceiling: the largest `total_bytes`, counting from 0, and then
   * at least 1 (`Math.max(maxVal, 1)`).
   */
  method MaxVal(points: seq<Point>) returns (m: real)
    ensures m >= 1.0
    ensures forall k :: 0 <= k < |points| ==> points[k].totalBytes <= m
    ensures m == 1.0 || exists k :: 0 <= k < |points| && points[k].totalBytes == m
  {
    m := 0.0;
    for i := 0 to |points|
      invariant m >= 0.0
      invariant forall k :: 0 <= k < i ==> points[k].totalBytes <= m
      invariant m == 0.0 || exists k :: 0 <= k < i && points[k].totalBytes == m
    {
      if points[i].totalBytes > m {
        m := points[i].totalBytes;
      }
    }
    if m < 1.0 {
      m := 1.0;
    }
  }

  /** What one call draws: the placeholder, or the gridlines and the polyline through the points. */
  datatype Drawing =
    | NoData
    | Plot(scale: Scale, gridlines: seq<real>, line: seq<(real, real)>)

  /** The five gridlines' y coordinates, top to bottom. */
  method Gridlines(h: real) returns (ys: seq<real>)
    ensures |ys| == GridlineCount
    ensures forall i :: 0 <= i < GridlineCount ==> ys[i] == GridlineY(h, i)
  {
    ys := [];
    for i := 0 to GridlineCount
      invariant |ys| == i
      invariant forall k :: 0 <= k < i ==> ys[k] == GridlineY(h, k)
    {
      ys := ys + [GridlineY(h, i)];
    }
  }

  /**
   * `drawChart(points)` on a `w` by `h` canvas: no points (or none at all)
   * draw the placeholder; otherwise the scale runs from the first to the
   * last time and up to the ceiling, and the polyline has one vertex per
   * point, in order.
   */
  method DrawChart(points: Option<seq<Point>>, w: real, h: real) returns (d: Drawing)
    ensures points.None? || points == Some([]) <==> d.NoData?
    ensures d.Plot? ==> var ps := points.value;
      && d.scale == Scale(ps[0].t, ps[|ps| - 1].t, d.scale.maxVal, w, h)
      && d.scale.maxVal >= 1.0
      && (forall k :: 0 <= k < |ps| ==> ps[k].totalBytes <= d.scale.maxVal)
      && (d.scale.maxVal == 1.0 || exists k :: 0 <= k < |ps| && ps[k].totalBytes == d.scale.maxVal)
      && |d.gridlines| == GridlineCount
      && (forall i :: 0 <= i < GridlineCount ==> d.gridlines[i] == GridlineY(h, i))
      && |d.line| == |ps|
      && (forall k :: 0 <= k < |ps| ==> d.line[k] == (XFor(d.scale, ps[k].t), YFor(d.scale, ps[k].totalBytes)))
  {
    if points.None? || |points.value| == 0 {
      return NoData;
    }
    var ps := points.value;
    var maxVal := MaxVal(ps);
    var s := Scale(ps[0].t, ps[|ps| - 1].t, maxVal, w, h);
    var grid := Gridlines(h);
    var line: seq<(real, real)> := [];
    for k := 0 to |ps|
      invariant |line| == k
      invariant forall j :: 0 <= j < k ==> line[j] == (XFor(s, ps[j].t), YFor(s, ps[j].totalBytes))
    {
      line := line + [(XFor(s, ps[k].t), YFor(s, ps[k].totalBytes))];
    }
    d := Plot(s, grid, line);
  }
}
