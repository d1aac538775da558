/** The line walk of `common/namer/namer.go`: the heights it must visit, in closed form. */
module Line {

  datatype Point = Point(x: int, y: int)

  /** Height over column `x` of the line from (0,0) to (w,h), rounded to the nearest integer, halves up. */
  function Rise(x: nat, w: nat, h: nat): (y: nat)
  {
    if w == 0 then 0 else (2 * h * x + w) / (2 * w)
  }

  /** Height and error term of the walk after `i` columns, one iteration at a time. */
  function Stepped(i: nat, w: nat, h: nat): (int, int)
  {
    if i == 0 then (0, w) else
      var (y, d) := Stepped(i - 1, w, h);
      if d - 2 * h <= 0 then (y + 1, d - 2 * h + 2 * w) else (y, d - 2 * h)
  }

  /** The points that the walk from (x,y) to (x2,y2) visits: every column once, in order. */
  function Points(x: int, y: int, x2: int, y2: int): (ps: seq<Point>)
    requires y <= y2
  {
    if x2 < x then [] else seq(x2 - x + 1, i requires 0 <= i => Point(x + i, y + Stepped(i, x2 - x, y2 - y).0))
  }

  /** The variables of the walk when it is about to visit column `x`. */
  ghost predicate AtColumn(x0: int, y0: int, x2: int, y2: int, x: int, y: int, d: int)
  {
    x0 <= x && x0 <= x2 && y0 <= y2 && (y - y0, d) == Stepped(x - x0, x2 - x0, y2 - y0)
  }

  /** One iteration of the walk. */
  lemma ColumnStep(x0: int, y0: int, x2: int, y2: int, x: int, y: int, d: int)
    requires AtColumn(x0, y0, x2, y2, x, y, d) && x <= x2
    ensures Points(x0, y0, x2, y2)[x - x0] == Point(x, y)
    ensures var d' := d - 2 * (y2 - y0);
            if d' <= 0 then AtColumn(x0, y0, x2, y2, x + 1, y + 1, d' + 2 * (x2 - x0))
            else AtColumn(x0, y0, x2, y2, x + 1, y, d')
  {
  }

  /** Multiplication characterisation of `Rise`, which spares the solver the division. */
  lemma RiseBounds(x: nat, w: nat, h: nat, y: int)
    requires w > 0
    ensures y == Rise(x, w, h) <==> 2 * w * y <= 2 * h * x + w < 2 * w * y + 2 * w
  {
    var n, d := 2 * h * x + w, 2 * w;
    assert n == d * (n / d) + n % d;
    var q := n / d;
    if y < q {
      assert d * y + d <= d * q by { MulMono(d, y + 1, q); }
    } else if y > q {
      assert d * q + d <= d * y by { MulMono(d, q + 1, y); }
    }
  }

  lemma MulMono(d: nat, a: int, b: int)
    requires a <= b
    ensures d * a <= d * b
  {
    assert d * (b - a) >= 0;
    assert d * (b - a) == d * b - d * a;
  }

  /** The rounded height is never more than half a unit away from the ideal line. */
  lemma RiseIsNearest(x: nat, w: nat, h: nat)
    requires w > 0
    ensures 0 - w < 2 * (w * Rise(x, w, h) - h * x) <= w
  {
    RiseBounds(x, w, h, Rise(x, w, h));
  }

  /** The error term of the walk, kept in (0, 2w], and the height determine each other. */
  ghost predicate OnLine(x: nat, w: nat, h: nat, y: int, d: int)
  {
    d == w - 2 * h * x + 2 * w * y && 0 < d <= 2 * w
  }

  lemma OnLineIsRise(x: nat, w: nat, h: nat, y: int, d: int)
    requires w > 0 && OnLine(x, w, h, y, d)
    ensures y == Rise(x, w, h)
  {
    RiseBounds(x, w, h, y);
  }

  /** One iteration of the walk: subtract the slope, and climb when the error term runs out. */
  lemma OnLineStep(x: nat, w: nat, h: nat, y: int, d: int)
    requires h <= w && w > 0 && OnLine(x, w, h, y, d)
    ensures var d' := d - 2 * h;
            OnLine(x + 1, w, h, if d' <= 0 then y + 1 else y, if d' <= 0 then d' + 2 * w else d')
  {
    assert 2 * h * (x + 1) == 2 * h * x + 2 * h;
    assert 2 * w * (y + 1) == 2 * w * y + 2 * w;
  }

  lemma {:induction false} SteppedOnLine(i: nat, w: nat, h: nat)
    requires h <= w && w > 0
    ensures OnLine(i, w, h, Stepped(i, w, h).0, Stepped(i, w, h).1)
  {
    if i > 0 {
      SteppedOnLine(i - 1, w, h);
      OnLineStep(i - 1, w, h, Stepped(i - 1, w, h).0, Stepped(i - 1, w, h).1);
    }
  }

  /** The incremental walk computes the rounded heights. */
  lemma SteppedIsRise(i: nat, w: nat, h: nat)
    requires h <= w && i <= w
    ensures Stepped(i, w, h).0 == Rise(i, w, h)
  {
    if w > 0 {
      SteppedOnLine(i, w, h);
      OnLineIsRise(i, w, h, Stepped(i, w, h).0, Stepped(i, w, h).1);
    }
  }

  /** In the first octant the walk climbs by at most one per column. */
  lemma RiseStep(x: nat, w: nat, h: nat)
    requires h <= w
    ensures Rise(x, w, h) <= Rise(x + 1, w, h) <= Rise(x, w, h) + 1
  {
    if w > 0 {
      var y := Rise(x, w, h);
      RiseBounds(x, w, h, y);
      var d := w - 2 * h * x + 2 * w * y;
      OnLineStep(x, w, h, y, d);
      var d' := d - 2 * h;
      if d' <= 0 { OnLineIsRise(x + 1, w, h, y + 1, d' + 2 * w); } else { OnLineIsRise(x + 1, w, h, y, d'); }
    }
  }

  lemma {:induction false} RiseMono(x: nat, x': nat, w: nat, h: nat)
    requires x <= x' && h <= w
    ensures Rise(x, w, h) <= Rise(x', w, h) <= Rise(x, w, h) + (x' - x)
    decreases x' - x
  {
    if x < x' {
      RiseMono(x, x' - 1, w, h);
      RiseStep(x' - 1, w, h);
    }
  }

  /** The walk starts at height 0 and ends exactly at the requested height. */
  lemma RiseEnds(w: nat, h: nat)
    requires w > 0
    ensures Rise(0, w, h) == 0 && Rise(w, w, h) == h
  {
    RiseBounds(0, w, h, 0);
    RiseBounds(w, w, h, h);
  }

  lemma PointAt(x: int, y: int, x2: int, y2: int, i: nat)
    requires y <= y2 && y2 - y <= x2 - x && i <= x2 - x
    ensures Points(x, y, x2, y2)[i] == Point(x + i, y + Rise(i, x2 - x, y2 - y))
  {
    SteppedIsRise(i, x2 - x, y2 - y);
  }

  /** In the first octant the walk visits every column once, from one end of the line to the other, at the
      rounded height of the ideal line, and climbs by at most one per column. */
  lemma PointsFollowLine(x: int, y: int, x2: int, y2: int)
    requires y <= y2 && y2 - y <= x2 - x
    ensures var ps, w, h := Points(x, y, x2, y2), x2 - x, y2 - y;
            && |ps| == w + 1 && ps[0] == Point(x, y) && ps[w] == Point(x2, y2)
            && (forall i :: 0 <= i <= w ==> ps[i] == Point(x + i, y + Rise(i, w, h)))
            && (forall i {:trigger ps[i]} :: 0 <= i < w ==> ps[i].y <= ps[i + 1].y <= ps[i].y + 1)
  {
    var ps, w, h := Points(x, y, x2, y2), x2 - x, y2 - y;
    forall i: nat | i <= w ensures ps[i] == Point(x + i, y + Rise(i, w, h)) {
      PointAt(x, y, x2, y2, i);
    }
    forall i: nat | i < w ensures ps[i].y <= ps[i + 1].y <= ps[i].y + 1 {
      PointAt(x, y, x2, y2, i);
      PointAt(x, y, x2, y2, i + 1);
      RiseStep(i, w, h);
    }
    if w > 0 { RiseEnds(w, h); }
  }
}
