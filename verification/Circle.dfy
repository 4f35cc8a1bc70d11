/** The midpoint circle: which points drawCircumference plots, and how close to the circle they are. */
module Circle {

  datatype Point = Point(x: int, y: int)

  /** x is the integer nearest to the square root of r^2 - y^2: (x - 1/2)^2 < r^2 - y^2 < (x + 1/2)^2. */
  predicate Nearest(r: nat, x: int, y: int) {
    x * x - x < r * r - y * y <= x * x + x
  }

  /** The eight mirror images of (x, y) around the centre, in the order they are plotted. */
  function Mirrors(c: Point, x: int, y: int): seq<Point> {
    [Point(c.x + x, c.y + y), Point(c.x - x, c.y + y), Point(c.x + y, c.y + x), Point(c.x - y, c.y + x),
     Point(c.x + x, c.y - y), Point(c.x - x, c.y - y), Point(c.x + y, c.y - x), Point(c.x - y, c.y - x)]
  }

  /** The plots for octant points (xs[0], 0), (xs[1], 1), ... */
  function PlotsOf(c: Point, xs: seq<int>): seq<Point> {
    if xs == [] then [] else PlotsOf(c, xs[..|xs| - 1]) + Mirrors(c, xs[|xs| - 1], |xs| - 1)
  }

  lemma PlotsAppend(c: Point, xs: seq<int>, x: int)
    ensures PlotsOf(c, xs + [x]) == PlotsOf(c, xs) + Mirrors(c, x, |xs|)
  {
    assert (xs + [x])[..|xs|] == xs;
  }

  /** One octant of the circle of radius r: for each y from 0 the nearest x, as long as x >= y. */
  ghost predicate Octant(r: nat, xs: seq<int>) {
    && |xs| > 0 && xs[0] == r
    && (forall y :: 0 <= y < |xs| ==> xs[y] >= y)
    && (r > 0 ==> forall y :: 0 <= y < |xs| ==> Nearest(r, xs[y], y))
    && (forall y :: 0 < y < |xs| ==> xs[y] == xs[y - 1] || xs[y] == xs[y - 1] - 1)
  }

  /** No point of the octant is missing: the nearest x for the next y is below the diagonal. */
  ghost predicate Complete(r: nat, xs: seq<int>) {
    forall x :: x >= |xs| ==> !Nearest(r, x, |xs|)
  }

  /** The pixels of one octant and their mirror images, row after row. */
  ghost predicate Circumference(c: Point, r: nat, plots: seq<Point>) {
    exists xs :: Octant(r, xs) && Complete(r, xs) && plots == PlotsOf(c, xs)
  }

  /** Only one x is nearest. */
  lemma NearestIsUnique(r: nat, x: nat, x': nat, y: int)
    requires Nearest(r, x, y) && Nearest(r, x', y)
    ensures x == x'
  {
    if x < x' {
      Separate(x, x');
    } else if x' < x {
      Separate(x', x);
    }
  }

  lemma Separate(x: nat, x': nat)
    requires x < x'
    ensures x * x + x <= x' * x' - x'
  {
    var d := x' - 1;
    assert x' * x' - x' == (d + 1) * d;
    assert (d + 1) * d >= (x + 1) * x by {
      assert (d + 1) * d >= (d + 1) * x;
      assert (d + 1) * x >= (x + 1) * x;
    }
  }

  /** The octant, and with it every plotted pixel, is determined by the radius. */
  lemma OctantIsUnique(r: nat, xs: seq<int>, xs': seq<int>)
    requires Octant(r, xs) && Complete(r, xs) && Octant(r, xs') && Complete(r, xs')
    ensures xs == xs'
  {
    if r == 0 {
      PointCircle(xs);
      PointCircle(xs');
    } else {
      NotLonger(r, xs, xs');
      NotLonger(r, xs', xs);
      forall y | 0 <= y < |xs|
        ensures xs[y] == xs'[y]
      {
        NearestIsUnique(r, xs[y], xs'[y], y);
      }
    }
  }

  lemma PointCircle(xs: seq<int>)
    requires Octant(0, xs)
    ensures xs == [0]
  {
    RowOf(0, xs, 1);
  }

  lemma RowOf(r: nat, xs: seq<int>, y: nat)
    requires Octant(r, xs)
    ensures y < |xs| ==> xs[y] >= y && (r > 0 ==> Nearest(r, xs[y], y)) && (y == 1 ==> xs[1] <= r)
  {
  }

  lemma NotLonger(r: nat, xs: seq<int>, xs': seq<int>)
    requires r > 0 && Octant(r, xs) && Complete(r, xs) && Octant(r, xs')
    ensures |xs'| <= |xs|
  {
    RowOf(r, xs', |xs|);
  }

  /** What radiusError holds at the head of the loop. */
  function ErrorAt(r: nat, x: int, y: int): int {
    x * x - x + y * y + 2 * y + 1 - r * r
  }

  /** The error stays within 2x of zero, so no intermediate value needs more bits than the radius and one. */
  lemma ErrorIsSmall(r: nat, x: int, y: int)
    requires Nearest(r, x, y)
    ensures 2 * (y - x) + 1 <= ErrorAt(r, x, y) <= 2 * y
  {
  }

  /** Going up one row: x stays when the error is negative and steps left otherwise. */
  lemma NextRow(r: nat, x: int, y: int)
    requires 0 <= y <= x && Nearest(r, x, y)
    ensures ErrorAt(r, x, y) < 0 ==> Nearest(r, x, y + 1) && ErrorAt(r, x, y + 1) == ErrorAt(r, x, y) + 2 * (y + 1) + 1
    ensures ErrorAt(r, x, y) >= 0 ==>
      && ErrorAt(r, x - 1, y + 1) == ErrorAt(r, x, y) + 2 * (y + 1 - (x - 1)) + 1
      && r * r - (y + 1) * (y + 1) <= (x - 1) * (x - 1) + (x - 1)
      && (x - 1 >= y + 1 ==> Nearest(r, x - 1, y + 1))
  {
  }

  /** When x has passed the diagonal no point of the next row belongs to the octant. */
  lemma BelowDiagonal(r: nat, x: int, y: nat)
    requires -1 <= x < y && (r > 0 ==> x >= 0) && r * r - y * y <= x * x + x
    ensures forall x' :: x' >= y ==> !Nearest(r, x', y)
  {
    forall x' | x' >= y
      ensures !Nearest(r, x', y)
    {
      if x >= 0 {
        Separate(x, x');
      } else {
        assert x' * x' - x' >= 0;
      }
    }
  }

  /** The candidate x for row y, before the test x >= y. */
  predicate Row(r: nat, x: int, y: nat) {
    && x >= -1 && (r > 0 ==> x >= 0) && (r == 0 ==> x + y == 0)
    && r * r - y * y <= x * x + x
    && (r > 0 && x >= y ==> Nearest(r, x, y))
  }

  lemma RowAdvances(r: nat, x: int, y: nat)
    requires Row(r, x, y) && x >= y
    ensures ErrorAt(r, x, y) < 0 ==> Row(r, x, y + 1) && ErrorAt(r, x, y + 1) == ErrorAt(r, x, y) + 2 * (y + 1) + 1
    ensures ErrorAt(r, x, y) >= 0 ==>
        Row(r, x - 1, y + 1) && ErrorAt(r, x - 1, y + 1) == ErrorAt(r, x, y) + 2 * (y + 1 - (x - 1)) + 1
  {
    if r > 0 {
      NextRow(r, x, y);
    }
  }

  ghost predicate OctantSoFar(r: nat, xs: seq<int>, x: int) {
    if xs == [] then x == r else Octant(r, xs) && (x == xs[|xs| - 1] || x == xs[|xs| - 1] - 1)
  }

  lemma OctantGrows(r: nat, xs: seq<int>, x: int)
    requires OctantSoFar(r, xs, x) && x >= |xs| && Row(r, x, |xs|)
    ensures Octant(r, xs + [x])
  {
    var ys := xs + [x];
    assert forall y :: 0 <= y < |xs| ==> ys[y] == xs[y];
  }

  /** The end of the loop body: one row up, and one step left unless the error is negative. */
  method NextPoint(ghost r: nat, x: int, y: nat, radiusError: int) returns (x': int, y': nat, radiusError': int)
    requires Row(r, x, y) && x >= y && radiusError == ErrorAt(r, x, y)
    ensures y' == y + 1 && (x' == x || x' == x - 1)
    ensures Row(r, x', y') && radiusError' == ErrorAt(r, x', y')
  {
    RowAdvances(r, x, y);
    x', y' := x, y + 1;
    if radiusError < 0 {
      radiusError' := radiusError + 2 * y' + 1;
    } else {
      x' := x' - 1;
      radiusError' := radiusError + 2 * (y' - x') + 1;
    }
  }

  /** The pixels plotted, in order.  The octant's points are exactly the nearest ones, one for each y, none missing. */
  method DrawCircumference(c: Point, radius: nat) returns (plots: seq<Point>)
    ensures Circumference(c, radius, plots)
  {
    plots := [];
    ghost var xs: seq<int> := [];
    var x: int := radius;
    var y := 0;
    var radiusError := 1 - x;
    while x >= y
      invariant y == |xs| && Row(radius, x, y) && OctantSoFar(radius, xs, x)
      invariant radiusError == ErrorAt(radius, x, y)
      invariant plots == PlotsOf(c, xs)
      decreases x - y
    {
      OctantGrows(radius, xs, x);
      PlotsAppend(c, xs, x);
      plots := plots + Mirrors(c, x, y);
      xs := xs + [x];
      x, y, radiusError := NextPoint(radius, x, y, radiusError);
    }
    BelowDiagonal(radius, x, y);
  }
}
