/** Abstract line segments of a window layout: orientation, ordering,
    point membership, intersection and junction classification (lines.go).
    Lines are axis-aligned by intent, but the orientation is stored, not
    recomputed: a region's edge is labelled even when it is a single cell,
    and a diagonal pair of points is labelled Horizontal. */
module Lines {
  import opened Results
  import opened Points

  datatype Orientation = UnOriented | Horizontal | Vertical

  datatype Line = Line(p1: Point, p2: Point, orientation: Orientation) {
    predicate IsHorizontal() { orientation == Horizontal }
    predicate IsVertical() { orientation == Vertical }
  }

  datatype GeoError = NotParallel | NotOrthogonal | Disjoint

  /** Builds a line; the orientation is derived from the endpoints. */
  function NewLine(x1: int, y1: int, x2: int, y2: int): (l: Line)
    ensures l.p1 == Point(x1, y1) && l.p2 == Point(x2, y2)
    ensures l.orientation == UnOriented <==> l.p1 == l.p2
    ensures l.IsVertical() <==> x1 == x2 && y1 != y2
    ensures l.IsHorizontal() <==> x1 != x2
  {
    var o := if x1 == x2 && y1 == y2 then UnOriented
             else if x1 == x2 then Vertical
             else Horizontal;
    Line(Point(x1, y1), Point(x2, y2), o)
  }

  /** Two parallel lines at the same height (horizontal) or column (vertical). */
  predicate Coincident(l1: Line, l2: Line) {
    if l1.IsHorizontal() && l2.IsHorizontal() then l1.p1.y == l2.p1.y
    else if l1.IsVertical() && l2.IsVertical() then l1.p1.x == l2.p1.x
    else false
  }

  predicate Parallel(l1: Line, l2: Line) {
    (l1.IsHorizontal() && l2.IsHorizontal()) || (l1.IsVertical() && l2.IsVertical())
  }

  predicate Orthogonal(l1: Line, l2: Line) {
    (l1.IsHorizontal() && l2.IsVertical()) || (l1.IsVertical() && l2.IsHorizontal())
  }

  /** Parallel and orthogonal are symmetric and exclusive; an unoriented line
      is neither; two oriented lines are exactly one of the two. */
  lemma ParallelOrthogonalDichotomy(l1: Line, l2: Line)
    ensures Parallel(l1, l2) == Parallel(l2, l1)
    ensures Orthogonal(l1, l2) == Orthogonal(l2, l1)
    ensures !(Parallel(l1, l2) && Orthogonal(l1, l2))
    ensures l1.orientation == UnOriented || l2.orientation == UnOriented ==>
              !Parallel(l1, l2) && !Orthogonal(l1, l2)
    ensures l1.orientation != UnOriented && l2.orientation != UnOriented ==>
              Parallel(l1, l2) != Orthogonal(l1, l2)
  {
  }

  /** The distance between two parallel lines. */
  function Distance(l1: Line, l2: Line): (r: Result<int, GeoError>)
    ensures r.Failure? <==> !Parallel(l1, l2)
    ensures r.Failure? ==> r.error == NotParallel
    ensures r.Success? ==> r.value >= 0
    ensures r.Success? ==> (r.value == 0 <==> Coincident(l1, l2))
  {
    if !Parallel(l1, l2) then Failure(NotParallel)
    else if Coincident(l1, l2) then Success(0)
    else if l1.IsHorizontal() then Success(Abs(l1.p1.y - l2.p1.y))
    else Success(Abs(l1.p1.x - l2.p1.x))
  }

  lemma DistanceSymmetric(l1: Line, l2: Line)
    ensures Distance(l1, l2) == Distance(l2, l1)
  {
  }

  /** The two stored points, left to right for a horizontal line and top to
      bottom for a vertical one; otherwise (and on ties) the second first. */
  function EndPoints(l: Line): (r: (Point, Point))
    ensures (r.0 == l.p1 && r.1 == l.p2) || (r.0 == l.p2 && r.1 == l.p1)
    ensures l.IsHorizontal() ==> r.0.x <= r.1.x
    ensures l.IsVertical() ==> r.0.y <= r.1.y
    ensures !l.IsHorizontal() && !l.IsVertical() ==> r == (l.p2, l.p1)
  {
    if l.IsHorizontal() && l.p1.x < l.p2.x then (l.p1, l.p2)
    else if l.IsVertical() && l.p1.y < l.p2.y then (l.p1, l.p2)
    else (l.p2, l.p1)
  }

  /** Is l further down (horizontal) or right (vertical) than ol? */
  predicate GreaterThan(l: Line, ol: Line) {
    (l.IsHorizontal() && l.p1.y > ol.p1.y) || (l.IsVertical() && l.p1.x > ol.p1.x)
  }

  /** Is l further up (horizontal) or left (vertical) than ol? */
  predicate LessThan(l: Line, ol: Line) {
    (l.IsHorizontal() && l.p1.y < ol.p1.y) || (l.IsVertical() && l.p1.x < ol.p1.x)
  }

  /** The line ordering is irreflexive, the two comparisons mirror each other
      on lines of one orientation, and no two such lines exceed each other. */
  lemma LineOrderProperties(a: Line, b: Line)
    ensures !GreaterThan(a, a) && !LessThan(a, a)
    ensures a.orientation == b.orientation ==> (GreaterThan(a, b) <==> LessThan(b, a))
    ensures a.orientation == b.orientation ==> !(GreaterThan(a, b) && GreaterThan(b, a))
  {
  }

  /** Is p on the segment l?  Membership is judged against the first ordered
      endpoint's fixed coordinate and the closed range between the endpoints. */
  predicate IsOn(p: Point, l: Line) {
    var (e1, e2) := EndPoints(l);
    (l.IsHorizontal() && e1.x <= p.x <= e2.x && p.y == e1.y)
    || (l.IsVertical() && e1.y <= p.y <= e2.y && p.x == e1.x)
  }

  function Min(a: int, b: int): int { if a <= b then a else b }
  function Max(a: int, b: int): int { if a <= b then b else a }

  /** The coordinate a line keeps constant: the row of a horizontal line and
      the column of a vertical one, read from its first ordered endpoint. */
  function Fixed(l: Line): int {
    if l.IsHorizontal() then EndPoints(l).0.y else EndPoints(l).0.x
  }

  /** Membership in terms of the stored coordinates. */
  lemma IsOnCharacterized(p: Point, l: Line)
    ensures l.IsHorizontal() ==>
      (IsOn(p, l) <==> p.y == Fixed(l) && Min(l.p1.x, l.p2.x) <= p.x <= Max(l.p1.x, l.p2.x))
    ensures l.IsVertical() ==>
      (IsOn(p, l) <==> p.x == Fixed(l) && Min(l.p1.y, l.p2.y) <= p.y <= Max(l.p1.y, l.p2.y))
    ensures l.orientation == UnOriented ==> !IsOn(p, l)
  {
  }

  /** The first ordered endpoint of an oriented line is on it; the second is
      on it exactly when the line really is axis-aligned. */
  lemma EndPointsOnLine(l: Line)
    ensures l.orientation != UnOriented ==> IsOn(EndPoints(l).0, l)
    ensures l.IsHorizontal() ==> (IsOn(EndPoints(l).1, l) <==> l.p1.y == l.p2.y)
    ensures l.IsVertical() ==> (IsOn(EndPoints(l).1, l) <==> l.p1.x == l.p2.x)
  {
  }

  /** A diagonal pair of points makes a Horizontal line whose second endpoint
      is not on it. */
  lemma DiagonalLineMissesEndpoint()
    ensures NewLine(0, 0, 3, 3).IsHorizontal()
    ensures !IsOn(Point(3, 3), NewLine(0, 0, 3, 3))
  {
  }

  /** The point where the column of the vertical line meets the row of the
      other line: the only candidate for an intersection. */
  function Crossing(l1: Line, l2: Line): Point {
    var (p1, _) := EndPoints(l1);
    var (q1, _) := EndPoints(l2);
    if l1.IsVertical() then Point(p1.x, q1.y) else Point(q1.x, p1.y)
  }

  /** The intersection of two segments. */
  function Intersection(l1: Line, l2: Line): (r: Result<Point, GeoError>)
    ensures Parallel(l1, l2) ==> r == Failure(NotOrthogonal)
    ensures !Parallel(l1, l2) && r.Failure? ==> r.error == Disjoint
    ensures r.Success? ==> Orthogonal(l1, l2) && IsOn(r.value, l1) && IsOn(r.value, l2)
  {
    if Parallel(l1, l2) then Failure(NotOrthogonal)
    else
      var p := Crossing(l1, l2);
      if IsOn(p, l1) && IsOn(p, l2) then Success(p) else Failure(Disjoint)
  }

  /** For non-parallel lines, Intersection succeeds with p exactly when p is
      on both segments; in particular the common point is unique. */
  lemma IntersectionIsCommonPoint(l1: Line, l2: Line, p: Point)
    requires !Parallel(l1, l2)
    ensures Intersection(l1, l2) == Success(p) <==> IsOn(p, l1) && IsOn(p, l2)
  {
    if IsOn(p, l1) && IsOn(p, l2) {
      assert Orthogonal(l1, l2);
      assert p == Crossing(l1, l2);
    }
  }

  /** For orthogonal lines the argument order does not matter. */
  lemma IntersectionSymmetric(l1: Line, l2: Line)
    requires Orthogonal(l1, l2)
    ensures Intersection(l1, l2) == Intersection(l2, l1)
  {
    assert Crossing(l1, l2) == Crossing(l2, l1);
  }

  /** The point callers read from Intersection when they ignore its error:
      the intersection, or the sentinel (-1, -1) when the segments miss. */
  function IntersectionPoint(l1: Line, l2: Line): Point {
    match Intersection(l1, l2)
    case Success(p) => p
    case Failure(_) => Point(-1, -1)
  }

  /** The junction at (x, y), or (-1, -1) with NexusNone. */
  datatype Junction = Junction(x: int, y: int, kind: NexusType)

  /** Selects the junction from the four neighbour probes: west and east on
      the first line, north and south on the second. */
  function Classify(west: bool, east: bool, north: bool, south: bool): NexusType {
    if west && east && north && south then NexusCross
    else if !west && east && !north && south then NexusTopLeft
    else if west && !east && !north && south then NexusTopRight
    else if !west && east && north && !south then NexusBottomLeft
    else if west && !east && north && !south then NexusBottomRight
    else if !west && east && north && south then NexusLeftT
    else if west && !east && north && south then NexusRightT
    else if west && east && !north && south then NexusTopT
    else if west && east && north && !south then NexusBottomT
    else NexusNone
  }

  /** The arms a junction glyph draws: (west, east, north, south). */
  function Arms(k: NexusType): (bool, bool, bool, bool) {
    match k
    case NexusTopLeft => (false, true, false, true)
    case NexusTopRight => (true, false, false, true)
    case NexusBottomLeft => (false, true, true, false)
    case NexusBottomRight => (true, false, true, false)
    case NexusLeftT => (false, true, true, true)
    case NexusRightT => (true, false, true, true)
    case NexusTopT => (true, true, false, true)
    case NexusBottomT => (true, true, true, false)
    case NexusCross => (true, true, true, true)
    case NexusNone => (false, false, false, false)
  }

  /** The classification picks the glyph whose arms are exactly the probes
      that hit; probe patterns with fewer than two arms, or two arms in a
      straight line, give no junction. */
  lemma ClassifyMatchesArms(west: bool, east: bool, north: bool, south: bool, k: NexusType)
    requires k != NexusNone
    ensures Classify(west, east, north, south) == k <==> Arms(k) == (west, east, north, south)
  {
  }

  /** The junction two lines make on screen.  The intersection is computed
      with the horizontal line first, but the probes use the arguments as
      given: west/east on l1, north/south on l2. */
  function Nexus(l1: Line, l2: Line): (r: Junction)
    ensures !Orthogonal(l1, l2) ==> r == Junction(-1, -1, NexusNone)
    ensures r.kind == NexusNone ==> r.x == -1 && r.y == -1
  {
    if !Orthogonal(l1, l2) then Junction(-1, -1, NexusNone)
    else
      var (a, b) := if l1.IsVertical() then (l2, l1) else (l1, l2);
      var p := IntersectionPoint(a, b);
      var k := Classify(IsOn(Point(p.x - 1, p.y), l1), IsOn(Point(p.x + 1, p.y), l1),
                        IsOn(Point(p.x, p.y - 1), l2), IsOn(Point(p.x, p.y + 1), l2));
      if k == NexusNone then Junction(-1, -1, NexusNone) else Junction(p.x, p.y, k)
  }

  /** Every coordinate of the line is non-negative, as for every line of a
      window layout. */
  predicate NonNegative(l: Line) {
    l.p1.x >= 0 && l.p1.y >= 0 && l.p2.x >= 0 && l.p2.y >= 0
  }

  /** With the vertical line first the west/east probes look along a
      vertical line and never hit, so on non-negative coordinates (or when
      the segments meet) there is never a junction. */
  lemma NexusVerticalFirstIsNone(l1: Line, l2: Line)
    requires l1.IsVertical()
    requires (NonNegative(l1) && NonNegative(l2)) || Intersection(l2, l1).Success?
    ensures Nexus(l1, l2).kind == NexusNone
  {
    if Orthogonal(l1, l2) {
      var p := IntersectionPoint(l2, l1);
      if Intersection(l2, l1).Success? {
        assert IsOn(p, l1);
      }
      assert !IsOn(Point(p.x - 1, p.y), l1);
      assert !IsOn(Point(p.x + 1, p.y), l1);
    }
  }

  /** On non-negative coordinates a junction is only reported where the two
      segments actually meet. */
  lemma NexusAtIntersection(l1: Line, l2: Line)
    requires NonNegative(l1) && NonNegative(l2)
    requires Nexus(l1, l2).kind != NexusNone
    ensures l1.IsHorizontal() && l2.IsVertical()
    ensures Intersection(l1, l2) == Success(Point(Nexus(l1, l2).x, Nexus(l1, l2).y))
  {
    if l1.IsVertical() {
      NexusVerticalFirstIsNone(l1, l2);
    }
  }

  /** When both lines run through their crossing point the junction is a
      cross; when both start there it is a top-left corner. */
  lemma NexusCrossAndCorner(h: Line, v: Line, p: Point)
    requires h.IsHorizontal() && v.IsVertical()
    requires IsOn(p, h) && IsOn(p, v)
    ensures IsOn(Point(p.x - 1, p.y), h) && IsOn(Point(p.x + 1, p.y), h)
            && IsOn(Point(p.x, p.y - 1), v) && IsOn(Point(p.x, p.y + 1), v)
            ==> Nexus(h, v) == Junction(p.x, p.y, NexusCross)
    ensures p == EndPoints(h).0 && p == EndPoints(v).0
            && IsOn(Point(p.x + 1, p.y), h) && IsOn(Point(p.x, p.y + 1), v)
            ==> Nexus(h, v) == Junction(p.x, p.y, NexusTopLeft)
  {
    IntersectionIsCommonPoint(h, v, p);
  }

  /** Junction classification is not symmetric in its arguments: a cross
      seen as (horizontal, vertical) is no junction at all as (vertical,
      horizontal). */
  lemma NexusNotSymmetric()
    ensures Nexus(NewLine(0, 5, 10, 5), NewLine(5, 0, 5, 10)) == Junction(5, 5, NexusCross)
    ensures Nexus(NewLine(5, 0, 5, 10), NewLine(0, 5, 10, 5)).kind == NexusNone
  {
    var h := NewLine(0, 5, 10, 5);
    var v := NewLine(5, 0, 5, 10);
    NexusCrossAndCorner(h, v, Point(5, 5));
    NexusVerticalFirstIsNone(v, h);
  }

  /** At negative coordinates the sentinel point of a failed intersection is
      probed: two segments that never touch are reported as a corner at
      (-1, -1), with either argument order. */
  lemma NexusSentinelCorner()
    ensures Intersection(NewLine(-5, -1, -2, -1), NewLine(-1, 0, -1, 5)).Failure?
    ensures Nexus(NewLine(-5, -1, -2, -1), NewLine(-1, 0, -1, 5)) == Junction(-1, -1, NexusTopRight)
    ensures Nexus(NewLine(-2, -1, -2, 5), NewLine(-1, -2, 5, -2)) == Junction(-1, -1, NexusBottomRight)
  {
  }
}
