/** The layout half of a window: its region list and the lines used to cut
    it, with line-based splitting and the border shrink (window.go).
    Drawing is not modelled; only the region and line arithmetic is. */
module Window {
  import opened Results
  import opened Points
  import opened Lines
  import opened Regions

  /** The window's regions (re-sorted after each split) and its lines (in
      creation order). */
  datatype Layout = Layout(regions: seq<Region>, lines: seq<Line>)

  datatype Window = Window(border: bool, x: int, y: int, w: int, h: int, layout: Layout)

  datatype LayoutError = LinesNotEmpty | LinesNotParallel | OffsetOutOfRange | BorderAlreadyEnabled

  /** The four frame lines of a w by h window, built from their endpoints:
      left, right, top, bottom. */
  function EdgeLines(w: int, h: int): seq<Line> {
    [NewLine(0, 0, 0, h - 1), NewLine(w - 1, 0, w - 1, h - 1),
     NewLine(0, 0, w - 1, 0), NewLine(0, h - 1, w - 1, h - 1)]
  }

  /** Records the frame lines; refused once the window has lines. */
  function AddEdges2Lines(win: Window): (r: (Window, Option<LayoutError>))
    ensures |win.layout.lines| > 0 ==> r == (win, Some(LinesNotEmpty))
    ensures |win.layout.lines| == 0 ==> r.1.None? && r.0 == win.(layout := win.layout.(lines := EdgeLines(win.w, win.h)))
    ensures r.1.None? ==> |r.0.layout.lines| == 4
  {
    if |win.layout.lines| > 0 then (win, Some(LinesNotEmpty))
    else (win.(layout := win.layout.(lines := win.layout.lines + EdgeLines(win.w, win.h))), None)
  }

  /** A window covering r, with r as its only region and its frame as lines. */
  function NewWindow(r: Region): (win: Window)
    ensures !win.border && win.x == r.x && win.y == r.y && win.w == r.w && win.h == r.h
    ensures win.layout.regions == [r]
    ensures win.layout.lines == EdgeLines(r.w, r.h)
  {
    var w0 := AddEdges2Lines(Window(false, r.x, r.y, r.w, r.h, Layout([], []))).0;
    w0.(layout := w0.layout.(regions := w0.layout.regions + [r]))
  }

  /** The root window of a screen: one region on both outer edges.  The root
      records its frame a second time, which is refused and ignored. */
  function RootWindow(sw: int, sh: int): (win: Window)
    ensures win.layout.regions == [Region(0, 0, sw, sh, true, true, true)]
    ensures win.layout.lines == EdgeLines(sw, sh)
    ensures AddEdges2Lines(NewWindow(Region(0, 0, sw, sh, true, true, true))).1 == Some(LinesNotEmpty)
  {
    AddEdges2Lines(NewWindow(Region(0, 0, sw, sh, true, true, true))).0
  }

  /** The frame edges of the window in its own coordinates. */
  function WindowLeft(win: Window): Line {
    Line(Point(0, 0), Point(0, win.h - 1), Vertical)
  }

  function WindowRight(win: Window): Line {
    Line(Point(win.w - 1, 0), Point(win.w - 1, win.h - 1), Vertical)
  }

  function WindowTop(win: Window): Line {
    Line(Point(0, 0), Point(win.w - 1, 0), Horizontal)
  }

  function WindowBottom(win: Window): Line {
    Line(Point(0, win.h - 1), Point(win.w - 1, win.h - 1), Horizontal)
  }

  /** The recorded frame lines are the window's edges once the window is at
      least two cells wide and high.  In a one-cell-high window the left and
      right edges collapse to a point and are recorded as unoriented lines;
      in a one-cell-wide window the top and bottom edges do. */
  lemma EdgeLinesAreWindowEdges(win: Window)
    ensures win.w >= 2 && win.h >= 2 ==>
      EdgeLines(win.w, win.h) == [WindowLeft(win), WindowRight(win), WindowTop(win), WindowBottom(win)]
    ensures win.h == 1 ==>
      EdgeLines(win.w, win.h)[0].orientation == UnOriented && EdgeLines(win.w, win.h)[1].orientation == UnOriented
    ensures win.w == 1 ==>
      EdgeLines(win.w, win.h)[2].orientation == UnOriented && EdgeLines(win.w, win.h)[3].orientation == UnOriented
  {
  }

  /** Region n of the window, if there is one. */
  function GetRegion(win: Window, n: int): (r: Option<Region>)
    ensures r.Some? <==> 0 <= n < |win.layout.regions|
    ensures r.Some? ==> r.value == win.layout.regions[n]
  {
    if n < 0 || n >= |win.layout.regions| then None else Some(win.layout.regions[n])
  }

  /** The horizontal lines, in creation order. */
  function HorizLines(ls: seq<Line>): (r: seq<Line>)
    ensures forall l :: l in r <==> l in ls && l.IsHorizontal()
    ensures |r| <= |ls|
  {
    if |ls| == 0 then []
    else (if ls[0].IsHorizontal() then [ls[0]] else []) + HorizLines(ls[1..])
  }

  /** The vertical lines, in creation order. */
  function VertLines(ls: seq<Line>): (r: seq<Line>)
    ensures forall l :: l in r <==> l in ls && l.IsVertical()
    ensures |r| <= |ls|
  {
    if |ls| == 0 then []
    else (if ls[0].IsVertical() then [ls[0]] else []) + VertLines(ls[1..])
  }

  /** Both filters keep order: filtering a concatenation concatenates the
      filtered parts, so a newly added line lands at the end. */
  lemma {:induction false} LineFiltersPreserveOrder(a: seq<Line>, b: seq<Line>)
    ensures HorizLines(a + b) == HorizLines(a) + HorizLines(b)
    ensures VertLines(a + b) == VertLines(a) + VertLines(b)
  {
    HorizLinesAppend(a, b);
    VertLinesAppend(a, b);
  }

  lemma {:induction false} HorizLinesAppend(a: seq<Line>, b: seq<Line>)
    ensures HorizLines(a + b) == HorizLines(a) + HorizLines(b)
  {
    if |a| == 0 {
      assert a + b == b;
    } else {
      assert (a + b)[0] == a[0];
      assert (a + b)[1..] == a[1..] + b;
      HorizLinesAppend(a[1..], b);
      var head := if a[0].IsHorizontal() then [a[0]] else [];
      calc {
        HorizLines(a + b);
        head + HorizLines(a[1..] + b);
        head + (HorizLines(a[1..]) + HorizLines(b));
        { assert head + (HorizLines(a[1..]) + HorizLines(b)) == (head + HorizLines(a[1..])) + HorizLines(b); }
        HorizLines(a) + HorizLines(b);
      }
    }
  }

  lemma {:induction false} VertLinesAppend(a: seq<Line>, b: seq<Line>)
    ensures VertLines(a + b) == VertLines(a) + VertLines(b)
  {
    if |a| == 0 {
      assert a + b == b;
    } else {
      assert (a + b)[0] == a[0];
      assert (a + b)[1..] == a[1..] + b;
      VertLinesAppend(a[1..], b);
      var head := if a[0].IsVertical() then [a[0]] else [];
      calc {
        VertLines(a + b);
        head + VertLines(a[1..] + b);
        head + (VertLines(a[1..]) + VertLines(b));
        { assert head + (VertLines(a[1..]) + VertLines(b)) == (head + VertLines(a[1..])) + VertLines(b); }
        VertLines(a) + VertLines(b);
      }
    }
  }

  /** Every oriented line is in exactly one of the two filters. */
  lemma {:induction false} LineFiltersPartition(ls: seq<Line>)
    ensures |HorizLines(ls)| + |VertLines(ls)| <= |ls|
    ensures (forall i :: 0 <= i < |ls| ==> ls[i].orientation != UnOriented) ==>
              |HorizLines(ls)| + |VertLines(ls)| == |ls|
  {
    if |ls| > 0 {
      LineFiltersPartition(ls[1..]);
      assert forall i :: 0 <= i < |ls[1..]| ==> ls[1..][i] == ls[i + 1];
    }
  }

  // ---------------------------------------------------------------------
  // Border

  /** A region with room made for the border: moved one cell right and down,
      and one cell narrower and shorter, or two on an outer edge. */
  function Shrink(r: Region): Region {
    r.(x := r.x + 1, y := r.y + 1,
       w := r.w - (if r.rightMost then 2 else 1),
       h := r.h - (if r.bottomMost then 2 else 1))
  }

  /** Enables the window's border, shrinking every region; refused if the
      border is already enabled. */
  function AddBorder(win: Window): (r: (Window, Option<LayoutError>))
    ensures win.border ==> r == (win, Some(BorderAlreadyEnabled))
    ensures !win.border ==> r.1.None? && r.0.border
    ensures r.0.layout.lines == win.layout.lines
    ensures (r.0.x, r.0.y, r.0.w, r.0.h) == (win.x, win.y, win.w, win.h)
    ensures |r.0.layout.regions| == |win.layout.regions|
    ensures !win.border ==> forall i :: 0 <= i < |win.layout.regions| ==>
      var a := win.layout.regions[i];
      var b := r.0.layout.regions[i];
      && b.x == a.x + 1 && b.y == a.y + 1
      && b.x + b.w == a.x + a.w - (if a.rightMost then 1 else 0)
      && b.y + b.h == a.y + a.h - (if a.bottomMost then 1 else 0)
      && (b.rightMost, b.bottomMost, b.valid) == (a.rightMost, a.bottomMost, a.valid)
  {
    if win.border then (win, Some(BorderAlreadyEnabled))
    else
      var rs := win.layout.regions;
      var rs' := seq(|rs|, i requires 0 <= i < |rs| => Shrink(rs[i]));
      (win.(border := true, layout := win.layout.(regions := rs')), None)
  }

  /** A second border request is refused and changes nothing. */
  lemma AddBorderOnce(win: Window)
    requires !win.border
    ensures AddBorder(AddBorder(win).0) == (AddBorder(win).0, Some(BorderAlreadyEnabled))
  {
  }

  // ---------------------------------------------------------------------
  // Splitting

  /** The reference line the offset is measured from: the first argument
      unless it is GreaterThan the second. */
  function Lower(l1: Line, l2: Line): Line {
    if GreaterThan(l1, l2) then l2 else l1
  }

  function Upper(l1: Line, l2: Line): Line {
    if GreaterThan(l1, l2) then l1 else l2
  }

  /** The inclusive span of the lower reference line, read from its stored
      endpoints. */
  function Span(lo: Line): int {
    if lo.IsHorizontal() then lo.p2.x - lo.p1.x + 1 else lo.p2.y - lo.p1.y + 1
  }

  /** The new line: between two horizontal references it is vertical, at
      offset n from the lower one's first point; otherwise horizontal. */
  function SplitLine(lo: Line, hi: Line, n: int): Line {
    if lo.IsHorizontal() then
      Line(Point(lo.p1.x + n, lo.p1.y), Point(lo.p1.x + n, hi.p1.y), Vertical)
    else
      Line(Point(lo.p1.x, lo.p1.y + n), Point(hi.p1.x, lo.p1.y + n), Horizontal)
  }

  /** Does the new line cut r?  A vertical line must meet the region's top
      and bottom edges, a horizontal one its left and right edges.  The
      points compared are those Intersection returns, including its
      (-1, -1) sentinel when the segments miss. */
  predicate Divides(l: Line, vertical: bool, r: Region) {
    if vertical then
      IsOn(IntersectionPoint(l, Top(r)), Top(r)) && IsOn(IntersectionPoint(l, Bottom(r)), Bottom(r))
    else
      IsOn(IntersectionPoint(l, Left(r)), Left(r)) && IsOn(IntersectionPoint(l, Right(r)), Right(r))
  }

  /** The two halves a cut region is replaced by: west and east for a
      vertical cut, north and south for a horizontal one.  The offset n is
      used as written: the east half starts at column n, the south half at
      row r.y + n. */
  function Halves(r: Region, n: int, vertical: bool): (hs: (Region, Region))
    ensures hs.0.valid && hs.1.valid
    ensures (hs.0.x, hs.0.y) == (r.x, r.y)
    ensures vertical ==> hs.0.w + hs.1.w == r.w && hs.0.h == r.h && hs.1.h == r.h
    ensures vertical ==> hs.1.x == n && hs.1.y == r.y && hs.0.x + hs.0.w == n
    ensures vertical ==> !hs.0.rightMost && hs.0.bottomMost == r.bottomMost
    ensures !vertical ==> hs.0.h + hs.1.h == r.h && hs.0.w == r.w && hs.1.w == r.w
    ensures !vertical ==> hs.1.x == r.x && hs.1.y == r.y + n && hs.0.y + hs.0.h == n
    ensures !vertical ==> !hs.0.bottomMost && hs.0.rightMost == r.rightMost
    ensures (hs.1.rightMost, hs.1.bottomMost) == (r.rightMost, r.bottomMost)
  {
    if vertical then
      (NewRegion(r.x, r.y, n - r.x, r.h).(rightMost := false, bottomMost := r.bottomMost),
       NewRegion(n, r.y, r.w - (n - r.x), r.h).(rightMost := r.rightMost, bottomMost := r.bottomMost))
    else
      (NewRegion(r.x, r.y, r.w, n - r.y).(rightMost := r.rightMost, bottomMost := false),
       NewRegion(r.x, r.y + n, r.w, r.h - (n - r.y)).(rightMost := r.rightMost, bottomMost := r.bottomMost))
  }

  /** The original list with every cut region invalidated in place. */
  function Marked(rs: seq<Region>, l: Line, vertical: bool): (ms: seq<Region>)
    ensures |ms| == |rs|
    ensures forall i :: 0 <= i < |rs| ==> ms[i].(valid := rs[i].valid) == rs[i]
    ensures forall i :: 0 <= i < |rs| ==> (ms[i].valid <==> rs[i].valid && !Divides(l, vertical, rs[i]))
  {
    seq(|rs|, i requires 0 <= i < |rs| =>
      if Divides(l, vertical, rs[i]) then rs[i].(valid := false) else rs[i])
  }

  /** The halves of the cut regions, appended in the order of the originals. */
  function AllHalves(rs: seq<Region>, l: Line, vertical: bool, n: int): (hs: seq<Region>)
    ensures forall k :: 0 <= k < |hs| ==> hs[k].valid
  {
    if |rs| == 0 then []
    else
      var hs := Halves(rs[0], n, vertical);
      var front := if Divides(l, vertical, rs[0]) then [hs.0, hs.1] else [];
      var rest := AllHalves(rs[1..], l, vertical, n);
      assert forall k :: 0 <= k < |front| ==> front[k].valid;
      front + rest
  }

  /** The valid entries, in order. */
  function KeepValid(rs: seq<Region>): (ks: seq<Region>)
    ensures forall k :: 0 <= k < |ks| ==> ks[k].valid
  {
    if |rs| == 0 then []
    else (if rs[0].valid then [rs[0]] else []) + KeepValid(rs[1..])
  }

  /** The regions the line does not cut, in order. */
  function Uncut(rs: seq<Region>, l: Line, vertical: bool): (us: seq<Region>)
  {
    if |rs| == 0 then []
    else (if Divides(l, vertical, rs[0]) then [] else [rs[0]]) + Uncut(rs[1..], l, vertical)
  }

  /** h is one of the two halves of a region of rs that l cuts. */
  ghost predicate HalfOfCut(h: Region, rs: seq<Region>, l: Line, vertical: bool, n: int) {
    exists i :: 0 <= i < |rs| && Divides(l, vertical, rs[i])
                && (h == Halves(rs[i], n, vertical).0 || h == Halves(rs[i], n, vertical).1)
  }

  /** The halves list holds both halves of every cut region and nothing else. */
  lemma {:induction false} AllHalvesExactly(rs: seq<Region>, l: Line, vertical: bool, n: int)
    ensures forall i :: 0 <= i < |rs| && Divides(l, vertical, rs[i]) ==>
      Halves(rs[i], n, vertical).0 in AllHalves(rs, l, vertical, n)
      && Halves(rs[i], n, vertical).1 in AllHalves(rs, l, vertical, n)
    ensures forall h :: h in AllHalves(rs, l, vertical, n) ==> HalfOfCut(h, rs, l, vertical, n)
  {
    if |rs| > 0 {
      var tail := rs[1..];
      AllHalvesExactly(tail, l, vertical, n);
      var hs := AllHalves(rs, l, vertical, n);
      var rest := AllHalves(tail, l, vertical, n);
      var front := if Divides(l, vertical, rs[0]) then [Halves(rs[0], n, vertical).0, Halves(rs[0], n, vertical).1] else [];
      assert hs == front + rest;
      forall i | 0 <= i < |rs| && Divides(l, vertical, rs[i])
        ensures Halves(rs[i], n, vertical).0 in hs && Halves(rs[i], n, vertical).1 in hs
      {
        if i > 0 { assert rs[i] == tail[i - 1]; }
      }
      forall h | h in hs ensures HalfOfCut(h, rs, l, vertical, n) {
        if h in rest {
          var j :| 0 <= j < |tail| && Divides(l, vertical, tail[j])
                   && (h == Halves(tail[j], n, vertical).0 || h == Halves(tail[j], n, vertical).1);
          assert rs[j + 1] == tail[j];
        } else {
          assert h in front;
          assert Divides(l, vertical, rs[0]);
        }
      }
    }
  }

  /** A region survives the filter exactly when it is in the list and valid. */
  lemma {:induction false} KeepValidMembers(rs: seq<Region>)
    ensures forall r :: r in KeepValid(rs) <==> r in rs && r.valid
  {
    if |rs| > 0 {
      KeepValidMembers(rs[1..]);
      assert rs == [rs[0]] + rs[1..];
    }
  }

  lemma {:induction false} KeepValidAppend(a: seq<Region>, b: seq<Region>)
    ensures KeepValid(a + b) == KeepValid(a) + KeepValid(b)
  {
    if |a| == 0 {
      assert a + b == b;
    } else {
      assert (a + b)[1..] == a[1..] + b;
      KeepValidAppend(a[1..], b);
    }
  }

  lemma {:induction false} KeepValidOfValid(rs: seq<Region>)
    requires forall k :: 0 <= k < |rs| ==> rs[k].valid
    ensures KeepValid(rs) == rs
  {
    if |rs| > 0 {
      KeepValidOfValid(rs[1..]);
    }
  }

  /** Filtering the marked list keeps exactly the valid regions the line
      does not cut. */
  lemma {:induction false} KeepValidMarked(rs: seq<Region>, l: Line, vertical: bool)
    ensures KeepValid(Marked(rs, l, vertical)) == KeepValid(Uncut(rs, l, vertical))
  {
    if |rs| > 0 {
      var ms := Marked(rs, l, vertical);
      assert ms[1..] == Marked(rs[1..], l, vertical);
      KeepValidMarked(rs[1..], l, vertical);
      if Divides(l, vertical, rs[0]) {
        assert Uncut(rs, l, vertical) == Uncut(rs[1..], l, vertical);
      } else {
        assert Uncut(rs, l, vertical) == [rs[0]] + Uncut(rs[1..], l, vertical);
        assert ([rs[0]] + Uncut(rs[1..], l, vertical))[1..] == Uncut(rs[1..], l, vertical);
      }
    }
  }

  /** Splits every region the new line cuts and re-sorts the valid regions.
      Two horizontal references give a vertical line and a west/east split;
      two vertical references a horizontal line and a north/south split.
      On error the window is returned unchanged. */
  function AddLine(win: Window, l1: Line, l2: Line, n: int): (r: (Window, Result<Line, LayoutError>))
    ensures r.1.Failure? ==> r.0 == win
    ensures r.1 == Failure(LinesNotParallel) <==> !Parallel(l1, l2)
    ensures r.1 == Failure(OffsetOutOfRange) <==>
      Parallel(l1, l2) && (n < 0 || n > Span(Lower(l1, l2)))
    ensures r.1.Success? ==>
      && r.1.value == SplitLine(Lower(l1, l2), Upper(l1, l2), n)
      && r.0.layout.lines == win.layout.lines + [r.1.value]
      && r.0.border == win.border && (r.0.x, r.0.y, r.0.w, r.0.h) == (win.x, win.y, win.w, win.h)
    ensures r.1.Success? ==> forall k :: 0 <= k < |r.0.layout.regions| ==> r.0.layout.regions[k].valid
    ensures r.1.Success? ==>
      var vertical := Lower(l1, l2).IsHorizontal();
      var rs := win.layout.regions;
      multiset(r.0.layout.regions)
        == multiset(KeepValid(Uncut(rs, r.1.value, vertical))) + multiset(AllHalves(rs, r.1.value, vertical, n))
  {
    if !Parallel(l1, l2) then (win, Failure(LinesNotParallel))
    else
      var lo := Lower(l1, l2);
      var l := SplitLine(lo, Upper(l1, l2), n);
      if n < 0 || n > Span(lo) then (win, Failure(OffsetOutOfRange))
      else
        var vertical := lo.IsHorizontal();
        var rs := win.layout.regions;
        var hs := AllHalves(rs, l, vertical, n);
        var kept := KeepValid(Marked(rs, l, vertical) + hs);
        KeepValidAppend(Marked(rs, l, vertical), hs);
        KeepValidMarked(rs, l, vertical);
        KeepValidOfValid(hs);
        var sorted := SortRegions(kept);
        assert forall k :: 0 <= k < |sorted| ==> sorted[k] in multiset(kept);
        (win.(layout := Layout(sorted, win.layout.lines + [l])), Success(l))
  }

  /** A successful AddLine stores exactly the sorted survivors of the
      marked list followed by the halves.  This is AddLine's success branch
      written out; it serves as the unfolding step for the concrete layout
      scenarios and states nothing beyond the definition. */
  lemma AddLineSucceeds(win: Window, l1: Line, l2: Line, n: int)
    requires Parallel(l1, l2) && 0 <= n <= Span(Lower(l1, l2))
    ensures var l := SplitLine(Lower(l1, l2), Upper(l1, l2), n);
            var vertical := Lower(l1, l2).IsHorizontal();
            var rs := win.layout.regions;
            AddLine(win, l1, l2, n)
              == (win.(layout := Layout(SortRegions(KeepValid(Marked(rs, l, vertical) + AllHalves(rs, l, vertical, n))),
                                        win.layout.lines + [l])), Success(l))
  {
  }

  /** The reference lines are ordered so the lower one is not GreaterThan the
      upper one; the new line spans from the lower to the upper reference,
      perpendicular to both. */
  lemma SplitLineShape(l1: Line, l2: Line, n: int)
    requires Parallel(l1, l2)
    ensures var lo := Lower(l1, l2);
            var hi := Upper(l1, l2);
            var l := SplitLine(lo, hi, n);
            && ({lo, hi} == {l1, l2}) && !GreaterThan(lo, hi)
            && (lo.IsHorizontal() ==>
                  l.IsVertical() && l.p1 == Point(lo.p1.x + n, lo.p1.y)
                  && l.p2 == Point(lo.p1.x + n, hi.p1.y) && lo.p1.y <= hi.p1.y)
            && (lo.IsVertical() ==>
                  l.IsHorizontal() && l.p1 == Point(lo.p1.x, lo.p1.y + n)
                  && l.p2 == Point(hi.p1.x, lo.p1.y + n) && lo.p1.x <= hi.p1.x)
  {
  }

  /** All four edges of r lie at non-negative coordinates, as in any window. */
  predicate InFirstQuadrant(r: Region) {
    r.x >= 0 && r.y >= 0 && r.x + r.w - 1 >= 0 && r.y + r.h - 1 >= 0
  }

  /** A vertical line from row ya down to row yb at column c cuts a region
      exactly when the region's top and bottom rows are within [ya, yb] and
      c lies between the region's left and right columns. */
  lemma DividesVertical(l: Line, r: Region)
    requires l.IsVertical() && l.p1.x == l.p2.x && l.p1.y <= l.p2.y
    requires InFirstQuadrant(r)
    ensures Divides(l, true, r) <==>
      && l.p1.y <= r.y <= l.p2.y && l.p1.y <= r.y + r.h - 1 <= l.p2.y
      && Min(r.x, r.x + r.w - 1) <= l.p1.x <= Max(r.x, r.x + r.w - 1)
  {
    var c1 := Point(l.p1.x, r.y);
    var c2 := Point(l.p1.x, r.y + r.h - 1);
    assert Crossing(l, Top(r)) == c1;
    assert Crossing(l, Bottom(r)) == c2;
    EdgesOfRegion(r, c1);
    EdgesOfRegion(r, c2);
    EdgesOfRegion(r, Point(-1, -1));
    IsOnCharacterized(c1, l);
    IsOnCharacterized(c2, l);
  }

  /** The same for a horizontal line from column xa to column xb at row c. */
  lemma DividesHorizontal(l: Line, r: Region)
    requires l.IsHorizontal() && l.p1.y == l.p2.y && l.p1.x <= l.p2.x
    requires InFirstQuadrant(r)
    ensures Divides(l, false, r) <==>
      && l.p1.x <= r.x <= l.p2.x && l.p1.x <= r.x + r.w - 1 <= l.p2.x
      && Min(r.y, r.y + r.h - 1) <= l.p1.y <= Max(r.y, r.y + r.h - 1)
  {
    var c1 := Point(r.x, l.p1.y);
    var c2 := Point(r.x + r.w - 1, l.p1.y);
    assert Crossing(l, Left(r)) == c1;
    assert Crossing(l, Right(r)) == c2;
    EdgesOfRegion(r, c1);
    EdgesOfRegion(r, c2);
    EdgesOfRegion(r, Point(-1, -1));
    IsOnCharacterized(c1, l);
    IsOnCharacterized(c2, l);
  }

  /** West and east halves always tile the original; north and south halves
      are adjacent and end where the original ends only when the original
      starts at row 0, because the south half starts at r.y + n.  An offset
      at the region's edge gives a half of size zero. */
  lemma HalvesTiling(r: Region, n: int)
    ensures var hs := Halves(r, n, true);
            hs.0.x + hs.0.w == hs.1.x && hs.1.x + hs.1.w == r.x + r.w
    ensures var hs := Halves(r, n, false);
            (hs.0.y + hs.0.h == hs.1.y <==> r.y == 0)
            && (hs.1.y + hs.1.h == r.y + r.h <==> r.y == 0)
    ensures Halves(r, r.x, true).0.w == 0 && Halves(r, r.y, false).0.h == 0
    ensures Halves(r, r.x + r.w, true).1.w == 0
  {
  }
}
