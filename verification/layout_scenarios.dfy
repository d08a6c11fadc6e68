/** Concrete layouts worked through the splitting rules of window.go. */
module LayoutScenarios {
  import opened Results
  import opened Points
  import opened Lines
  import opened Regions
  import opened Window

  const Full := Region(0, 0, 80, 24, true, true, true)
  const North := Region(0, 0, 80, 12, true, false, true)
  const South := Region(0, 12, 80, 12, true, true, true)
  const West := Region(0, 0, 40, 12, false, false, true)
  const East := Region(40, 0, 40, 12, true, false, true)
  const Middle := Line(Point(0, 12), Point(79, 12), Horizontal)
  const Column := Line(Point(40, 0), Point(40, 12), Vertical)

  /** The root window's left and right frame lines, ordered, give the
      row-12 line at offset 12 and the row-18 line at offset 18. */
  lemma SideReferences()
    ensures var w0 := RootWindow(80, 24);
            var l1, l2 := w0.layout.lines[0], w0.layout.lines[1];
            && l1 == Line(Point(0, 0), Point(0, 23), Vertical)
            && l2 == Line(Point(79, 0), Point(79, 23), Vertical)
            && Parallel(l1, l2) && Lower(l1, l2) == l1 && Upper(l1, l2) == l2 && Span(l1) == 24
            && SplitLine(l1, l2, 12) == Middle
            && SplitLine(l1, l2, 18) == Line(Point(0, 18), Point(79, 18), Horizontal)
  {
  }

  /** The row-12 line reaches both side edges of the full screen. */
  lemma MiddleCutsFull()
    ensures Divides(Middle, false, Full)
  {
    DividesHorizontal(Middle, Full);
  }

  /** The row-12 line cuts the full screen into its north and south halves. */
  lemma FirstSplitHalves()
    ensures Marked([Full], Middle, false) == [Full.(valid := false)]
    ensures AllHalves([Full], Middle, false, 12) == [North, South]
  {
    MiddleCutsFull();
    var hs := Halves(Full, 12, false);
    assert hs == (North, South);
    assert AllHalves([Full][1..], Middle, false, 12) == [];
  }

  /** Only the two halves survive the filter. */
  lemma FirstSplitKept()
    ensures KeepValid([Full.(valid := false)] + [North, South]) == [North, South]
  {
    KeepValidAppend([Full.(valid := false)], [North, South]);
    KeepValidOfValid([North, South]);
    assert KeepValid([Full.(valid := false)]) == [];
  }

  /** A two-entry list whose second entry is not Less than its first is
      left as it is by the sort. */
  lemma SortedPair(s: seq<Region>)
    requires |s| == 2 && !Less(s[1], s[0])
    ensures SortRegions(s) == s
  {
    assert Sink(s, 1, 1) == s;
    assert InsertionPass(s, 2) == s;
  }

  /** After the row-12 cut only the two halves are valid. */
  lemma FirstSplitSurvivors(rs: seq<Region>)
    requires rs == [Full]
    ensures KeepValid(Marked(rs, Middle, false) + AllHalves(rs, Middle, false, 12)) == [North, South]
  {
    FirstSplitHalves();
    FirstSplitKept();
  }

  /** The row-12 line cuts the full screen into its north and south halves. */
  lemma FirstSplitRegions(rs: seq<Region>)
    requires rs == [Full]
    ensures SortRegions(KeepValid(Marked(rs, Middle, false) + AllHalves(rs, Middle, false, 12))) == [North, South]
  {
    var kept := KeepValid(Marked(rs, Middle, false) + AllHalves(rs, Middle, false, 12));
    assert |kept| == 2 && !Less(kept[1], kept[0]) by {
      FirstSplitSurvivors(rs);
      assert kept[0] == North && kept[1] == South;
      assert !Less(South, North);
    }
    SortedPair(kept);
    FirstSplitSurvivors(rs);
  }

  /** Cutting the 80 by 24 screen with its left and right frame lines as
      references at offset 12 gives a horizontal line at row 12 and two
      80 by 12 halves; only the upper one loses BottomMost. */
  lemma FirstSplit(w0: Window)
    requires w0 == RootWindow(80, 24)
    ensures AddLine(w0, w0.layout.lines[0], w0.layout.lines[1], 12)
              == (w0.(layout := Layout([North, South], w0.layout.lines + [Middle])), Success(Middle))
  {
    SideReferences();
    AddLineSucceeds(w0, w0.layout.lines[0], w0.layout.lines[1], 12);
    FirstSplitRegions(w0.layout.regions);
  }

  /** The column-40 line cuts the top half but not the bottom one. */
  lemma SecondSplitCuts()
    ensures Divides(Column, true, North)
    ensures !Divides(Column, true, South)
  {
    DividesVertical(Column, North);
    DividesVertical(Column, South);
  }

  /** Only the top half is replaced, by its west and east halves. */
  lemma SecondSplitHalves()
    ensures AllHalves([North, South], Column, true, 40) == [West, East]
  {
    SecondSplitCuts();
    assert Halves(North, 40, true) == (West, East);
    assert [North, South][1..] == [South];
    assert [South][1..] == [];
    assert AllHalves([South], Column, true, 40) == [];
  }

  /** The top half is invalidated in place. */
  lemma SecondSplitMarked()
    ensures Marked([North, South], Column, true) == [North.(valid := false), South]
  {
    SecondSplitCuts();
    var ms := Marked([North, South], Column, true);
    assert ms[0] == North.(valid := false);
    assert ms[1] == South;
  }

  /** Filtering the regions after the column-40 cut. */
  lemma SecondSplitKept()
    ensures KeepValid([North.(valid := false), South] + [West, East]) == [South, West, East]
  {
    var kept := [North.(valid := false), South] + [West, East];
    assert KeepValid(kept[3..]) == [East];
    assert KeepValid(kept[2..]) == [West, East];
    assert KeepValid(kept[1..]) == [South, West, East];
  }

  /** Sorting them: the west half moves before the south half, and the east
      half, incomparable with the south half, stays last. */
  lemma SecondSplitSorted()
    ensures SortRegions([South, West, East]) == [West, South, East]
  {
    assert Less(West, South);
    assert !Less(East, South);
    var s0 := [South, West, East];
    var s1 := [West, South, East];
    assert Swap(s0, 1, 0) == s1;
    assert Sink(s0, 1, 1) == Sink(s1, 0, 1);
    assert Sink(s1, 0, 1) == s1;
    assert Sink(s1, 2, 2) == s1;
    assert InsertionPass(s1, 3) == s1;
    assert InsertionPass(s1, 2) == s1;
  }

  /** Cutting the top half at column 40, with the top frame line and the
      new line as references, splits only that half; the library's
      insertion sort leaves the three regions as west, south, east rather
      than top to bottom. */
  lemma SecondSplit(w0: Window, w1: Window)
    requires w0 == RootWindow(80, 24)
    requires w1 == w0.(layout := Layout([North, South], w0.layout.lines + [Middle]))
    ensures AddLine(w1, w0.layout.lines[2], Middle, 40)
              == (w1.(layout := Layout([West, South, East], w1.layout.lines + [Column])), Success(Column))
  {
    var top := w0.layout.lines[2];
    assert top == Line(Point(0, 0), Point(79, 0), Horizontal);
    assert Parallel(top, Middle);
    assert Lower(top, Middle) == top && Upper(top, Middle) == Middle;
    assert SplitLine(top, Middle, 40) == Column;
    assert Span(top) == 80;
    AddLineSucceeds(w1, top, Middle, 40);
    SecondSplitHalves();
    SecondSplitMarked();
    SecondSplitKept();
    SecondSplitSorted();
  }

  /** The south half of a horizontal cut starts at r.y + n rather than at
      the cut row: cutting the lower half of the screen again at row 18
      (offset 18 from the left frame line) leaves a south half at row 30,
      outside the 24-row screen, and a six-row gap between the halves. */
  lemma SouthHalfMisplaced(w0: Window, w1: Window)
    requires w0 == RootWindow(80, 24)
    requires w1 == w0.(layout := Layout([North, South], w0.layout.lines + [Middle]))
    ensures var (w2, e2) := AddLine(w1, w0.layout.lines[0], w0.layout.lines[1], 18);
            && e2.Success?
            && Region(0, 12, 80, 6, true, false, true) in w2.layout.regions
            && Region(0, 30, 80, 6, true, true, true) in w2.layout.regions
  {
    var l1, l2 := w0.layout.lines[0], w0.layout.lines[1];
    SideReferences();
    var l := Line(Point(0, 18), Point(79, 18), Horizontal);
    var r := AddLine(w1, l1, l2, 18);
    assert r.1 == Success(l);
    assert !Lower(l1, l2).IsHorizontal();
    SouthHalvesAtRow18(l);
    var all := multiset(r.0.layout.regions);
    assert Region(0, 12, 80, 6, true, false, true) in all;
    assert Region(0, 30, 80, 6, true, true, true) in all;
  }

  lemma SouthHalvesAtRow18(l: Line)
    requires l == Line(Point(0, 18), Point(79, 18), Horizontal)
    ensures Region(0, 12, 80, 6, true, false, true) in multiset(AllHalves([North, South], l, false, 18))
    ensures Region(0, 30, 80, 6, true, true, true) in multiset(AllHalves([North, South], l, false, 18))
  {
    DividesHorizontal(l, South);
    assert Divides(l, false, South);
    var hs := Halves(South, 18, false);
    assert hs == (Region(0, 12, 80, 6, true, false, true), Region(0, 30, 80, 6, true, true, true));
    assert [North, South][1..] == [South];
    assert [South][1..] == [];
    assert AllHalves([South], l, false, 18) == [hs.0, hs.1];
    var all := AllHalves([North, South], l, false, 18);
    assert all[|all| - 2..] == [hs.0, hs.1];
    assert hs.0 in all && hs.1 in all;
  }
}
