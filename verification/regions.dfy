/** Rectangular regions of a window, their edges, and the ordering used to
    sort a window's region list (regions.go). */
module Regions {
  import opened Points
  import opened Lines

  /** A rectangle in its window's coordinates.  RightMost and BottomMost mark
      regions on the window's outer edge; Valid is cleared when a split
      supersedes the region. */
  datatype Region = Region(x: int, y: int, w: int, h: int,
                           rightMost: bool, bottomMost: bool, valid: bool)

  function NewRegion(x: int, y: int, width: int, height: int): (r: Region)
    ensures r.x == x && r.y == y && r.w == width && r.h == height
    ensures r.valid && !r.rightMost && !r.bottomMost
  {
    Region(x, y, width, height, false, false, true)
  }

  /** The sort order on regions, as written: origins are compared after
      shifting both by one. */
  predicate Less(a: Region, b: Region) {
    var x1 := a.x + 1;
    var y1 := a.y + 1;
    var x2 := b.x + 1;
    var y2 := b.y + 1;
    if x1 < x2 && y1 < y2 then true
    else if x1 < x2 && y1 >= y2 then y1 == y2
    else if x1 >= x2 && y1 < y2 then x1 == x2
    else false
  }

  /** Less is the strict product order on origins: the shifts cancel. */
  lemma LessIsProductOrder(a: Region, b: Region)
    ensures Less(a, b) <==> a.x <= b.x && a.y <= b.y && (a.x, a.y) != (b.x, b.y)
  {
  }

  /** Less is a strict partial order. */
  lemma LessIsStrictPartialOrder(a: Region, b: Region, c: Region)
    ensures !Less(a, a)
    ensures Less(a, b) ==> !Less(b, a)
    ensures Less(a, b) && Less(b, c) ==> Less(a, c)
  {
    LessIsProductOrder(a, b);
    LessIsProductOrder(b, c);
    LessIsProductOrder(a, c);
  }

  /** ...but not a strict weak order: incomparability is not transitive, so
      the order a sort produces is not determined by Less alone. */
  lemma LessNotStrictWeakOrder()
    ensures var a := NewRegion(0, 1, 1, 1);
            var b := NewRegion(5, 0, 1, 1);
            var c := NewRegion(0, 5, 1, 1);
            !Less(a, b) && !Less(b, a) && !Less(b, c) && !Less(c, b) && Less(a, c)
  {
  }

  /** Exchanges two entries of a region list. */
  function Swap(s: seq<Region>, i: nat, j: nat): (t: seq<Region>)
    requires i < |s| && j < |s|
    ensures |t| == |s| && t[i] == s[j] && t[j] == s[i]
    ensures forall k :: 0 <= k < |s| && k != i && k != j ==> t[k] == s[k]
    ensures multiset(t) == multiset(s)
  {
    s[i := s[j]][j := s[i]]
  }

  /** No entry is Less than the one before it, within s[lo..hi]. */
  predicate NoDescent(s: seq<Region>, lo: nat, hi: nat)
    requires lo <= hi <= |s|
  {
    forall k :: lo < k < hi ==> !Less(s[k], s[k - 1])
  }

  /** Moves the entry at j left while it is Less than its left neighbour
      (the inner loop of the library's insertion sort). */
  function Sink(s: seq<Region>, j: nat, ghost i: nat): (t: seq<Region>)
    requires j <= i < |s|
    requires NoDescent(s, 0, j) && NoDescent(s, j + 1, i + 1)
    requires j < i ==> Less(s[j], s[j + 1])
    requires 0 < j < i ==> !Less(s[j + 1], s[j - 1])
    ensures |t| == |s| && multiset(t) == multiset(s)
    ensures t[i + 1..] == s[i + 1..]
    ensures NoDescent(t, 0, i + 1)
    decreases j
  {
    if j > 0 && Less(s[j], s[j - 1]) then
      var s' := Swap(s, j, j - 1);
      LessIsStrictPartialOrder(s[j], s[j - 1], s[j - 1]);
      assert s'[i + 1..] == s[i + 1..];
      Sink(s', j - 1, i)
    else
      s
  }

  /** The outer loop of the insertion sort, from position i on. */
  function InsertionPass(s: seq<Region>, i: nat): (t: seq<Region>)
    requires 1 <= i <= |s|
    requires NoDescent(s, 0, i)
    ensures |t| == |s| && multiset(t) == multiset(s)
    ensures NoDescent(t, 0, |t|)
    decreases |s| - i
  {
    if i >= |s| then s else InsertionPass(Sink(s, i, i), i + 1)
  }

  /** The order sort.Sort leaves a region list in.  From Go 1.19 on (pdqsort)
      the library runs exactly this insertion sort on lists of at most
      twelve entries; earlier releases first ran a gap-6 pass on 7 to 12; the
      contracts that use it only rely on the result being a permutation. */
  function SortRegions(s: seq<Region>): (t: seq<Region>)
    ensures |t| == |s| && multiset(t) == multiset(s)
    ensures forall k :: 0 < k < |t| ==> !Less(t[k], t[k - 1])
  {
    if |s| <= 1 then s else InsertionPass(s, 1)
  }

  /** The left edge of the region. */
  function Left(r: Region): Line {
    Line(Point(r.x, r.y), Point(r.x, r.y + r.h - 1), Vertical)
  }

  /** The right edge of the region. */
  function Right(r: Region): Line {
    Line(Point(r.x + r.w - 1, r.y), Point(r.x + r.w - 1, r.y + r.h - 1), Vertical)
  }

  /** The top edge of the region. */
  function Top(r: Region): Line {
    Line(Point(r.x, r.y), Point(r.x + r.w - 1, r.y), Horizontal)
  }

  /** The bottom edge of the region. */
  function Bottom(r: Region): Line {
    Line(Point(r.x, r.y + r.h - 1), Point(r.x + r.w - 1, r.y + r.h - 1), Horizontal)
  }

  /** The edges run between the region's corners, top and bottom
      horizontally, left and right vertically; a point is on an edge exactly
      when it is in that edge's row or column and between its corners. */
  lemma EdgesOfRegion(r: Region, p: Point)
    ensures Top(r).IsHorizontal() && Bottom(r).IsHorizontal()
    ensures Left(r).IsVertical() && Right(r).IsVertical()
    ensures IsOn(p, Top(r)) <==>
      p.y == r.y && Min(r.x, r.x + r.w - 1) <= p.x <= Max(r.x, r.x + r.w - 1)
    ensures IsOn(p, Bottom(r)) <==>
      p.y == r.y + r.h - 1 && Min(r.x, r.x + r.w - 1) <= p.x <= Max(r.x, r.x + r.w - 1)
    ensures IsOn(p, Left(r)) <==>
      p.x == r.x && Min(r.y, r.y + r.h - 1) <= p.y <= Max(r.y, r.y + r.h - 1)
    ensures IsOn(p, Right(r)) <==>
      p.x == r.x + r.w - 1 && Min(r.y, r.y + r.h - 1) <= p.y <= Max(r.y, r.y + r.h - 1)
  {
    IsOnCharacterized(p, Top(r));
    IsOnCharacterized(p, Bottom(r));
    IsOnCharacterized(p, Left(r));
    IsOnCharacterized(p, Right(r));
  }

  /** Every corner of a non-empty region lies on both edges that meet there. */
  lemma CornersOnEdges(r: Region)
    requires r.w >= 1 && r.h >= 1
    ensures IsOn(Point(r.x, r.y), Top(r)) && IsOn(Point(r.x, r.y), Left(r))
    ensures IsOn(Point(r.x + r.w - 1, r.y), Top(r)) && IsOn(Point(r.x + r.w - 1, r.y), Right(r))
    ensures IsOn(Point(r.x, r.y + r.h - 1), Bottom(r)) && IsOn(Point(r.x, r.y + r.h - 1), Left(r))
    ensures IsOn(Point(r.x + r.w - 1, r.y + r.h - 1), Bottom(r))
            && IsOn(Point(r.x + r.w - 1, r.y + r.h - 1), Right(r))
  {
    EdgesOfRegion(r, Point(r.x, r.y));
    EdgesOfRegion(r, Point(r.x + r.w - 1, r.y));
    EdgesOfRegion(r, Point(r.x, r.y + r.h - 1));
    EdgesOfRegion(r, Point(r.x + r.w - 1, r.y + r.h - 1));
  }
}
