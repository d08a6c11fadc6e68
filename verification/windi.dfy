/** Object tree bookkeeping (windi.go): management, channel wiring, and the
    translation of cell writes and clickable regions up the parent chain to
    the root window.  The tree is a map from object ids to records; the
    terminal is reduced to a log of the cells written at the root. */
module Tree {
  import Results
  import opened Points
  import opened Screen
  import Window

  type ObjId = nat

  /** An object's position in its parent, size, management state, parent
      link, channel pairs and managed children. */
  datatype Obj = Obj(x: int, y: int, w: int, h: int, managed: bool,
                     parent: Results.Option<ObjId>, comm: seq<IChing>, children: seq<ObjId>)

  /** One cell written to the terminal. */
  datatype CellWrite = CellWrite(x: int, y: int, ch: char, fg: int, bg: int)

  /** The whole toolkit state: the objects, the screen, the next unused
      channel id, and the terminal write log. */
  datatype Session = Session(objs: map<ObjId, Obj>, screen: ScreenState, nextChan: ChanId, writes: seq<CellWrite>)

  datatype TreeError = Unmanaged | OutOfRange | AlreadyManaged

  /** Whether p lies within the size of o, in o's own coordinates. */
  predicate Within(o: Obj, p: Point) {
    p.x >= 0 && p.x < o.w && p.y >= 0 && p.y < o.h
  }

  /** Within is the hit test of a region at the origin with o's size. */
  lemma WithinIsHitAtOrigin(o: Obj, p: Point, c: ChanId)
    ensures Within(o, p) <==> Hit(ClickableRegion(0, 0, o.w, o.h, c), p.x, p.y)
  {
  }

  /** o exists, and walking parent links through managed objects ends, at a
      root or at an unmanaged object, within fuel steps, through existing
      objects only.  Cycles of managed objects never satisfy it. */
  predicate ReachesRoot(objs: map<ObjId, Obj>, o: ObjId, fuel: nat)
    decreases fuel
  {
    o in objs &&
    (objs[o].managed && objs[o].parent.Some? ==>
       fuel > 0 && ReachesRoot(objs, objs[o].parent.value, fuel - 1))
  }

  /** Every object on the chain from o up to the root is managed. */
  predicate ChainManaged(objs: map<ObjId, Obj>, o: ObjId, fuel: nat)
    requires ReachesRoot(objs, o, fuel)
    decreases fuel
  {
    objs[o].managed &&
    (objs[o].parent.None? || ChainManaged(objs, objs[o].parent.value, fuel - 1))
  }

  /** The sum of the positions of the non-root objects on the chain from o
      (stopping early at an unmanaged object). */
  function ChainOffset(objs: map<ObjId, Obj>, o: ObjId, fuel: nat): Point
    requires ReachesRoot(objs, o, fuel)
    decreases fuel
  {
    if !objs[o].managed || objs[o].parent.None? then Point(0, 0)
    else
      var up := ChainOffset(objs, objs[o].parent.value, fuel - 1);
      Point(objs[o].x + up.x, objs[o].y + up.y)
  }

  /** Where a clickable region registered by o at (x, y) lands on the
      screen: each non-root ancestor's position is added, with no bounds
      check. */
  function ClickTarget(objs: map<ObjId, Obj>, o: ObjId, x: int, y: int, fuel: nat): (r: Results.Result<Point, TreeError>)
    requires ReachesRoot(objs, o, fuel)
    ensures r.Success? <==> ChainManaged(objs, o, fuel)
    ensures r.Failure? ==> r.error == Unmanaged
    ensures r.Success? ==> r.value == Point(x + ChainOffset(objs, o, fuel).x, y + ChainOffset(objs, o, fuel).y)
    decreases fuel
  {
    var ob := objs[o];
    if !ob.managed then Results.Failure(Unmanaged)
    else match ob.parent
      case None => Results.Success(Point(x, y))
      case Some(p) => ClickTarget(objs, p, x + ob.x, y + ob.y, fuel - 1)
  }

  /** Every managed non-root object on the chain from o contains the
      coordinates as they stand when they reach it: (x, y) at o, shifted by
      each position passed on the way up. */
  predicate ChainInBounds(objs: map<ObjId, Obj>, o: ObjId, x: int, y: int, fuel: nat)
    requires ReachesRoot(objs, o, fuel)
    decreases fuel
  {
    var ob := objs[o];
    !ob.managed || ob.parent.None? ||
    (Within(ob, Point(x, y)) && ChainInBounds(objs, ob.parent.value, x + ob.x, y + ob.y, fuel - 1))
  }

  /** Where a cell written by o at (x, y) lands on the screen: every
      non-root object on the way up rejects coordinates outside its own
      size; the root accepts anything. */
  function CellTarget(objs: map<ObjId, Obj>, o: ObjId, x: int, y: int, fuel: nat): (r: Results.Result<Point, TreeError>)
    requires ReachesRoot(objs, o, fuel)
    ensures r.Success? ==> r == ClickTarget(objs, o, x, y, fuel)
    ensures r.Failure? ==> r.error == Unmanaged || r.error == OutOfRange
    ensures r == Results.Failure(Unmanaged) ==> !ChainManaged(objs, o, fuel)
    ensures !objs[o].managed ==> r == Results.Failure(Unmanaged)
    ensures objs[o].managed && objs[o].parent.Some? && !Within(objs[o], Point(x, y)) ==> r == Results.Failure(OutOfRange)
    ensures objs[o].managed && objs[o].parent.None? ==> r == Results.Success(Point(x, y))
    ensures objs[o].managed && objs[o].parent.Some? && Within(objs[o], Point(x, y)) ==>
      r == CellTarget(objs, objs[o].parent.value, x + objs[o].x, y + objs[o].y, fuel - 1)
    ensures r.Success? <==> ChainManaged(objs, o, fuel) && ChainInBounds(objs, o, x, y, fuel)
    decreases fuel
  {
    var ob := objs[o];
    if !ob.managed then Results.Failure(Unmanaged)
    else match ob.parent
      case None => Results.Success(Point(x, y))
      case Some(p) =>
        if x < 0 || x >= ob.w || y < 0 || y >= ob.h then Results.Failure(OutOfRange)
        else CellTarget(objs, p, x + ob.x, y + ob.y, fuel - 1)
  }

  /** Writes one cell through o.  On success the root-level cell is added
      to the write log; on any error nothing changes. */
  function SetCell(s: Session, o: ObjId, x: int, y: int, ch: char, fg: int, bg: int): (r: (Session, Results.Option<TreeError>))
    requires ReachesRoot(s.objs, o, |s.objs|)
    ensures r.1.Some? ==> r.0 == s && r.1.value != AlreadyManaged
    ensures r.1.None? <==> CellTarget(s.objs, o, x, y, |s.objs|).Success?
    ensures r.1.None? <==> ChainManaged(s.objs, o, |s.objs|) && ChainInBounds(s.objs, o, x, y, |s.objs|)
    ensures r.1.None? ==>
      var t := ClickTarget(s.objs, o, x, y, |s.objs|).value;
      r.0.writes == s.writes + [CellWrite(t.x, t.y, ch, fg, bg)] && r.0.(writes := s.writes) == s
  {
    match CellTarget(s.objs, o, x, y, |s.objs|)
    case Failure(e) => (s, Results.Some(e))
    case Success(t) => (s.(writes := s.writes + [CellWrite(t.x, t.y, ch, fg, bg)]), Results.None)
  }

  /** Registers a clickable rectangle of o.  On success exactly one region,
      translated to screen coordinates and with its size unchanged, is
      appended to the screen's list under a new channel, which is
      returned. */
  function RegClickable(s: Session, o: ObjId, rx: int, ry: int, rw: int, rh: int): (r: (Session, Results.Result<ChanId, TreeError>))
    requires ReachesRoot(s.objs, o, |s.objs|)
    ensures r.1.Failure? <==> !ChainManaged(s.objs, o, |s.objs|)
    ensures r.1.Failure? ==> r.0 == s && r.1.error == Unmanaged
    ensures r.1.Success? ==>
      var off := ChainOffset(s.objs, o, |s.objs|);
      && r.1.value == s.nextChan && r.0.nextChan == s.nextChan + 1
      && r.0.screen.clickables == s.screen.clickables + [ClickableRegion(rx + off.x, ry + off.y, rw, rh, s.nextChan)]
      && r.0.objs == s.objs && r.0.writes == s.writes
      && r.0.screen.(clickables := s.screen.clickables) == s.screen
  {
    match ClickTarget(s.objs, o, rx, ry, |s.objs|)
    case Failure(e) => (s, Results.Failure(e))
    case Success(t) =>
      var cr := ClickableRegion(t.x, t.y, rw, rh, s.nextChan);
      (s.(screen := s.screen.(clickables := s.screen.clickables + [cr]), nextChan := s.nextChan + 1),
       Results.Success(s.nextChan))
  }

  /** Screen.RequestFocus with the channel it makes: the next unused id.
      The keyboard moves to that channel, which is open, and the previous
      keyboard channel, if any, is closed. */
  function RequestFocus(s: Session): (r: (Session, ChanId))
    requires ScreenChannelsIssued(s)
    ensures r.1 == s.nextChan && r.0.nextChan == s.nextChan + 1
    ensures r.0.screen.kbd == Results.Some(r.1) && r.1 !in r.0.screen.closed
    ensures s.screen.kbd.Some? ==> s.screen.kbd.value in r.0.screen.closed && s.screen.kbd.value != r.1
    ensures r.0.objs == s.objs && r.0.writes == s.writes
    ensures r.0.screen.(kbd := s.screen.kbd, closed := s.screen.closed) == s.screen
    ensures ScreenChannelsIssued(r.0)
  {
    var f := Screen.RequestFocus(s.screen, s.nextChan);
    (s.(screen := f.0, nextChan := s.nextChan + 1), f.1)
  }

  /** A cell a successful SetCell writes lands where a clickable region at
      the same coordinates would be registered. */
  lemma SetCellAgreesWithRegClickable(s: Session, o: ObjId, x: int, y: int, ch: char, fg: int, bg: int, w: int, h: int)
    requires ReachesRoot(s.objs, o, |s.objs|)
    requires SetCell(s, o, x, y, ch, fg, bg).1.None?
    ensures var cr := RegClickable(s, o, x, y, w, h).0.screen.clickables[|s.screen.clickables|];
            var cw := SetCell(s, o, x, y, ch, fg, bg).0.writes[|s.writes|];
            cr.x == cw.x && cr.y == cw.y
  {
  }

  /** Gives the container c and the object w one new channel pair each,
      crosswise: w's input is c's output and the other way round. */
  function AddComm(s: Session, c: ObjId, w: ObjId): (r: Session)
    requires c in s.objs && w in s.objs
    ensures r.objs.Keys == s.objs.Keys && r.nextChan == s.nextChan + 2
    ensures c != w ==> r.objs[c].comm == s.objs[c].comm + [IChing(s.nextChan, s.nextChan + 1)]
    ensures c != w ==> r.objs[w].comm == s.objs[w].comm + [IChing(s.nextChan + 1, s.nextChan)]
    ensures forall o :: o in s.objs && o != c && o != w ==> r.objs[o] == s.objs[o]
    ensures forall o :: o in s.objs ==> r.objs[o].(comm := s.objs[o].comm) == s.objs[o]
    ensures r.screen == s.screen && r.writes == s.writes
  {
    var n := s.nextChan;
    var objs1 := s.objs[c := s.objs[c].(comm := s.objs[c].comm + [IChing(n, n + 1)])];
    var objs2 := objs1[w := objs1[w].(comm := objs1[w].comm + [IChing(n + 1, n)])];
    s.(objs := objs2, nextChan := n + 2)
  }

  /** Makes c the parent of w.  An object already managed is refused with
      nothing changed.  Otherwise w becomes managed with parent c, the two
      are linked by a new channel pair, and w is appended to c's children.
      Neither w's position nor its size is checked against c. */
  function Manage(s: Session, c: ObjId, w: ObjId): (r: (Session, Results.Option<TreeError>))
    requires c in s.objs && w in s.objs
    ensures r.1.Some? <==> s.objs[w].managed
    ensures r.1.Some? ==> r.0 == s && r.1.value == AlreadyManaged
    ensures r.1.None? ==>
      && r.0.objs.Keys == s.objs.Keys && r.0.nextChan == s.nextChan + 2
      && r.0.objs[w].managed && r.0.objs[w].parent == Results.Some(c)
      && r.0.objs[c].children == s.objs[c].children + [w]
      && (c != w ==> r.0.objs[w].comm == s.objs[w].comm + [IChing(s.nextChan + 1, s.nextChan)])
      && (c != w ==> r.0.objs[c].comm == s.objs[c].comm + [IChing(s.nextChan, s.nextChan + 1)])
      && (c != w ==> r.0.objs[c].managed == s.objs[c].managed && r.0.objs[c].parent == s.objs[c].parent)
      && (c != w ==> r.0.objs[w].children == s.objs[w].children)
      && (forall o :: o in s.objs && o != c && o != w ==> r.0.objs[o] == s.objs[o])
      && (forall o :: o in s.objs ==> (r.0.objs[o].x, r.0.objs[o].y, r.0.objs[o].w, r.0.objs[o].h)
                                       == (s.objs[o].x, s.objs[o].y, s.objs[o].w, s.objs[o].h))
      && r.0.screen == s.screen && r.0.writes == s.writes
  {
    if s.objs[w].managed then (s, Results.Some(AlreadyManaged))
    else
      var s1 := s.(objs := s.objs[w := s.objs[w].(managed := true, parent := Results.Some(c))]);
      var s2 := AddComm(s1, c, w);
      var cc := s2.objs[c];
      (s2.(objs := s2.objs[c := cc.(children := cc.children + [w])]), Results.None)
  }

  /** A window's Manage ignores the result of Manage and always reports
      success; the session changes exactly as Manage changes it, so every
      property of Manage holds for the wrapper too. */
  function WindowManage(s: Session, c: ObjId, w: ObjId): (r: (Session, Results.Option<TreeError>))
    requires c in s.objs && w in s.objs
    ensures r.1 == Results.None
    ensures r.0 == Manage(s, c, w).0
    ensures s.objs[w].managed <==> Manage(s, c, w).1 == Results.Some(AlreadyManaged)
    ensures s.objs[w].managed ==> r.0 == s
    ensures !s.objs[w].managed ==> w in r.0.objs && r.0.objs[w].managed && r.0.objs[w].parent == Results.Some(c)
  {
    var m := Manage(s, c, w);
    assert !s.objs[w].managed ==> w in m.0.objs;
    (m.0, Results.None)
  }

  /** An object's input channel: the input end of its first channel pair. */
  function Yin(objs: map<ObjId, Obj>, o: ObjId): (r: Results.Result<ChanId, TreeError>)
    requires o in objs && (objs[o].managed ==> |objs[o].comm| > 0)
    ensures r.Failure? <==> !objs[o].managed
    ensures r.Failure? ==> r.error == Unmanaged
    ensures r.Success? ==> r.value == objs[o].comm[0].yin
  {
    if !objs[o].managed then Results.Failure(Unmanaged) else Results.Success(objs[o].comm[0].yin)
  }

  /** An object's output channel: the output end of its first channel pair. */
  function Yang(objs: map<ObjId, Obj>, o: ObjId): (r: Results.Result<ChanId, TreeError>)
    requires o in objs && (objs[o].managed ==> |objs[o].comm| > 0)
    ensures r.Failure? <==> !objs[o].managed
    ensures r.Failure? ==> r.error == Unmanaged
    ensures r.Success? ==> r.value == objs[o].comm[0].yang
  {
    if !objs[o].managed then Results.Failure(Unmanaged) else Results.Success(objs[o].comm[0].yang)
  }

  const RootId: ObjId := 0

  /** The session right after start-up on an sw x sh terminal: one managed
      root window covering the screen, linked crosswise with the screen's
      own channel pair (channels 0 and 1). */
  function InitSession(sw: int, sh: int): (s: Session)
    ensures s.objs.Keys == {RootId} && s.objs[RootId].managed && s.objs[RootId].parent.None?
    ensures s.objs[RootId].comm == [IChing(s.screen.comm.yang, s.screen.comm.yin)]
    ensures Yin(s.objs, RootId) == Results.Success(s.screen.comm.yang)
    ensures Yang(s.objs, RootId) == Results.Success(s.screen.comm.yin)
    ensures s.screen.clickables == [] && s.screen.kbd.None? && s.writes == []
  {
    var screenComm := IChing(0, 1);
    var root := Obj(0, 0, sw, sh, true, Results.None, [IChing(screenComm.yang, screenComm.yin)], []);
    Session(map[RootId := root], ScreenState(sw, sh, [], Results.None, [], screenComm), 2, [])
  }

  /** The root object has the geometry of the root window's layout. */
  lemma InitRootIsRootWindow(sw: int, sh: int)
    ensures var root := InitSession(sw, sh).objs[RootId];
            var win := Window.RootWindow(sw, sh);
            (root.x, root.y, root.w, root.h) == (win.x, win.y, win.w, win.h)
  {
  }

  // ---------------------------------------------------------------------
  // Invariants and consequences

  /** Every managed object has a channel pair. */
  ghost predicate LinksOfManaged(s: Session) {
    forall o :: o in s.objs && s.objs[o].managed ==> |s.objs[o].comm| > 0
  }

  /** Every parent link points into the table. */
  ghost predicate ParentsKnown(s: Session) {
    forall o :: o in s.objs && s.objs[o].parent.Some? ==> s.objs[o].parent.value in s.objs
  }

  /** Every channel in use was handed out before the next free one. */
  ghost predicate ChannelsIssued(s: Session) {
    forall o, i :: o in s.objs && 0 <= i < |s.objs[o].comm| ==>
      s.objs[o].comm[i].yin < s.nextChan && s.objs[o].comm[i].yang < s.nextChan
  }

  /** Every channel the screen holds was handed out before the next free
      one, so the next free one is fresh for the screen. */
  ghost predicate ScreenChannelsIssued(s: Session) {
    var sc := s.screen;
    && sc.comm.yin < s.nextChan && sc.comm.yang < s.nextChan
    && (sc.kbd.Some? ==> sc.kbd.value < s.nextChan)
    && (forall i :: 0 <= i < |sc.closed| ==> sc.closed[i] < s.nextChan)
    && (forall i :: 0 <= i < |sc.clickables| ==> sc.clickables[i].c < s.nextChan)
  }

  /** Structural facts every session reachable from InitSession keeps:
      managed objects have a channel pair, parents exist, and every channel
      id in use, by an object or by the screen, is below nextChan. */
  ghost predicate Good(s: Session) {
    LinksOfManaged(s) && ParentsKnown(s) && ChannelsIssued(s) && ScreenChannelsIssued(s)
  }

  lemma InitSessionGood(sw: int, sh: int)
    ensures Good(InitSession(sw, sh))
  {
  }

  lemma ManageKeepsLinks(s: Session, c: ObjId, w: ObjId)
    requires LinksOfManaged(s) && c in s.objs && w in s.objs
    ensures LinksOfManaged(Manage(s, c, w).0)
  {
  }

  lemma ManageKeepsParents(s: Session, c: ObjId, w: ObjId)
    requires ParentsKnown(s) && c in s.objs && w in s.objs
    ensures ParentsKnown(Manage(s, c, w).0)
  {
  }

  lemma ManageKeepsChannels(s: Session, c: ObjId, w: ObjId)
    requires ChannelsIssued(s) && c in s.objs && w in s.objs
    ensures ChannelsIssued(Manage(s, c, w).0)
  {
    var r := Manage(s, c, w).0;
    if !s.objs[w].managed {
      forall o, i | o in r.objs && 0 <= i < |r.objs[o].comm|
        ensures r.objs[o].comm[i].yin < r.nextChan && r.objs[o].comm[i].yang < r.nextChan
      {
        if i < |s.objs[o].comm| && o != c && o != w {
          assert r.objs[o] == s.objs[o];
        }
      }
    }
  }

  lemma ManageKeepsGood(s: Session, c: ObjId, w: ObjId)
    requires Good(s) && c in s.objs && w in s.objs
    ensures Good(Manage(s, c, w).0)
  {
    ManageKeepsLinks(s, c, w);
    ManageKeepsParents(s, c, w);
    ManageKeepsChannels(s, c, w);
  }

  /** Registering a clickable region keeps every invariant: the new region's
      channel is the id just handed out. */
  lemma RegClickableKeepsGood(s: Session, o: ObjId, rx: int, ry: int, rw: int, rh: int)
    requires Good(s) && ReachesRoot(s.objs, o, |s.objs|)
    ensures Good(RegClickable(s, o, rx, ry, rw, rh).0)
  {
  }

  /** A focus request keeps every invariant. */
  lemma RequestFocusKeepsGood(s: Session)
    requires Good(s)
    ensures Good(RequestFocus(s).0)
  {
  }

  /** Two focus requests in a row hand out two different channels: only
      the second receives keys and stays open, and the first is closed. */
  lemma NewestFocusOnly(s: Session, ev: RawEvent)
    requires Good(s) && ev.kind == EventKey
    ensures var r1 := RequestFocus(s);
            var r2 := RequestFocus(r1.0);
            && r1.1 != r2.1
            && Route(r2.0.screen, ev).deliveries == [Delivery(r2.1, ev)]
            && r1.1 in r2.0.screen.closed && r2.1 !in r2.0.screen.closed
  {
  }

  /** A child with no channel pairs of its own talks to its new parent:
      its input is the parent's new output and the other way round. */
  lemma FreshChildTalksToParent(s: Session, c: ObjId, w: ObjId)
    requires c in s.objs && w in s.objs && c != w
    requires !s.objs[w].managed && s.objs[w].comm == []
    ensures var r := Manage(s, c, w).0;
            var link := r.objs[c].comm[|r.objs[c].comm| - 1];
            Yin(r.objs, w) == Results.Success(link.yang) && Yang(r.objs, w) == Results.Success(link.yin)
  {
  }

  /** A container that manages its own children before being managed keeps
      its first child link as its Yin/Yang, so it does not talk to its new
      parent. */
  lemma EarlierLinkShadowsParent(s: Session, c: ObjId, w: ObjId)
    requires Good(s) && c in s.objs && w in s.objs && c != w
    requires !s.objs[w].managed && s.objs[w].comm != []
    ensures var r := Manage(s, c, w).0;
            var link := r.objs[c].comm[|r.objs[c].comm| - 1];
            && Yin(r.objs, w) == Results.Success(s.objs[w].comm[0].yin)
            && Yin(r.objs, w) != Results.Success(link.yang)
  {
    assert s.objs[w].comm[0].yin < s.nextChan;
  }

  /** Managing twice is refused the second time. */
  lemma ManageOnce(s: Session, c: ObjId, c': ObjId, w: ObjId)
    requires c in s.objs && c' in s.objs && w in s.objs && !s.objs[w].managed
    ensures var r := Manage(s, c, w).0;
            Manage(r, c', w) == (r, Results.Some(AlreadyManaged))
  {
  }

  /** Nothing stops two unmanaged objects from managing each other, and the
      resulting parent chain never ends. */
  lemma ManageCanBuildCycle(s: Session, a: ObjId, b: ObjId)
    requires a in s.objs && b in s.objs && a != b
    requires !s.objs[a].managed && !s.objs[b].managed
    ensures var r1 := Manage(s, a, b);
            var r2 := Manage(r1.0, b, a);
            && r1.1.None? && r2.1.None?
            && r2.0.objs[a].parent == Results.Some(b) && r2.0.objs[b].parent == Results.Some(a)
            && r2.0.objs[a].managed && r2.0.objs[b].managed
            && forall fuel: nat :: !ReachesRoot(r2.0.objs, a, fuel)
  {
    var objs := Manage(Manage(s, a, b).0, b, a).0.objs;
    forall fuel: nat ensures !ReachesRoot(objs, a, fuel) {
      CycleNeverReachesRoot(objs, a, b, fuel);
    }
  }

  lemma {:induction false} CycleNeverReachesRoot(objs: map<ObjId, Obj>, a: ObjId, b: ObjId, fuel: nat)
    requires a in objs && b in objs
    requires objs[a].managed && objs[b].managed
    requires objs[a].parent == Results.Some(b) && objs[b].parent == Results.Some(a)
    ensures !ReachesRoot(objs, a, fuel) && !ReachesRoot(objs, b, fuel)
    decreases fuel
  {
    if fuel > 0 {
      CycleNeverReachesRoot(objs, a, b, fuel - 1);
    }
  }

  /** A region registered through o with nothing registered before it
      receives every click inside it, with the coordinates made relative
      to the region. */
  lemma RegisterThenClick(s: Session, o: ObjId, rx: int, ry: int, rw: int, rh: int, i: int, j: int, key: int)
    requires ReachesRoot(s.objs, o, |s.objs|) && ChainManaged(s.objs, o, |s.objs|)
    requires s.screen.clickables == []
    requires 0 <= i < rw && 0 <= j < rh
    ensures var r := RegClickable(s, o, rx, ry, rw, rh);
            var cr := r.0.screen.clickables[0];
            var ev := RawEvent(EventMouse, cr.x + i, cr.y + j, key);
            && r.1 == Results.Success(cr.c)
            && Route(r.0.screen, ev) == Routed([Delivery(cr.c, ev.(mouseX := i, mouseY := j))], false)
  {
    var r := RegClickable(s, o, rx, ry, rw, rh);
    var cr := r.0.screen.clickables[0];
    var ev := RawEvent(EventMouse, cr.x + i, cr.y + j, key);
    assert r.0.screen.clickables == [cr];
    assert [cr][1..] == [];
  }
}
