/** The screen record and the decision part of the input router
    (screen.go).  Channels are opaque integer ids; a send is recorded as a
    delivery of the event value to a channel id. */
module Screen {
  import Results

  type ChanId = nat

  /** A pair of event channels: Yin for input, Yang for output (windi.go). */
  datatype IChing = IChing(yin: ChanId, yang: ChanId)

  /** A registered mouse-sensitive rectangle and the channel its clicks go
      to. */
  datatype ClickableRegion = ClickableRegion(x: int, y: int, w: int, h: int, c: ChanId)

  /** The kinds of terminal input event. */
  datatype RawKind = EventKey | EventResize | EventMouse | EventError | EventInterrupt | EventRaw | EventNone

  /** A terminal input event, reduced to what routing reads or rewrites. */
  datatype RawEvent = RawEvent(kind: RawKind, mouseX: int, mouseY: int, key: int)

  /** The screen: size, clickable regions in registration order, the
      keyboard channel if one was requested, the channels closed so far, and
      the screen's own channel pair. */
  datatype ScreenState = ScreenState(w: int, h: int, clickables: seq<ClickableRegion>,
                                     kbd: Results.Option<ChanId>, closed: seq<ChanId>, comm: IChing)

  /** One send of an event on a channel. */
  datatype Delivery = Delivery(c: ChanId, ev: RawEvent)

  /** What routing one event decides: the sends, in order, and whether the
      router stopped. */
  datatype Routed = Routed(deliveries: seq<Delivery>, halted: bool)

  /** c is a channel the screen does not use yet: not its own pair, not the
      keyboard channel, not closed and not registered for a region.  A
      channel just made is always fresh. */
  predicate FreshChannel(s: ScreenState, c: ChanId) {
    && c != s.comm.yin && c != s.comm.yang
    && s.kbd != Results.Some(c)
    && (forall i :: 0 <= i < |s.closed| ==> s.closed[i] != c)
    && (forall i :: 0 <= i < |s.clickables| ==> s.clickables[i].c != c)
  }

  /** Gives the keyboard to the newly made channel `newChan`, closing the
      previous one if there was one; the new channel is returned, open. */
  function RequestFocus(s: ScreenState, newChan: ChanId): (r: (ScreenState, ChanId))
    requires FreshChannel(s, newChan)
    ensures r.1 == newChan && r.0.kbd == Results.Some(newChan)
    ensures newChan !in r.0.closed
    ensures s.kbd.Some? ==> s.kbd.value in r.0.closed && s.kbd.value != newChan
    ensures r.0.closed == s.closed + (if s.kbd.Some? then [s.kbd.value] else [])
    ensures r.0.(kbd := s.kbd, closed := s.closed) == s
  {
    var closed := if s.kbd.Some? then s.closed + [s.kbd.value] else s.closed;
    (s.(kbd := Results.Some(newChan), closed := closed), newChan)
  }

  /** Whether (x, y) lies in the half-open rectangle of r. */
  predicate Hit(r: ClickableRegion, x: int, y: int) {
    x >= r.x && x < r.x + r.w && y >= r.y && y < r.y + r.h
  }

  /** The delivery is to the channel of some region in rs, with
      coordinates inside that region's size. */
  ghost predicate LandsIn(rs: seq<ClickableRegion>, d: Delivery) {
    exists i :: 0 <= i < |rs| && rs[i].c == d.c && 0 <= d.ev.mouseX < rs[i].w && 0 <= d.ev.mouseY < rs[i].h
  }

  lemma LandsInTail(rs: seq<ClickableRegion>, d: Delivery)
    requires |rs| > 0 && LandsIn(rs[1..], d)
    ensures LandsIn(rs, d)
  {
    var i :| 0 <= i < |rs[1..]| && rs[1..][i].c == d.c && 0 <= d.ev.mouseX < rs[1..][i].w && 0 <= d.ev.mouseY < rs[1..][i].h;
    assert rs[i + 1] == rs[1..][i];
  }

  /** The event as one region leaves it: relative to the region if the
      region is hit, unchanged otherwise. */
  function Translate(r: ClickableRegion, ev: RawEvent): (t: RawEvent)
    ensures (t.kind, t.key) == (ev.kind, ev.key)
    ensures Hit(r, ev.mouseX, ev.mouseY) ==> 0 <= t.mouseX < r.w && 0 <= t.mouseY < r.h
  {
    if Hit(r, ev.mouseX, ev.mouseY) then ev.(mouseX := ev.mouseX - r.x, mouseY := ev.mouseY - r.y) else ev
  }

  /** The event after every region of rs, in order, has had its turn. */
  function Cur(rs: seq<ClickableRegion>, ev: RawEvent): RawEvent
    decreases |rs|
  {
    if |rs| == 0 then ev else Translate(rs[|rs| - 1], Cur(rs[..|rs| - 1], ev))
  }

  /** The mouse sends for ev: regions are tried in order against the event
      as it stands, and each hit rewrites the event's coordinates relative to
      that region before sending it, so later regions see the rewritten
      coordinates. */
  function MouseDeliveries(rs: seq<ClickableRegion>, ev: RawEvent): (ds: seq<Delivery>)
    ensures |ds| <= |rs|
    ensures forall k :: 0 <= k < |ds| ==> LandsIn(rs, ds[k])
    ensures forall k :: 0 <= k < |ds| ==> ds[k].ev.kind == ev.kind && ds[k].ev.key == ev.key
    decreases |rs|
  {
    if |rs| == 0 then []
    else
      var r := rs[0];
      var hit := Hit(r, ev.mouseX, ev.mouseY);
      var moved := Translate(r, ev);
      var rest := MouseDeliveries(rs[1..], moved);
      assert forall k :: 0 <= k < |rest| ==> LandsIn(rs, rest[k]) by {
        forall k | 0 <= k < |rest| ensures LandsIn(rs, rest[k]) {
          LandsInTail(rs, rest[k]);
        }
      }
      if hit then
        assert LandsIn(rs, Delivery(r.c, moved)) by { assert rs[0] == r; }
        [Delivery(r.c, moved)] + rest
      else rest
  }

  /** Routes one input event: keys go to the keyboard channel if there is
      one and are dropped otherwise; mouse events go to the regions hit; an
      error stops the router; every other kind is ignored. */
  function Route(s: ScreenState, ev: RawEvent): (r: Routed)
    ensures r.halted <==> ev.kind == EventError
    ensures ev.kind == EventKey ==>
      r.deliveries == (if s.kbd.Some? then [Delivery(s.kbd.value, ev)] else [])
    ensures ev.kind != EventKey && ev.kind != EventMouse ==> r.deliveries == []
    ensures ev.kind == EventMouse ==> r.deliveries == MouseDeliveries(s.clickables, ev)
  {
    match ev.kind
    case EventKey => Routed(if s.kbd.Some? then [Delivery(s.kbd.value, ev)] else [], false)
    case EventMouse => Routed(MouseDeliveries(s.clickables, ev), false)
    case EventError => Routed([], true)
    case _ => Routed([], false)
  }

  /** Routes a stream of input events until an error stops the router. */
  function RouteAll(s: ScreenState, evs: seq<RawEvent>): (ds: seq<Delivery>)
    decreases |evs|
  {
    if |evs| == 0 then []
    else
      var r := Route(s, evs[0]);
      if r.halted then r.deliveries else r.deliveries + RouteAll(s, evs[1..])
  }

  /** Nothing after an error event is routed. */
  lemma {:induction false} RouteAllStopsAtError(s: ScreenState, a: seq<RawEvent>, e: RawEvent, b: seq<RawEvent>)
    requires e.kind == EventError
    ensures RouteAll(s, a + [e] + b) == RouteAll(s, a + [e])
    decreases |a|
  {
    if |a| == 0 {
      assert a + [e] + b == [e] + b;
      assert a + [e] == [e];
    } else {
      assert (a + [e] + b)[1..] == a[1..] + [e] + b;
      assert (a + [e])[1..] == a[1..] + [e];
      RouteAllStopsAtError(s, a[1..], e, b);
    }
  }

  /** Walking one region and then the rest is walking them all. */
  lemma {:induction false} CurCons(rs: seq<ClickableRegion>, ev: RawEvent)
    requires |rs| > 0
    ensures Cur(rs[1..], Translate(rs[0], ev)) == Cur(rs, ev)
    decreases |rs|
  {
    if |rs| > 1 {
      var front := rs[..|rs| - 1];
      assert rs[1..][..|rs[1..]| - 1] == front[1..];
      assert rs[1..][|rs[1..]| - 1] == rs[|rs| - 1];
      CurCons(front, ev);
      assert front[0] == rs[0];
    } else {
      assert rs[..0] == [];
    }
  }

  /** Registering one more region adds at most one send, after all earlier
      ones: to the new region, if the event as the earlier regions left it
      hits the region, with the coordinates made relative to it.  So each
      region gets at most one send, in registration order, and every region
      sees the coordinates as rewritten by all the hits before it. */
  lemma {:induction false} MouseDeliveriesSnoc(rs: seq<ClickableRegion>, r: ClickableRegion, ev: RawEvent)
    ensures var c := Cur(rs, ev);
            MouseDeliveries(rs + [r], ev) == MouseDeliveries(rs, ev) +
              (if Hit(r, c.mouseX, c.mouseY) then [Delivery(r.c, Translate(r, c))] else [])
    decreases |rs|
  {
    var c := Cur(rs, ev);
    var tail := if Hit(r, c.mouseX, c.mouseY) then [Delivery(r.c, Translate(r, c))] else [];
    if |rs| == 0 {
      assert rs + [r] == [r];
      MouseDeliveriesStep([r], ev);
      assert [r][1..] == [];
    } else {
      var moved := Translate(rs[0], ev);
      var head := if Hit(rs[0], ev.mouseX, ev.mouseY) then [Delivery(rs[0].c, moved)] else [];
      MouseDeliveriesStep(rs + [r], ev);
      MouseDeliveriesStep(rs, ev);
      assert (rs + [r])[0] == rs[0] && (rs + [r])[1..] == rs[1..] + [r];
      MouseDeliveriesSnoc(rs[1..], r, moved);
      CurCons(rs, ev);
      assert head + (MouseDeliveries(rs[1..], moved) + tail) == (head + MouseDeliveries(rs[1..], moved)) + tail;
    }
  }

  /** One turn of the region walk: the first region's send, if it is hit,
      then the rest walked with the event as that region left it. */
  lemma MouseDeliveriesStep(rs: seq<ClickableRegion>, ev: RawEvent)
    requires |rs| > 0
    ensures MouseDeliveries(rs, ev) ==
              (if Hit(rs[0], ev.mouseX, ev.mouseY) then [Delivery(rs[0].c, Translate(rs[0], ev))] else []) +
              MouseDeliveries(rs[1..], Translate(rs[0], ev))
  {
  }

  /** A mouse event is delivered somewhere exactly when some region contains
      its original coordinates. */
  lemma {:induction false} MouseDeliveredIffSomeHit(rs: seq<ClickableRegion>, ev: RawEvent)
    ensures MouseDeliveries(rs, ev) != [] <==> exists i :: 0 <= i < |rs| && Hit(rs[i], ev.mouseX, ev.mouseY)
    decreases |rs|
  {
    if |rs| > 0 && !Hit(rs[0], ev.mouseX, ev.mouseY) {
      MouseDeliveredIffSomeHit(rs[1..], ev);
      if exists i :: 0 <= i < |rs| && Hit(rs[i], ev.mouseX, ev.mouseY) {
        var i :| 0 <= i < |rs| && Hit(rs[i], ev.mouseX, ev.mouseY);
        assert rs[1..][i - 1] == rs[i];
      }
      if exists i :: 0 <= i < |rs[1..]| && Hit(rs[1..][i], ev.mouseX, ev.mouseY) {
        var i :| 0 <= i < |rs[1..]| && Hit(rs[1..][i], ev.mouseX, ev.mouseY);
        assert rs[i + 1] == rs[1..][i];
      }
    }
  }

  /** The first send goes to the first region, in registration order, that
      contains the original coordinates, with the coordinates made relative
      to it. */
  lemma {:induction false} FirstDeliveryIsFirstHit(rs: seq<ClickableRegion>, ev: RawEvent, i: nat)
    requires i < |rs| && Hit(rs[i], ev.mouseX, ev.mouseY)
    requires forall j :: 0 <= j < i ==> !Hit(rs[j], ev.mouseX, ev.mouseY)
    ensures MouseDeliveries(rs, ev) != []
    ensures MouseDeliveries(rs, ev)[0] ==
      Delivery(rs[i].c, ev.(mouseX := ev.mouseX - rs[i].x, mouseY := ev.mouseY - rs[i].y))
    decreases i
  {
    if i > 0 {
      assert !Hit(rs[0], ev.mouseX, ev.mouseY);
      forall j | 0 <= j < i - 1 ensures !Hit(rs[1..][j], ev.mouseX, ev.mouseY) {
        assert rs[1..][j] == rs[j + 1];
      }
      FirstDeliveryIsFirstHit(rs[1..], ev, i - 1);
    }
  }

  /** Translation is cumulative: a click at (11, 11) in a region at (10, 10)
      is rewritten to (1, 1), which then also hits a region at (0, 0) that
      the click itself is far outside. */
  lemma SpuriousSecondHit()
    ensures var rs := [ClickableRegion(10, 10, 5, 5, 1), ClickableRegion(0, 0, 3, 3, 2)];
            var ev := RawEvent(EventMouse, 11, 11, 0);
            && !Hit(rs[1], ev.mouseX, ev.mouseY)
            && MouseDeliveries(rs, ev) == [Delivery(1, ev.(mouseX := 1, mouseY := 1)),
                                           Delivery(2, ev.(mouseX := 1, mouseY := 1))]
  {
    var r1, r2 := ClickableRegion(10, 10, 5, 5, 1), ClickableRegion(0, 0, 3, 3, 2);
    var rs := [r1, r2];
    var ev := RawEvent(EventMouse, 11, 11, 0);
    var moved := ev.(mouseX := 1, mouseY := 1);
    var twice := moved.(mouseX := 1, mouseY := 1);
    assert twice == moved;
    assert MouseDeliveries([], twice) == [];
    assert [r2][1..] == [];
    assert MouseDeliveries([r2], moved) == [Delivery(2, twice)] + MouseDeliveries([], twice);
    assert rs[1..] == [r2];
    assert MouseDeliveries(rs, ev) == [Delivery(1, moved)] + MouseDeliveries([r2], moved);
  }

  /** After two focus requests, each with a newly made channel, the two
      channels differ, only the newer one receives keys and stays open, and
      the older one has been closed. */
  lemma OnlyNewestFocusGetsKeys(s: ScreenState, f1: ChanId, f2: ChanId, ev: RawEvent)
    requires ev.kind == EventKey
    requires FreshChannel(s, f1) && FreshChannel(RequestFocus(s, f1).0, f2)
    ensures var s1 := RequestFocus(s, f1).0;
            var s2 := RequestFocus(s1, f2).0;
            && f1 != f2
            && Route(s2, ev).deliveries == [Delivery(f2, ev)]
            && f1 in s2.closed && f2 !in s2.closed
  {
  }

  /** Without a keyboard channel a key event is dropped. */
  lemma KeysDroppedWithoutFocus(s: ScreenState, ev: RawEvent)
    requires ev.kind == EventKey && s.kbd.None?
    ensures Route(s, ev) == Routed([], false)
  {
  }
}
