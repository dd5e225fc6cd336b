/**
 * The hover / auto-zoom / pinch state machine of the map component, as a
 * value and one function per event handler.
 *
 * The state is the component's zoom plus its refs: the last cursor sample,
 * the zoom-out anchor, the dwell-interval handle, the pinch record; beside
 * them the browser's own table of running intervals, the held-piece flag and
 * the hovered region with the log of writes to it. The browser's hit test
 * (document.elementFromPoint) is an oracle `elementAt` from screen points to
 * what lies there. Each handler is one atomic step.
 */
module ZoomControl {
  import opened Types
  import opened Viewport

  /** What the hit test finds at a screen point. */
  datatype Hit =
    | Miss                           // no element, or one that is not a region path/rect
    | OverRegion(code: Option<int>)  // a region element "pref-<n>"; None when <n> is not a number

  /** pinchRef: the state captured when the second finger lands. */
  datatype Pinch = Pinch(startDist: real, startScale: real, startMapPoint: Point)

  /** Interval handles; browsers hand out positive ones, so a held handle is truthy. */
  type TimerId = t: int | t > 0 witness 1

  datatype Ctl = Ctl(
    zoom: ZoomState,
    lastPos: Point,                 // lastMousePosRef
    anchor: Option<Point>,          // zoomTriggerPosRef, the zoom-out anchor
    timerRef: Option<TimerId>,      // zoomIntervalRef
    live: set<TimerId>,             // intervals the browser still runs
    nextId: TimerId,                // the handle the next setInterval returns
    pinch: Option<Pinch>,           // pinchRef
    holding: bool,                  // a piece is active
    hovered: Option<int>,           // hoveredRegionCode
    hoverWrites: seq<Option<int>>)  // calls of setHoveredRegionCode, oldest first

  const Origin: Point := Point(0.0, 0.0)
  const JitterRadius: real := 20.0
  const ZoomOutRadius: real := 150.0
  const MaxPinchScale: real := 15.0

  function SqDist(a: Point, b: Point): real
  {
    (a.x - b.x) * (a.x - b.x) + (a.y - b.y) * (a.y - b.y)
  }

  function Midpoint(a: Point, b: Point): Point
  {
    Point((a.x + b.x) / 2.0, (a.y + b.y) / 2.0)
  }

  function HeldSet(h: Option<TimerId>): set<TimerId>
  {
    if h.Some? then {h.value} else {}
  }

  /**
   * The controller's invariant: the zoom never goes below the whole map, and
   * every interval the browser runs is the one the ref holds.
   */
  ghost predicate Valid(s: Ctl)
  {
    && s.zoom.scale >= 1.0
    && s.live <= HeldSet(s.timerRef)
    && (s.timerRef.Some? ==> s.timerRef.value < s.nextId)
    && (s.pinch.Some? ==> s.pinch.value.startScale >= 1.0 && s.pinch.value.startDist >= 0.0)
  }

  /** The state at mount. */
  function Mounted(holding: bool, hovered: Option<int>): (s: Ctl)
    ensures Valid(s) && s.zoom == HomeZoom && s.live == {}
  {
    Ctl(HomeZoom, Origin, None, None, {}, 1, None, holding, hovered, [])
  }

  /** The region code the hit test yields (parseInt of the id, NaN dropped). */
  function FoundCode(h: Hit): Option<int>
  {
    if h.OverRegion? then h.code else None
  }

  /** JavaScript truthiness of a found code: null and 0 are false. */
  predicate Truthy(code: Option<int>)
  {
    code.Some? && code.value != 0
  }

  /** `if (ref) clearInterval(ref)`: the ref keeps the handle. */
  function ClearInterval(s: Ctl): Ctl
  {
    if s.timerRef.Some? then s.(live := s.live - {s.timerRef.value}) else s
  }

  /** `if (ref) { clearInterval(ref); ref = null }`. */
  function ClearAndNull(s: Ctl): Ctl
  {
    if s.timerRef.Some? then s.(live := s.live - {s.timerRef.value}, timerRef := None) else s
  }

  /** `ref = setInterval(...)`. */
  function StartInterval(s: Ctl): Ctl
  {
    s.(timerRef := Some(s.nextId), live := s.live + {s.nextId}, nextId := s.nextId + 1)
  }

  /** The anchor is set and the cursor is more than 150 px from it. */
  predicate LeftAnchor(s: Ctl, p: Point)
  {
    s.anchor.Some? && SqDist(p, s.anchor.value) > ZoomOutRadius * ZoomOutRadius
  }

  /** The previous sample as the handler sees it: (0,0) stands for "none yet". */
  function PreviousSample(s: Ctl, p: Point): Point
  {
    if s.lastPos == Origin then p else s.lastPos
  }

  /** The dwell-timer guard at the end of processMouseInteraction. */
  predicate DwellMayStart(s: Ctl, found: Option<int>)
  {
    s.timerRef.None? && s.holding && Truthy(found) && s.zoom.scale < MaxLadderScale
  }

  /** setHoveredRegionCode(found) only when it differs from the current value. */
  function UpdateHover(s: Ctl, found: Option<int>): Ctl
  {
    if found != s.hovered then s.(hovered := found, hoverWrites := s.hoverWrites + [found]) else s
  }

  /** One zoom-out step: one rung down, and back to the centre when the step reaches 1. */
  function ZoomedOut(z: ZoomState): ZoomState
  {
    var k := ZoomOutScale(z.scale);
    if k == 1.0 then HomeZoom else ZoomState(k, z.x, z.y)
  }

  /**
   * The rest of processMouseInteraction once the hover and the last sample
   * are recorded in `s1`: zoom out, cancel on movement, or start the dwell
   * interval. `moved` is the squared displacement since the previous sample.
   */
  function AfterSample(s1: Ctl, p: Point, moved: real, found: Option<int>): Ctl
  {
    if s1.zoom.scale > 1.0 && LeftAnchor(s1, p) then
      ClearAndNull(s1.(zoom := ZoomedOut(s1.zoom), anchor := Some(p)))
    else if moved > JitterRadius * JitterRadius then
      ClearAndNull(s1)
    else if DwellMayStart(s1, found) then
      StartInterval(s1)
    else
      s1
  }

  /** processMouseInteraction: one cursor sample at screen point `p`. */
  function MouseSample(s: Ctl, p: Point, elementAt: Point -> Hit): Ctl
  {
    if s.pinch.Some? then s
    else
      var moved := SqDist(p, PreviousSample(s, p));
      var found := FoundCode(elementAt(p));
      AfterSample(UpdateHover(s, found).(lastPos := p), p, moved, found)
  }

  /** The body of the dwell interval's callback. */
  function IntervalCallback(s: Ctl, elementAt: Point -> Hit, rect: Option<ScreenRect>): Ctl
    requires Valid(s)
  {
    if s.pinch.Some? then s
    else if !elementAt(s.lastPos).OverRegion? then ClearAndNull(s)
    else
      NextZoomInIsNextRung(s.zoom.scale);
      match NextZoomIn(s.zoom.scale)
      case None => s
      case Some(next) =>
        if rect.None? then s
        else
          var target := MapPointFromScreen(s.lastPos, rect.value, s.zoom);
          var c := ZoomCenterForTarget(target, s.lastPos, rect.value, next);
          s.(anchor := Some(s.lastPos), zoom := ZoomState(next, c.x, c.y))
  }

  /** The browser fires the running interval, if there is one. */
  function Tick(s: Ctl, elementAt: Point -> Hit, rect: Option<ScreenRect>): Ctl
    requires Valid(s)
  {
    if s.live == {} then s else IntervalCallback(s, elementAt, rect)
  }

  /** Math.max(1, Math.min(v, 15)). */
  function ClampPinch(v: real): real
  {
    var m := if v < MaxPinchScale then v else MaxPinchScale;
    if 1.0 > m then 1.0 else m
  }

  /**
   * The pinch scale startScale * (dist / startDist), clamped. A zero start
   * distance makes the ratio +Infinity (clamped to 15) or, when the current
   * distance is zero too, NaN, which the model does not represent (None).
   */
  function PinchScale(startScale: real, startDist: real, dist: real): Option<real>
  {
    if startDist > 0.0 then Some(ClampPinch(startScale * (dist / startDist)))
    else if dist > 0.0 then Some(MaxPinchScale)
    else None
  }

  /**
   * handleTouchStart. `spread` is Math.hypot of the first two touches, so
   * when there are two it is non-negative and its square is their squared distance.
   */
  function TouchStart(s: Ctl, touches: seq<Point>, spread: real, rect: Option<ScreenRect>,
                      elementAt: Point -> Hit): Ctl
    requires Valid(s)
  {
    if |touches| == 2 then
      if rect.None? then s
      else
        var centre := Midpoint(touches[0], touches[1]);
        var start := MapPointFromScreen(centre, rect.value, s.zoom);
        ClearAndNull(s).(pinch := Some(Pinch(spread, s.zoom.scale, start)))
    else if |touches| == 1 && s.holding then
      MouseSample(s.(lastPos := touches[0]), touches[0], elementAt)
    else s
  }

  /** handleTouchMove: pinch-zoom with two fingers, a cursor sample with one. */
  function TouchMove(s: Ctl, touches: seq<Point>, spread: real, rect: Option<ScreenRect>,
                     elementAt: Point -> Hit): Ctl
    requires Valid(s)
  {
    if |touches| == 2 && s.pinch.Some? then
      if rect.None? then s
      else
        var pin := s.pinch.value;
        match PinchScale(pin.startScale, pin.startDist, spread)
        case None => s
        case Some(k) =>
          var c := ZoomCenterForTarget(pin.startMapPoint, Midpoint(touches[0], touches[1]), rect.value, k);
          s.(zoom := ZoomState(k, c.x, c.y))
    else if |touches| == 1 && s.holding then
      MouseSample(s, touches[0], elementAt)
    else s
  }

  /** handleTouchEnd. */
  function TouchEnd(s: Ctl): Ctl
  {
    s.(pinch := None)
  }

  /** handleMouseMove: cursor samples count only while a piece is held. */
  function MouseMove(s: Ctl, p: Point, elementAt: Point -> Hit): Ctl
  {
    if s.holding then MouseSample(s, p, elementAt) else s
  }

  /** handleGlobalDrop's effect on the controller. */
  function DropState(s: Ctl): Ctl
  {
    var s1 := ClearInterval(s);
    s1.(hovered := None, hoverWrites := s1.hoverWrites + [None])
  }

  /** handleGlobalDrop's call of onPieceDrop: the region under the drop point, if any. */
  function DropTarget(p: Point, elementAt: Point -> Hit): Option<int>
  {
    FoundCode(elementAt(p))
  }

  /** handleClick: a click on a region places the held piece there. */
  function ClickTarget(s: Ctl, code: int): Option<int>
  {
    if s.holding then Some(code) else None
  }

  /** handleResetZoom. */
  function ResetZoom(s: Ctl): Ctl
  {
    ClearInterval(s).(zoom := HomeZoom)
  }

  /** The effect that runs when the active piece changes. */
  function HeldPieceChanged(s: Ctl, holding: bool): Ctl
  {
    var s1 := if holding then s else ClearInterval(s);
    s1.(holding := holding, anchor := None, lastPos := Origin)
  }

  /** handleContainerDragLeave: leaving the container clears the hover. */
  function DragLeave(s: Ctl, leftContainer: bool): Ctl
  {
    if leftContainer then s.(hovered := None, hoverWrites := s.hoverWrites + [None]) else s
  }

  // ------------------------------------------------------- one event stream

  datatype Event =
    | DragOverAt(p: Point)
    | MouseMoveTo(p: Point)
    | IntervalFires(rect: Option<ScreenRect>)
    | TouchStartWith(touches: seq<Point>, spread: real, rect: Option<ScreenRect>)
    | TouchMoveWith(touches: seq<Point>, spread: real, rect: Option<ScreenRect>)
    | TouchEnded
    | DropAt(p: Point)
    | ResetPressed
    | ActivePieceSet(holding: bool)
    | DragLeft(leftContainer: bool)

  /** Touch events carry the Math.hypot of their first two touches. */
  predicate WellFormed(e: Event)
  {
    (e.TouchStartWith? || e.TouchMoveWith?) && |e.touches| >= 2 ==>
      e.spread >= 0.0 && e.spread * e.spread == SqDist(e.touches[0], e.touches[1])
  }

  function Step(s: Ctl, e: Event, elementAt: Point -> Hit): Ctl
    requires Valid(s)
  {
    match e
    case DragOverAt(p) => MouseSample(s, p, elementAt)
    case MouseMoveTo(p) => MouseMove(s, p, elementAt)
    case IntervalFires(rect) => Tick(s, elementAt, rect)
    case TouchStartWith(touches, spread, rect) => TouchStart(s, touches, spread, rect, elementAt)
    case TouchMoveWith(touches, spread, rect) => TouchMove(s, touches, spread, rect, elementAt)
    case TouchEnded => TouchEnd(s)
    case DropAt(_) => DropState(s)
    case ResetPressed => ResetZoom(s)
    case ActivePieceSet(holding) => HeldPieceChanged(s, holding)
    case DragLeft(left) => DragLeave(s, left)
  }

  // ------------------------------------------------------------ invariants

  lemma ClearKeepsValid(s: Ctl)
    requires Valid(s)
    ensures Valid(ClearInterval(s)) && Valid(ClearAndNull(s))
    ensures ClearAndNull(s).timerRef.None? && ClearAndNull(s).live == {}
  {
  }

  lemma MouseSampleKeepsValid(s: Ctl, p: Point, elementAt: Point -> Hit)
    requires Valid(s)
    ensures Valid(MouseSample(s, p, elementAt))
  {
    if s.pinch.None? && s.zoom.scale > 1.0 && LeftAnchor(s, p) {
      ZoomOutDropsOneRung(s.zoom.scale);
    }
  }

  lemma IntervalCallbackKeepsValid(s: Ctl, elementAt: Point -> Hit, rect: Option<ScreenRect>)
    requires Valid(s)
    ensures Valid(IntervalCallback(s, elementAt, rect))
  {
    NextZoomInIsNextRung(s.zoom.scale);
  }

  lemma ClampPinchRange(v: real)
    ensures 1.0 <= ClampPinch(v) <= MaxPinchScale
    ensures 1.0 <= v <= MaxPinchScale ==> ClampPinch(v) == v
  {
  }

  /** Every handler keeps the invariant. */
  lemma StepKeepsValid(s: Ctl, e: Event, elementAt: Point -> Hit)
    requires Valid(s) && WellFormed(e)
    ensures Valid(Step(s, e, elementAt))
  {
    match e
    case DragOverAt(p) => MouseSampleKeepsValid(s, p, elementAt);
    case MouseMoveTo(p) => MouseSampleKeepsValid(s, p, elementAt);
    case IntervalFires(rect) => IntervalCallbackKeepsValid(s, elementAt, rect);
    case TouchStartWith(touches, spread, rect) =>
      if |touches| == 1 && s.holding { MouseSampleKeepsValid(s.(lastPos := touches[0]), touches[0], elementAt); }
    case TouchMoveWith(touches, spread, rect) =>
      if |touches| == 2 && s.pinch.Some? {
        var pin := s.pinch.value;
        if pin.startDist > 0.0 { ClampPinchRange(pin.startScale * (spread / pin.startDist)); }
      } else if |touches| == 1 && s.holding {
        MouseSampleKeepsValid(s, touches[0], elementAt);
      }
    case TouchEnded =>
    case DropAt(_) =>
    case ResetPressed =>
    case ActivePieceSet(holding) =>
    case DragLeft(left) =>
  }

  /**
   * Running a stream of events from a valid state. `hits[i]` is the hit
   * test of the page as it stands at event i, since what lies under a
   * screen point changes as the map zooms and pans.
   */
  function Run(s: Ctl, events: seq<Event>, hits: seq<Point -> Hit>): (r: Ctl)
    requires Valid(s) && |hits| == |events|
    requires forall i :: 0 <= i < |events| ==> WellFormed(events[i])
    ensures Valid(r)
    decreases |events|
  {
    if events == [] then s
    else
      StepKeepsValid(s, events[0], hits[0]);
      Run(Step(s, events[0], hits[0]), events[1..], hits[1..])
  }

  /** At most one dwell interval runs at any time. */
  lemma AtMostOneInterval(s: Ctl)
    requires Valid(s)
    ensures |s.live| <= 1
    ensures s.live != {} ==> s.timerRef.Some? && s.live == {s.timerRef.value}
  {
    if s.timerRef.Some? {
      assert s.live <= {s.timerRef.value};
      if s.live != {} {
        var t :| t in s.live;
        assert s.live == {s.timerRef.value};
      }
    }
  }

  /** After any stream of events from mount, at most one interval runs. */
  lemma {:induction false} NeverTwoIntervals(holding: bool, hovered: Option<int>, events: seq<Event>,
                                            hits: seq<Point -> Hit>)
    requires |hits| == |events| && forall i :: 0 <= i < |events| ==> WellFormed(events[i])
    ensures |Run(Mounted(holding, hovered), events, hits).live| <= 1
  {
    AtMostOneInterval(Run(Mounted(holding, hovered), events, hits));
  }

  // ------------------------------------------------------- cursor samples

  /** While a pinch runs, cursor samples and interval ticks change nothing. */
  lemma PinchSuspendsAutoZoom(s: Ctl, p: Point, elementAt: Point -> Hit, rect: Option<ScreenRect>)
    requires Valid(s) && s.pinch.Some?
    ensures MouseSample(s, p, elementAt) == s
    ensures MouseMove(s, p, elementAt) == s
    ensures Tick(s, elementAt, rect) == s
  {
  }

  /** The hovered code follows the hit test, and is written only when it changes. */
  lemma HoverWrittenOnlyOnChange(s: Ctl, p: Point, elementAt: Point -> Hit)
    requires s.pinch.None?
    ensures var r := MouseSample(s, p, elementAt);
            var found := FoundCode(elementAt(p));
            r.hovered == found &&
            r.hoverWrites == s.hoverWrites + (if found != s.hovered then [found] else [])
  {
  }

  /**
   * Leaving the anchor by more than 150 px while zoomed in steps one rung
   * out (to the centred whole map at 1), re-anchors at the cursor and
   * cancels the dwell interval.
   */
  lemma ZoomOutOnLeavingAnchor(s: Ctl, p: Point, elementAt: Point -> Hit)
    requires Valid(s) && s.pinch.None? && s.zoom.scale > 1.0 && LeftAnchor(s, p)
    ensures var r := MouseSample(s, p, elementAt);
            var k := ZoomOutScale(s.zoom.scale);
            && r.zoom.scale == k && 1.0 <= k < s.zoom.scale
            && (k == 1.0 ==> r.zoom == HomeZoom)
            && (k != 1.0 ==> r.zoom.x == s.zoom.x && r.zoom.y == s.zoom.y)
            && r.anchor == Some(p) && r.lastPos == p
            && r.timerRef.None? && r.live == {}
  {
    ZoomOutDropsOneRung(s.zoom.scale);
    AtMostOneInterval(s);
    var found := FoundCode(elementAt(p));
    var s1 := UpdateHover(s, found).(lastPos := p);
    assert s1.zoom == s.zoom && s1.anchor == s.anchor && s1.timerRef == s.timerRef && s1.live == s.live;
    assert MouseSample(s, p, elementAt) == ClearAndNull(s1.(zoom := ZoomedOut(s.zoom), anchor := Some(p)));
  }

  /** A move of more than 20 px since the previous sample cancels the dwell interval. */
  lemma JitterCancelsDwell(s: Ctl, p: Point, elementAt: Point -> Hit)
    requires Valid(s) && s.pinch.None? && !(s.zoom.scale > 1.0 && LeftAnchor(s, p))
    requires SqDist(p, PreviousSample(s, p)) > JitterRadius * JitterRadius
    ensures var r := MouseSample(s, p, elementAt);
            r.timerRef.None? && r.live == {} && r.zoom == s.zoom && r.anchor == s.anchor
  {
    AtMostOneInterval(s);
  }

  /**
   * A still sample (at most 20 px) starts a dwell interval exactly when no
   * handle is held, a piece is held, the cursor is over a region and the
   * scale is below the top rung; the interval then is the only one running.
   */
  lemma StillSampleStartsDwell(s: Ctl, p: Point, elementAt: Point -> Hit)
    requires Valid(s) && s.pinch.None? && !(s.zoom.scale > 1.0 && LeftAnchor(s, p))
    requires SqDist(p, PreviousSample(s, p)) <= JitterRadius * JitterRadius
    ensures var r := MouseSample(s, p, elementAt);
            var start := s.timerRef.None? && s.holding && Truthy(FoundCode(elementAt(p)))
                         && s.zoom.scale < MaxLadderScale;
            && (start ==> r.timerRef == Some(s.nextId) && r.live == {s.nextId})
            && (!start ==> r.timerRef == s.timerRef && r.live == s.live)
            && r.zoom == s.zoom && r.lastPos == p
  {
    AtMostOneInterval(s);
  }

  /**
   * The first sample after the active piece changes sees no displacement
   * (the previous sample is the (0,0) sentinel) and no anchor, so it never
   * cancels; it starts a dwell interval when the other guards allow.
   */
  lemma FirstSampleAfterResetIsStill(s: Ctl, holding: bool, p: Point, elementAt: Point -> Hit)
    requires Valid(s) && s.pinch.None?
    ensures var s1 := HeldPieceChanged(s, holding);
            var r := MouseSample(s1, p, elementAt);
            && Valid(s1)
            && SqDist(p, PreviousSample(s1, p)) == 0.0
            && (DwellMayStart(s1, FoundCode(elementAt(p))) ==> r.timerRef == Some(s1.nextId))
            && (!DwellMayStart(s1, FoundCode(elementAt(p))) ==> r.timerRef == s1.timerRef)
  {
  }

  /**
   * The stale-handle quirk: dropping, resetting the zoom or releasing the
   * piece clears the running interval but leaves its handle in the ref. The
   * next still sample then starts no interval even when every other guard of
   * the dwell timer holds, so no dwell zoom happens until a move of more than
   * 20 px or a zoom-out nulls the ref.
   */
  lemma StaleHandleBlocksDwell(s: Ctl, p: Point, elementAt: Point -> Hit, rect: Option<ScreenRect>)
    requires Valid(s) && s.timerRef.Some? && s.pinch.None?
    ensures var d := DropState(s);
            var z := ResetZoom(s);
            d.timerRef == s.timerRef && d.live == {} &&
            z.timerRef == s.timerRef && z.live == {} &&
            HeldPieceChanged(s, false).timerRef == s.timerRef && HeldPieceChanged(s, false).live == {}
    ensures var d := DropState(s);
            (!(d.zoom.scale > 1.0 && LeftAnchor(d, p)) &&
             SqDist(p, PreviousSample(d, p)) <= JitterRadius * JitterRadius) ==>
              MouseSample(d, p, elementAt).live == {} && Tick(MouseSample(d, p, elementAt), elementAt, rect) == MouseSample(d, p, elementAt)
  {
    AtMostOneInterval(s);
  }

  // ------------------------------------------------------------- zooming in

  /**
   * A dwell tick over a region just below the top rung zooms one rung in,
   * keeps the logical point under the cursor where it is, and anchors the
   * zoom-out radius at the cursor.
   */
  lemma DwellZoomKeepsCursorPoint(s: Ctl, elementAt: Point -> Hit, rect: ScreenRect)
    requires Valid(s) && s.pinch.None? && elementAt(s.lastPos).OverRegion?
    requires s.zoom.scale < MaxLadderScale
    ensures var r := IntervalCallback(s, elementAt, Some(rect));
            && r.zoom.scale == NextZoomIn(s.zoom.scale).value
            && s.zoom.scale < r.zoom.scale <= MaxLadderScale
            && MapPointFromScreen(s.lastPos, rect, r.zoom) == MapPointFromScreen(s.lastPos, rect, s.zoom)
            && r.anchor == Some(s.lastPos)
            && r.timerRef == s.timerRef && r.live == s.live
  {
    NextZoomInIsNextRung(s.zoom.scale);
  }

  /** At the top rung a tick over a region changes nothing; off the map it stops the interval. */
  lemma DwellTickAtTopOrOffMap(s: Ctl, elementAt: Point -> Hit, rect: Option<ScreenRect>)
    requires Valid(s) && s.pinch.None?
    ensures elementAt(s.lastPos).OverRegion? && s.zoom.scale >= MaxLadderScale ==>
              IntervalCallback(s, elementAt, rect) == s
    ensures !elementAt(s.lastPos).OverRegion? ==>
              IntervalCallback(s, elementAt, rect).timerRef.None? && IntervalCallback(s, elementAt, rect).live == {}
  {
    NextZoomInIsNextRung(s.zoom.scale);
    AtMostOneInterval(s);
  }

  // ----------------------------------------------------------------- pinch

  /**
   * A second finger stops the dwell interval and records the start distance,
   * the current scale and the logical point under the fingers' midpoint.
   */
  lemma PinchStartCapturesAnchor(s: Ctl, touches: seq<Point>, spread: real, rect: ScreenRect,
                                 elementAt: Point -> Hit)
    requires Valid(s) && |touches| == 2
    ensures var r := TouchStart(s, touches, spread, Some(rect), elementAt);
            && r.timerRef.None? && r.live == {}
            && r.pinch == Some(Pinch(spread, s.zoom.scale,
                                     MapPointFromScreen(Midpoint(touches[0], touches[1]), rect, s.zoom)))
            && r.zoom == s.zoom
  {
    AtMostOneInterval(s);
  }

  /**
   * A pinch move keeps the captured logical point under the fingers'
   * midpoint, at a scale clamped to [1, 15].
   */
  lemma PinchKeepsPointUnderFingers(s: Ctl, touches: seq<Point>, spread: real, rect: ScreenRect,
                                    elementAt: Point -> Hit)
    requires Valid(s) && |touches| == 2 && s.pinch.Some?
    requires s.pinch.value.startDist > 0.0 || spread > 0.0
    ensures var r := TouchMove(s, touches, spread, Some(rect), elementAt);
            && MapPointFromScreen(Midpoint(touches[0], touches[1]), rect, r.zoom) == s.pinch.value.startMapPoint
            && 1.0 <= r.zoom.scale <= MaxPinchScale
            && r.pinch == s.pinch && r.timerRef == s.timerRef
  {
    var pin := s.pinch.value;
    if pin.startDist > 0.0 { ClampPinchRange(pin.startScale * (spread / pin.startDist)); }
  }

  /** Lifting a finger ends the pinch. */
  lemma TouchEndStopsPinch(s: Ctl)
    requires Valid(s)
    ensures TouchEnd(s).pinch.None? && Valid(TouchEnd(s))
    ensures TouchEnd(s).zoom == s.zoom
  {
  }

  // ------------------------------------------------- the whole-map centre

  /** At scale 1 the view shows the centre of the map. */
  predicate CentredAtOne(s: Ctl)
  {
    s.zoom.scale == 1.0 ==> s.zoom.x == MapCentre && s.zoom.y == MapCentre
  }

  /** Every event except a pinch move keeps "scale 1 means the centred whole map". */
  lemma CentreKeptExceptByPinch(s: Ctl, e: Event, elementAt: Point -> Hit)
    requires Valid(s) && CentredAtOne(s) && WellFormed(e) && !e.TouchMoveWith?
    ensures CentredAtOne(Step(s, e, elementAt))
  {
    match e
    case DragOverAt(p) => MouseSampleCentre(s, p, elementAt);
    case MouseMoveTo(p) => MouseSampleCentre(s, p, elementAt);
    case IntervalFires(rect) => NextZoomInIsNextRung(s.zoom.scale);
    case TouchStartWith(touches, spread, rect) =>
      if |touches| == 1 && s.holding { MouseSampleCentre(s.(lastPos := touches[0]), touches[0], elementAt); }
    case TouchEnded =>
    case DropAt(_) =>
    case ResetPressed =>
    case ActivePieceSet(holding) =>
    case DragLeft(left) =>
  }

  lemma MouseSampleCentre(s: Ctl, p: Point, elementAt: Point -> Hit)
    requires Valid(s) && CentredAtOne(s)
    ensures CentredAtOne(MouseSample(s, p, elementAt))
  {
    if s.pinch.None? && s.zoom.scale > 1.0 && LeftAnchor(s, p) {
      ZoomOutDropsOneRung(s.zoom.scale);
    }
  }

  /**
   * A pinch move that ends at scale 1 leaves the view centred exactly when the
   * captured point is the one the centred whole map shows under the fingers;
   * any other captured point leaves the whole map panned off its centre.
   */
  lemma PinchAtScaleOneCentredOnlyByChance(s: Ctl, touches: seq<Point>, spread: real, rect: ScreenRect,
                                           elementAt: Point -> Hit)
    requires Valid(s) && |touches| == 2 && s.pinch.Some?
    requires PinchScale(s.pinch.value.startScale, s.pinch.value.startDist, spread) == Some(1.0)
    ensures var r := TouchMove(s, touches, spread, Some(rect), elementAt);
            r.zoom.scale == 1.0 &&
            (CentredAtOne(r) <==>
               s.pinch.value.startMapPoint == MapPointFromScreen(Midpoint(touches[0], touches[1]), rect, HomeZoom))
  {
    var mid := Midpoint(touches[0], touches[1]);
    var target := s.pinch.value.startMapPoint;
    if target == MapPointFromScreen(mid, rect, HomeZoom) {
      ZoomCenterUnique(target, mid, rect, 1.0, Point(MapCentre, MapCentre));
    }
  }
}
