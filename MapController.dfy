/**
 * The map component's event handlers as methods over its mutable state:
 * the zoom, the refs (last cursor sample, zoom-out anchor, interval handle,
 * pinch record), the held-piece flag and the hovered region, beside the
 * browser's table of running intervals. Each handler method is proved to
 * perform the step the corresponding ZoomControl function describes, and to
 * keep the invariant ZoomControl.Valid. The helpers the handlers call (the
 * two interval clears, SetHovered and AutoZoomAfterSample) state only the
 * part of the step they perform; the calling handler proves the invariant.
 */
module MapController {
  import opened Types
  import opened Viewport
  import opened ZoomControl

  class JapanMapController {
    var zoom: ZoomState
    var lastMousePos: Point
    var zoomTriggerPos: Option<Point>
    var zoomInterval: Option<TimerId>
    var liveIntervals: set<TimerId>
    var nextIntervalId: TimerId
    var pinch: Option<Pinch>
    var hasActivePiece: bool
    var hoveredRegionCode: Option<int>
    var hoverWrites: seq<Option<int>>

    /** The controller's state as a value. */
    function Snapshot(): Ctl
      reads this
    {
      Ctl(zoom, lastMousePos, zoomTriggerPos, zoomInterval, liveIntervals, nextIntervalId,
          pinch, hasActivePiece, hoveredRegionCode, hoverWrites)
    }

    ghost predicate Valid()
      reads this
    {
      ZoomControl.Valid(Snapshot())
    }

    constructor (holding: bool, hovered: Option<int>)
      ensures Snapshot() == Mounted(holding, hovered) && Valid()
    {
      zoom := HomeZoom;
      lastMousePos := Origin;
      zoomTriggerPos := None;
      zoomInterval := None;
      liveIntervals := {};
      nextIntervalId := 1;
      pinch := None;
      hasActivePiece := holding;
      hoveredRegionCode := hovered;
      hoverWrites := [];
    }

    /** `if (zoomIntervalRef.current) clearInterval(zoomIntervalRef.current)`. */
    method ClearIntervalKeepingRef()
      modifies this
      ensures Snapshot() == ClearInterval(old(Snapshot()))
    {
      if zoomInterval.Some? {
        liveIntervals := liveIntervals - {zoomInterval.value};
      }
    }

    /** Clear the interval and null the ref. */
    method ClearAndNullInterval()
      modifies this
      ensures Snapshot() == ClearAndNull(old(Snapshot()))
    {
      if zoomInterval.Some? {
        liveIntervals := liveIntervals - {zoomInterval.value};
        zoomInterval := None;
      }
    }

    /** setHoveredRegionCode. */
    method SetHovered(code: Option<int>)
      modifies this
      ensures Snapshot() == old(Snapshot()).(hovered := code, hoverWrites := old(hoverWrites) + [code])
    {
      hoveredRegionCode := code;
      hoverWrites := hoverWrites + [code];
    }

    /** processMouseInteraction. */
    method ProcessMouseInteraction(current: Point, elementAt: Point -> Hit)
      requires Valid()
      modifies this
      ensures Snapshot() == MouseSample(old(Snapshot()), current, elementAt)
      ensures Valid()
    {
      ghost var s := Snapshot();
      MouseSampleKeepsValid(s, current, elementAt);
      if pinch.Some? {
        return;
      }
      if lastMousePos == Origin {
        lastMousePos := current;
      }
      var foundCode := FoundCode(elementAt(current));
      if foundCode != hoveredRegionCode {
        SetHovered(foundCode);
      }
      var moved := SqDist(current, lastMousePos);
      lastMousePos := current;
      AutoZoomAfterSample(current, moved, foundCode);
    }

    /** The auto-zoom part of processMouseInteraction. */
    method AutoZoomAfterSample(current: Point, moved: real, foundCode: Option<int>)
      modifies this
      ensures Snapshot() == AfterSample(old(Snapshot()), current, moved, foundCode)
    {
      // zoom out when the cursor leaves the anchor's radius
      if zoom.scale > 1.0 && zoomTriggerPos.Some? {
        if SqDist(current, zoomTriggerPos.value) > ZoomOutRadius * ZoomOutRadius {
          var newScale := ZoomOutScale(zoom.scale);
          zoom := ZoomState(newScale,
                            if newScale == 1.0 then MapCentre else zoom.x,
                            if newScale == 1.0 then MapCentre else zoom.y);
          zoomTriggerPos := Some(current);
          ClearAndNullInterval();
          return;
        }
      }

      // movement cancels the dwell interval
      if moved > JitterRadius * JitterRadius {
        ClearAndNullInterval();
        return;
      }

      // start the dwell interval
      if zoomInterval.None? && hasActivePiece && Truthy(foundCode) && zoom.scale < MaxLadderScale {
        zoomInterval := Some(nextIntervalId);
        liveIntervals := liveIntervals + {nextIntervalId};
        nextIntervalId := nextIntervalId + 1;
      }
    }

    /** The running dwell interval fires (no-op when none runs). */
    method Tick(elementAt: Point -> Hit, rect: Option<ScreenRect>)
      requires Valid()
      modifies this
      ensures Snapshot() == ZoomControl.Tick(old(Snapshot()), elementAt, rect)
      ensures Valid()
    {
      ghost var s := Snapshot();
      IntervalCallbackKeepsValid(s, elementAt, rect);
      if liveIntervals == {} {
        return;
      }
      var lx := lastMousePos;
      if pinch.Some? {
        return;
      }
      if !elementAt(lx).OverRegion? {
        ClearAndNullInterval();
        return;
      }
      NextZoomInIsNextRung(zoom.scale);
      var nextScale := NextZoomIn(zoom.scale);
      if nextScale.None? || rect.None? {
        return;
      }
      var currentMapPoint := MapPointFromScreen(lx, rect.value, zoom);
      var newCenter := ZoomCenterForTarget(currentMapPoint, lx, rect.value, nextScale.value);
      zoomTriggerPos := Some(lx);
      zoom := ZoomState(nextScale.value, newCenter.x, newCenter.y);
    }

    /** handleTouchStart. */
    method TouchStart(touches: seq<Point>, spread: real, rect: Option<ScreenRect>, elementAt: Point -> Hit)
      requires Valid() && WellFormed(TouchStartWith(touches, spread, rect))
      modifies this
      ensures Snapshot() == ZoomControl.TouchStart(old(Snapshot()), touches, spread, rect, elementAt)
      ensures Valid()
    {
      ghost var s := Snapshot();
      StepKeepsValid(s, TouchStartWith(touches, spread, rect), elementAt);
      if |touches| == 2 {
        if rect.None? {
          return;
        }
        var centre := Midpoint(touches[0], touches[1]);
        ClearAndNullInterval();
        var startMapPoint := MapPointFromScreen(centre, rect.value, zoom);
        pinch := Some(Pinch(spread, zoom.scale, startMapPoint));
      } else if |touches| == 1 && hasActivePiece {
        lastMousePos := touches[0];
        ProcessMouseInteraction(touches[0], elementAt);
      }
    }

    /** handleTouchMove. */
    method TouchMove(touches: seq<Point>, spread: real, rect: Option<ScreenRect>, elementAt: Point -> Hit)
      requires Valid() && WellFormed(TouchMoveWith(touches, spread, rect))
      modifies this
      ensures Snapshot() == ZoomControl.TouchMove(old(Snapshot()), touches, spread, rect, elementAt)
      ensures Valid()
    {
      ghost var s := Snapshot();
      StepKeepsValid(s, TouchMoveWith(touches, spread, rect), elementAt);
      if |touches| == 2 && pinch.Some? {
        if rect.None? {
          return;
        }
        var newScale := PinchScale(pinch.value.startScale, pinch.value.startDist, spread);
        if newScale.None? {
          return;
        }
        var centre := Midpoint(touches[0], touches[1]);
        var newZoomCenter := ZoomCenterForTarget(pinch.value.startMapPoint, centre, rect.value, newScale.value);
        zoom := ZoomState(newScale.value, newZoomCenter.x, newZoomCenter.y);
        return;
      }
      if |touches| == 1 && hasActivePiece {
        ProcessMouseInteraction(touches[0], elementAt);
      }
    }

    /** handleTouchEnd. */
    method TouchEnd()
      requires Valid()
      modifies this
      ensures Snapshot() == ZoomControl.TouchEnd(old(Snapshot())) && Valid()
    {
      pinch := None;
    }

    /** handleGlobalDragOver. */
    method DragOver(p: Point, elementAt: Point -> Hit)
      requires Valid()
      modifies this
      ensures Snapshot() == MouseSample(old(Snapshot()), p, elementAt) && Valid()
    {
      ProcessMouseInteraction(p, elementAt);
    }

    /** handleMouseMove. */
    method MouseMove(p: Point, elementAt: Point -> Hit)
      requires Valid()
      modifies this
      ensures Snapshot() == ZoomControl.MouseMove(old(Snapshot()), p, elementAt) && Valid()
    {
      if hasActivePiece {
        ProcessMouseInteraction(p, elementAt);
      }
    }

    /** handleGlobalDrop: returns the code passed to onPieceDrop, if any. */
    method GlobalDrop(p: Point, elementAt: Point -> Hit) returns (target: Option<int>)
      requires Valid()
      modifies this
      ensures target == DropTarget(p, elementAt)
      ensures Snapshot() == DropState(old(Snapshot())) && Valid()
    {
      ClearIntervalKeepingRef();
      var hit := elementAt(p);
      target := if hit.OverRegion? then hit.code else None;
      SetHovered(None);
    }

    /** handleClick: returns the code passed to onPieceDrop, if any. */
    method Click(code: int) returns (target: Option<int>)
      ensures target == ClickTarget(Snapshot(), code)
      ensures target.Some? <==> hasActivePiece
      ensures target.Some? ==> target.value == code
    {
      target := if hasActivePiece then Some(code) else None;
    }

    /** handleResetZoom. */
    method ResetZoom()
      requires Valid()
      modifies this
      ensures Snapshot() == ZoomControl.ResetZoom(old(Snapshot())) && Valid()
      ensures zoom == HomeZoom
    {
      zoom := HomeZoom;
      ClearIntervalKeepingRef();
    }

    /** The effect run when the active piece changes. */
    method ActivePieceChanged(holding: bool)
      requires Valid()
      modifies this
      ensures Snapshot() == HeldPieceChanged(old(Snapshot()), holding) && Valid()
      ensures zoomTriggerPos.None? && lastMousePos == Origin
    {
      hasActivePiece := holding;
      if !holding {
        ClearIntervalKeepingRef();
        zoomTriggerPos := None;
        lastMousePos := Origin;
      } else {
        lastMousePos := Origin;
        zoomTriggerPos := None;
      }
    }

    /** handleContainerDragLeave; `leftContainer` says the drag went outside the container. */
    method DragLeave(leftContainer: bool)
      requires Valid()
      modifies this
      ensures Snapshot() == ZoomControl.DragLeave(old(Snapshot()), leftContainer) && Valid()
    {
      if leftContainer {
        SetHovered(None);
      }
    }
  }
}
