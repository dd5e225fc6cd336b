/**
 * The viewport coordinate transform of the map and the zoom ladder.
 *
 * The map is a 1000x1000 logical square drawn into a screen rectangle with
 * SVG preserveAspectRatio "xMidYMid meet" (section 7.8 of SVG 1.1 Second
 * Edition): one uniform scale, the largest that fits, centred on both axes.
 * Inside it the map group carries the transform
 *   translate(500, 500) scale(zoom.scale) translate(-zoom.x, -zoom.y),
 * so a logical point p is drawn at SVG coordinate (p - pan) * scale + 500.
 */
module Viewport {
  import opened Types

  /** A bounding client rectangle in screen pixels. */
  datatype Rect = Rect(left: real, top: real, width: real, height: real)

  /** A laid-out container; the model only considers rectangles of positive size. */
  type ScreenRect = r: Rect | r.width > 0.0 && r.height > 0.0 witness Rect(0.0, 0.0, 1.0, 1.0)

  /** Zoom factor and the logical point shown at the centre of the view. */
  datatype ZoomState = ZoomState(scale: real, x: real, y: real)

  const MapSize: real := 1000.0
  const MapCentre: real := 500.0

  /** The whole-map view. */
  const HomeZoom: ZoomState := ZoomState(1.0, MapCentre, MapCentre)

  /** The letterbox: uniform factor from SVG units to pixels and the margins. */
  datatype Fit = Fit(factor: real, offsetX: real, offsetY: real)

  /**
   * The "meet" letterbox of the square map in `rect`: the drawn square fits
   * inside, touches two opposite sides, and the margins are equal on both sides.
   */
  function LetterboxFit(rect: ScreenRect): (f: Fit)
    ensures f.factor > 0.0 && f.offsetX >= 0.0 && f.offsetY >= 0.0
    ensures MapSize * f.factor <= rect.width && MapSize * f.factor <= rect.height
    ensures MapSize * f.factor == rect.width || MapSize * f.factor == rect.height
    ensures 2.0 * f.offsetX + MapSize * f.factor == rect.width
    ensures 2.0 * f.offsetY + MapSize * f.factor == rect.height
  {
    RatioAboveOne(rect.width, rect.height);
    if rect.width / rect.height > 1.0 then
      // wider than the map: height-constrained, margins left and right
      var factor := rect.height / MapSize;
      Fit(factor, (rect.width - MapSize * factor) / 2.0, 0.0)
    else
      // taller than the map: width-constrained, margins above and below
      var factor := rect.width / MapSize;
      Fit(factor, 0.0, (rect.height - MapSize * factor) / 2.0)
  }

  /** For a positive height, width/height > 1 says the rectangle is wider than tall. */
  lemma RatioAboveOne(w: real, h: real)
    requires h > 0.0
    ensures w / h > 1.0 <==> w > h
  {
    var q := w / h;
    assert q * h == w;
    if q > 1.0 {
      assert (q - 1.0) * h > 0.0;
    } else {
      assert (1.0 - q) * h >= 0.0;
    }
  }

  /** Screen pixels to SVG units, removing the letterbox. */
  function ScreenToSvg(s: Point, rect: ScreenRect): Point
  {
    var f := LetterboxFit(rect);
    Point((s.x - rect.left - f.offsetX) / f.factor, (s.y - rect.top - f.offsetY) / f.factor)
  }

  /**
   * SVG units to screen pixels: a "xMidYMid meet" letterbox of the 1000-unit
   * square into `rect`, the rectangle getMapPointFromScreen is given.
   */
  function SvgToScreen(q: Point, rect: ScreenRect): Point
  {
    var f := LetterboxFit(rect);
    Point(rect.left + f.offsetX + q.x * f.factor, rect.top + f.offsetY + q.y * f.factor)
  }

  /** The map group's transform: logical map point to SVG units. */
  function MapToSvg(p: Point, zoom: ZoomState): Point
  {
    Point((p.x - zoom.x) * zoom.scale + MapCentre, (p.y - zoom.y) * zoom.scale + MapCentre)
  }

  /**
   * The modelled drawing of logical point `p`: the group transform of
   * JapanMap.tsx:422, then the letterbox into the same rectangle.
   */
  function MapToScreen(p: Point, rect: ScreenRect, zoom: ZoomState): Point
  {
    SvgToScreen(MapToSvg(p, zoom), rect)
  }

  /** getMapPointFromScreen: the logical map point under screen point `s`. */
  function MapPointFromScreen(s: Point, rect: ScreenRect, zoom: ZoomState): Point
    requires zoom.scale > 0.0
  {
    var svg := ScreenToSvg(s, rect);
    Point((svg.x - MapCentre) / zoom.scale + zoom.x, (svg.y - MapCentre) / zoom.scale + zoom.y)
  }

  /**
   * getZoomCenterForTarget: the pan that, at scale `nextScale`, puts the
   * logical point `target` under the screen point `s`.
   */
  function ZoomCenterForTarget(target: Point, s: Point, rect: ScreenRect, nextScale: real): (c: Point)
    requires nextScale > 0.0
    ensures MapPointFromScreen(s, rect, ZoomState(nextScale, c.x, c.y)) == target
  {
    var svg := ScreenToSvg(s, rect);
    Point(target.x - (svg.x - MapCentre) / nextScale, target.y - (svg.y - MapCentre) / nextScale)
  }

  lemma DivCancel(a: real, c: real)
    requires c != 0.0
    ensures (a * c) / c == a && (a / c) * c == a
  {
  }

  /** Removing the letterbox undoes applying it, and the other way round. */
  lemma LetterboxRoundTrip(q: Point, s: Point, rect: ScreenRect)
    ensures ScreenToSvg(SvgToScreen(q, rect), rect) == q
    ensures SvgToScreen(ScreenToSvg(s, rect), rect) == s
  {
    var f := LetterboxFit(rect);
    DivCancel(q.x, f.factor);
    DivCancel(q.y, f.factor);
    DivCancel(s.x - rect.left - f.offsetX, f.factor);
    DivCancel(s.y - rect.top - f.offsetY, f.factor);
  }

  /**
   * getMapPointFromScreen is the exact inverse of the modelled drawing
   * (the group transform, then the letterbox into the same rectangle): it
   * recovers the logical point drawn at a screen point, and maps a screen
   * point to the logical point drawn there.
   */
  lemma MapPointFromScreenInvertsRendering(p: Point, s: Point, rect: ScreenRect, zoom: ZoomState)
    requires zoom.scale > 0.0
    ensures MapPointFromScreen(MapToScreen(p, rect, zoom), rect, zoom) == p
    ensures MapToScreen(MapPointFromScreen(s, rect, zoom), rect, zoom) == s
  {
    var q := MapToSvg(p, zoom);
    LetterboxRoundTrip(q, s, rect);
    DivCancel(p.x - zoom.x, zoom.scale);
    DivCancel(p.y - zoom.y, zoom.scale);
    var svg := ScreenToSvg(s, rect);
    DivCancel(svg.x - MapCentre, zoom.scale);
    DivCancel(svg.y - MapCentre, zoom.scale);
  }

  /** The pan that getZoomCenterForTarget returns is the only pan that does its job. */
  lemma ZoomCenterUnique(target: Point, s: Point, rect: ScreenRect, nextScale: real, pan: Point)
    requires nextScale > 0.0
    requires MapPointFromScreen(s, rect, ZoomState(nextScale, pan.x, pan.y)) == target
    ensures pan == ZoomCenterForTarget(target, s, rect, nextScale)
  {
  }

  /** The rendered position of `target` under the returned pan is `s`. */
  lemma ZoomCenterDrawsTargetAtScreenPoint(target: Point, s: Point, rect: ScreenRect, nextScale: real)
    requires nextScale > 0.0
    ensures var c := ZoomCenterForTarget(target, s, rect, nextScale);
            MapToScreen(target, rect, ZoomState(nextScale, c.x, c.y)) == s
  {
    var c := ZoomCenterForTarget(target, s, rect, nextScale);
    MapPointFromScreenInvertsRendering(target, s, rect, ZoomState(nextScale, c.x, c.y));
  }

  // ---------------------------------------------------------------- the ladder

  /** ZOOM_LEVELS: whole map, district, prefecture, detail. */
  const ZoomLevels: seq<real> := [1.0, 3.0, 6.0, 12.0]
  const MaxLadderScale: real := 12.0

  /** Array.prototype.find with the predicate z > s: the first entry above `s`. */
  function FindGreater(levels: seq<real>, s: real): (r: Option<real>)
    ensures r.None? <==> forall k :: 0 <= k < |levels| ==> levels[k] <= s
    ensures r.Some? ==> exists k :: 0 <= k < |levels| && levels[k] == r.value && r.value > s &&
                                    forall j :: 0 <= j < k ==> levels[j] <= s
  {
    if levels == [] then None
    else if levels[0] > s then Some(levels[0])
    else
      var r := FindGreater(levels[1..], s);
      assert forall k :: 1 <= k < |levels| ==> levels[k] == levels[1..][k - 1];
      r
  }

  /** Array.prototype.indexOf: the first index holding `s`, or -1. */
  function IndexOf(levels: seq<real>, s: real): (r: int)
    ensures -1 <= r < |levels|
    ensures r == -1 <==> s !in levels
    ensures r >= 0 ==> levels[r] == s && forall j :: 0 <= j < r ==> levels[j] != s
  {
    if levels == [] then -1
    else if levels[0] == s then 0
    else
      var r := IndexOf(levels[1..], s);
      if r == -1 then -1 else r + 1
  }

  /** The scale one dwell zoom-in step moves to, or None when the zoom stays. */
  function NextZoomIn(scale: real): Option<real>
  {
    match FindGreater(ZoomLevels, scale)
    case Some(z) => Some(z)
    case None => if scale < MaxLadderScale then Some(MaxLadderScale) else None
  }

  /** The scale one automatic zoom-out step moves to. */
  function ZoomOutScale(scale: real): real
  {
    var idx := IndexOf(ZoomLevels, scale);
    if idx > 0 then ZoomLevels[idx - 1] else 1.0
  }

  /**
   * A zoom-in step happens exactly below the top rung, and goes to the least
   * rung strictly above the current scale.
   */
  lemma NextZoomInIsNextRung(scale: real)
    ensures NextZoomIn(scale).Some? <==> scale < MaxLadderScale
    ensures NextZoomIn(scale).Some? ==>
              var z := NextZoomIn(scale).value;
              z in ZoomLevels && scale < z <= MaxLadderScale &&
              forall k :: 0 <= k < |ZoomLevels| && ZoomLevels[k] > scale ==> z <= ZoomLevels[k]
  {
    var r := FindGreater(ZoomLevels, scale);
    if r.Some? {
      var k :| 0 <= k < |ZoomLevels| && ZoomLevels[k] == r.value && r.value > scale &&
               forall j :: 0 <= j < k ==> ZoomLevels[j] <= scale;
      assert ZoomLevels[3] == MaxLadderScale;
    } else {
      assert ZoomLevels[3] <= scale;
    }
  }

  /**
   * A zoom-out step from a scale above 1 drops one rung when the scale is on
   * the ladder and goes straight to 1 when it is not.
   */
  lemma ZoomOutDropsOneRung(scale: real)
    requires scale > 1.0
    ensures var z := ZoomOutScale(scale);
            z in ZoomLevels && 1.0 <= z < scale &&
            (scale !in ZoomLevels ==> z == 1.0) &&
            (forall k :: 0 < k < |ZoomLevels| && ZoomLevels[k] == scale ==> z == ZoomLevels[k - 1])
  {
    var idx := IndexOf(ZoomLevels, scale);
    assert ZoomLevels[0] == 1.0;
    if idx > 0 {
      forall k | 0 < k < |ZoomLevels| && ZoomLevels[k] == scale ensures k == idx {
        assert ZoomLevels[idx] == ZoomLevels[k];
      }
    }
  }
}
