# chizupazzle core, modelled in Dafny

chizupazzle is a children's map puzzle of Japan's 47 prefectures (regions).
The player drags or taps a piece from the inventory onto the map, and the
piece's region either accepts it or shows a "try again" message. A piece
can show the region's name, its outline, or an item from a static table
(capital, food, landmark, mascot, ranking, craft, population, area). In two
modes the item comes from a generative AI service: a souvenir, or any topic
the player types.

This project models four parts of the program and proves properties of the model:

- **The map's viewport and auto-zoom controller.** This covers the letterboxed
  SVG transform, the zoom ladder 1 → 3 → 6 → 12 and the dwell interval that
  zooms toward the cursor. It also covers the zoom-out beyond a 150 px radius,
  the 20 px jitter cancel and the two-finger pinch. The files are
  `Viewport.dfy`, `ZoomControl.dfy` and `MapController.dfy`.
- **The order in which the map paints its regions** (`RenderOrder.dfy`).
- **The page's round state.** This covers map-data loading, starting a round
  in each mode, the AI reply, the piece drop with its 47-piece completion, and
  returning home. The files are `Round.dfy`, `Puzzle.dfy` and `PuzzleApp.dfy`.
- **The AI service's local logic and the piece component.** The service part
  is the topic choice and the name matcher that maps reply items to regions
  (`Gemini.dfy`). The piece part is what a piece renders and which callbacks a
  drag start fires (`Piece.dfy`).

Shared records are in `Types.dfy`.

Parts whose source changes state step by step are written twice. First comes
a pure module of step functions over a state value (`ZoomControl`, `Puzzle`)
with the lemmas about it. Then comes a class whose fields are the component's
state and refs (`MapController.JapanMapController`, `PuzzleApp.App`). Each
handler method of the class is proved to produce exactly the state the step
function describes, and to keep the invariant. The helper methods the
handlers call (the interval clears, the hover write and AutoZoomAfterSample of the map, and
ResetRound, IssueRequest, BuildLocalRound, Settle and AcceptDrop of the page)
state only the part of the step they perform; ResetRound lists the fields it
resets and keeps. The handler that calls them proves the invariant.

Inputs the model does not compute are parameters:

- the DOM hit test (`elementFromPoint`) is a function `elementAt` from screen points to hits;
- the container rectangle is an optional `ScreenRect`;
- `Math.hypot` of two touches is a `spread` whose square is their squared distance;
- the clock (`Date.now()`) is an integer `now`;
- the random shuffle is a function that returns a permutation of its argument;
- the AI reply is an `AiReply` value;
- the map-data loader's result is an `Option` value.

`setInterval` is modelled as a set of running interval ids plus a counter for
fresh ids.

Three behaviours of the code worth noting:

- The dwell timer is a repeating `setInterval`. It zooms one rung per tick,
  toward the cursor, and keeps the logical point under the cursor fixed (exactly in the model's real arithmetic).
- A pinch can end at scale 1 with the map panned off its centre.
- Nothing discards the reply of an AI request that an earlier round issued
  (see Findings).

## Model

| member | source | states |
|---|---|---|
| Viewport.ScreenToSvg | components/JapanMap.tsx:46-48 | screen pixels to SVG units, removing the letterbox; LetterboxRoundTrip proves SvgToScreen its inverse |
| Viewport.SvgToScreen | components/JapanMap.tsx:406-409 | the "xMidYMid meet" letterbox of the 1000-unit square into the rectangle; LetterboxRoundTrip proves ScreenToSvg its inverse |
| Viewport.MapToSvg | components/JapanMap.tsx:419-423 | the map group's transform `translate(500px, 500px) scale(s) translate(-x px, -y px)` from logical point to SVG units |
| Viewport.MapToScreen | components/JapanMap.tsx:406-423 | the modelled drawing of a logical point: the group transform, then the letterbox; MapPointFromScreenInvertsRendering proves it the inverse of MapPointFromScreen |
| Viewport.MapPointFromScreen | components/JapanMap.tsx:28-57 | getMapPointFromScreen: remove the letterbox, then undo the group transform; its inverse is MapToScreen (MapPointFromScreenInvertsRendering) |
| Viewport.LetterboxFit | components/JapanMap.tsx:28-57 | the "xMidYMid meet" fit: a positive factor that scales the 1000-unit map to touch one side of the rectangle without exceeding the other, centred by equal offsets |
| Viewport.RatioAboveOne | components/JapanMap.tsx:36-41 | the aspect test `width/height > 1` holds exactly when the rectangle is wider than tall |
| Viewport.LetterboxRoundTrip | components/JapanMap.tsx:28-57 | removing the letterbox undoes applying it, and the other way round |
| Viewport.MapPointFromScreenInvertsRendering | components/JapanMap.tsx:28-57 | getMapPointFromScreen is the exact inverse, in both directions, of the modelled drawing: the group transform, then the letterbox into the same rectangle |
| Viewport.ZoomCenterForTarget | components/JapanMap.tsx:60-88 | at the new scale, the returned pan puts the target map point under the given screen point |
| Viewport.ZoomCenterUnique | components/JapanMap.tsx:60-88 | that pan is the only one with this property |
| Viewport.ZoomCenterDrawsTargetAtScreenPoint | components/JapanMap.tsx:60-88 | under the returned pan the target is drawn exactly at the screen point |
| Viewport.FindGreater | components/JapanMap.tsx:220 | `ZOOM_LEVELS.find(z => z > scale)`: none exactly when no rung is above; otherwise the first rung above |
| Viewport.IndexOf | components/JapanMap.tsx:174 | `indexOf`: -1 exactly when absent, otherwise the first index holding the value |
| Viewport.NextZoomIn | components/JapanMap.tsx:219-224 | the interval's next scale: the first rung above, else 12 below 12, else none; NextZoomInIsNextRung characterises it |
| Viewport.ZoomOutScale | components/JapanMap.tsx:174-177 | the zoom-out scale: the rung below for a rung above 1, else 1; ZoomOutDropsOneRung characterises it |
| Viewport.NextZoomInIsNextRung | components/JapanMap.tsx:219-224 | a zoom-in step exists exactly below 12 and goes to the least rung strictly above the current scale |
| Viewport.ZoomOutDropsOneRung | components/JapanMap.tsx:174-183 | a zoom-out from above 1 goes one rung down from a rung, and to 1 from any scale that is not a rung |
| ZoomControl.Valid | components/JapanMap.tsx:100-111 | the controller's invariant over the zoom state and refs: scale at least 1, every running interval is the one the ref holds, the held handle was handed out, a pinch starts at scale at least 1 |
| ZoomControl.MouseSample | components/JapanMap.tsx:142-239 | processMouseInteraction: nothing during a pinch, else the hover update, the last sample, then AfterSample; MouseSampleKeepsValid and the sample lemmas below state its behaviour |
| ZoomControl.AfterSample | components/JapanMap.tsx:167-238 | the three exits of processMouseInteraction in source order: zoom out beyond 150 px, cancel beyond 20 px, or start the dwell interval under its guard |
| ZoomControl.IntervalCallback | components/JapanMap.tsx:204-237 | the 800 ms callback: nothing during a pinch, clear and null off the map, else one rung in with the point under the cursor fixed; IntervalCallbackKeepsValid and DwellZoomKeepsCursorPoint |
| ZoomControl.Tick | components/JapanMap.tsx:204-237 | the browser firing the running interval, when one runs |
| ZoomControl.ClampPinch | components/JapanMap.tsx:301 | `Math.max(1, Math.min(v, 15))`; ClampPinchRange bounds it |
| ZoomControl.PinchScale | components/JapanMap.tsx:300-301 | the pinch scale `startScale * (dist / startDist)`, clamped, with +Infinity clamped to 15 and NaN as none |
| ZoomControl.TouchStart | components/JapanMap.tsx:257-286 | two touches: clear and null the interval and record the pinch; one touch while holding: a sample at the touch, with the last sample set to it first |
| ZoomControl.TouchMove | components/JapanMap.tsx:288-320 | two touches during a pinch: the clamped scale with the captured point under the midpoint; one touch while holding: a sample |
| ZoomControl.TouchEnd | components/JapanMap.tsx:322-324 | ends the pinch |
| ZoomControl.MouseMove | components/JapanMap.tsx:332-336 | a sample only while a piece is held |
| ZoomControl.DropState | components/JapanMap.tsx:338-353 | clears the interval keeping its handle, and writes a null hover |
| ZoomControl.DropTarget | components/JapanMap.tsx:344-351 | the region code under the drop point, if the hit test finds one |
| ZoomControl.ClickTarget | components/JapanMap.tsx:361-365 | a click reports its region only while a piece is held |
| ZoomControl.ResetZoom | components/JapanMap.tsx:367-370 | home zoom, with the interval cleared and its handle kept |
| ZoomControl.HeldPieceChanged | components/JapanMap.tsx:114-123 | clears anchor and last sample; clears the interval, keeping its handle, only when no piece is held |
| ZoomControl.DragLeave | components/JapanMap.tsx:355-359 | writes a null hover only when the cursor leaves the container |
| ZoomControl.Step | components/JapanMap.tsx:142-370 | dispatches each event to its handler; StepKeepsValid |
| ZoomControl.FoundCode | components/JapanMap.tsx:149-154 | the region code of a hit on a `pref-` path or rect, none otherwise (NaN dropped); HoverWrittenOnlyOnChange and the GlobalDrop method |
| ZoomControl.ClearInterval | components/JapanMap.tsx:342 | `if (ref) clearInterval(ref)`, keeping the handle (also lines 116 and 369); ClearKeepsValid and StaleHandleBlocksDwell |
| ZoomControl.ClearAndNull | components/JapanMap.tsx:185-188 | `if (ref) { clearInterval(ref); ref = null }` (also lines 196-198); ClearKeepsValid |
| ZoomControl.StartInterval | components/JapanMap.tsx:203-204 | `ref = setInterval(...)` with a fresh handle that joins the running intervals; StillSampleStartsDwell |
| ZoomControl.ZoomedOut | components/JapanMap.tsx:174-183 | one zoom-out step: ZoomOutScale, and back to the centre when it reaches 1; ZoomOutOnLeavingAnchor |
| ZoomControl.UpdateHover | components/JapanMap.tsx:157-159 | writes the hover only when the found code differs; HoverWrittenOnlyOnChange |
| ZoomControl.PreviousSample | components/JapanMap.tsx:145-147 | the (0,0) sentinel: the first sample counts as its own predecessor; FirstSampleAfterResetIsStill |
| ZoomControl.Midpoint | components/JapanMap.tsx:250-255 | getTouchCenter, the midpoint of the first two touches; PinchStartCapturesAnchor and PinchKeepsPointUnderFingers |
| ZoomControl.Mounted | components/JapanMap.tsx:100-111 | the state at mount is home zoom (1, 500, 500), no interval, and satisfies the invariant |
| ZoomControl.ClearKeepsValid | components/JapanMap.tsx:185-188 | clearing (with or without nulling the ref) keeps the invariant; clear-and-null leaves no handle and no running interval |
| ZoomControl.MouseSampleKeepsValid | components/JapanMap.tsx:142-239 | a cursor sample keeps the invariant (scale ≥ 1, only the held interval runs) |
| ZoomControl.IntervalCallbackKeepsValid | components/JapanMap.tsx:204-237 | a dwell tick keeps the invariant |
| ZoomControl.ClampPinchRange | components/JapanMap.tsx:300-301 | `Math.max(1, Math.min(v, 15))` lies in [1, 15] and is the identity inside it |
| ZoomControl.StepKeepsValid | components/JapanMap.tsx:142-370 | every handler of the map keeps the invariant |
| ZoomControl.Run | components/JapanMap.tsx:142-370 | any stream of well-formed events, each with the hit test of its moment, from a valid state ends in a valid state |
| ZoomControl.AtMostOneInterval | components/JapanMap.tsx:203-204 | in a valid state at most one interval runs, and any running one is the one the ref holds |
| ZoomControl.NeverTwoIntervals | components/JapanMap.tsx:142-370 | after any event stream from mount, at most one dwell interval runs |
| ZoomControl.PinchSuspendsAutoZoom | components/JapanMap.tsx:142-206 | while a pinch runs, cursor samples and dwell ticks change nothing |
| ZoomControl.HoverWrittenOnlyOnChange | components/JapanMap.tsx:149-159 | after a sample the hovered code is the hit-test result, and it is written only when it differs |
| ZoomControl.ZoomOutOnLeavingAnchor | components/JapanMap.tsx:168-190 | zoomed in and more than 150 px from the anchor: one rung down, back to the centre at 1, otherwise the pan is kept; the cursor becomes the anchor; the interval is cancelled |
| ZoomControl.JitterCancelsDwell | components/JapanMap.tsx:194-200 | a move of more than 20 px cancels the interval and keeps zoom and anchor |
| ZoomControl.StillSampleStartsDwell | components/JapanMap.tsx:202-204 | a still sample starts an interval with a fresh id exactly when no handle is held, a piece is held, the code is truthy and the scale is below 12; otherwise the timer state is unchanged |
| ZoomControl.FirstSampleAfterResetIsStill | components/JapanMap.tsx:114-147 | after the active piece changes, the first sample sees no displacement, so the dwell guard alone decides whether an interval starts |
| ZoomControl.StaleHandleBlocksDwell | components/JapanMap.tsx:338-370 | drop, reset and release clear the interval but keep its handle, so a following still sample starts no interval and a tick does nothing (the release at line 116 likewise) |
| ZoomControl.DwellZoomKeepsCursorPoint | components/JapanMap.tsx:219-236 | a tick over a region below 12 zooms to the next rung, keeps the map point under the cursor fixed in the modelled drawing of the same rectangle, and anchors at the cursor |
| ZoomControl.DwellTickAtTopOrOffMap | components/JapanMap.tsx:208-224 | at the top rung a tick changes nothing; off the map it stops the interval |
| ZoomControl.PinchStartCapturesAnchor | components/JapanMap.tsx:257-280 | two fingers stop the interval and record the spread, the scale and the map point under their midpoint |
| ZoomControl.PinchKeepsPointUnderFingers | components/JapanMap.tsx:288-313 | a pinch move keeps the captured map point under the fingers' midpoint at a scale in [1, 15] |
| ZoomControl.TouchEndStopsPinch | components/JapanMap.tsx:322-324 | lifting a finger ends the pinch and keeps the zoom |
| ZoomControl.CentreKeptExceptByPinch | components/JapanMap.tsx:179-183 | every event except a pinch move keeps "scale 1 shows the centred whole map" (the reset at lines 367-370 likewise) |
| ZoomControl.MouseSampleCentre | components/JapanMap.tsx:179-183 | a cursor sample keeps "scale 1 shows the centred whole map" |
| ZoomControl.PinchAtScaleOneCentredOnlyByChance | components/JapanMap.tsx:300-311 | a pinch that ends at scale 1 is centred exactly when the captured point is the one the centred map shows under the fingers |
| MapController.JapanMapController.constructor | components/JapanMap.tsx:100-111 | the fields start as the mount state |
| MapController.JapanMapController.ClearIntervalKeepingRef | components/JapanMap.tsx:116 | stops the held interval and keeps the handle |
| MapController.JapanMapController.ClearAndNullInterval | components/JapanMap.tsx:185-188 | stops the held interval and nulls the ref |
| MapController.JapanMapController.SetHovered | components/JapanMap.tsx:158 | records one hover write |
| MapController.JapanMapController.ProcessMouseInteraction | components/JapanMap.tsx:142-239 | performs the MouseSample step and keeps the invariant |
| MapController.JapanMapController.AutoZoomAfterSample | components/JapanMap.tsx:167-238 | performs zoom-out, jitter cancel or dwell start as AfterSample describes |
| MapController.JapanMapController.Tick | components/JapanMap.tsx:204-237 | the browser firing the running interval: performs the callback and keeps the invariant |
| MapController.JapanMapController.TouchStart | components/JapanMap.tsx:257-286 | performs the touch-start step and keeps the invariant |
| MapController.JapanMapController.TouchMove | components/JapanMap.tsx:288-320 | performs the touch-move step and keeps the invariant |
| MapController.JapanMapController.TouchEnd | components/JapanMap.tsx:322-324 | clears the pinch and keeps the invariant |
| MapController.JapanMapController.DragOver | components/JapanMap.tsx:327-330 | a drag-over is a cursor sample |
| MapController.JapanMapController.MouseMove | components/JapanMap.tsx:332-336 | a mouse move is a cursor sample only while a piece is held |
| MapController.JapanMapController.GlobalDrop | components/JapanMap.tsx:338-353 | reports the region under the drop point, stops the interval with its handle kept, and clears the hover |
| MapController.JapanMapController.Click | components/JapanMap.tsx:361-365 | a click reports its region exactly when a piece is held |
| MapController.JapanMapController.ResetZoom | components/JapanMap.tsx:367-370 | back to home zoom, with the interval stopped and its handle kept |
| MapController.JapanMapController.ActivePieceChanged | components/JapanMap.tsx:114-123 | clears anchor and last sample; stops the interval only when no piece is held |
| MapController.JapanMapController.DragLeave | components/JapanMap.tsx:355-359 | clears the hover only when the cursor leaves the container |
| RenderOrder.Compare | components/JapanMap.tsx:127-138 | the comparator: hovered after not hovered, then placed after unplaced, else 0; CompareIsRankOrder characterises it |
| RenderOrder.SortedPrefectures | components/JapanMap.tsx:126-139 | the stable sort under Compare, as the concatenation of the four rank groups; SortedIsPermutation, SortedIsRankSorted and SortIsStable |
| RenderOrder.Rank | components/JapanMap.tsx:128-131 | every region's paint layer is one of four |
| RenderOrder.CompareIsRankOrder | components/JapanMap.tsx:127-138 | the comparator returns 1, -1 or 0 exactly when the first region's rank is above, below or equal to the second's |
| RenderOrder.WithRank | components/JapanMap.tsx:127-138 | the regions of one rank, in input order |
| RenderOrder.WithRankPartition | components/JapanMap.tsx:127-138 | the four rank groups together are the input, as a multiset |
| RenderOrder.SortedIsPermutation | components/JapanMap.tsx:126-139 | the sorted list is a permutation of the regions |
| RenderOrder.SortedIsRankSorted | components/JapanMap.tsx:126-139 | the sorted list never paints a region after one of higher rank |
| RenderOrder.HoveredDrawnLast | components/JapanMap.tsx:130-134 | the hovered region is drawn after every other region |
| RenderOrder.PlacedDrawnAfterUnplaced | components/JapanMap.tsx:128-136 | among regions that are not hovered, placed ones are drawn after unplaced ones |
| RenderOrder.SortIsStable | components/JapanMap.tsx:127 | stability: within each rank the sort keeps the input order |
| Gemini.CustomTopicOrDefault | services/geminiService.ts:29 | the typed topic, or "有名な観光地" when it is absent or empty, as JavaScript's logical or gives it; RequestFor |
| Gemini.RequestFor | services/geminiService.ts:5-33 | a missing key throws in every mode; with a key, non-AI modes resolve to null; SOUVENIR asks for its fixed topic; CUSTOM asks for the typed topic, or for "有名な観光地" when it is absent or empty |
| Gemini.Includes | services/geminiService.ts:91-92 | JavaScript `String.prototype.includes`; IncludesIffSplit characterises it |
| Gemini.Matches | services/geminiService.ts:89-93 | the find predicate: equal names, or either name includes the other |
| Gemini.MatchedEntries | services/geminiService.ts:84-103 | mapAiResponseToIds as a value; MapAiResponseToIds is proved to compute it |
| Gemini.IncludesEmptyAndSelf | services/geminiService.ts:90-91 | every string includes "" and itself |
| Gemini.IncludesIffSplit | services/geminiService.ts:90-91 | `includes` means the string is a prefix, the substring and a suffix |
| Gemini.FirstMatch | services/geminiService.ts:89-93 | `items.find`: none exactly when no item matches, otherwise the first matching item |
| Gemini.ContentFor | services/geminiService.ts:89-101 | a region gets the content of its first matching item, or "？" when none matches |
| Gemini.FirstMatchAfterMisses | services/geminiService.ts:89-93 | skipping a non-matching item leaves the first match unchanged |
| Gemini.FindMatch | services/geminiService.ts:89-93 | the find loop returns the first matching item |
| Gemini.MapAiResponseToIds | services/geminiService.ts:84-103 | one entry per region, in table order, with the region's code and its ContentFor content |
| Gemini.EmptyNameMatchesEveryRegion | services/geminiService.ts:90-92 | an item with an empty name matches every region |
| Gemini.EmptyNameItemLeavesNoFallback | services/geminiService.ts:89-101 | one item with an empty name leaves no region unmatched |
| Gemini.MatchedRegionTakesEarliestItem | services/geminiService.ts:89-97 | a region that some item matches takes that item's content or an earlier matching one's |
| Gemini.KyotoTakesTokyoAnswer | services/geminiService.ts:89-93 | from the items ("東京都", "雷おこし"), ("京都府", "八ツ橋"), both Tokyo and Kyoto get "雷おこし" |
| Gemini.FirstOwnItem | services/geminiService.ts:89-93 | the first item naming the region itself, or none exactly when no item does |
| Gemini.ContentPreferringOwn | services/geminiService.ts:89-101 | intended matcher: the first item naming the region itself wins; without one, the as-written match decides |
| Gemini.CorrectedKyotoGetsOwnAnswer | services/geminiService.ts:89-93 | from the same reply, the intended matcher gives Kyoto "八ツ橋" and Tokyo "雷おこし" |
| Gemini.NamesRegion | services/geminiService.ts:89-93 | intended matcher: the item names the region itself, with or without its suffix |
| Gemini.NamesRegionImpliesMatches | services/geminiService.ts:90-92 | an item naming its region in full also matches it under the as-written rule |
| Gemini.FindOwnItem | services/geminiService.ts:89-93 | the loop returns the first item naming the region itself |
| Gemini.MapAiResponseToIdsPreferringOwn | services/geminiService.ts:84-103 | one entry per region, in table order, with ContentPreferringOwn content |
| Gemini.MatchedEntriesPreferringOwn | services/geminiService.ts:84-103 | the intended mapAiResponseToIds as a value; MapAiResponseToIdsPreferringOwn is proved to compute it |
| PieceView.ShapeViewBox | components/Piece.tsx:37-53 | the viewBox is a square of side 1.2 × max(width, height), centred on the box's centre |
| PieceView.ShapeViewBoxContainsBBox | components/Piece.tsx:37-53 | that square covers the whole bounding box |
| PieceView.Render | components/Piece.tsx:37-95 | draggable exactly when not placed; the outline is shown exactly in SHAPE mode with a non-empty path and a box; otherwise the text |
| PieceView.DragStartCallbacks | components/Piece.tsx:15-20 | a drag start calls onDragStart and then onSelect, both with this piece |
| PieceView.ApplyCallbacks | App.tsx:425-430 | the page's wiring of a piece's callbacks: drag start and select make the piece active, drag end clears it; DragStartActivatesPiece |
| PieceView.DragStartActivatesPiece | components/Piece.tsx:15-20 | with the page's wiring, a drag start makes exactly this piece active, and the drag end then clears it (wired at App.tsx lines 425-430) |
| Round.NewPiece | App.tsx:94-101 | a fresh unplaced piece whose id is the region code |
| Round.BuildPieces | App.tsx:81-120 | one piece per region with the mode's content; BuiltPiecesAreFresh characterises it |
| Round.MarkPlaced | App.tsx:167-169 | the map that marks the piece with the active id placed; MarkPlacedPlacesExactlyActive characterises it |
| Round.PiecesFromEntries | App.tsx:124-135 | one piece per AI entry with the geometry of its region; EntryPiecesAreFresh characterises it |
| Round.StaticTableFor | App.tsx:79-91 | a static table is chosen exactly for the eight static modes |
| Round.LocalContent | App.tsx:79-120 | local content exists exactly for the non-AI modes |
| Round.Placed | App.tsx:235 | the placed filter holds exactly the placed pieces |
| Round.Unplaced | App.tsx:234 | the unplaced filter holds exactly the unplaced pieces |
| Round.FiltersPartition | App.tsx:234-235 | the two filters split the pieces, as a multiset |
| Round.AllPlacedIffNoneUnplaced | App.tsx:234-235 | every piece is placed exactly when the inventory is empty |
| Round.BuiltPiecesAreFresh | App.tsx:93-120 | one unplaced piece per region, id and code equal to the region's code, with its geometry and its mode's content; distinct codes give distinct ids |
| Round.NoneUnplacedMeansNonePlaced | App.tsx:235 | pieces that are all unplaced have an empty placed filter |
| Round.FindRegion | App.tsx:175 | `prefecturesData.find`: none exactly when no region has the code, otherwise the first that has it (also at line 126) |
| Round.EntryPiecesAreFresh | App.tsx:124-135 | one unplaced piece per AI entry, with the entry's code and content; distinct codes give distinct ids |
| Round.PlacedGrowsByOne | App.tsx:167-169 | placing an unplaced piece grows the placed filter by one |
| Round.MarkPlacedPlacesExactlyActive | App.tsx:167-169 | exactly the active piece changes, it becomes placed, the ids stay unique and the placed filter grows by one |
| Round.PermutationKeepsUniqueIds | App.tsx:142 | a permutation of pieces with unique ids has unique ids |
| Round.ShuffleOfFreshIsFresh | App.tsx:142 | a permutation of unplaced pieces is unplaced and has the same length |
| Puzzle.Initial | App.tsx:14-35 | the mount state: home screen, map loading, empty NAME round, no requests; InitialSatisfiesInvariant |
| Puzzle.MapShown | App.tsx:238-250 | the map is rendered: not on the home screen, map data not loading, and (lines 350-366) the round not loading; DropPiece requires it and CompleteRoundIgnoresDrops assumes it |
| Puzzle.HasPaths | App.tsx:44 | `data.some(p => !!p.path)`: some region has a non-empty path; MapLoadFinished |
| Puzzle.Invariant | App.tsx:165-193 | what the handlers keep: distinct region codes, unique ids, the count equals the placed filter, completion exactly at 47, off the home screen the active piece is an unplaced inventory piece (returning home empties the pieces and keeps the active piece), a waiting round has no pieces, open requests are numbered below the next one |
| Puzzle.MapLoadBegun | App.tsx:39-40 | loading starts and the error clears |
| Puzzle.ResetForRound | App.tsx:70-76 | the reset at the start of initializeGame |
| Puzzle.Requested | App.tsx:121-123 | a fresh request is awaited and recorded with the region data of the moment |
| Puzzle.LocalRoundReady | App.tsx:81-148 | a non-AI round shows a shuffle of BuildPieces and stops loading |
| Puzzle.Started | App.tsx:63-148 | initializeGame up to its await; StartRefusedWhileMapLoads, StartResetsRound and StartKeepsInvariant |
| Puzzle.Settled | App.tsx:124-154 | the try block after the await, from the region data the round captured, or its catch |
| Puzzle.AiRepliedAsWritten | App.tsx:121-154 | as written: every reply is installed into whatever round is on; StaleReplyBreaksCount |
| Puzzle.AiReplied | App.tsx:121-154 | corrected: only the awaited reply is installed, with the intended matcher; StaleReplyIgnored, ContentReplyFillsRound and ReplyKeepsInvariant |
| Puzzle.InitialSatisfiesInvariant | App.tsx:14-35 | the mount state (home screen, map loading, empty NAME round) satisfies the invariant |
| Puzzle.MapLoadFinished | App.tsx:38-56 | map data replaces the regions only when some region has a path, otherwise the error is set; loading ends in both cases |
| Puzzle.MapLoadKeepsInvariant | App.tsx:38-56 | loading map data keeps the invariant |
| Puzzle.StartRefusedWhileMapLoads | App.tsx:65-68 | while the map loads, starting a round only shows the loading message |
| Puzzle.StartResetsRound | App.tsx:70-148 | a start resets count, completion, active piece, hint, message and celebration; a non-AI round shows a permutation of one fresh piece per region; an AI round waits with no pieces for a newly issued request |
| Puzzle.StartKeepsInvariant | App.tsx:63-148 | starting a round keeps the invariant |
| Puzzle.StaleReplyIgnored | App.tsx:121-148 | corrected: a reply to any request but the awaited one changes nothing but the open requests |
| Puzzle.FailedReplyEndsLoading | App.tsx:149-154 | a failed AI request ends loading with no pieces and the error message, and schedules the return home |
| Puzzle.ContentReplyFillsRound | App.tsx:121-148 | an awaited reply fills the round with a permutation of one fresh piece per region, with unique ids and the geometry of the region data captured at the start |
| Puzzle.ReplyKeepsInvariant | App.tsx:121-154 | the corrected reply step keeps the invariant |
| Puzzle.ReplyIgnoresLaterMapLoad | App.tsx:124-155 | a map load that ends while a request is out leaves the round its reply builds unchanged, as written and corrected: the closure's region data is the one captured at the start |
| Puzzle.ReturnedHome | App.tsx:157-160 | handleReturnHome |
| Puzzle.DragEnded | App.tsx:210-213 | handleDragEnd |
| Puzzle.Selected | App.tsx:425-430 | setActivePiece from a piece's callbacks |
| Puzzle.HomeTimerFired | App.tsx:153 | the three-second timer after an error shows home |
| Puzzle.Accepted | App.tsx:165-192 | the success branch of handlePieceDrop; DropOnOwnRegionPlacesPiece |
| Puzzle.Dropped | App.tsx:162-208 | handlePieceDrop; the drop lemmas below |
| Puzzle.HandlersKeepInvariant | App.tsx:157-160 | return home, drag end, select and the home timer keep the invariant; return home zeroes the count (also the timer at line 153, drag end at lines 210-213 and selection at lines 425-430) |
| Puzzle.DropWithoutActivePieceChangesNothing | App.tsx:163 | a drop with no active piece changes nothing |
| Puzzle.DropOnOtherRegionOnlyWarns | App.tsx:202-206 | a drop on another region only shows the retry message and keeps the active piece |
| Puzzle.DropOnOwnRegionPlacesPiece | App.tsx:165-193 | a drop on the piece's own region places exactly that piece, counts one more, clears the active piece and hint, and completes with an end time exactly at 47 |
| Puzzle.DropKeepsInvariant | App.tsx:162-208 | a drop keeps the invariant |
| Puzzle.CompleteIffInventoryEmpty | App.tsx:172 | with 47 pieces, the round is complete exactly when the inventory is empty (the inventory is the filter at line 234) |
| Puzzle.CompleteRoundIgnoresDrops | App.tsx:162-208 | in a complete round no piece is active, so completion fires once and later drops do nothing |
| Puzzle.StaleReplyBreaksCount | App.tsx:121-148 | as written, on a one-region table with an empty reply: a CUSTOM reply arriving after a NAME round has placed a piece leaves a count of 1 with no placed piece, breaking the invariant; the corrected step ignores it |
| PuzzleApp.App.constructor | App.tsx:14-35 | the fields start as the mount state, which satisfies the invariant |
| PuzzleApp.App.BeginMapLoad | App.tsx:39-40 | performs the start of map loading and keeps the invariant |
| PuzzleApp.App.FinishMapLoad | App.tsx:41-55 | performs the end of map loading and keeps the invariant |
| PuzzleApp.App.ResetRound | App.tsx:70-75 | performs the reset at the start of a round |
| PuzzleApp.App.IssueRequest | App.tsx:121-123 | an AI round waits for a freshly numbered request, which joins the open requests with the region data of the moment |
| PuzzleApp.App.BuildLocalRound | App.tsx:81-148 | a static, name or shape round shows the shuffled pieces built from the loaded regions and stops loading |
| PuzzleApp.App.Settle | App.tsx:124-154 | installs the shuffled pieces built from the matched entries and the captured region data, or ends loading with the error message and a pending home timer |
| PuzzleApp.App.AcceptDrop | App.tsx:165-192 | marks the active piece placed, adds one to the count, completes the round at 47, and shows the celebration when the region is known |
| PuzzleApp.App.StartRound | App.tsx:63-148 | performs the Started step and keeps the invariant |
| PuzzleApp.App.ReceiveReply | App.tsx:121-154 | performs the corrected reply step, with the intended matcher and the region data captured at the start, and keeps the invariant |
| PuzzleApp.App.ReturnHome | App.tsx:157-160 | performs handleReturnHome and keeps the invariant |
| PuzzleApp.App.EndDrag | App.tsx:210-213 | clears the active piece and keeps the invariant |
| PuzzleApp.App.Select | App.tsx:425-430 | makes an inventory piece active and keeps the invariant |
| PuzzleApp.App.FireHomeTimer | App.tsx:153 | the error timer shows the home screen and keeps the invariant |
| PuzzleApp.App.DropPiece | App.tsx:162-208 | performs handlePieceDrop and keeps the invariant |

## Left out

- Viewport.LetterboxFit: a rectangle with zero width or height is not modelled; the source would divide by zero there. `ScreenRect` requires positive sides.
- ZoomControl.PinchScale: a pinch whose start and current distances are both zero makes the browser compute NaN. The model returns None there and leaves the zoom unchanged.
- The rendering itself is not modelled: JSX, CSS classes, the viewBox string formatting and the hint panel. Only the numbers and branches the rendering depends on are.
- The `setTimeout` calls that clear the message after 1.5 or 2 s and the celebration after 2 s are not modelled; the model keeps the message and the celebration until they are next overwritten. The 3 s return-home timer after an error is modelled, as a counter.
- `fetchAndProcessMapData` (utils/geoUtils.ts) and imageService are not part of this model; the loader's result is a parameter.
- The network call to the AI service is not modelled, and neither is JSON parsing of its reply. The reply arrives as an `AiReply` value, and a thrown error is `NoContent`.
- `getHint` and `handleGetHint` are not modelled: they are one network call whose text is displayed.
- `dataTransfer.setData` and `effectAllowed` are not modelled: the page ignores the transferred id and uses its own active piece.
- Confetti, the timer display and the HomeScreen component are not modelled.
- The random shuffle (`sort` with a random comparator) is a parameter, assumed only to return a permutation of its argument.
- The static content tables are total functions from code to text. The source indexes a record, which yields `undefined` for a code the table lacks.
- Puzzle.Started: the start time is the `now` parameter, not a real clock.
- The reply is installed in one step; React's batching of the `setGameState` updaters is not modelled. Between awaits every handler runs to completion, so one step per handler is faithful.
- Numbers are exact reals: JavaScript's double rounding is not modelled, and `Math.hypot` is an exact square root (the model compares squared distances with 150² and 20²). Of the non-finite values, only the +Infinity and NaN of PinchScale are modelled. The round trips (Viewport.MapPointFromScreenInvertsRendering, ZoomCenterForTarget, ZoomCenterDrawsTargetAtScreenPoint) and the fixed points of ZoomControl.DwellZoomKeepsCursorPoint and PinchKeepsPointUnderFingers are exact only in the model; in the browser they hold up to rounding. A pinch scale can be a rung exactly in one arithmetic and not in the other, and `ZOOM_LEVELS.indexOf` then sends the next zoom-out one rung down in one and straight to 1 in the other. A threshold test can likewise go the other way when the distance is within rounding of 150 or 20 px.
- Viewport.MapPointFromScreenInvertsRendering: the inverse is proved against the modelled drawing into the rectangle the handlers pass, which is the container's bounding rectangle. The container has padding (`p-2 md:p-6`, components/JapanMap.tsx:377) and the SVG fills only its content box, so the browser draws into a smaller rectangle than the one the code inverts; the model does not capture this offset. With a 1000×800 container at the origin and 24 px padding, the browser draws logical (0,0) at (124,24), but getMapPointFromScreen(124,24) gives (30,30).
- ZoomControl.DwellZoomKeepsCursorPoint: the fixed point is fixed in the modelled drawing, so it inherits the padding offset above.
- ZoomControl.PinchKeepsPointUnderFingers: a pinch can produce a negative pan. The style string `translate(-${zoom.x}px, ...)` (components/JapanMap.tsx:422) then reads `--63px`, which is invalid CSS, so the browser drops the transform. The model keeps drawing it as the algebra says. For example zoom (3, 167, 500) in a 1000×1000 rectangle, with fingers moving from x 0 and 20 to 880 and 920, gives scale 6 and pan x −63.
- ZoomControl.NeverTwoIntervals: the guarantee is per mounted map. JapanMap has no unmount cleanup (the effect at components/JapanMap.tsx:114-123 returns nothing), and App unmounts the map while a round loads (App.tsx:350-366), so an interval that is running then outlives its component. Unmounting is not modelled.
- The AI reply as written (`Puzzle.AiRepliedAsWritten`) has no class method: `PuzzleApp.App` is built on the corrected step, which keeps the invariant.

## Findings

| source | as written | input that shows it | evidently intended | confidence | as-written member | corrected member |
|---|---|---|---|---|---|---|
| App.tsx:121-148 | the reply of an AI request is installed into whatever round is on screen when it arrives, replacing the pieces but keeping the count | start a CUSTOM round, then start a NAME round from the header before the reply arrives; place a piece; then the CUSTOM reply arrives: count 1 with all 47 pieces unplaced, so the 46th correct drop reaches 47 and completes the round, stamping the end time, with one piece still in the inventory. StaleReplyBreaksCount shows the count out of step on a one-region table with an empty reply | a reply that does not answer the current round's request is discarded | not executed | Puzzle.AiRepliedAsWritten, Puzzle.StaleReplyBreaksCount | Puzzle.AiReplied, Puzzle.StaleReplyIgnored, Puzzle.ReplyKeepsInvariant |
| services/geminiService.ts:89-93 | the match is "equal, or either name contains the other", and the first matching item wins | reply items ("東京都", "雷おこし") then ("京都府", "八ツ橋"): "東京都" contains "京都", so Kyoto gets Tokyo's "雷おこし" | an item that names the region itself, with or without its suffix, takes precedence over a containment match | not executed | Gemini.ContentFor, Gemini.KyotoTakesTokyoAnswer | Gemini.ContentPreferringOwn, Gemini.CorrectedKyotoGetsOwnAnswer |
