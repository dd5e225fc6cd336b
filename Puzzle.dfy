/**
 * The page's round state (App.tsx) as a value, with one function per
 * handler. Each handler runs as one atomic step; the clock, the shuffle and
 * the AI reply are parameters.
 *
 * An AI round is asynchronous: starting it issues a request, and a later
 * step delivers the reply. The page as written installs every reply it
 * receives. The corrected step below remembers which request the current
 * round waits for and ignores any other reply.
 */
module Puzzle {
  import opened Types
  import opened Gemini
  import opened Round

  const MapLoadingMessage: string := "地図データを準備中です..."
  const WrongDropMessage: string := "ちがうかも？ もういっかい！"
  const ErrorMessage: string := "えらーがおきました。もういちどためしてね。"

  /** The popup shown after a correct placement. */
  datatype Celebration = Celebration(name: string, sub: string)

  /** How an AI request ended, as the page sees it. */
  datatype AiReply =
    | NoContent                 // the service threw (missing key, network, bad JSON) or resolved to null
    | Items(items: seq<AiItem>) // the reply's items, which the service matches to the region table

  /**
   * The page state. `outstanding` maps each AI request whose reply has not
   * arrived to the region data its initializeGame closure captured when the
   * round started, `awaiting` is the one the current round waits for, and
   * `homeTimers` the pending three-second timers that return to the home
   * screen after an error.
   */
  datatype AppView = AppView(
    showHome: bool,
    prefecturesData: seq<Prefecture>,
    isMapDataLoading: bool,
    mapLoadError: bool,
    game: GameState,
    activePiece: Option<PuzzlePiece>,
    message: Option<string>,
    hint: Option<string>,
    lastCorrect: Option<Celebration>,
    outstanding: map<nat, seq<Prefecture>>,
    awaiting: Option<nat>,
    nextRequest: nat,
    homeTimers: nat)

  /** The state on mount: home screen, map loading, an empty NAME round. */
  function Initial(regions: seq<Prefecture>): AppView
  {
    AppView(true, regions, true, false,
            GameState(NAME, [], 0, false, false, None, None, Some("")),
            None, None, None, None, map[], None, 0, 0)
  }

  /**
   * What every reachable state satisfies: ids are unique, the counter agrees
   * with the placed filter, completion means 47 placements, the active piece
   * is one of the inventory's pieces whenever the round is on screen, and a
   * round waiting for its AI reply has no pieces yet.
   */
  predicate Invariant(v: AppView, regions: seq<Prefecture>)
  {
    && DistinctCodes(regions) && DistinctCodes(v.prefecturesData)
    && UniqueIds(v.game.pieces)
    && v.game.placedCount == |Placed(v.game.pieces)|
    && v.game.isComplete == (v.game.placedCount == TotalRegions)
    && (!v.showHome && v.activePiece.Some? ==> v.activePiece.value in v.game.pieces && !v.activePiece.value.isPlaced)
    && (v.awaiting.Some? ==>
          v.awaiting.value in v.outstanding && v.game.pieces == [] && v.activePiece.None? && v.game.isLoading)
    && (forall t :: t in v.outstanding ==> t < v.nextRequest)
  }

  /** The round is on screen: the only time the map can report a drop. */
  predicate MapShown(v: AppView)
  {
    !v.showHome && !v.isMapDataLoading && !v.game.isLoading
  }

  lemma InitialSatisfiesInvariant(regions: seq<Prefecture>)
    requires DistinctCodes(regions)
    ensures Invariant(Initial(regions), regions)
    ensures Initial(regions).showHome && Initial(regions).isMapDataLoading
  {
  }

  // ------------------------------------------------------------ map data

  /** loadMapData starts (on mount and on retry). */
  function MapLoadBegun(v: AppView): AppView
  {
    v.(isMapDataLoading := true, mapLoadError := false)
  }

  /** `data.some(p => !!p.path)` */
  predicate HasPaths(data: seq<Prefecture>)
  {
    exists i :: 0 <= i < |data| && data[i].path.Some? && data[i].path.value != ""
  }

  /** loadMapData ends: None when the loader threw. */
  function MapLoadFinished(v: AppView, result: Option<seq<Prefecture>>): (r: AppView)
    ensures !r.isMapDataLoading
    ensures r.prefecturesData == (if result.Some? && HasPaths(result.value) then result.value else v.prefecturesData)
    ensures r.mapLoadError == (if result.Some? && HasPaths(result.value) then v.mapLoadError else true)
    ensures r.game == v.game && r.activePiece == v.activePiece && r.showHome == v.showHome
  {
    var loaded := if result.Some? && HasPaths(result.value) then v.(prefecturesData := result.value)
                  else v.(mapLoadError := true);
    loaded.(isMapDataLoading := false)
  }

  lemma MapLoadKeepsInvariant(v: AppView, result: Option<seq<Prefecture>>, regions: seq<Prefecture>)
    requires Invariant(v, regions)
    requires result.Some? ==> DistinctCodes(result.value)
    ensures Invariant(MapLoadBegun(v), regions) && Invariant(MapLoadFinished(v, result), regions)
  {
  }

  // ------------------------------------------------------------ starting a round

  /** The reset of the round at the start of initializeGame. */
  function ResetForRound(v: AppView, mode: GameMode, topic: Option<string>, now: int): AppView
  {
    v.(showHome := false,
       game := GameState(mode, [], 0, true, false, Some(now), None, topic),
       message := None, hint := None, activePiece := None, lastCorrect := None)
  }

  /** An AI round issues a fresh request, which keeps the region data of the moment, and waits for it. */
  function Requested(v: AppView): AppView
  {
    v.(awaiting := Some(v.nextRequest), outstanding := v.outstanding[v.nextRequest := v.prefecturesData],
       nextRequest := v.nextRequest + 1)
  }

  /** A static, name or shape round gets a shuffle of one piece per region at once. */
  function LocalRoundReady(v: AppView, mode: GameMode, t: StaticTables, shuffle: seq<PuzzlePiece> -> seq<PuzzlePiece>): AppView
    requires !IsAiMode(mode)
  {
    v.(awaiting := None, game := v.game.(pieces := shuffle(BuildPieces(v.prefecturesData, mode, t)), isLoading := false))
  }

  /** initializeGame up to its await: static rounds finish here, AI rounds issue a request. */
  function Started(v: AppView, mode: GameMode, topic: Option<string>, now: int, t: StaticTables,
                   shuffle: seq<PuzzlePiece> -> seq<PuzzlePiece>): AppView
  {
    if v.isMapDataLoading then v.(message := Some(MapLoadingMessage))
    else if IsAiMode(mode) then Requested(ResetForRound(v, mode, topic, now))
    else LocalRoundReady(ResetForRound(v, mode, topic, now), mode, t, shuffle)
  }

  /** While the map data loads, starting a round only shows a message. */
  lemma StartRefusedWhileMapLoads(v: AppView, mode: GameMode, topic: Option<string>, now: int, t: StaticTables,
                                  shuffle: seq<PuzzlePiece> -> seq<PuzzlePiece>)
    requires v.isMapDataLoading
    ensures Started(v, mode, topic, now, t, shuffle) == v.(message := Some(MapLoadingMessage))
  {
  }

  /**
   * Starting a round clears the count, the completion, the active piece and
   * the hint. A static, name or shape round is then on screen with a shuffle
   * of one fresh piece per region; an AI round waits, with no pieces, for
   * the reply to a new request.
   */
  lemma StartResetsRound(v: AppView, mode: GameMode, topic: Option<string>, now: int, t: StaticTables,
                         shuffle: seq<PuzzlePiece> -> seq<PuzzlePiece>)
    requires !v.isMapDataLoading && IsShuffle(shuffle)
    ensures var r := Started(v, mode, topic, now, t, shuffle);
            && r.game.placedCount == 0 && !r.game.isComplete && r.game.mode == mode
            && r.game.startTime == Some(now) && r.game.endTime.None? && r.game.customTopic == topic
            && r.activePiece.None? && r.hint.None? && r.message.None? && r.lastCorrect.None? && !r.showHome
            && (IsAiMode(mode) ==>
                  && r.game.pieces == [] && r.game.isLoading && r.awaiting == Some(v.nextRequest)
                  && r.outstanding == v.outstanding[v.nextRequest := v.prefecturesData]
                  && r.nextRequest == v.nextRequest + 1)
            && (!IsAiMode(mode) ==>
                  && !r.game.isLoading && r.awaiting.None?
                  && multiset(r.game.pieces) == multiset(BuildPieces(v.prefecturesData, mode, t))
                  && |r.game.pieces| == |v.prefecturesData| && Placed(r.game.pieces) == [])
  {
    if !IsAiMode(mode) {
      var built := BuildPieces(v.prefecturesData, mode, t);
      BuiltPiecesAreFresh(v.prefecturesData, mode, t);
      assert multiset(shuffle(built)) == multiset(built);
      ShuffleOfFreshIsFresh(built, shuffle(built));
    }
  }

  lemma StartKeepsInvariant(v: AppView, mode: GameMode, topic: Option<string>, now: int, t: StaticTables,
                            shuffle: seq<PuzzlePiece> -> seq<PuzzlePiece>, regions: seq<Prefecture>)
    requires Invariant(v, regions) && IsShuffle(shuffle)
    ensures Invariant(Started(v, mode, topic, now, t, shuffle), regions)
  {
    if !v.isMapDataLoading && !IsAiMode(mode) {
      var built := BuildPieces(v.prefecturesData, mode, t);
      BuiltPiecesAreFresh(v.prefecturesData, mode, t);
      assert multiset(shuffle(built)) == multiset(built);
      ShuffleOfFreshIsFresh(built, shuffle(built));
      PermutationKeepsUniqueIds(built, shuffle(built));
    }
  }

  // ------------------------------------------------------------ the AI reply

  /**
   * The try block after the await, or its catch when there is no content.
   * The pieces take their geometry from `data`, the region data the closure
   * captured when the round started.
   */
  function Settled(v: AppView, data: seq<Prefecture>, entries: Option<seq<AiEntry>>,
                   shuffle: seq<PuzzlePiece> -> seq<PuzzlePiece>): AppView
  {
    match entries
    case Some(es) => v.(game := v.game.(pieces := shuffle(PiecesFromEntries(data, es)), isLoading := false))
    case None => v.(game := v.game.(isLoading := false), message := Some(ErrorMessage), homeTimers := v.homeTimers + 1)
  }

  /** The reply of request `token` reaches the page as written: it is installed whatever round is on. */
  function AiRepliedAsWritten(v: AppView, token: nat, reply: AiReply, regions: seq<Prefecture>,
                              shuffle: seq<PuzzlePiece> -> seq<PuzzlePiece>): AppView
    requires token in v.outstanding
  {
    var v1 := v.(outstanding := v.outstanding - {token},
                 awaiting := if v.awaiting == Some(token) then None else v.awaiting);
    Settled(v1, v.outstanding[token], if reply.Items? then Some(MatchedEntries(regions, reply.items)) else None, shuffle)
  }

  /**
   * The reply of request `token`, corrected: installed only when it answers
   * the request the current round waits for, and matched with the intended
   * matcher.
   */
  function AiReplied(v: AppView, token: nat, reply: AiReply, regions: seq<Prefecture>,
                     shuffle: seq<PuzzlePiece> -> seq<PuzzlePiece>): AppView
    requires token in v.outstanding
  {
    var v1 := v.(outstanding := v.outstanding - {token});
    if v.awaiting != Some(token) then v1
    else Settled(v1.(awaiting := None), v.outstanding[token],
                 if reply.Items? then Some(MatchedEntriesPreferringOwn(regions, reply.items)) else None, shuffle)
  }

  /** A reply to any request but the awaited one changes nothing but the bookkeeping. */
  lemma StaleReplyIgnored(v: AppView, token: nat, reply: AiReply, regions: seq<Prefecture>,
                          shuffle: seq<PuzzlePiece> -> seq<PuzzlePiece>)
    requires token in v.outstanding && v.awaiting != Some(token)
    ensures AiReplied(v, token, reply, regions, shuffle) == v.(outstanding := v.outstanding - {token})
  {
  }

  /** A failed AI request ends the loading with no pieces and an error, and schedules the return home. */
  lemma FailedReplyEndsLoading(v: AppView, token: nat, regions: seq<Prefecture>,
                               shuffle: seq<PuzzlePiece> -> seq<PuzzlePiece>)
    requires Invariant(v, regions) && v.awaiting == Some(token)
    ensures var r := AiReplied(v, token, NoContent, regions, shuffle);
            r.game.pieces == [] && !r.game.isLoading && r.message == Some(ErrorMessage) &&
            r.homeTimers == v.homeTimers + 1 && r.game.placedCount == 0
  {
  }

  /** An awaited reply with items puts one fresh piece per region of the table on screen. */
  lemma ContentReplyFillsRound(v: AppView, token: nat, items: seq<AiItem>, regions: seq<Prefecture>,
                               shuffle: seq<PuzzlePiece> -> seq<PuzzlePiece>)
    requires Invariant(v, regions) && v.awaiting == Some(token) && IsShuffle(shuffle)
    ensures var r := AiReplied(v, token, Items(items), regions, shuffle);
            && !r.game.isLoading && r.awaiting.None? && |r.game.pieces| == |regions|
            && Placed(r.game.pieces) == [] && UniqueIds(r.game.pieces)
            && multiset(r.game.pieces) == multiset(PiecesFromEntries(v.outstanding[token], MatchedEntriesPreferringOwn(regions, items)))
  {
    var es := MatchedEntriesPreferringOwn(regions, items);
    var ps := PiecesFromEntries(v.outstanding[token], es);
    EntryPiecesAreFresh(v.outstanding[token], es);
    assert DistinctEntryCodes(es);
    assert multiset(shuffle(ps)) == multiset(ps);
    ShuffleOfFreshIsFresh(ps, shuffle(ps));
    PermutationKeepsUniqueIds(ps, shuffle(ps));
  }

  lemma ReplyKeepsInvariant(v: AppView, token: nat, reply: AiReply, regions: seq<Prefecture>,
                            shuffle: seq<PuzzlePiece> -> seq<PuzzlePiece>)
    requires Invariant(v, regions) && IsShuffle(shuffle) && token in v.outstanding
    ensures Invariant(AiReplied(v, token, reply, regions, shuffle), regions)
  {
    if v.awaiting == Some(token) && reply.Items? {
      ContentReplyFillsRound(v, token, reply.items, regions, shuffle);
    }
  }

  /**
   * A map load that ends while a request is out changes nothing about the
   * round its reply builds, as written or corrected: the pieces take the
   * region data of the moment the round started.
   */
  lemma ReplyIgnoresLaterMapLoad(v: AppView, result: Option<seq<Prefecture>>, token: nat, reply: AiReply,
                                 regions: seq<Prefecture>, shuffle: seq<PuzzlePiece> -> seq<PuzzlePiece>)
    requires token in v.outstanding
    ensures var w := MapLoadFinished(v, result);
            && token in w.outstanding
            && AiRepliedAsWritten(w, token, reply, regions, shuffle).game == AiRepliedAsWritten(v, token, reply, regions, shuffle).game
            && AiReplied(w, token, reply, regions, shuffle).game == AiReplied(v, token, reply, regions, shuffle).game
  {
  }

  // ------------------------------------------------------------ the handlers of a round

  /** handleReturnHome */
  function ReturnedHome(v: AppView): AppView
  {
    v.(showHome := true, game := v.game.(isComplete := false, placedCount := 0, pieces := []))
  }

  /** handleDragEnd */
  function DragEnded(v: AppView): AppView
  {
    v.(activePiece := None)
  }

  /** onSelect / onDragStart, both wired to setActivePiece. */
  function Selected(v: AppView, piece: PuzzlePiece): AppView
  {
    v.(activePiece := Some(piece))
  }

  /** The timer set after an error fires. */
  function HomeTimerFired(v: AppView): AppView
    requires v.homeTimers > 0
  {
    v.(showHome := true, homeTimers := v.homeTimers - 1)
  }

  /** A drop of active piece `a` on its own region. */
  function Accepted(v: AppView, a: PuzzlePiece, now: int): AppView
  {
    var n := v.game.placedCount + 1;
    var complete := n == TotalRegions;
    var pref := FindRegion(v.prefecturesData, a.prefectureCode);
    v.(game := v.game.(pieces := MarkPlaced(v.game.pieces, a.id), placedCount := n, isComplete := complete,
                       endTime := if complete then Some(now) else None),
       lastCorrect := if pref.Some? then Some(Celebration(pref.value.name, a.content)) else v.lastCorrect,
       activePiece := None, hint := None)
  }

  /** handlePieceDrop */
  function Dropped(v: AppView, code: int, now: int): AppView
  {
    if v.activePiece.None? then v
    else if v.activePiece.value.prefectureCode == code then Accepted(v, v.activePiece.value, now)
    else v.(message := Some(WrongDropMessage))
  }

  lemma HandlersKeepInvariant(v: AppView, piece: PuzzlePiece, regions: seq<Prefecture>)
    requires Invariant(v, regions)
    ensures Invariant(ReturnedHome(v), regions) && Invariant(DragEnded(v), regions)
    ensures v.homeTimers > 0 ==> Invariant(HomeTimerFired(v), regions)
    ensures piece in v.game.pieces && !piece.isPlaced ==> Invariant(Selected(v, piece), regions)
    ensures ReturnedHome(v).game.placedCount == 0 && !ReturnedHome(v).game.isComplete && DragEnded(v).activePiece.None?
  {
    NoneUnplacedMeansNonePlaced([]);
  }

  /** With no active piece a drop does nothing. */
  lemma DropWithoutActivePieceChangesNothing(v: AppView, code: int, now: int)
    requires v.activePiece.None?
    ensures Dropped(v, code, now) == v
  {
  }

  /** A drop on another region keeps the pieces, the count and the active piece, and only shows a message. */
  lemma DropOnOtherRegionOnlyWarns(v: AppView, code: int, now: int)
    requires v.activePiece.Some? && v.activePiece.value.prefectureCode != code
    ensures Dropped(v, code, now) == v.(message := Some(WrongDropMessage))
  {
  }

  /**
   * A drop on the active piece's own region places exactly that piece,
   * counts one more placement, clears the active piece and the hint, and
   * completes the round (stamping the end time) exactly when the count
   * reaches 47.
   */
  lemma DropOnOwnRegionPlacesPiece(v: AppView, code: int, now: int, regions: seq<Prefecture>)
    requires Invariant(v, regions) && MapShown(v)
    requires v.activePiece.Some? && v.activePiece.value.prefectureCode == code
    ensures var a := v.activePiece.value;
            var r := Dropped(v, code, now);
            && |r.game.pieces| == |v.game.pieces|
            && (forall i :: 0 <= i < |v.game.pieces| ==>
                  (r.game.pieces[i] != v.game.pieces[i] <==> v.game.pieces[i] == a))
            && (forall i :: 0 <= i < |v.game.pieces| && v.game.pieces[i] == a ==>
                  r.game.pieces[i] == a.(isPlaced := true))
            && r.game.placedCount == v.game.placedCount + 1
            && |Placed(r.game.pieces)| == |Placed(v.game.pieces)| + 1
            && r.activePiece.None? && r.hint.None?
            && (r.game.isComplete <==> r.game.placedCount == TotalRegions)
            && (r.game.endTime.Some? <==> r.game.isComplete)
            && (r.game.isComplete ==> r.game.endTime == Some(now))
  {
    MarkPlacedPlacesExactlyActive(v.game.pieces, v.activePiece.value);
  }

  lemma DropKeepsInvariant(v: AppView, code: int, now: int, regions: seq<Prefecture>)
    requires Invariant(v, regions) && MapShown(v)
    ensures Invariant(Dropped(v, code, now), regions)
  {
    if v.activePiece.Some? && v.activePiece.value.prefectureCode == code {
      MarkPlacedPlacesExactlyActive(v.game.pieces, v.activePiece.value);
    }
  }

  /** With one piece per region, a round is complete exactly when the inventory is empty. */
  lemma CompleteIffInventoryEmpty(v: AppView, regions: seq<Prefecture>)
    requires Invariant(v, regions) && |v.game.pieces| == TotalRegions
    ensures v.game.isComplete <==> Unplaced(v.game.pieces) == []
  {
    AllPlacedIffNoneUnplaced(v.game.pieces);
  }

  /**
   * Completion fires once: in a complete round of 47 pieces on screen no
   * piece is active, so every further drop changes nothing.
   */
  lemma CompleteRoundIgnoresDrops(v: AppView, code: int, now: int, regions: seq<Prefecture>)
    requires Invariant(v, regions) && MapShown(v) && |v.game.pieces| == TotalRegions && v.game.isComplete
    ensures v.activePiece.None? && Dropped(v, code, now) == v
  {
    CompleteIffInventoryEmpty(v, regions);
  }

  // ------------------------------------------------------------ the stale reply

  /*
   * A CUSTOM round is started and, while it waits for its reply, a NAME
   * round is started from the header and one piece is placed. When the
   * CUSTOM reply then arrives, the page as written replaces the pieces but
   * keeps the count, so the 46th later placement completes the round with
   * one piece still in the inventory. The map here has one region and the
   * reply is empty, which is enough to show the count out of step.
   */
  const OneRegion: seq<Prefecture> := [Prefecture(1, "北海道", "Hokkaido", Some("M0"), None, None)]
  const BlankTables: StaticTables :=
    StaticTables(c => "", c => "", c => "", c => "", c => "", c => "", c => "", c => "")
  const KeepOrder: seq<PuzzlePiece> -> seq<PuzzlePiece> := s => s
  const HokkaidoPiece: PuzzlePiece := PuzzlePiece(1, 1, "北海道", false, Some("M0"), None)

  const Loaded: AppView := MapLoadFinished(Initial(OneRegion), Some(OneRegion))
  const CustomWaiting: AppView := Started(Loaded, CUSTOM, Some("x"), 0, BlankTables, KeepOrder)
  const NameRound: AppView := Started(CustomWaiting, NAME, None, 1, BlankTables, KeepOrder)
  const OnePlaced: AppView := Dropped(Selected(NameRound, HokkaidoPiece), 1, 2)

  lemma CustomWaitingState()
    ensures Invariant(CustomWaiting, OneRegion)
    ensures CustomWaiting.outstanding == map[0 := OneRegion] && CustomWaiting.nextRequest == 1
    ensures CustomWaiting.prefecturesData == OneRegion && !CustomWaiting.isMapDataLoading
  {
    assert IsShuffle(KeepOrder);
    InitialSatisfiesInvariant(OneRegion);
    assert OneRegion[0].path.value != "";
    assert HasPaths(OneRegion);
    MapLoadKeepsInvariant(Initial(OneRegion), Some(OneRegion), OneRegion);
    StartKeepsInvariant(Loaded, CUSTOM, Some("x"), 0, BlankTables, KeepOrder, OneRegion);
  }

  lemma NameRoundState()
    ensures Invariant(NameRound, OneRegion) && MapShown(NameRound)
    ensures NameRound.game.pieces == [HokkaidoPiece] && NameRound.game.placedCount == 0
    ensures NameRound.outstanding == map[0 := OneRegion] && NameRound.awaiting.None?
    ensures NameRound.prefecturesData == OneRegion
  {
    CustomWaitingState();
    assert IsShuffle(KeepOrder);
    StartKeepsInvariant(CustomWaiting, NAME, None, 1, BlankTables, KeepOrder, OneRegion);
    BuiltPiecesAreFresh(OneRegion, NAME, BlankTables);
    assert BuildPieces(OneRegion, NAME, BlankTables) == [HokkaidoPiece];
  }

  lemma OnePlacedState()
    ensures Invariant(OnePlaced, OneRegion)
    ensures OnePlaced.game.placedCount == 1 && OnePlaced.outstanding == map[0 := OneRegion] && OnePlaced.awaiting.None?
    ensures OnePlaced.prefecturesData == OneRegion
  {
    NameRoundState();
    var v := Selected(NameRound, HokkaidoPiece);
    HandlersKeepInvariant(NameRound, HokkaidoPiece, OneRegion);
    DropOnOwnRegionPlacesPiece(v, 1, 2, OneRegion);
    DropKeepsInvariant(v, 1, 2, OneRegion);
  }

  /** An empty reply, matched as written against the one-region map, gives that region its fallback piece. */
  lemma EmptyReplyOnOneRegion(v: AppView)
    requires v.outstanding == map[0 := OneRegion]
    ensures var after := AiRepliedAsWritten(v, 0, Items([]), OneRegion, KeepOrder);
            && after.game.pieces == [NewPiece(1, Fallback, Some("M0"), None)]
            && after.game.placedCount == v.game.placedCount
  {
    assert MatchedEntries(OneRegion, []) == [AiEntry(1, Fallback)];
    assert PiecesFromEntries(OneRegion, [AiEntry(1, Fallback)]) == [NewPiece(1, Fallback, Some("M0"), None)];
  }

  lemma StaleAppliedState()
    ensures 0 in OnePlaced.outstanding
    ensures var after := AiRepliedAsWritten(OnePlaced, 0, Items([]), OneRegion, KeepOrder);
            after.game.pieces == [NewPiece(1, Fallback, Some("M0"), None)] && after.game.placedCount == 1
  {
    OnePlacedState();
    EmptyReplyOnOneRegion(OnePlaced);
  }

  /**
   * When the CUSTOM reply arrives after one piece of the NAME round is
   * placed, the page as written counts one placement with no piece placed:
   * the invariant held before the reply and fails after it. The corrected
   * step ignores the reply.
   */
  lemma StaleReplyBreaksCount()
    ensures Invariant(OnePlaced, OneRegion) && OnePlaced.game.placedCount == 1
    ensures 0 in OnePlaced.outstanding
    ensures var after := AiRepliedAsWritten(OnePlaced, 0, Items([]), OneRegion, KeepOrder);
            && after.game.placedCount == 1 && Placed(after.game.pieces) == []
            && !Invariant(after, OneRegion)
    ensures AiReplied(OnePlaced, 0, Items([]), OneRegion, KeepOrder) == OnePlaced.(outstanding := map[])
  {
    OnePlacedState();
    StaleAppliedState();
    NoneUnplacedMeansNonePlaced(AiRepliedAsWritten(OnePlaced, 0, Items([]), OneRegion, KeepOrder).game.pieces);
  }
}
