/**
 * The page component (App.tsx) as an object: one field per piece of React
 * state, one method per handler. Each handler method is proved to perform
 * the step the corresponding Puzzle function describes and to keep
 * Puzzle.Invariant. The helpers the handlers call (ResetRound, IssueRequest,
 * BuildLocalRound, Settle, AcceptDrop) state only the part of the step they
 * perform, ResetRound field by field; the calling handler proves the invariant.
 * The region table the AI replies are matched against and the static
 * content tables are fixed at construction.
 */
module PuzzleApp {
  import opened Types
  import opened Gemini
  import opened Round
  import opened Puzzle

  class App {
    const regions: seq<Prefecture>
    const tables: StaticTables

    var showHome: bool
    var prefecturesData: seq<Prefecture>
    var isMapDataLoading: bool
    var mapLoadError: bool
    var game: GameState
    var activePiece: Option<PuzzlePiece>
    var message: Option<string>
    var hint: Option<string>
    var lastCorrect: Option<Celebration>
    var outstanding: map<nat, seq<Prefecture>>
    var awaiting: Option<nat>
    var nextRequest: nat
    var homeTimers: nat

    /** The page state as a value. */
    function View(): AppView
      reads this
    {
      AppView(showHome, prefecturesData, isMapDataLoading, mapLoadError, game, activePiece,
              message, hint, lastCorrect, outstanding, awaiting, nextRequest, homeTimers)
    }

    ghost predicate Valid()
      reads this
    {
      Invariant(View(), regions)
    }

    /** Mount: the home screen, with the map data still loading. */
    constructor (regions: seq<Prefecture>, tables: StaticTables)
      requires DistinctCodes(regions)
      ensures this.regions == regions && this.tables == tables
      ensures View() == Initial(regions) && Valid()
    {
      this.regions := regions;
      this.tables := tables;
      showHome := true;
      prefecturesData := regions;
      isMapDataLoading := true;
      mapLoadError := false;
      game := GameState(NAME, [], 0, false, false, None, None, Some(""));
      activePiece := None;
      message := None;
      hint := None;
      lastCorrect := None;
      outstanding := map[];
      awaiting := None;
      nextRequest := 0;
      homeTimers := 0;
      new;
      InitialSatisfiesInvariant(regions);
    }

    /** loadMapData, before its await. */
    method BeginMapLoad()
      requires Valid()
      modifies this
      ensures View() == MapLoadBegun(old(View())) && Valid()
    {
      isMapDataLoading := true;
      mapLoadError := false;
      MapLoadKeepsInvariant(old(View()), None, regions);
    }

    /** loadMapData, after its await: `result` is None when the loader threw. */
    method FinishMapLoad(result: Option<seq<Prefecture>>)
      requires Valid()
      requires result.Some? ==> DistinctCodes(result.value)
      modifies this
      ensures View() == MapLoadFinished(old(View()), result) && Valid()
    {
      if result.Some? && HasPaths(result.value) {
        prefecturesData := result.value;
      } else {
        mapLoadError := true;
      }
      isMapDataLoading := false;
      MapLoadKeepsInvariant(old(View()), result, regions);
    }

    /** The reset at the start of initializeGame. */
    method ResetRound(mode: GameMode, topic: Option<string>, now: int)
      modifies this
      ensures showHome == false && game == GameState(mode, [], 0, true, false, Some(now), None, topic)
      ensures message.None? && hint.None? && activePiece.None? && lastCorrect.None?
      ensures prefecturesData == old(prefecturesData) && isMapDataLoading == old(isMapDataLoading) && mapLoadError == old(mapLoadError)
      ensures outstanding == old(outstanding) && awaiting == old(awaiting) && nextRequest == old(nextRequest) && homeTimers == old(homeTimers)
    {
      showHome := false;
      game := GameState(mode, [], 0, true, false, Some(now), None, topic);
      message := None;
      hint := None;
      activePiece := None;
      lastCorrect := None;
    }

    /** An AI round: issue a request and wait for it. */
    method IssueRequest()
      modifies this
      ensures View() == Requested(old(View()))
    {
      awaiting := Some(nextRequest);
      outstanding := outstanding[nextRequest := prefecturesData];
      nextRequest := nextRequest + 1;
    }

    /** A static, name or shape round: build, shuffle and show the pieces. */
    method BuildLocalRound(mode: GameMode, shuffle: seq<PuzzlePiece> -> seq<PuzzlePiece>)
      requires !IsAiMode(mode)
      modifies this
      ensures View() == LocalRoundReady(old(View()), mode, tables, shuffle)
    {
      awaiting := None;
      var pieces := BuildPieces(prefecturesData, mode, tables);
      game := game.(pieces := shuffle(pieces), isLoading := false);
    }

    /** initializeGame up to its await; `shuffle` stands for the random sort `newPieces.sort(() => Math.random() - 0.5)`. */
    method StartRound(mode: GameMode, topic: Option<string>, now: int, shuffle: seq<PuzzlePiece> -> seq<PuzzlePiece>)
      requires Valid() && IsShuffle(shuffle)
      modifies this
      ensures View() == Started(old(View()), mode, topic, now, tables, shuffle) && Valid()
    {
      ghost var v0 := View();
      if isMapDataLoading {
        message := Some(MapLoadingMessage);
      } else {
        ResetRound(mode, topic, now);
        if IsAiMode(mode) {
          IssueRequest();
        } else {
          BuildLocalRound(mode, shuffle);
        }
      }
      StartKeepsInvariant(v0, mode, topic, now, tables, shuffle, regions);
    }

    /**
     * The end of initializeGame: install the pieces (`entries` present) or
     * take the catch branch; `data` is the region data the round captured.
     */
    method Settle(data: seq<Prefecture>, entries: Option<seq<AiEntry>>, shuffle: seq<PuzzlePiece> -> seq<PuzzlePiece>)
      modifies this
      ensures View() == Settled(old(View()), data, entries, shuffle)
    {
      if entries.Some? {
        game := game.(pieces := shuffle(PiecesFromEntries(data, entries.value)), isLoading := false);
      } else {
        game := game.(isLoading := false);
        message := Some(ErrorMessage);
        homeTimers := homeTimers + 1;
      }
    }

    /** initializeGame after its await, for request `token`, with the stale-reply guard and the intended matcher. */
    method ReceiveReply(token: nat, reply: AiReply, shuffle: seq<PuzzlePiece> -> seq<PuzzlePiece>)
      requires Valid() && IsShuffle(shuffle) && token in outstanding
      modifies this
      ensures View() == AiReplied(old(View()), token, reply, regions, shuffle) && Valid()
    {
      ghost var v0 := View();
      var data := outstanding[token];
      outstanding := outstanding - {token};
      if awaiting == Some(token) {
        awaiting := None;
        if reply.Items? {
          var mapped := MapAiResponseToIdsPreferringOwn(regions, reply.items);
          assert mapped == MatchedEntriesPreferringOwn(regions, reply.items);
          Settle(data, Some(mapped), shuffle);
        } else {
          Settle(data, None, shuffle);
        }
      }
      ReplyKeepsInvariant(v0, token, reply, regions, shuffle);
    }

    /** handleReturnHome */
    method ReturnHome()
      requires Valid()
      modifies this
      ensures View() == ReturnedHome(old(View())) && Valid()
    {
      HandlersKeepInvariant(View(), PuzzlePiece(0, 0, "", false, None, None), regions);
      showHome := true;
      game := game.(isComplete := false, placedCount := 0, pieces := []);
    }

    /** handleDragEnd */
    method EndDrag()
      requires Valid()
      modifies this
      ensures View() == DragEnded(old(View())) && Valid()
    {
      HandlersKeepInvariant(View(), PuzzlePiece(0, 0, "", false, None, None), regions);
      activePiece := None;
    }

    /** setActivePiece, from a piece's onSelect or onDragStart. */
    method Select(piece: PuzzlePiece)
      requires Valid() && piece in game.pieces && !piece.isPlaced
      modifies this
      ensures View() == Selected(old(View()), piece) && Valid()
    {
      HandlersKeepInvariant(View(), piece, regions);
      activePiece := Some(piece);
    }

    /** The three-second timer after an error. */
    method FireHomeTimer()
      requires Valid() && homeTimers > 0
      modifies this
      ensures View() == HomeTimerFired(old(View())) && Valid()
    {
      HandlersKeepInvariant(View(), PuzzlePiece(0, 0, "", false, None, None), regions);
      showHome := true;
      homeTimers := homeTimers - 1;
    }

    /** The success branch of handlePieceDrop, for the active piece `a`. */
    method AcceptDrop(a: PuzzlePiece, now: int)
      modifies this
      ensures View() == Accepted(old(View()), a, now)
    {
      var n := game.placedCount + 1;
      var complete := n == TotalRegions;
      var pref := FindRegion(prefecturesData, a.prefectureCode);
      game := game.(pieces := MarkPlaced(game.pieces, a.id), placedCount := n, isComplete := complete,
                    endTime := if complete then Some(now) else None);
      if pref.Some? {
        lastCorrect := Some(Celebration(pref.value.name, a.content));
      }
      activePiece := None;
      hint := None;
    }

    /** handlePieceDrop */
    method DropPiece(code: int, now: int)
      requires Valid() && MapShown(View())
      modifies this
      ensures View() == Dropped(old(View()), code, now) && Valid()
    {
      ghost var v0 := View();
      if activePiece.Some? {
        if activePiece.value.prefectureCode == code {
          AcceptDrop(activePiece.value, now);
        } else {
          message := Some(WrongDropMessage);
        }
      }
      DropKeepsInvariant(v0, code, now, regions);
    }
  }
}
