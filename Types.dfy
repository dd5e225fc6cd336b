/** Datatypes of the puzzle: regions (prefectures), pieces, the round state and the game modes. */
module Types {

  datatype Option<+T> = None | Some(value: T)

  /** A point in screen pixels or in the 1000x1000 logical map space. */
  datatype Point = Point(x: real, y: real)

  /** Axis-aligned bounding box of a region outline in logical map space. */
  datatype BBox = BBox(x: real, y: real, width: real, height: real)

  /** One region. Geometry is optional: it is absent when loading the outlines failed. */
  datatype Prefecture = Prefecture(
    code: int,
    name: string,
    romaji: string,
    path: Option<string>,
    center: Option<Point>,
    bbox: Option<BBox>)

  /** A draggable token bound to one region; it carries a copy of that region's outline. */
  datatype PuzzlePiece = PuzzlePiece(
    id: int,
    prefectureCode: int,
    content: string,
    isPlaced: bool,
    path: Option<string>,
    bbox: Option<BBox>)

  datatype GameMode =
    | NAME | SHAPE | CAPITAL | GOURMET | LANDMARK | MASCOT
    | RANKING | CRAFT | POPULATION | AREA | SOUVENIR | CUSTOM

  /** The round. Times are milliseconds as returned by the clock, supplied by the caller. */
  datatype GameState = GameState(
    mode: GameMode,
    pieces: seq<PuzzlePiece>,
    placedCount: int,
    isLoading: bool,
    isComplete: bool,
    startTime: Option<int>,
    endTime: Option<int>,
    customTopic: Option<string>)

  /** The number of regions; a round is complete when this many pieces are placed. */
  const TotalRegions: int := 47
}
