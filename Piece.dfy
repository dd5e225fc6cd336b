/**
 * What one puzzle piece in the inventory shows (components/Piece.tsx): the
 * outline of its region in a padded square viewBox in shape mode, its text
 * otherwise, and the callbacks a drag start fires.
 */
module PieceView {
  import opened Types

  /** The four numbers of an SVG viewBox: min-x, min-y, width, height. */
  datatype ViewBox = ViewBox(minX: real, minY: real, width: real, height: real)

  /** The padding factor around the outline. */
  const Padding: real := 1.2

  function Max(a: real, b: real): real
  {
    if a >= b then a else b
  }

  /**
   * The viewBox around a bounding box: a square of side 1.2 times the larger
   * dimension, centred on the box's centre.
   */
  function ShapeViewBox(b: BBox): (v: ViewBox)
    ensures v.width == v.height == Padding * Max(b.width, b.height)
    ensures v.minX + v.width / 2.0 == b.x + b.width / 2.0
    ensures v.minY + v.height / 2.0 == b.y + b.height / 2.0
  {
    var maxDim := Max(b.width, b.height);
    var cx := b.x + b.width / 2.0;
    var cy := b.y + b.height / 2.0;
    var size := maxDim * Padding;
    ViewBox(cx - size / 2.0, cy - size / 2.0, size, size)
  }

  /** The square covers the whole box, with room to spare on the longer side, when the box has no negative side. */
  lemma ShapeViewBoxContainsBBox(b: BBox)
    requires b.width >= 0.0 && b.height >= 0.0
    ensures var v := ShapeViewBox(b);
            v.minX <= b.x && b.x + b.width <= v.minX + v.width &&
            v.minY <= b.y && b.y + b.height <= v.minY + v.height
  {
  }

  /** `piece.path`, read as a condition: absent and empty paths are both falsy. */
  predicate HasOutline(piece: PuzzlePiece)
  {
    piece.path.Some? && piece.path.value != ""
  }

  /** The two branches of the component. */
  datatype Rendering =
    | Shape(path: string, viewBox: ViewBox, draggable: bool, code: int)
    | Text(content: string, draggable: bool, code: int)

  function Render(piece: PuzzlePiece, mode: GameMode): (r: Rendering)
    ensures r.draggable == !piece.isPlaced
    ensures r.code == piece.prefectureCode
    ensures r.Shape? <==> mode == SHAPE && HasOutline(piece) && piece.bbox.Some?
    ensures r.Shape? ==> r.path == piece.path.value && r.viewBox == ShapeViewBox(piece.bbox.value)
    ensures r.Text? ==> r.content == piece.content
  {
    if mode == SHAPE && HasOutline(piece) && piece.bbox.Some? then
      Shape(piece.path.value, ShapeViewBox(piece.bbox.value), !piece.isPlaced, piece.prefectureCode)
    else
      Text(piece.content, !piece.isPlaced, piece.prefectureCode)
  }

  /** The callbacks the component calls. */
  datatype Callback = DragStarted(piece: PuzzlePiece) | Selected(piece: PuzzlePiece) | DragEnded

  /** handleDragStart: onDragStart and then onSelect, both with this piece. */
  function DragStartCallbacks(piece: PuzzlePiece): (calls: seq<Callback>)
    ensures |calls| == 2 && calls[0].DragStarted? && calls[1].Selected?
    ensures forall i :: 0 <= i < |calls| ==> calls[i].piece == piece
  {
    [DragStarted(piece), Selected(piece)]
  }

  /**
   * The page wires both onDragStart and onSelect to setActivePiece and
   * onDragEnd to handleDragEnd, which clears it.
   */
  function ApplyCallbacks(active: Option<PuzzlePiece>, calls: seq<Callback>): Option<PuzzlePiece>
    decreases |calls|
  {
    if calls == [] then active
    else
      var next := match calls[0]
        case DragStarted(p) => Some(p)
        case Selected(p) => Some(p)
        case DragEnded => None;
      ApplyCallbacks(next, calls[1..])
  }

  /** Whatever piece was active before, a drag start leaves exactly the dragged piece active. */
  lemma DragStartActivatesPiece(active: Option<PuzzlePiece>, piece: PuzzlePiece)
    ensures ApplyCallbacks(active, DragStartCallbacks(piece)) == Some(piece)
    ensures ApplyCallbacks(active, DragStartCallbacks(piece) + [DragEnded]) == None
  {
    var start := DragStartCallbacks(piece);
    assert start[1..] == [Selected(piece)] && start[1..][1..] == [];
    assert ApplyCallbacks(active, start) == ApplyCallbacks(Some(piece), [Selected(piece)]);
    assert [Selected(piece)][1..] == [];
    assert ApplyCallbacks(Some(piece), [Selected(piece)]) == ApplyCallbacks(Some(piece), []);
    var calls := start + [DragEnded];
    assert calls[1..] == [Selected(piece), DragEnded];
    assert calls[1..][1..] == [DragEnded] && calls[1..][1..][1..] == [];
    assert ApplyCallbacks(active, calls) == ApplyCallbacks(Some(piece), [Selected(piece), DragEnded]);
    assert [Selected(piece), DragEnded][1..] == [DragEnded] && [DragEnded][1..] == [];
    assert ApplyCallbacks(Some(piece), [Selected(piece), DragEnded]) == ApplyCallbacks(Some(piece), [DragEnded]);
    assert ApplyCallbacks(Some(piece), [DragEnded]) == ApplyCallbacks(None, []);
  }
}
