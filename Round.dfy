/**
 * The pure part of a puzzle round (App.tsx): building the pieces for a mode,
 * the placed and unplaced filters, and marking the active piece as placed.
 */
module Round {
  import opened Types
  import opened Gemini

  /** The static answer tables of constants.ts, one lookup per static mode. */
  datatype StaticTables = StaticTables(
    capitals: int -> string,
    gourmet: int -> string,
    landmark: int -> string,
    mascot: int -> string,
    ranking: int -> string,
    craft: int -> string,
    population: int -> string,
    area: int -> string)

  predicate IsStaticMode(mode: GameMode)
  {
    mode == CAPITAL || mode == GOURMET || mode == LANDMARK || mode == MASCOT ||
    mode == RANKING || mode == CRAFT || mode == POPULATION || mode == AREA
  }

  /** The if-chain that picks `staticData`. */
  function StaticTableFor(mode: GameMode, t: StaticTables): (r: Option<int -> string>)
    ensures r.Some? <==> IsStaticMode(mode)
  {
    match mode
    case CAPITAL => Some(t.capitals)
    case GOURMET => Some(t.gourmet)
    case LANDMARK => Some(t.landmark)
    case MASCOT => Some(t.mascot)
    case RANKING => Some(t.ranking)
    case CRAFT => Some(t.craft)
    case POPULATION => Some(t.population)
    case AREA => Some(t.area)
    case _ => None
  }

  /** The content shown on shape pieces. */
  const ShapeContent: string := "SHAPE"

  /** What a piece for region `p` shows in a mode whose pieces are built locally; None for the AI modes. */
  function LocalContent(mode: GameMode, t: StaticTables, p: Prefecture): (c: Option<string>)
    ensures c.None? <==> IsAiMode(mode)
  {
    match StaticTableFor(mode, t)
    case Some(table) => Some(table(p.code))
    case None =>
      if mode == NAME then Some(p.name)
      else if mode == SHAPE then Some(ShapeContent)
      else None
  }

  /** A fresh piece: its id is its region code and it is not placed. */
  function NewPiece(code: int, content: string, path: Option<string>, bbox: Option<BBox>): PuzzlePiece
  {
    PuzzlePiece(code, code, content, false, path, bbox)
  }

  /** prefecturesData.map(...) in a static, name or shape round. */
  function BuildPieces(prefs: seq<Prefecture>, mode: GameMode, t: StaticTables): (ps: seq<PuzzlePiece>)
    requires !IsAiMode(mode)
  {
    seq(|prefs|, i requires 0 <= i < |prefs| =>
      NewPiece(prefs[i].code, LocalContent(mode, t, prefs[i]).value, prefs[i].path, prefs[i].bbox))
  }

  /** No two regions share a code. */
  predicate DistinctCodes(prefs: seq<Prefecture>)
  {
    forall i, j :: 0 <= i < j < |prefs| ==> prefs[i].code != prefs[j].code
  }

  /** No two pieces share an id. */
  predicate UniqueIds(ps: seq<PuzzlePiece>)
  {
    forall i, j :: 0 <= i < j < |ps| ==> ps[i].id != ps[j].id
  }

  /** handlePieceDrop's map: the piece with this id becomes placed. */
  function MarkPlaced(ps: seq<PuzzlePiece>, id: int): (r: seq<PuzzlePiece>)
  {
    seq(|ps|, i requires 0 <= i < |ps| => if ps[i].id == id then ps[i].(isPlaced := true) else ps[i])
  }

  /** gameState.pieces.filter(p => p.isPlaced) */
  function Placed(ps: seq<PuzzlePiece>): (r: seq<PuzzlePiece>)
    ensures forall x :: x in r <==> x in ps && x.isPlaced
  {
    if ps == [] then []
    else (if ps[0].isPlaced then [ps[0]] else []) + Placed(ps[1..])
  }

  /** gameState.pieces.filter(p => !p.isPlaced) */
  function Unplaced(ps: seq<PuzzlePiece>): (r: seq<PuzzlePiece>)
    ensures forall x :: x in r <==> x in ps && !x.isPlaced
  {
    if ps == [] then []
    else (if ps[0].isPlaced then [] else [ps[0]]) + Unplaced(ps[1..])
  }

  /** The two inventory filters split the pieces between them. */
  lemma {:induction false} FiltersPartition(ps: seq<PuzzlePiece>)
    ensures multiset(Placed(ps)) + multiset(Unplaced(ps)) == multiset(ps)
    ensures |Placed(ps)| + |Unplaced(ps)| == |ps|
  {
    if ps != [] {
      FiltersPartition(ps[1..]);
      assert ps == [ps[0]] + ps[1..];
    }
  }

  /** A round is finished exactly when no piece is left in the inventory. */
  lemma AllPlacedIffNoneUnplaced(ps: seq<PuzzlePiece>)
    ensures |Placed(ps)| == |ps| <==> Unplaced(ps) == []
  {
    FiltersPartition(ps);
  }

  /** Pieces built for a static, name or shape round are fresh, carry their region's geometry and show the mode's content. */
  lemma BuiltPiecesAreFresh(prefs: seq<Prefecture>, mode: GameMode, t: StaticTables)
    requires !IsAiMode(mode)
    ensures var ps := BuildPieces(prefs, mode, t);
            |ps| == |prefs| && Placed(ps) == [] &&
            (DistinctCodes(prefs) ==> UniqueIds(ps)) &&
            forall i :: 0 <= i < |prefs| ==>
              && ps[i].id == prefs[i].code && ps[i].prefectureCode == prefs[i].code
              && !ps[i].isPlaced && ps[i].path == prefs[i].path && ps[i].bbox == prefs[i].bbox
              && (IsStaticMode(mode) ==> ps[i].content == StaticTableFor(mode, t).value(prefs[i].code))
              && (mode == NAME ==> ps[i].content == prefs[i].name)
              && (mode == SHAPE ==> ps[i].content == ShapeContent)
  {
    var ps := BuildPieces(prefs, mode, t);
    NoneUnplacedMeansNonePlaced(ps);
  }

  lemma {:induction false} NoneUnplacedMeansNonePlaced(ps: seq<PuzzlePiece>)
    requires forall i :: 0 <= i < |ps| ==> !ps[i].isPlaced
    ensures Placed(ps) == []
  {
    if ps != [] {
      NoneUnplacedMeansNonePlaced(ps[1..]);
    }
  }

  /** prefecturesData.find(p => p.code === code) */
  function FindRegion(prefs: seq<Prefecture>, code: int): (r: Option<Prefecture>)
    ensures r.None? <==> forall i :: 0 <= i < |prefs| ==> prefs[i].code != code
    ensures r.Some? ==> exists k :: 0 <= k < |prefs| && prefs[k] == r.value && r.value.code == code &&
                                    forall j :: 0 <= j < k ==> prefs[j].code != code
  {
    if prefs == [] then None
    else if prefs[0].code == code then Some(prefs[0])
    else
      var r := FindRegion(prefs[1..], code);
      assert forall k :: 1 <= k < |prefs| ==> prefs[k] == prefs[1..][k - 1];
      r
  }

  /** `pref?.path` and `pref?.bbox`. */
  function PathOf(r: Option<Prefecture>): Option<string>
  {
    if r.Some? then r.value.path else None
  }

  function BBoxOf(r: Option<Prefecture>): Option<BBox>
  {
    if r.Some? then r.value.bbox else None
  }

  /** data.map(...) in an AI round: one fresh piece per entry, with the geometry of the region of that code. */
  function PiecesFromEntries(prefs: seq<Prefecture>, entries: seq<AiEntry>): (ps: seq<PuzzlePiece>)
  {
    seq(|entries|, i requires 0 <= i < |entries| =>
      var pref := FindRegion(prefs, entries[i].prefectureCode);
      NewPiece(entries[i].prefectureCode, entries[i].content, PathOf(pref), BBoxOf(pref)))
  }

  predicate DistinctEntryCodes(entries: seq<AiEntry>)
  {
    forall i, j :: 0 <= i < j < |entries| ==> entries[i].prefectureCode != entries[j].prefectureCode
  }

  /** The AI pieces are fresh, one per entry, each with its entry's code and content. */
  lemma EntryPiecesAreFresh(prefs: seq<Prefecture>, entries: seq<AiEntry>)
    ensures var ps := PiecesFromEntries(prefs, entries);
            |ps| == |entries| && Placed(ps) == [] &&
            (DistinctEntryCodes(entries) ==> UniqueIds(ps)) &&
            forall i :: 0 <= i < |entries| ==>
              ps[i].id == ps[i].prefectureCode == entries[i].prefectureCode && ps[i].content == entries[i].content
  {
    NoneUnplacedMeansNonePlaced(PiecesFromEntries(prefs, entries));
  }

  // ------------------------------------------------------------ placing a piece

  lemma MarkPlacedAbsent(ps: seq<PuzzlePiece>, id: int)
    requires forall i :: 0 <= i < |ps| ==> ps[i].id != id
    ensures MarkPlaced(ps, id) == ps
  {
  }

  lemma MarkPlacedSplit(ps: seq<PuzzlePiece>, id: int)
    requires ps != []
    ensures MarkPlaced(ps, id) == [if ps[0].id == id then ps[0].(isPlaced := true) else ps[0]] + MarkPlaced(ps[1..], id)
  {
  }

  lemma {:induction false} PlacedGrowsByOne(ps: seq<PuzzlePiece>, k: nat)
    requires UniqueIds(ps) && k < |ps| && !ps[k].isPlaced
    ensures |Placed(MarkPlaced(ps, ps[k].id))| == |Placed(ps)| + 1
  {
    var id := ps[k].id;
    var r := MarkPlaced(ps, id);
    MarkPlacedSplit(ps, id);
    assert r[1..] == MarkPlaced(ps[1..], id);
    if k == 0 {
      MarkPlacedAbsent(ps[1..], id);
      assert r == [ps[0].(isPlaced := true)] + ps[1..];
    } else {
      assert ps[0].id != id;
      assert ps[1..][k - 1] == ps[k];
      PlacedGrowsByOne(ps[1..], k - 1);
      assert r == [ps[0]] + MarkPlaced(ps[1..], id);
    }
  }

  /**
   * Placing the active piece flips exactly that piece, keeps the ids
   * unique, and adds one piece to the placed filter.
   */
  lemma MarkPlacedPlacesExactlyActive(ps: seq<PuzzlePiece>, active: PuzzlePiece)
    requires UniqueIds(ps) && active in ps && !active.isPlaced
    ensures var r := MarkPlaced(ps, active.id);
            && |r| == |ps| && UniqueIds(r)
            && |Placed(r)| == |Placed(ps)| + 1
            && (forall i :: 0 <= i < |ps| ==> (r[i] != ps[i] <==> ps[i] == active))
            && (forall i :: 0 <= i < |ps| && ps[i] == active ==> r[i] == active.(isPlaced := true))
  {
    var k :| 0 <= k < |ps| && ps[k] == active;
    PlacedGrowsByOne(ps, k);
    var r := MarkPlaced(ps, active.id);
    forall i | 0 <= i < |ps| ensures r[i] != ps[i] <==> ps[i] == active {
      if i < k {
        assert ps[i].id != ps[k].id;
      } else if i > k {
        assert ps[k].id != ps[i].id;
      }
    }
  }

  // ------------------------------------------------------------ shuffling

  /** Math.random-driven sort, as an oracle: any function that only reorders its input. */
  ghost predicate IsShuffle(shuffle: seq<PuzzlePiece> -> seq<PuzzlePiece>)
  {
    forall s :: multiset(shuffle(s)) == multiset(s)
  }

  lemma {:induction false} UniqueIdsNoRepeats(a: seq<PuzzlePiece>)
    requires UniqueIds(a)
    ensures forall x :: multiset(a)[x] <= 1
  {
    if a != [] {
      UniqueIdsNoRepeats(a[1..]);
      assert a == [a[0]] + a[1..];
      forall j | 0 <= j < |a[1..]| ensures a[1..][j] != a[0] {
        assert a[1..][j] == a[j + 1] && a[j + 1].id != a[0].id;
      }
      assert a[0] !in a[1..];
    }
  }

  /** Two different indices of a sequence without repeats hold different values. */
  lemma NoRepeatsDistinct(b: seq<PuzzlePiece>, i: nat, j: nat)
    requires forall x :: multiset(b)[x] <= 1
    requires i < j < |b|
    ensures b[i] != b[j]
  {
    assert b == b[..j] + b[j..];
    assert multiset(b) == multiset(b[..j]) + multiset(b[j..]);
    assert b[i] in b[..j];
    assert b[j] in b[j..];
    assert multiset(b[..j])[b[i]] >= 1 && multiset(b[j..])[b[j]] >= 1;
    assert multiset(b)[b[i]] <= 1;
  }

  /** Unique ids: different pieces of the sequence have different ids. */
  lemma UniqueIdsAsValues(a: seq<PuzzlePiece>)
    requires UniqueIds(a)
    ensures forall x, y :: x in a && y in a && x != y ==> x.id != y.id
  {
    forall x, y | x in a && y in a && x != y ensures x.id != y.id {
      var k :| 0 <= k < |a| && a[k] == x;
      var l :| 0 <= l < |a| && a[l] == y;
      if k < l {
        assert a[k].id != a[l].id;
      } else {
        assert k != l;
        assert a[l].id != a[k].id;
      }
    }
  }

  /** A shuffle of pieces with unique ids has unique ids. */
  lemma PermutationKeepsUniqueIds(a: seq<PuzzlePiece>, b: seq<PuzzlePiece>)
    requires multiset(a) == multiset(b) && UniqueIds(a)
    ensures UniqueIds(b)
  {
    UniqueIdsNoRepeats(a);
    UniqueIdsAsValues(a);
    forall i, j | 0 <= i < j < |b| ensures b[i].id != b[j].id {
      NoRepeatsDistinct(b, i, j);
      assert b[i] in multiset(a) && b[j] in multiset(a);
    }
  }

  /** A shuffle of unplaced pieces has no placed piece. */
  lemma ShuffleOfFreshIsFresh(a: seq<PuzzlePiece>, b: seq<PuzzlePiece>)
    requires multiset(a) == multiset(b) && Placed(a) == []
    ensures Placed(b) == [] && |b| == |a|
  {
    forall i | 0 <= i < |b| ensures !b[i].isPlaced {
      assert b[i] in multiset(a);
      assert b[i] !in Placed(a);
    }
    NoneUnplacedMeansNonePlaced(b);
    assert |multiset(a)| == |multiset(b)|;
  }
}
