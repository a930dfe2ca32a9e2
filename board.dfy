/** The fixed board of gameBoard.cpp: two tile paths that share their first two
    and their last thirteen tiles, and the list of event spaces. The source keeps
    the coordinates as floats, but every one of them is a whole number, so a
    position is a pair of integers here and equality is exact. */
module Board {

  datatype Pos = Pos(x: int, y: int)

  /** Side of one board tile in pixels (the `tileSize` member). */
  const TileSize: int := 40

  const Start: Pos := Pos(220, 420)
  const Crossing1: Pos := Pos(220, 380)
  const Crossing2: Pos := Pos(260, 260)
  const End: Pos := Pos(180, 100)

  /** `iveyPath`, in push_back order. */
  const IveyPath: seq<Pos> := [
    Pos(220, 420), Pos(220, 380), Pos(260, 380), Pos(300, 380), Pos(340, 380),
    Pos(380, 380), Pos(380, 340), Pos(380, 300), Pos(380, 260), Pos(340, 260),
    Pos(300, 260), Pos(260, 260), Pos(260, 220), Pos(260, 180), Pos(300, 180),
    Pos(340, 180), Pos(380, 180), Pos(380, 140), Pos(380, 100), Pos(340, 100),
    Pos(300, 100), Pos(260, 100), Pos(220, 100), Pos(180, 100)]

  /** `westernPath`, in push_back order. */
  const WesternPath: seq<Pos> := [
    Pos(220, 420), Pos(220, 380), Pos(180, 380), Pos(140, 380), Pos(100, 380),
    Pos(60, 380), Pos(60, 340), Pos(60, 300), Pos(60, 260), Pos(60, 220),
    Pos(100, 220), Pos(140, 220), Pos(180, 220), Pos(180, 260), Pos(220, 260),
    Pos(260, 260), Pos(260, 220), Pos(260, 180), Pos(300, 180), Pos(340, 180),
    Pos(380, 180), Pos(380, 140), Pos(380, 100), Pos(340, 100), Pos(300, 100),
    Pos(260, 100), Pos(220, 100), Pos(180, 100)]

  /** `eventSpaces`, in push_back order. */
  const EventSpaces: seq<Pos> := [
    Pos(140, 380), Pos(340, 380), Pos(380, 300), Pos(60, 300),
    Pos(140, 220), Pos(300, 180), Pos(380, 140)]

  /** Index of crossing 2 on each path. */
  const IveyCrossing2: nat := 11
  const WesternCrossing2: nat := 15

  function Abs(n: int): nat { if n < 0 then -n else n }

  /** Two tiles are neighbours when they differ by one tile size in exactly one coordinate. */
  predicate Neighbours(a: Pos, b: Pos) {
    (a.x == b.x && Abs(a.y - b.y) == TileSize) || (a.y == b.y && Abs(a.x - b.x) == TileSize)
  }

  /** Both paths start on the start tile, pass crossing 1 next and end on the end tile. */
  lemma PathShape()
    ensures |IveyPath| == 24 && |WesternPath| == 28
    ensures IveyPath[0] == Start && WesternPath[0] == Start
    ensures IveyPath[1] == Crossing1 && WesternPath[1] == Crossing1
    ensures IveyPath[|IveyPath| - 1] == End && WesternPath[|WesternPath| - 1] == End
    ensures IveyPath[IveyCrossing2] == Crossing2 && WesternPath[WesternCrossing2] == Crossing2
  {
  }

  /** From crossing 2 on, the two paths are the same thirteen tiles. */
  lemma SharedTail()
    ensures IveyPath[IveyCrossing2..] == WesternPath[WesternCrossing2..]
    ensures |IveyPath[IveyCrossing2..]| == 13
  {
  }

  /** Every hop along either path moves exactly one tile in exactly one direction. */
  lemma PathsAreWalks()
    ensures forall i :: 0 <= i < |IveyPath| - 1 ==> Neighbours(IveyPath[i], IveyPath[i + 1])
    ensures forall i :: 0 <= i < |WesternPath| - 1 ==> Neighbours(WesternPath[i], WesternPath[i + 1])
  {
  }

  /** No tile occurs twice on a path; in particular the start tile is only at index 0. */
  lemma PathsHaveNoRepeats()
    ensures forall i, j :: 0 <= i < j < |IveyPath| ==> IveyPath[i] != IveyPath[j]
    ensures forall i, j :: 0 <= i < j < |WesternPath| ==> WesternPath[i] != WesternPath[j]
  {
  }

  /** Every event space lies on some path and is neither the start nor the end tile. */
  lemma EventSpacesOnPaths()
    ensures forall e :: e in EventSpaces ==> e in IveyPath || e in WesternPath
    ensures Start !in EventSpaces && End !in EventSpaces
    ensures |EventSpaces| == 7
  {
  }
}
