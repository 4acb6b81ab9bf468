/**
 * The shared `directions` array of `generateLogicalMaze`, on a concrete run.
 *
 * `carvePassages` shuffles the one array that every frame's `for ... of` loop reads.
 * When a nested call returns, the outer loop continues at its next index of an order
 * it did not choose, so a direction can be skipped. On a 7 x 5 grid with the draws
 * below, the cell two steps left of the start is never carved, although carving with
 * a per-frame order opens it (and every other cell of the start's parity).
 */
module SharedDirections {
  import opened Random
  import opened LogicalMaze
  import opened MazeProperties

  /** Draws 0.75, 0.9, 0.0, 0.0, 0.9, 0.5, then 0.5 for ever. */
  function SkipDraws(k: nat): (r: real)
    ensures 0.0 <= r < 1.0
  {
    if k == 0 then 0.75
    else if k == 1 || k == 4 then 0.9
    else if k == 2 || k == 3 then 0.0
    else 0.5
  }

  lemma SkipDrawsValid()
    ensures ValidDraws(SkipDraws)
  {
    forall k: nat ensures 0.0 <= SkipDraws(k) < 1.0 {
      var r := SkipDraws(k);
    }
  }

  const Up := Dir(0, -1)
  const Right := Dir(1, 0)
  const Down := Dir(0, 1)
  const Left := Dir(-1, 0)

  /** The start frame's shuffle: draws 0.75, 0.9, 0.0 pick swap partners 3, 2, 0, so right comes first. */
  lemma FirstShuffle(rnd: Draws)
    requires ValidDraws(rnd) && rnd(0) == 0.75 && rnd(1) == 0.9 && rnd(2) == 0.0
    ensures var o := FisherYates(rnd)(Directions, 0);
            |o| == 4 && o[0] == Right && o[1] == Up && o[2] == Down && o[3] == Left
  {
    assert SwapIndex(0.75, 3) == 3;
    assert SwapIndex(0.9, 2) == 2;
    assert SwapIndex(0.0, 1) == 0;
  }

  /** The nested frame's shuffle of the shared array: draws 0.0, 0.9, 0.5 pick 0, 2, 1, so left comes first. */
  lemma SecondShuffle(rnd: Draws, o: seq<Dir>)
    requires ValidDraws(rnd) && rnd(3) == 0.0 && rnd(4) == 0.9 && rnd(5) == 0.5
    requires |o| == 4 && o[0] == Right && o[1] == Up && o[2] == Down && o[3] == Left
    ensures var o' := FisherYates(rnd)(o, 3);
            |o'| == 4 && o'[0] == Left && o'[1] == Up && o'[2] == Down && o'[3] == Right
  {
    assert SwapIndex(0.0, 3) == 0;
    assert SwapIndex(0.9, 2) == 2;
    assert SwapIndex(0.5, 1) == 1;
  }

  /** An iteration of a live frame on the 7 x 5 grid whose direction `d` leaves the ring or meets an open cell. */
  lemma Skip(sh: Shuffler, s: Carving, x: int, z: int, frame: seq<Dir>, k: nat, d: Dir)
    requires Permutes(sh) && IsDirOrder(s.dirs) && IsDirOrder(frame) && InBounds(7, 5, x, z) && k < 4
    requires s.dirs[k] == d
    requires !InBounds(7, 5, x + d.dx * 2, z + d.dz * 2) || (x + d.dx * 2, z + d.dz * 2) in s.open
    ensures Visit(Live, 7, 5, sh, s, x, z, frame, k) == Visit(Live, 7, 5, sh, s, x, z, frame, k + 1)
  {
    VisitUnfold(Live, 7, 5, sh, s, x, z, frame, k);
    StepSkip(Live, 7, 5, sh, s, x, z, frame, k);
  }

  /** Up, down and right from (x, 2) on the 7 x 5 grid, with (x + 2, 2) open, change nothing. */
  lemma SkipLast(sh: Shuffler, s: Carving, x: int, frame: seq<Dir>)
    requires Permutes(sh) && IsDirOrder(s.dirs) && IsDirOrder(frame) && (x == 3 || x == 5)
    requires s.dirs[1] == Up && s.dirs[2] == Down && s.dirs[3] == Right
    requires x == 3 ==> (5, 2) in s.open
    ensures Visit(Live, 7, 5, sh, s, x, 2, frame, 1) == s
  {
    Skip(sh, s, x, 2, frame, 1, Up);
    Skip(sh, s, x, 2, frame, 2, Down);
    Skip(sh, s, x, 2, frame, 3, Right);
  }

  /**
   * The nested call at (5, 2), whose shuffle puts left, up, down, right in the shared
   * array: left leads back to the open start, the other three leave the ring.
   */
  lemma NestedCarve(sh: Shuffler, s: Carving)
    requires Permutes(sh) && IsDirOrder(s.dirs) && s.open == {(3, 2), (4, 2)}
    requires var o := sh(s.dirs, s.next); o[0] == Left && o[1] == Up && o[2] == Down && o[3] == Right
    ensures Carve(Live, 7, 5, sh, s, 5, 2).open == {(3, 2), (4, 2), (5, 2)}
    ensures Carve(Live, 7, 5, sh, s, 5, 2).dirs == sh(s.dirs, s.next)
  {
    var o := sh(s.dirs, s.next);
    var s1 := Carving(s.open + {(5, 2)}, o, s.next + 3);
    CarveUnfold(Live, 7, 5, sh, s, 5, 2);
    Skip(sh, s1, 5, 2, o, 0, Left);
    SkipLast(sh, s1, 5, o);
  }

  /** The start frame's first iteration: right descends into (5, 2), which reshuffles the shared array. */
  lemma StartStep(sh: Shuffler)
    requires Permutes(sh)
    requires var o := sh(Directions, 0); o[0] == Right && o[1] == Up && o[2] == Down && o[3] == Left
    requires var o' := sh(sh(Directions, 0), 3); o'[0] == Left && o'[1] == Up && o'[2] == Down && o'[3] == Right
    ensures var t := Step(Live, 7, 5, sh, Carving({(3, 2)}, sh(Directions, 0), 3), 3, 2, sh(Directions, 0), 0);
            t.open == {(3, 2), (4, 2), (5, 2)} && t.dirs == sh(sh(Directions, 0), 3)
  {
    var o := sh(Directions, 0);
    var s1 := Carving({(3, 2)}, o, 3);
    StepDescend(Live, 7, 5, sh, s1, 3, 2, o, 0, Right);
    var s1' := s1.(open := {(3, 2), (4, 2)});
    assert s1.(open := s1.open + {(3 + Right.dx, 2 + Right.dz)}) == s1';
    NestedCarve(sh, s1');
  }

  /**
   * The start call at (3, 2): back in the start frame after the first iteration, the
   * shared array reads left, up, down, right, so iterations 1 to 3 try up, down and
   * right, and left is never tried.
   */
  lemma StartCarve(sh: Shuffler)
    requires Permutes(sh)
    requires var o := sh(Directions, 0); o[0] == Right && o[1] == Up && o[2] == Down && o[3] == Left
    requires var o' := sh(sh(Directions, 0), 3); o'[0] == Left && o'[1] == Up && o'[2] == Down && o'[3] == Right
    ensures Carve(Live, 7, 5, sh, Carving({}, Directions, 0), 3, 2).open == {(3, 2), (4, 2), (5, 2)}
  {
    var o := sh(Directions, 0);
    var s1 := Carving({(3, 2)}, o, 3);
    CarveUnfold(Live, 7, 5, sh, Carving({}, Directions, 0), 3, 2);
    assert {} + {(3, 2)} == s1.open;
    VisitUnfold(Live, 7, 5, sh, s1, 3, 2, o, 0);
    StartStep(sh);
    SkipLast(sh, Step(Live, 7, 5, sh, s1, 3, 2, o, 0), 3, o);
  }

  /**
   * Whenever the stream starts with the draws 0.75, 0.9, 0.0, 0.0, 0.9, 0.5,
   * `generateLogicalMaze(7, 5, [])` as written carves only the start and the two cells to
   * its right, so never (1, 2), a cell of the start's parity inside the ring; with a
   * per-frame order (1, 2) is carved.
   */
  lemma SharedDirectionsSkipCell(rnd: Draws)
    requires ValidDraws(rnd)
    requires rnd(0) == 0.75 && rnd(1) == 0.9 && rnd(2) == 0.0 && rnd(3) == 0.0 && rnd(4) == 0.9 && rnd(5) == 0.5
    ensures CarveMaze(Live, 7, 5, rnd) == {(3, 2), (4, 2), (5, 2)}
    ensures (1, 2) in CarveMaze(Snapshot, 7, 5, rnd)
  {
    LiveCarve(rnd);
    SnapshotCarvesCell(rnd);
  }

  /** With those draws, carving the 7 x 5 grid from (3, 2) opens the start, the cell to its right and the one after. */
  lemma LiveStart(rnd: Draws)
    requires ValidDraws(rnd)
    requires rnd(0) == 0.75 && rnd(1) == 0.9 && rnd(2) == 0.0 && rnd(3) == 0.0 && rnd(4) == 0.9 && rnd(5) == 0.5
    ensures Carve(Live, 7, 5, FisherYates(rnd), Carving({}, Directions, 0), 3, 2).open == {(3, 2), (4, 2), (5, 2)}
  {
    FirstShuffle(rnd);
    SecondShuffle(rnd, FisherYates(rnd)(Directions, 0));
    StartCarve(FisherYates(rnd));
  }

  /** With those draws, the maze as written has only three path cells. */
  lemma LiveCarve(rnd: Draws)
    requires ValidDraws(rnd)
    requires rnd(0) == 0.75 && rnd(1) == 0.9 && rnd(2) == 0.0 && rnd(3) == 0.0 && rnd(4) == 0.9 && rnd(5) == 0.5
    ensures CarveMaze(Live, 7, 5, rnd) == {(3, 2), (4, 2), (5, 2)}
  {
    LiveStart(rnd);
  }

  lemma SnapshotCarvesCell(rnd: Draws)
    requires ValidDraws(rnd)
    ensures (1, 2) in CarveMaze(Snapshot, 7, 5, rnd)
  {
    CarvedCoversLattice(7, 5, rnd);
    assert InBounds(7, 5, 1, 2) && SameParity((1, 2), 7 / 2, 5 / 2);
  }

  /** One stream that starts with those draws. */
  lemma SkipDrawsFit()
    ensures ValidDraws(SkipDraws)
    ensures SkipDraws(0) == 0.75 && SkipDraws(1) == 0.9 && SkipDraws(2) == 0.0
    ensures SkipDraws(3) == 0.0 && SkipDraws(4) == 0.9 && SkipDraws(5) == 0.5
  {
    SkipDrawsValid();
  }
}
