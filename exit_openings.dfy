/**
 * The exit pass of `generateLogicalMaze`: each configured exit is forced to path,
 * together with the inward neighbour picked by the first matching edge test.
 */
module ExitOpenings {
  import opened Random
  import opened GridPaths
  import opened LogicalMaze
  import opened MazeProperties

  /**
   * The exit pass opens nothing beyond the cells open before and the cells of the exits
   * (`WithExits` itself states that all of those are open afterwards).
   */
  lemma {:induction false} WithExitsOpens(width: int, height: int, open: set<Cell>, exits: seq<Exit>)
    ensures forall c :: c in WithExits(width, height, open, exits) ==>
              c in open || exists i :: 0 <= i < |exits| && c in Opening(width, height, exits[i])
    decreases |exits|
  {
    if exits != [] {
      var front := exits[..|exits| - 1];
      WithExitsOpens(width, height, open, front);
      forall c | c in WithExits(width, height, open, exits)
        ensures c in open || exists i :: 0 <= i < |exits| && c in Opening(width, height, exits[i])
      {
        if c !in WithExits(width, height, open, front) {
          assert c in Opening(width, height, exits[|exits| - 1]);
        } else if c !in open {
          var i :| 0 <= i < |front| && c in Opening(width, height, front[i]);
          assert exits[i] == front[i];
        }
      }
    }
  }

  /** An exit that is not on the outer ring opens only its own cell. */
  lemma InteriorExitOpensItself(width: int, height: int, e: Exit)
    requires 0 < e.x < width - 1 && 0 < e.z < height - 1
    ensures Opening(width, height, e) == {(e.x, e.z)}
  {
  }

  /**
   * An exit on the outer ring opens an adjacent cell on the grid as well; unless the
   * exit sits in a corner, that cell is strictly inside the ring.
   */
  lemma BorderExitNeighbour(width: int, height: int, e: Exit)
    requires 3 <= width && 3 <= height && OnGrid(width, height, e)
    requires e.x == 0 || e.x == width - 1 || e.z == 0 || e.z == height - 1
    ensures InwardNeighbour(width, height, e).Some?
    ensures var n := InwardNeighbour(width, height, e).value;
            Adjacent((e.x, e.z), n) && 0 <= n.0 < width && 0 <= n.1 < height
    ensures (0 < e.x < width - 1 || 0 < e.z < height - 1) ==>
              var n := InwardNeighbour(width, height, e).value;
              InBounds(width, height, n.0, n.1)
  {
  }

  /**
   * With a per-frame direction order, an exit whose inward neighbour touches a carving
   * cell `inner` of the start's parity is connected to the start through path cells.
   */
  lemma ExitReached(width: nat, height: nat, rnd: Draws, exits: seq<Exit>, i: nat, inner: Cell)
    requires 3 <= width && 3 <= height && ValidDraws(rnd) && i < |exits|
    requires InwardNeighbour(width, height, exits[i]).Some?
    requires InBounds(width, height, inner.0, inner.1) && SameParity(inner, width / 2, height / 2)
    requires Adjacent(inner, InwardNeighbour(width, height, exits[i]).value)
    ensures forall c :: c in Opening(width, height, exits[i]) ==>
              Reach(GenerateOpen(Snapshot, width, height, exits, rnd), StartCell(width, height), c)
  {
    var carved := CarveMaze(Snapshot, width, height, rnd);
    var all := GenerateOpen(Snapshot, width, height, exits, rnd);
    var n := InwardNeighbour(width, height, exits[i]).value;
    CarvedCoversLattice(width, height, rnd);
    CarvedMazeConnected(Snapshot, width, height, rnd);
    WithExitsOpens(width, height, carved, exits);
    assert Reach(carved, StartCell(width, height), inner);
    ReachMono(carved, all, StartCell(width, height), inner);
    ReachStep(all, StartCell(width, height), inner, n);
    ReachStep(all, StartCell(width, height), n, (exits[i].x, exits[i].z));
  }

  /** The four exits of the 21 x 21 maze: middle of the top, right, bottom and left edges. */
  const ConfiguredExits: seq<Exit> := [
    Exit(10, 0, "https://www.youtube.com/watch?v=ow5XgHDkPOQ"),
    Exit(20, 10, "https://www.youtube.com/watch?v=ow5XgHDkPOQ"),
    Exit(10, 20, "https://www.youtube.com/watch?v=ow5XgHDkPOQn"),
    Exit(0, 10, "https://www.youtube.com/watch?v=ow5XgHDkPOQ")
  ]

  /**
   * In the configured 21 x 21 maze with a per-frame direction order, every cell every
   * exit opens is connected to the start cell (10, 10), whatever the draws.
   */
  lemma ConfiguredExitsReached(rnd: Draws)
    requires ValidDraws(rnd)
    ensures forall i, c :: 0 <= i < 4 && c in Opening(21, 21, ConfiguredExits[i]) ==>
              Reach(GenerateOpen(Snapshot, 21, 21, ConfiguredExits, rnd), (10, 10), c)
  {
    forall i, c | 0 <= i < 4 && c in Opening(21, 21, ConfiguredExits[i])
      ensures Reach(GenerateOpen(Snapshot, 21, 21, ConfiguredExits, rnd), (10, 10), c)
    {
      var inner := [(10, 2), (18, 10), (10, 18), (2, 10)][i];
      ExitReached(21, 21, rnd, ConfiguredExits, i, inner);
    }
  }
}
