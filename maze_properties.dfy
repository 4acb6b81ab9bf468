/**
 * What `generateLogicalMaze` guarantees, proved for every stream of random draws:
 * carving stays strictly inside the outer ring and never opens a corner post, every
 * carved cell is connected to the start, exits open exactly their cells, and (for the
 * intended per-frame direction order) every cell of the start's parity gets carved.
 */
module MazeProperties {
  import opened Random
  import opened GridPaths
  import opened LogicalMaze

  // ---------------------------------------------------------------------------
  // Carving stays inside the ring and off the corner posts

  lemma {:induction false} CarveInside(mode: Mode, width: int, height: int, shuffle: Shuffler, s: Carving, x: int, z: int)
    requires Permutes(shuffle) && IsDirOrder(s.dirs)
    requires InBounds(width, height, x, z) && (x, z) !in s.open
    ensures forall c :: c in Carve(mode, width, height, shuffle, s, x, z).open && c !in s.open ==>
              InBounds(width, height, c.0, c.1) && !OffParity(c, x, z)
    decreases Interior(width, height) - (s.open + {(x, z)}), 1, 0, 0
  {
    var shuffled := shuffle(s.dirs, s.next);
    CarveUnfold(mode, width, height, shuffle, s, x, z);
    VisitInside(mode, width, height, shuffle, Carving(s.open + {(x, z)}, shuffled, s.next + 3), x, z, shuffled, 0);
    assert !OffParity((x, z), x, z);
  }

  lemma {:induction false} VisitInside(mode: Mode, width: int, height: int, shuffle: Shuffler, s: Carving, x: int, z: int,
                                       frame: seq<Dir>, k: nat)
    requires Permutes(shuffle) && IsDirOrder(s.dirs) && IsDirOrder(frame)
    requires InBounds(width, height, x, z) && k <= 4
    ensures forall c :: c in Visit(mode, width, height, shuffle, s, x, z, frame, k).open && c !in s.open ==>
              InBounds(width, height, c.0, c.1) && !OffParity(c, x, z)
    decreases Interior(width, height) - s.open, 0, 4 - k, 2
  {
    if k < 4 {
      var t := Step(mode, width, height, shuffle, s, x, z, frame, k);
      VisitUnfold(mode, width, height, shuffle, s, x, z, frame, k);
      StepInside(mode, width, height, shuffle, s, x, z, frame, k);
      VisitInside(mode, width, height, shuffle, t, x, z, frame, k + 1);
    }
  }

  lemma {:induction false} StepInside(mode: Mode, width: int, height: int, shuffle: Shuffler, s: Carving, x: int, z: int,
                                      frame: seq<Dir>, k: nat)
    requires Permutes(shuffle) && IsDirOrder(s.dirs) && IsDirOrder(frame)
    requires InBounds(width, height, x, z) && k < 4
    ensures forall c :: c in Step(mode, width, height, shuffle, s, x, z, frame, k).open && c !in s.open ==>
              InBounds(width, height, c.0, c.1) && !OffParity(c, x, z)
    decreases Interior(width, height) - s.open, 0, 4 - k, 1
  {
    if Descends(mode, width, height, s, x, z, frame, k) {
      DescendInside(mode, width, height, shuffle, s, x, z, frame, k);
    } else {
      StepSkip(mode, width, height, shuffle, s, x, z, frame, k);
    }
  }

  lemma {:induction false} DescendInside(mode: Mode, width: int, height: int, shuffle: Shuffler, s: Carving, x: int, z: int,
                                         frame: seq<Dir>, k: nat)
    requires Permutes(shuffle) && IsDirOrder(s.dirs) && IsDirOrder(frame)
    requires InBounds(width, height, x, z) && k < 4 && Descends(mode, width, height, s, x, z, frame, k)
    ensures forall c :: c in Step(mode, width, height, shuffle, s, x, z, frame, k).open && c !in s.open ==>
              InBounds(width, height, c.0, c.1) && !OffParity(c, x, z)
    decreases Interior(width, height) - s.open, 0, 4 - k, 0
  {
    var d := Chosen(mode, s.dirs, frame, k);
    StepDescend(mode, width, height, shuffle, s, x, z, frame, k, d);
    StepFacts(width, height, x, z, d);
    var s' := s.(open := s.open + {(x + d.dx, z + d.dz)});
    var target := (x + d.dx * 2, z + d.dz * 2);
    CarveInside(mode, width, height, shuffle, s', target.0, target.1);
    var t := Carve(mode, width, height, shuffle, s', target.0, target.1);
    forall c | c in t.open && c !in s.open
      ensures InBounds(width, height, c.0, c.1) && !OffParity(c, x, z)
    {
      if c != (x + d.dx, z + d.dz) {
        ParityShift(target, x, z);
        assert OffParity(c, target.0, target.1) == OffParity(c, x, z);
      }
    }
  }

  /**
   * Before exits are opened, every carved cell is strictly inside the outer ring (so rows
   * 0 and height-1 and columns 0 and width-1 are all walls) and shares the start's parity
   * in at least one coordinate (the posts between carving cells stay walls).
   */
  lemma CarvedCellsInside(mode: Mode, width: nat, height: nat, rnd: Draws)
    requires 3 <= width && 3 <= height && ValidDraws(rnd)
    ensures forall c :: c in CarveMaze(mode, width, height, rnd) ==>
              InBounds(width, height, c.0, c.1) && !OffParity(c, width / 2, height / 2)
  {
    CarveInside(mode, width, height, FisherYates(rnd), Carving({}, Directions, 0), width / 2, height / 2);
  }

  // ---------------------------------------------------------------------------
  // Every carved cell is connected to the cell its carving started from

  lemma {:induction false} CarveReaches(mode: Mode, width: int, height: int, shuffle: Shuffler, s: Carving, x: int, z: int)
    requires Permutes(shuffle) && IsDirOrder(s.dirs)
    requires InBounds(width, height, x, z) && (x, z) !in s.open
    ensures var r := Carve(mode, width, height, shuffle, s, x, z);
            forall c :: c in r.open && c !in s.open ==> Reach(r.open, (x, z), c)
    decreases Interior(width, height) - (s.open + {(x, z)}), 1, 0, 0
  {
    var shuffled := shuffle(s.dirs, s.next);
    var r := Carve(mode, width, height, shuffle, s, x, z);
    CarveUnfold(mode, width, height, shuffle, s, x, z);
    VisitReaches(mode, width, height, shuffle, Carving(s.open + {(x, z)}, shuffled, s.next + 3), x, z, shuffled, 0);
    ReachRefl(r.open, (x, z));
  }

  lemma {:induction false} VisitReaches(mode: Mode, width: int, height: int, shuffle: Shuffler, s: Carving, x: int, z: int,
                                        frame: seq<Dir>, k: nat)
    requires Permutes(shuffle) && IsDirOrder(s.dirs) && IsDirOrder(frame)
    requires InBounds(width, height, x, z) && k <= 4 && (x, z) in s.open
    ensures var r := Visit(mode, width, height, shuffle, s, x, z, frame, k);
            forall c :: c in r.open && c !in s.open ==> Reach(r.open, (x, z), c)
    decreases Interior(width, height) - s.open, 0, 4 - k, 2
  {
    if k < 4 {
      var t := Step(mode, width, height, shuffle, s, x, z, frame, k);
      VisitUnfold(mode, width, height, shuffle, s, x, z, frame, k);
      StepReaches(mode, width, height, shuffle, s, x, z, frame, k);
      VisitReaches(mode, width, height, shuffle, t, x, z, frame, k + 1);
      var r := Visit(mode, width, height, shuffle, t, x, z, frame, k + 1);
      forall c | c in t.open && c !in s.open
        ensures Reach(r.open, (x, z), c)
      {
        ReachMono(t.open, r.open, (x, z), c);
      }
    }
  }

  lemma {:induction false} StepReaches(mode: Mode, width: int, height: int, shuffle: Shuffler, s: Carving, x: int, z: int,
                                       frame: seq<Dir>, k: nat)
    requires Permutes(shuffle) && IsDirOrder(s.dirs) && IsDirOrder(frame)
    requires InBounds(width, height, x, z) && k < 4 && (x, z) in s.open
    ensures var t := Step(mode, width, height, shuffle, s, x, z, frame, k);
            forall c :: c in t.open && c !in s.open ==> Reach(t.open, (x, z), c)
    decreases Interior(width, height) - s.open, 0, 4 - k, 1
  {
    if Descends(mode, width, height, s, x, z, frame, k) {
      DescendReaches(mode, width, height, shuffle, s, x, z, frame, k);
    } else {
      StepSkip(mode, width, height, shuffle, s, x, z, frame, k);
    }
  }

  lemma {:induction false} DescendReaches(mode: Mode, width: int, height: int, shuffle: Shuffler, s: Carving, x: int, z: int,
                                          frame: seq<Dir>, k: nat)
    requires Permutes(shuffle) && IsDirOrder(s.dirs) && IsDirOrder(frame)
    requires InBounds(width, height, x, z) && k < 4 && Descends(mode, width, height, s, x, z, frame, k) && (x, z) in s.open
    ensures var t := Step(mode, width, height, shuffle, s, x, z, frame, k);
            forall c :: c in t.open && c !in s.open ==> Reach(t.open, (x, z), c)
    decreases Interior(width, height) - s.open, 0, 4 - k, 0
  {
    var d := Chosen(mode, s.dirs, frame, k);
    StepDescend(mode, width, height, shuffle, s, x, z, frame, k, d);
    StepFacts(width, height, x, z, d);
    var conn := (x + d.dx, z + d.dz);
    var target := (x + d.dx * 2, z + d.dz * 2);
    var s' := s.(open := s.open + {conn});
    CarveReaches(mode, width, height, shuffle, s', target.0, target.1);
    var t := Carve(mode, width, height, shuffle, s', target.0, target.1);
    ReachRefl(t.open, (x, z));
    ReachStep(t.open, (x, z), (x, z), conn);
    ReachStep(t.open, (x, z), conn, target);
    forall c | c in t.open && c !in s'.open
      ensures Reach(t.open, (x, z), c)
    {
      ReachTrans(t.open, (x, z), target, c);
    }
  }

  /** After carving, every path cell is 4-connected through path cells to the start cell. */
  lemma CarvedMazeConnected(mode: Mode, width: nat, height: nat, rnd: Draws)
    requires 3 <= width && 3 <= height && ValidDraws(rnd)
    ensures forall c :: c in CarveMaze(mode, width, height, rnd) ==>
              Reach(CarveMaze(mode, width, height, rnd), StartCell(width, height), c)
  {
    CarveReaches(mode, width, height, FisherYates(rnd), Carving({}, Directions, 0), width / 2, height / 2);
  }

  // ---------------------------------------------------------------------------
  // The carved cells form a tree: one passage cell per room but the first

  /** The carved cells with the start's parity in both coordinates: the rooms carving steps into. */
  function Rooms(cells: set<Cell>, x0: int, z0: int): set<Cell> {
    set c | c in cells && SameParity(c, x0, z0)
  }

  /** The other carved cells: the passages cut between two rooms. */
  function Passages(cells: set<Cell>, x0: int, z0: int): set<Cell> {
    set c | c in cells && !SameParity(c, x0, z0)
  }

  /** The two rooms a passage cell lies between: left and right if its column is off the lattice, else above and below. */
  function Ends(c: Cell, x0: int, z0: int): (Cell, Cell) {
    if (c.0 - x0) % 2 != 0 then ((c.0 - 1, c.1), (c.0 + 1, c.1)) else ((c.0, c.1 - 1), (c.0, c.1 + 1))
  }

  /** Every open passage cell has both of its rooms open. */
  predicate Linked(open: set<Cell>, x0: int, z0: int) {
    forall c :: c in open && !SameParity(c, x0, z0) ==> Ends(c, x0, z0).0 in open && Ends(c, x0, z0).1 in open
  }

  lemma DisjointCard(a: set<Cell>, b: set<Cell>)
    requires a !! b
    ensures |a + b| == |a| + |b|
  {
    assert a * b == {};
  }

  /** Rooms and passages of two disjoint sets of cells add up. */
  lemma SplitCount(a: set<Cell>, b: set<Cell>, x0: int, z0: int)
    requires a !! b
    ensures |Rooms(a + b, x0, z0)| == |Rooms(a, x0, z0)| + |Rooms(b, x0, z0)|
    ensures |Passages(a + b, x0, z0)| == |Passages(a, x0, z0)| + |Passages(b, x0, z0)|
  {
    assert Rooms(a + b, x0, z0) == Rooms(a, x0, z0) + Rooms(b, x0, z0);
    assert Passages(a + b, x0, z0) == Passages(a, x0, z0) + Passages(b, x0, z0);
    DisjointCard(Rooms(a, x0, z0), Rooms(b, x0, z0));
    DisjointCard(Passages(a, x0, z0), Passages(b, x0, z0));
  }

  /** The cell between a room and the room two steps away in direction `d` is a passage, and those two rooms are its ends. */
  lemma PassageEnds(x: int, z: int, d: Dir, x0: int, z0: int)
    requires IsDir(d) && SameParity((x, z), x0, z0)
    ensures !SameParity((x + d.dx, z + d.dz), x0, z0)
    ensures SameParity((x + d.dx * 2, z + d.dz * 2), x0, z0)
    ensures var e := Ends((x + d.dx, z + d.dz), x0, z0);
            (e.0 == (x, z) && e.1 == (x + d.dx * 2, z + d.dz * 2)) || (e.1 == (x, z) && e.0 == (x + d.dx * 2, z + d.dz * 2))
  {
  }

  /**
   * A call of `carvePassages` at a room `(x, z)` that was still a wall opens exactly one
   * passage fewer than it opens rooms, and keeps every open passage between two open rooms.
   */
  lemma {:induction false} CarveTree(mode: Mode, width: int, height: int, shuffle: Shuffler, s: Carving, x: int, z: int,
                                     x0: int, z0: int)
    requires Permutes(shuffle) && IsDirOrder(s.dirs)
    requires InBounds(width, height, x, z) && (x, z) !in s.open
    requires SameParity((x, z), x0, z0) && Linked(s.open + {(x, z)}, x0, z0)
    ensures var r := Carve(mode, width, height, shuffle, s, x, z);
            Linked(r.open, x0, z0) && |Rooms(r.open - s.open, x0, z0)| == |Passages(r.open - s.open, x0, z0)| + 1
    decreases Interior(width, height) - (s.open + {(x, z)}), 1, 0, 0
  {
    var shuffled := shuffle(s.dirs, s.next);
    var s1 := Carving(s.open + {(x, z)}, shuffled, s.next + 3);
    CarveUnfold(mode, width, height, shuffle, s, x, z);
    VisitTree(mode, width, height, shuffle, s1, x, z, shuffled, 0, x0, z0);
    var r := Visit(mode, width, height, shuffle, s1, x, z, shuffled, 0);
    assert r.open - s.open == {(x, z)} + (r.open - s1.open);
    SplitCount({(x, z)}, r.open - s1.open, x0, z0);
    assert Rooms({(x, z)}, x0, z0) == {(x, z)};
    assert Passages({(x, z)}, x0, z0) == {};
  }

  lemma {:induction false} VisitTree(mode: Mode, width: int, height: int, shuffle: Shuffler, s: Carving, x: int, z: int,
                                     frame: seq<Dir>, k: nat, x0: int, z0: int)
    requires Permutes(shuffle) && IsDirOrder(s.dirs) && IsDirOrder(frame)
    requires InBounds(width, height, x, z) && k <= 4 && (x, z) in s.open
    requires SameParity((x, z), x0, z0) && Linked(s.open, x0, z0)
    ensures var r := Visit(mode, width, height, shuffle, s, x, z, frame, k);
            Linked(r.open, x0, z0) && |Rooms(r.open - s.open, x0, z0)| == |Passages(r.open - s.open, x0, z0)|
    decreases Interior(width, height) - s.open, 0, 4 - k, 2
  {
    if k == 4 {
      assert Rooms({}, x0, z0) == {} && Passages({}, x0, z0) == {};
    } else {
      var t := Step(mode, width, height, shuffle, s, x, z, frame, k);
      VisitUnfold(mode, width, height, shuffle, s, x, z, frame, k);
      StepTree(mode, width, height, shuffle, s, x, z, frame, k, x0, z0);
      VisitTree(mode, width, height, shuffle, t, x, z, frame, k + 1, x0, z0);
      var r := Visit(mode, width, height, shuffle, t, x, z, frame, k + 1);
      assert r.open - s.open == (t.open - s.open) + (r.open - t.open);
      SplitCount(t.open - s.open, r.open - t.open, x0, z0);
    }
  }

  lemma {:induction false} StepTree(mode: Mode, width: int, height: int, shuffle: Shuffler, s: Carving, x: int, z: int,
                                    frame: seq<Dir>, k: nat, x0: int, z0: int)
    requires Permutes(shuffle) && IsDirOrder(s.dirs) && IsDirOrder(frame)
    requires InBounds(width, height, x, z) && k < 4 && (x, z) in s.open
    requires SameParity((x, z), x0, z0) && Linked(s.open, x0, z0)
    ensures var t := Step(mode, width, height, shuffle, s, x, z, frame, k);
            Linked(t.open, x0, z0) && |Rooms(t.open - s.open, x0, z0)| == |Passages(t.open - s.open, x0, z0)|
    decreases Interior(width, height) - s.open, 0, 4 - k, 1
  {
    if Descends(mode, width, height, s, x, z, frame, k) {
      DescendTree(mode, width, height, shuffle, s, x, z, frame, k, x0, z0);
    } else {
      StepSkip(mode, width, height, shuffle, s, x, z, frame, k);
      assert s.open - s.open == {};
      assert Rooms({}, x0, z0) == {} && Passages({}, x0, z0) == {};
    }
  }

  lemma {:induction false} DescendTree(mode: Mode, width: int, height: int, shuffle: Shuffler, s: Carving, x: int, z: int,
                                       frame: seq<Dir>, k: nat, x0: int, z0: int)
    requires Permutes(shuffle) && IsDirOrder(s.dirs) && IsDirOrder(frame)
    requires InBounds(width, height, x, z) && k < 4 && Descends(mode, width, height, s, x, z, frame, k) && (x, z) in s.open
    requires SameParity((x, z), x0, z0) && Linked(s.open, x0, z0)
    ensures var t := Step(mode, width, height, shuffle, s, x, z, frame, k);
            Linked(t.open, x0, z0) && |Rooms(t.open - s.open, x0, z0)| == |Passages(t.open - s.open, x0, z0)|
    decreases Interior(width, height) - s.open, 0, 4 - k, 0
  {
    var d := Chosen(mode, s.dirs, frame, k);
    StepDescend(mode, width, height, shuffle, s, x, z, frame, k, d);
    StepFacts(width, height, x, z, d);
    PassageEnds(x, z, d, x0, z0);
    var conn := (x + d.dx, z + d.dz);
    var target := (x + d.dx * 2, z + d.dz * 2);
    // the passage's far room is still a wall, so the passage is too
    assert conn !in s.open;
    var s' := s.(open := s.open + {conn});
    forall c | c in s'.open + {target} && !SameParity(c, x0, z0)
      ensures Ends(c, x0, z0).0 in s'.open + {target} && Ends(c, x0, z0).1 in s'.open + {target}
    {
    }
    CarveTree(mode, width, height, shuffle, s', target.0, target.1, x0, z0);
    var t := Carve(mode, width, height, shuffle, s', target.0, target.1);
    assert t.open - s.open == {conn} + (t.open - s'.open);
    SplitCount({conn}, t.open - s'.open, x0, z0);
    assert Rooms({conn}, x0, z0) == {};
    assert Passages({conn}, x0, z0) == {conn};
  }

  /**
   * Before exits are opened, the carving has one passage cell fewer than it has rooms,
   * and every open passage cell joins two open rooms. As no corner post is open
   * (`CarvedCellsInside`), each passage touches exactly its two rooms, so the open cells
   * with their 4-neighbour adjacencies have one edge fewer than cells; being connected
   * (`CarvedMazeConnected`), they form a tree: a perfect maze with one path between any two cells.
   */
  lemma CarvedMazeIsTree(mode: Mode, width: nat, height: nat, rnd: Draws)
    requires 3 <= width && 3 <= height && ValidDraws(rnd)
    ensures var open := CarveMaze(mode, width, height, rnd);
            && Linked(open, width / 2, height / 2)
            && |Passages(open, width / 2, height / 2)| + 1 == |Rooms(open, width / 2, height / 2)|
            && |open| == 2 * |Rooms(open, width / 2, height / 2)| - 1
  {
    var x0, z0 := width / 2, height / 2;
    var open := CarveMaze(mode, width, height, rnd);
    CarveTree(mode, width, height, FisherYates(rnd), Carving({}, Directions, 0), x0, z0, x0, z0);
    assert open - {} == open;
    assert open == Rooms(open, x0, z0) + Passages(open, x0, z0);
    DisjointCard(Rooms(open, x0, z0), Passages(open, x0, z0));
  }

  // ---------------------------------------------------------------------------
  // With a per-frame direction order, carving reaches every cell of the start's parity

  /** Two steps from `c` in direction `d` is either outside the carving area or open. */
  predicate Settled(width: int, height: int, open: set<Cell>, c: Cell, d: Dir) {
    InBounds(width, height, c.0 + d.dx * 2, c.1 + d.dz * 2) ==> (c.0 + d.dx * 2, c.1 + d.dz * 2) in open
  }

  /** Every carving neighbour of `c` is open: `c` has no uncarved cell left to step into. */
  predicate Closed(width: int, height: int, open: set<Cell>, c: Cell) {
    && Settled(width, height, open, c, Dir(0, -1))
    && Settled(width, height, open, c, Dir(1, 0))
    && Settled(width, height, open, c, Dir(0, 1))
    && Settled(width, height, open, c, Dir(-1, 0))
  }

  lemma FrameCovers(width: int, height: int, open: set<Cell>, c: Cell, frame: seq<Dir>)
    requires IsDirOrder(frame)
    requires forall j :: 0 <= j < 4 ==> Settled(width, height, open, c, frame[j])
    ensures Closed(width, height, open, c)
  {
  }

  /** After iteration `k`, the direction it read is settled for the frame's own cell. */
  lemma StepSettles(width: int, height: int, shuffle: Shuffler, s: Carving, x: int, z: int, frame: seq<Dir>, k: nat)
    requires Permutes(shuffle) && IsDirOrder(s.dirs) && IsDirOrder(frame)
    requires InBounds(width, height, x, z) && k < 4
    ensures Settled(width, height, Step(Snapshot, width, height, shuffle, s, x, z, frame, k).open, (x, z), frame[k])
  {
    assert Chosen(Snapshot, s.dirs, frame, k) == frame[k];
  }

  /** After iterations `k..3`, every direction they read is settled for the frame's own cell. */
  lemma {:induction false} VisitSettles(width: int, height: int, shuffle: Shuffler, s: Carving, x: int, z: int,
                                        frame: seq<Dir>, k: nat)
    requires Permutes(shuffle) && IsDirOrder(s.dirs) && IsDirOrder(frame)
    requires InBounds(width, height, x, z) && k <= 4
    ensures forall j :: k <= j < 4 ==> Settled(width, height, Visit(Snapshot, width, height, shuffle, s, x, z, frame, k).open, (x, z), frame[j])
    decreases 4 - k
  {
    if k < 4 {
      var t := Step(Snapshot, width, height, shuffle, s, x, z, frame, k);
      VisitUnfold(Snapshot, width, height, shuffle, s, x, z, frame, k);
      StepSettles(width, height, shuffle, s, x, z, frame, k);
      VisitSettles(width, height, shuffle, t, x, z, frame, k + 1);
      var r := Visit(Snapshot, width, height, shuffle, t, x, z, frame, k + 1);
      forall j | k <= j < 4 ensures Settled(width, height, r.open, (x, z), frame[j]) {
        if j == k {
          assert t.open <= r.open;
        }
      }
    }
  }

  lemma {:induction false} CarveCloses(width: int, height: int, shuffle: Shuffler, s: Carving, x: int, z: int)
    requires Permutes(shuffle) && IsDirOrder(s.dirs)
    requires InBounds(width, height, x, z) && (x, z) !in s.open
    ensures var r := Carve(Snapshot, width, height, shuffle, s, x, z);
            forall c {:trigger SameParity(c, x, z)} :: c in r.open && c !in s.open && SameParity(c, x, z) ==> Closed(width, height, r.open, c)
    decreases Interior(width, height) - (s.open + {(x, z)}), 1, 0, 0
  {
    var shuffled := shuffle(s.dirs, s.next);
    var s1 := Carving(s.open + {(x, z)}, shuffled, s.next + 3);
    CarveUnfold(Snapshot, width, height, shuffle, s, x, z);
    VisitCloses(width, height, shuffle, s1, x, z, shuffled, 0);
    VisitSettles(width, height, shuffle, s1, x, z, shuffled, 0);
    FrameCovers(width, height, Carve(Snapshot, width, height, shuffle, s, x, z).open, (x, z), shuffled);
  }

  lemma {:induction false} VisitCloses(width: int, height: int, shuffle: Shuffler, s: Carving, x: int, z: int,
                                       frame: seq<Dir>, k: nat)
    requires Permutes(shuffle) && IsDirOrder(s.dirs) && IsDirOrder(frame)
    requires InBounds(width, height, x, z) && k <= 4
    ensures var r := Visit(Snapshot, width, height, shuffle, s, x, z, frame, k);
            forall c {:trigger SameParity(c, x, z)} :: c in r.open && c !in s.open && SameParity(c, x, z) ==> Closed(width, height, r.open, c)
    decreases Interior(width, height) - s.open, 0, 4 - k, 2
  {
    if k < 4 {
      var t := Step(Snapshot, width, height, shuffle, s, x, z, frame, k);
      VisitUnfold(Snapshot, width, height, shuffle, s, x, z, frame, k);
      StepCloses(width, height, shuffle, s, x, z, frame, k);
      VisitCloses(width, height, shuffle, t, x, z, frame, k + 1);
      var r := Visit(Snapshot, width, height, shuffle, t, x, z, frame, k + 1);
      forall c | c in t.open && c !in s.open && SameParity(c, x, z)
        ensures Closed(width, height, r.open, c)
      {
        assert Closed(width, height, t.open, c);
      }
    }
  }

  lemma {:induction false} StepCloses(width: int, height: int, shuffle: Shuffler, s: Carving, x: int, z: int,
                                      frame: seq<Dir>, k: nat)
    requires Permutes(shuffle) && IsDirOrder(s.dirs) && IsDirOrder(frame)
    requires InBounds(width, height, x, z) && k < 4
    ensures var t := Step(Snapshot, width, height, shuffle, s, x, z, frame, k);
            forall c {:trigger SameParity(c, x, z)} :: c in t.open && c !in s.open && SameParity(c, x, z) ==> Closed(width, height, t.open, c)
    decreases Interior(width, height) - s.open, 0, 4 - k, 1
  {
    if Descends(Snapshot, width, height, s, x, z, frame, k) {
      DescendCloses(width, height, shuffle, s, x, z, frame, k);
    } else {
      StepSkip(Snapshot, width, height, shuffle, s, x, z, frame, k);
    }
  }

  lemma {:induction false} DescendCloses(width: int, height: int, shuffle: Shuffler, s: Carving, x: int, z: int,
                                         frame: seq<Dir>, k: nat)
    requires Permutes(shuffle) && IsDirOrder(s.dirs) && IsDirOrder(frame)
    requires InBounds(width, height, x, z) && k < 4 && Descends(Snapshot, width, height, s, x, z, frame, k)
    ensures var t := Step(Snapshot, width, height, shuffle, s, x, z, frame, k);
            forall c {:trigger SameParity(c, x, z)} :: c in t.open && c !in s.open && SameParity(c, x, z) ==> Closed(width, height, t.open, c)
    decreases Interior(width, height) - s.open, 0, 4 - k, 0
  {
    var d := Chosen(Snapshot, s.dirs, frame, k);
    StepDescend(Snapshot, width, height, shuffle, s, x, z, frame, k, d);
    StepFacts(width, height, x, z, d);
    var s' := s.(open := s.open + {(x + d.dx, z + d.dz)});
    var target := (x + d.dx * 2, z + d.dz * 2);
    CarveCloses(width, height, shuffle, s', target.0, target.1);
    ParityShift(target, x, z);
    var t := Carve(Snapshot, width, height, shuffle, s', target.0, target.1);
    forall c | c in t.open && c !in s.open && SameParity(c, x, z)
      ensures Closed(width, height, t.open, c)
    {
      assert SameParity(c, target.0, target.1);
    }
  }

  /** Distance, in moves, between `c` and `(x, z)`. */
  function Manhattan(c: Cell, x: int, z: int): nat {
    (if c.0 < x then x - c.0 else c.0 - x) + (if c.1 < z then z - c.1 else c.1 - z)
  }

  /** A closed cell has every one of the four moves settled. */
  lemma ClosedSettles(width: int, height: int, open: set<Cell>, q: Cell, d: Dir)
    requires Closed(width, height, open, q) && IsDir(d)
    ensures Settled(width, height, open, q, d)
  {
  }

  /** A lattice cell other than the start has a lattice cell one carving step closer to the start. */
  lemma Predecessor(width: int, height: int, sx: int, sz: int, c: Cell) returns (q: Cell, d: Dir)
    requires InBounds(width, height, sx, sz) && InBounds(width, height, c.0, c.1)
    requires SameParity(c, sx, sz) && c != (sx, sz)
    ensures IsDir(d) && c == (q.0 + d.dx * 2, q.1 + d.dz * 2)
    ensures InBounds(width, height, q.0, q.1) && SameParity(q, sx, sz) && Manhattan(q, sx, sz) < Manhattan(c, sx, sz)
  {
    if c.0 > sx {
      q, d := (c.0 - 2, c.1), Dir(1, 0);
    } else if c.0 < sx {
      q, d := (c.0 + 2, c.1), Dir(-1, 0);
    } else if c.1 > sz {
      q, d := (c.0, c.1 - 2), Dir(0, 1);
    } else {
      q, d := (c.0, c.1 + 2), Dir(0, -1);
    }
  }

  /** If the start is open and no open cell of its parity has an uncarved neighbour, every such cell is open. */
  lemma {:induction false} LatticeCovered(width: int, height: int, open: set<Cell>, sx: int, sz: int, c: Cell)
    requires InBounds(width, height, sx, sz) && (sx, sz) in open
    requires forall q {:trigger SameParity(q, sx, sz)} :: q in open && SameParity(q, sx, sz) ==> Closed(width, height, open, q)
    requires InBounds(width, height, c.0, c.1) && SameParity(c, sx, sz)
    ensures c in open
    decreases Manhattan(c, sx, sz)
  {
    if c != (sx, sz) {
      var q, d := Predecessor(width, height, sx, sz, c);
      LatticeCovered(width, height, open, sx, sz, q);
      ClosedSettles(width, height, open, q, d);
    }
  }

  /** With a per-frame direction order, no carved cell of the start's parity is left with an uncarved neighbour. */
  lemma CarvedLatticeClosed(width: nat, height: nat, rnd: Draws)
    requires 3 <= width && 3 <= height && ValidDraws(rnd)
    ensures var open := CarveMaze(Snapshot, width, height, rnd);
            forall q {:trigger SameParity(q, width / 2, height / 2)} ::
              q in open && SameParity(q, width / 2, height / 2) ==> Closed(width, height, open, q)
  {
    CarveCloses(width, height, FisherYates(rnd), Carving({}, Directions, 0), width / 2, height / 2);
  }

  /**
   * When every frame walks its own shuffled order, carving opens every interior cell that
   * has the start's parity in both coordinates: the depth-first search is complete.
   */
  lemma CarvedCoversLattice(width: nat, height: nat, rnd: Draws)
    requires 3 <= width && 3 <= height && ValidDraws(rnd)
    ensures forall c: Cell :: InBounds(width, height, c.0, c.1) && SameParity(c, width / 2, height / 2) ==>
              c in CarveMaze(Snapshot, width, height, rnd)
  {
    var open := CarveMaze(Snapshot, width, height, rnd);
    CarvedLatticeClosed(width, height, rnd);
    forall c: Cell | InBounds(width, height, c.0, c.1) && SameParity(c, width / 2, height / 2)
      ensures c in open
    {
      LatticeCovered(width, height, open, width / 2, height / 2, c);
    }
  }
}
