/**
 * The maze generator of script.js (`generateLogicalMaze`) as pure definitions.
 *
 * The grid starts as all walls (1) and only ever has cells set to path (0), so its
 * state is the set of open cells. A carving state adds the shared `directions`
 * array and the position in the stream of random draws.
 */
module LogicalMaze {
  import opened Wrappers
  import opened Random
  import opened GridPaths

  /** A unit move: `{ dx, dz }`. */
  datatype Dir = Dir(dx: int, dz: int)

  /** Up, right, down, left: the initial contents of `directions`. */
  const Directions: seq<Dir> := [Dir(0, -1), Dir(1, 0), Dir(0, 1), Dir(-1, 0)]

  /** One of the four unit moves. */
  predicate IsDir(d: Dir) {
    d == Dir(0, -1) || d == Dir(1, 0) || d == Dir(0, 1) || d == Dir(-1, 0)
  }

  /** `ds` holds the four unit moves in some order: four unit moves, pairwise distinct. */
  predicate IsDirOrder(ds: seq<Dir>) {
    && |ds| == 4
    && IsDir(ds[0]) && IsDir(ds[1]) && IsDir(ds[2]) && IsDir(ds[3])
    && ds[0] != ds[1] && ds[0] != ds[2] && ds[0] != ds[3]
    && ds[1] != ds[2] && ds[1] != ds[3] && ds[2] != ds[3]
  }

  /** Exchanging two positions of an order of the moves gives an order of the moves. */
  lemma SwapKeepsOrder(ds: seq<Dir>, i: nat, j: nat)
    requires IsDirOrder(ds) && i < 4 && j < 4
    ensures IsDirOrder(Swap(ds, i, j))
  {
    var b := Swap(ds, i, j);
    forall k, l | 0 <= k < 4 && 0 <= l < 4 && k != l ensures IsDir(b[k]) && b[k] != b[l] {
      var k', l' := if k == i then j else if k == j then i else k, if l == i then j else if l == j then i else l;
      assert b[k] == ds[k'] && b[l] == ds[l'] && k' != l';
      DistinctEntries(ds, k', l');
    }
  }

  /** Any two different positions of an order of the moves hold different moves. */
  lemma DistinctEntries(ds: seq<Dir>, k: nat, l: nat)
    requires IsDirOrder(ds) && k < 4 && l < 4 && k != l
    ensures IsDir(ds[k]) && ds[k] != ds[l]
  {
  }

  /** The Fisher-Yates loop over an order of the moves yields an order of the moves. */
  lemma {:induction false} ShuffledKeepsOrder(ds: seq<Dir>, i: int, rnd: Draws, next: nat)
    requires ValidDraws(rnd) && IsDirOrder(ds) && i < 4
    ensures IsDirOrder(Shuffled(ds, i, rnd, next))
    decreases i
  {
    if i > 0 {
      var j := SwapIndex(rnd(next), i);
      SwapKeepsOrder(ds, i, j);
      ShuffledKeepsOrder(Swap(ds, i, j), i - 1, rnd, next + 1);
    }
  }

  /**
   * How a carving frame reads its next direction.
   * `Live`: the source as written; `for (... of directions)` reads the one shared array,
   * which every nested call shuffles again.
   * `Snapshot`: each frame walks the order its own shuffle produced.
   */
  datatype Mode = Live | Snapshot

  /** How a call shuffles `directions`: from the current order and the index of its first draw. */
  type Shuffler = (seq<Dir>, nat) -> seq<Dir>

  /** `shuffle` turns every order of the four moves into an order of the four moves. */
  ghost predicate Permutes(shuffle: Shuffler) {
    forall ds, next :: IsDirOrder(ds) ==> IsDirOrder(shuffle(ds, next))
  }

  /** `shuffle(directions)` of script.js: Fisher-Yates over the whole array, with draws from `rnd`. */
  function FisherYates(rnd: Draws): (shuffle: Shuffler)
    requires ValidDraws(rnd)
    ensures Permutes(shuffle)
  {
    var shuffle := (ds: seq<Dir>, next: nat) => Shuffled(ds, |ds| - 1, rnd, next);
    ShuffleOrders(rnd, shuffle);
    shuffle
  }

  lemma ShuffleOrders(rnd: Draws, shuffle: Shuffler)
    requires ValidDraws(rnd)
    requires forall ds, next :: shuffle(ds, next) == Shuffled(ds, |ds| - 1, rnd, next)
    ensures Permutes(shuffle)
  {
    forall ds, next | IsDirOrder(ds) ensures IsDirOrder(shuffle(ds, next)) {
      ShuffledKeepsOrder(ds, |ds| - 1, rnd, next);
    }
  }

  /** The open cells, the shared direction array, and the index of the next random draw. */
  datatype Carving = Carving(open: set<Cell>, dirs: seq<Dir>, next: nat)

  /**
   * `isInBounds`: strictly inside the outer ring of walls. Such a cell is on the grid, so
   * reading `maze[z][x]` is safe, and a cell of the grid is in bounds exactly when it lies
   * on none of the four edges the exit pass tests.
   */
  predicate InBounds(width: int, height: int, x: int, z: int)
    ensures InBounds(width, height, x, z) ==> 0 <= x < width && 0 <= z < height
    ensures 0 <= x < width && 0 <= z < height ==>
              (InBounds(width, height, x, z) <==> !(x == 0 || x == width - 1 || z == 0 || z == height - 1))
    ensures InBounds(width, height, x, z) <==> (x, z) in Interior(width, height)
  {
    x > 0 && x < width - 1 && z > 0 && z < height - 1
  }

  /** All cells strictly inside the outer ring. */
  function Interior(width: int, height: int): set<Cell> {
    set x, z | 0 < x < width - 1 && 0 < z < height - 1 :: (x, z)
  }

  /** Both coordinates of `c` differ in parity from `(x, z)`: a corner post between carving cells. */
  predicate OffParity(c: Cell, x: int, z: int) {
    (c.0 - x) % 2 != 0 && (c.1 - z) % 2 != 0
  }

  /** Both coordinates of `c` have the parity of `(x, z)`: a cell carving can step into. */
  predicate SameParity(c: Cell, x: int, z: int) {
    (c.0 - x) % 2 == 0 && (c.1 - z) % 2 == 0
  }

  /** The direction iteration `k` of a frame reads, according to `mode`. */
  function Chosen(mode: Mode, dirs: seq<Dir>, frame: seq<Dir>, k: nat): (d: Dir)
    requires IsDirOrder(dirs) && IsDirOrder(frame) && k < 4
    ensures IsDir(d)
  {
    if mode == Live then dirs[k] else frame[k]
  }

  /**
   * One step of two cells in direction `d` between interior cells: the cell in between is
   * interior too, and it lies on a row or column of `(x, z)`, so it is no corner post.
   */
  lemma StepFacts(width: int, height: int, x: int, z: int, d: Dir)
    requires IsDir(d)
    requires InBounds(width, height, x, z) && InBounds(width, height, x + d.dx * 2, z + d.dz * 2)
    ensures InBounds(width, height, x + d.dx, z + d.dz)
    ensures !OffParity((x + d.dx, z + d.dz), x, z)
    ensures !SameParity((x + d.dx, z + d.dz), x, z)
    ensures SameParity((x + d.dx * 2, z + d.dz * 2), x, z)
    ensures (x + d.dx * 2, z + d.dz * 2) in Interior(width, height)
    ensures (x + d.dx, z + d.dz) != (x + d.dx * 2, z + d.dz * 2) && (x + d.dx, z + d.dz) != (x, z)
    ensures Adjacent((x, z), (x + d.dx, z + d.dz)) && Adjacent((x + d.dx, z + d.dz), (x + d.dx * 2, z + d.dz * 2))
  {
  }

  /** Parity is measured the same from any two cells of equal parity. */
  lemma ParityShift(a: Cell, x: int, z: int)
    requires SameParity(a, x, z)
    ensures forall c: Cell {:trigger OffParity(c, a.0, a.1)} :: OffParity(c, a.0, a.1) == OffParity(c, x, z)
    ensures forall c: Cell {:trigger SameParity(c, a.0, a.1)} :: SameParity(c, a.0, a.1) == SameParity(c, x, z)
  {
  }

  /**
   * `carvePassages(x, z)`: open the cell, shuffle `directions`, then try each direction.
   * Entered only for an interior cell that is still a wall.
   */
  function Carve(mode: Mode, width: int, height: int, shuffle: Shuffler, s: Carving, x: int, z: int): (r: Carving)
    requires Permutes(shuffle) && IsDirOrder(s.dirs)
    requires InBounds(width, height, x, z) && (x, z) !in s.open
    ensures IsDirOrder(r.dirs)
    ensures s.open + {(x, z)} <= r.open
    decreases Interior(width, height) - (s.open + {(x, z)}), 1, 0, 0
  {
    // shuffling four directions consumes three draws
    var shuffled := shuffle(s.dirs, s.next);
    var s1 := Carving(s.open + {(x, z)}, shuffled, s.next + 3);
    Visit(mode, width, height, shuffle, s1, x, z, shuffled, 0)
  }

  /** One call of `carvePassages`: mark the cell, shuffle, then run the direction loop from its first iteration. */
  lemma CarveUnfold(mode: Mode, width: int, height: int, shuffle: Shuffler, s: Carving, x: int, z: int)
    requires Permutes(shuffle) && IsDirOrder(s.dirs)
    requires InBounds(width, height, x, z) && (x, z) !in s.open
    ensures Carve(mode, width, height, shuffle, s, x, z)
         == Visit(mode, width, height, shuffle, Carving(s.open + {(x, z)}, shuffle(s.dirs, s.next), s.next + 3),
                  x, z, shuffle(s.dirs, s.next), 0)
  {
  }

  /** Iterations `k..3` of the direction loop of the frame at `(x, z)`; `frame` is that frame's own shuffle. */
  function Visit(mode: Mode, width: int, height: int, shuffle: Shuffler, s: Carving, x: int, z: int,
                 frame: seq<Dir>, k: nat): (r: Carving)
    requires Permutes(shuffle) && IsDirOrder(s.dirs) && IsDirOrder(frame)
    requires InBounds(width, height, x, z) && k <= 4
    ensures IsDirOrder(r.dirs)
    ensures s.open <= r.open
    decreases Interior(width, height) - s.open, 0, 4 - k, 1
  {
    if k == 4 then s
    else Visit(mode, width, height, shuffle, Step(mode, width, height, shuffle, s, x, z, frame, k), x, z, frame, k + 1)
  }

  /** The direction tried `k`-th leads to an uncarved cell inside the ring. */
  predicate Descends(mode: Mode, width: int, height: int, s: Carving, x: int, z: int, frame: seq<Dir>, k: nat)
    requires IsDirOrder(s.dirs) && IsDirOrder(frame) && k < 4
  {
    var d := Chosen(mode, s.dirs, frame, k);
    InBounds(width, height, x + d.dx * 2, z + d.dz * 2) && (x + d.dx * 2, z + d.dz * 2) !in s.open
  }

  /** Iteration `k` of the loop: carve towards the chosen direction if its target is an uncarved cell. */
  function Step(mode: Mode, width: int, height: int, shuffle: Shuffler, s: Carving, x: int, z: int,
                frame: seq<Dir>, k: nat): (r: Carving)
    requires Permutes(shuffle) && IsDirOrder(s.dirs) && IsDirOrder(frame)
    requires InBounds(width, height, x, z) && k < 4
    ensures IsDirOrder(r.dirs)
    ensures s.open <= r.open
    ensures var d := Chosen(mode, s.dirs, frame, k);
            InBounds(width, height, x + d.dx * 2, z + d.dz * 2) ==> (x + d.dx * 2, z + d.dz * 2) in r.open
    decreases Interior(width, height) - s.open, 0, 4 - k, 0
  {
    var d := Chosen(mode, s.dirs, frame, k);
    if Descends(mode, width, height, s, x, z, frame, k) then
      StepFacts(width, height, x, z, d);
      Carve(mode, width, height, shuffle, s.(open := s.open + {(x + d.dx, z + d.dz)}), x + d.dx * 2, z + d.dz * 2)
    else s
  }

  /** One iteration of the direction loop, then the rest of it. */
  lemma VisitUnfold(mode: Mode, width: int, height: int, shuffle: Shuffler, s: Carving, x: int, z: int, frame: seq<Dir>, k: nat)
    requires Permutes(shuffle) && IsDirOrder(s.dirs) && IsDirOrder(frame)
    requires InBounds(width, height, x, z) && k < 4
    ensures Visit(mode, width, height, shuffle, s, x, z, frame, k)
         == Visit(mode, width, height, shuffle, Step(mode, width, height, shuffle, s, x, z, frame, k), x, z, frame, k + 1)
  {
  }

  /** An iteration whose target is an uncarved interior cell opens the cell in between and recurses into the target. */
  lemma StepDescend(mode: Mode, width: int, height: int, shuffle: Shuffler, s: Carving, x: int, z: int, frame: seq<Dir>, k: nat,
                     d: Dir)
    requires Permutes(shuffle) && IsDirOrder(s.dirs) && IsDirOrder(frame)
    requires InBounds(width, height, x, z) && k < 4 && Descends(mode, width, height, s, x, z, frame, k)
    requires d == Chosen(mode, s.dirs, frame, k)
    ensures Step(mode, width, height, shuffle, s, x, z, frame, k)
         == Carve(mode, width, height, shuffle, s.(open := s.open + {(x + d.dx, z + d.dz)}), x + d.dx * 2, z + d.dz * 2)
  {
    StepFacts(width, height, x, z, d);
  }

  /** An iteration whose target is outside the ring or already open changes nothing. */
  lemma StepSkip(mode: Mode, width: int, height: int, shuffle: Shuffler, s: Carving, x: int, z: int, frame: seq<Dir>, k: nat)
    requires Permutes(shuffle) && IsDirOrder(s.dirs) && IsDirOrder(frame)
    requires InBounds(width, height, x, z) && k < 4 && !Descends(mode, width, height, s, x, z, frame, k)
    ensures Step(mode, width, height, shuffle, s, x, z, frame, k) == s
  {
  }

  /** `Math.floor(width / 2), Math.floor(height / 2)`: where carving starts. */
  function StartCell(width: nat, height: nat): Cell {
    (width / 2, height / 2)
  }

  /** The open cells after `carvePassages(startX, startZ)` on an all-wall grid, with draws from the start of `rnd`. */
  function CarveMaze(mode: Mode, width: nat, height: nat, rnd: Draws): (open: set<Cell>)
    requires 3 <= width && 3 <= height && ValidDraws(rnd)
    ensures StartCell(width, height) in open
  {
    Carve(mode, width, height, FisherYates(rnd), Carving({}, Directions, 0), width / 2, height / 2).open
  }

  /** One entry of `exits`: a cell and the page it leads to. */
  datatype Exit = Exit(x: int, z: int, url: string)

  predicate OnGrid(width: int, height: int, e: Exit) {
    0 <= e.x < width && 0 <= e.z < height
  }

  /** The neighbour opened next to an exit: the first edge test that matches, in source order. */
  function InwardNeighbour(width: int, height: int, e: Exit): (n: Option<Cell>)
    ensures n.Some? <==> e.x == 0 || e.x == width - 1 || e.z == 0 || e.z == height - 1
    ensures n.Some? ==> Adjacent((e.x, e.z), n.value)
  {
    if e.x == 0 then Some((1, e.z))
    else if e.x == width - 1 then Some((width - 2, e.z))
    else if e.z == 0 then Some((e.x, 1))
    else if e.z == height - 1 then Some((e.x, height - 2))
    else None
  }

  /** The cells one exit forces to path. */
  function Opening(width: int, height: int, e: Exit): (cells: set<Cell>)
    ensures (e.x, e.z) in cells
    ensures InwardNeighbour(width, height, e).Some? ==> InwardNeighbour(width, height, e).value in cells
    ensures forall c :: c in cells ==> c == (e.x, e.z) || Some(c) == InwardNeighbour(width, height, e)
  {
    match InwardNeighbour(width, height, e)
    case None => {(e.x, e.z)}
    case Some(n) => {(e.x, e.z), n}
  }

  /** `exits.forEach(...)` applied to the open cells `open`. */
  function WithExits(width: int, height: int, open: set<Cell>, exits: seq<Exit>): (r: set<Cell>)
    ensures open <= r
    ensures forall i :: 0 <= i < |exits| ==> Opening(width, height, exits[i]) <= r
    decreases |exits|
  {
    if exits == [] then open
    else WithExits(width, height, open, exits[..|exits| - 1]) + Opening(width, height, exits[|exits| - 1])
  }

  /** The open cells of the grid `generateLogicalMaze` returns. */
  function GenerateOpen(mode: Mode, width: nat, height: nat, exits: seq<Exit>, rnd: Draws): (open: set<Cell>)
    requires 3 <= width && 3 <= height && ValidDraws(rnd)
    ensures CarveMaze(mode, width, height, rnd) <= open
    ensures StartCell(width, height) in open
    ensures forall i :: 0 <= i < |exits| ==> (exits[i].x, exits[i].z) in open
  {
    WithExits(width, height, CarveMaze(mode, width, height, rnd), exits)
  }
}
