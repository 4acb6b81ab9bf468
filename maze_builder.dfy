/**
 * `generateLogicalMaze` as the program runs it: a `height x width` grid of 0/1 cells
 * written in place, one `directions` array shuffled in place by every call of the
 * recursive `carvePassages`, and a running count of the draws taken from `Math.random`.
 */
module MazeBuilder {
  import opened Random
  import opened GridPaths
  import opened LogicalMaze

  /** The state `generateLogicalMaze` keeps in its closure while it carves. */
  class Generator {
    const width: nat
    const height: nat
    /** `Math.random`: the k-th call returns `rnd(k)`. */
    const rnd: Draws
    /** `maze[z][x]`: 1 for wall, 0 for path. */
    const maze: array2<int>
    const directions: array<Dir>
    /** How many draws have been taken. */
    var drawn: nat
    /** The path cells of `maze`. */
    ghost var open: set<Cell>

    ghost predicate Valid()
      reads this, maze, directions
    {
      && 3 <= width && 3 <= height && ValidDraws(rnd)
      && maze.Length0 == height && maze.Length1 == width
      && directions.Length == 4 && IsDirOrder(directions[..])
      && (forall z, x :: 0 <= z < height && 0 <= x < width ==> maze[z, x] == if (x, z) in open then 0 else 1)
    }

    /** The carving state of the pure model: path cells, the order in `directions`, draws taken. */
    ghost function State(): Carving
      reads this, directions
    {
      Carving(open, directions[..], drawn)
    }

    /** An all-wall grid and the directions up, right, down, left. */
    constructor (width: nat, height: nat, rnd: Draws)
      requires 3 <= width && 3 <= height && ValidDraws(rnd)
      ensures Valid() && this.width == width && this.height == height && this.rnd == rnd
      ensures State() == Carving({}, Directions, 0)
      ensures fresh(maze) && fresh(directions)
    {
      this.width := width;
      this.height := height;
      this.rnd := rnd;
      maze := new int[height, width]((z, x) => 1);
      directions := new Dir[] [Dir(0, -1), Dir(1, 0), Dir(0, 1), Dir(-1, 0)];
      drawn := 0;
      open := {};
      new;
      assert directions[..] == Directions;
    }

    /** `maze[z][x] = 0`. */
    method Clear(x: int, z: int)
      requires Valid() && 0 <= x < width && 0 <= z < height
      modifies this, maze
      ensures Valid() && open == old(open) + {(x, z)} && drawn == old(drawn)
    {
      maze[z, x] := 0;
      open := open + {(x, z)};
    }

    /**
     * `carvePassages(x, z)`: mark the cell, shuffle `directions`, then for each index of
     * `directions` (read afresh every iteration) carve through to an uncarved target two
     * cells away and recurse into it. The new state is the pure model's live carving.
     */
    method CarvePassages(x: int, z: int)
      requires Valid() && InBounds(width, height, x, z) && (x, z) !in open
      modifies this, maze, directions
      ensures Valid()
      ensures State() == Carve(Live, width, height, FisherYates(rnd), old(State()), x, z)
      decreases Interior(width, height) - (open + {(x, z)}), 2
    {
      ghost var start := State();
      Clear(x, z);
      drawn := Shuffle(directions, rnd, drawn);
      ghost var frame := directions[..];
      ghost var s1 := State();
      assert s1 == Carving(start.open + {(x, z)}, FisherYates(rnd)(start.dirs, start.next), start.next + 3);
      CarveUnfold(Live, width, height, FisherYates(rnd), start, x, z);
      var k := 0;
      while k < 4
        invariant 0 <= k <= 4 && Valid() && IsDirOrder(frame)
        invariant start.open + {(x, z)} <= open
        invariant Visit(Live, width, height, FisherYates(rnd), State(), x, z, frame, k) == Visit(Live, width, height, FisherYates(rnd), s1, x, z, frame, 0)
      {
        ghost var before := State();
        VisitUnfold(Live, width, height, FisherYates(rnd), before, x, z, frame, k);
        TryDirection(x, z, frame, k);
        k := k + 1;
      }
    }

    /**
     * One iteration of the loop of `carvePassages(x, z)`: read `directions[k]`; if the cell two
     * steps that way is inside the ring and still a wall, carve through to it.
     */
    method TryDirection(x: int, z: int, ghost frame: seq<Dir>, k: nat)
      requires Valid() && InBounds(width, height, x, z) && (x, z) in open && IsDirOrder(frame) && k < 4
      modifies this, maze, directions
      ensures Valid()
      ensures State() == Step(Live, width, height, FisherYates(rnd), old(State()), x, z, frame, k)
      decreases Interior(width, height) - open, 1
    {
      var d := directions[k];
      var nx, nz := x + d.dx * 2, z + d.dz * 2;
      if InBounds(width, height, nx, nz) && maze[nz, nx] == 1 {
        StepDescend(Live, width, height, FisherYates(rnd), State(), x, z, frame, k, d);
        CarveThrough(x, z, d);
      } else {
        StepSkip(Live, width, height, FisherYates(rnd), State(), x, z, frame, k);
      }
    }

    /** The carving branch: clear the cell between `(x, z)` and its target in direction `d`, then `carvePassages` from the target. */
    method CarveThrough(x: int, z: int, d: Dir)
      requires Valid() && IsDir(d) && InBounds(width, height, x, z)
      requires InBounds(width, height, x + d.dx * 2, z + d.dz * 2) && (x + d.dx * 2, z + d.dz * 2) !in open
      modifies this, maze, directions
      ensures Valid()
      ensures State() == Carve(Live, width, height, FisherYates(rnd), old(State()).(open := old(open) + {(x + d.dx, z + d.dz)}),
                               x + d.dx * 2, z + d.dz * 2)
      decreases Interior(width, height) - open, 0
    {
      ghost var before := State();
      StepFacts(width, height, x, z, d);
      Clear(x + d.dx, z + d.dz);
      assert State() == before.(open := before.open + {(x + d.dx, z + d.dz)});
      ShrinkInterior(Interior(width, height), before.open, open, (x + d.dx * 2, z + d.dz * 2));
      CarvePassages(x + d.dx * 2, z + d.dz * 2);
    }

    /** `exits.forEach(...)`: clear each exit cell and the neighbour picked by the first matching edge test. */
    method OpenExits(exits: seq<Exit>)
      requires Valid() && forall e :: e in exits ==> OnGrid(width, height, e)
      modifies this, maze
      ensures Valid() && open == WithExits(width, height, old(open), exits)
      ensures drawn == old(drawn)
    {
      var i := 0;
      while i < |exits|
        invariant 0 <= i <= |exits| && Valid() && drawn == old(drawn)
        invariant open == WithExits(width, height, old(open), exits[..i])
      {
        var e := exits[i];
        assert e in exits;
        Clear(e.x, e.z);
        if e.x == 0 {
          Clear(1, e.z);
        } else if e.x == width - 1 {
          Clear(width - 2, e.z);
        } else if e.z == 0 {
          Clear(e.x, 1);
        } else if e.z == height - 1 {
          Clear(e.x, height - 2);
        }
        assert exits[..i + 1][..i] == exits[..i];
        i := i + 1;
      }
      assert exits[..i] == exits;
    }
  }

  /** Carving into a cell outside the carved set strictly shrinks what is left to carve. */
  lemma ShrinkInterior(all: set<Cell>, before: set<Cell>, now: set<Cell>, c: Cell)
    requires before <= now && c in all && c !in now
    ensures all - (now + {c}) < all - before
  {
    assert c in all - before;
  }

  /**
   * `generateLogicalMaze(width, height, exits)`: the returned grid is path exactly on the
   * cells of the pure model's live carving followed by the exit pass.
   */
  method GenerateLogicalMaze(width: nat, height: nat, exits: seq<Exit>, rnd: Draws) returns (maze: array2<int>)
    requires 3 <= width && 3 <= height && ValidDraws(rnd)
    requires forall e :: e in exits ==> OnGrid(width, height, e)
    ensures fresh(maze) && maze.Length0 == height && maze.Length1 == width
    ensures forall z, x :: 0 <= z < height && 0 <= x < width ==>
              maze[z, x] == if (x, z) in GenerateOpen(Live, width, height, exits, rnd) then 0 else 1
  {
    var g := new Generator(width, height, rnd);
    g.CarvePassages(width / 2, height / 2);
    g.OpenExits(exits);
    maze := g.maze;
  }
}
