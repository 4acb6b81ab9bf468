/**
 * `generateMaze` of the two earlier versions (script_jan01.js and script_oldv1.js carry
 * the same function): an all-wall grid whose interior cells are each cleared when their
 * own draw from `Math.random` is below 0.3.
 */
module RandomFill {
  import opened Random

  /** Probability threshold: a draw below it clears the cell. */
  const ClearBelow: real := 0.3

  /**
   * The cells the two nested loops visit: strictly inside the outer ring, the same test as
   * `isInBounds` of the later generator. The earlier file has no such helper and writes the
   * loop bounds out, so this module keeps its own copy rather than depend on the carving model.
   */
  predicate Interior(width: int, height: int, x: int, z: int) {
    0 < x < width - 1 && 0 < z < height - 1
  }

  /** The interior is visited row by row, left to right: cell `(x, z)` takes this draw, counted from the first. */
  function DrawIndex(width: int, x: int, z: int): int {
    (z - 1) * (width - 2) + (x - 1)
  }

  /** How many draws one call takes: one per interior cell. */
  function DrawCount(width: int, height: int): (n: nat)
    ensures n == 0 <==> width <= 2 || height <= 2
  {
    if width <= 2 || height <= 2 then 0 else (height - 2) * (width - 2)
  }

  /** The value `generateMaze` leaves in cell `(x, z)` when its draws start at `rnd(next)`. */
  function FilledCell(width: int, height: int, rnd: Draws, next: nat, x: int, z: int): (v: int)
    ensures v == 0 || v == 1
    ensures !Interior(width, height, x, z) ==> v == 1
  {
    if !Interior(width, height, x, z) then 1
    else
      assert DrawIndex(width, x, z) >= 0 by {
        MulLeq(0, z - 1, width - 2);
      }
      if rnd(next + DrawIndex(width, x, z)) < ClearBelow then 0 else 1
  }

  /** The draw of every interior cell is among the first `DrawCount` ones. */
  lemma DrawIndexInRange(width: int, height: int, x: int, z: int)
    requires Interior(width, height, x, z)
    ensures 0 <= DrawIndex(width, x, z) < DrawCount(width, height)
  {
    var w := width - 2;
    assert (z - 1) * w <= (height - 3) * w by {
      MulLeq(z - 1, height - 3, w);
    }
  }

  /**
   * Every one of the first `DrawCount` draws belongs to an interior cell: draw `n` is taken
   * for row `n / (w - 2) + 1`, column `n % (w - 2) + 1`. With `DrawIndexInRange` and
   * `DrawIndexInjective`, the interior cells and the first `DrawCount` draws correspond one
   * to one: no draw is shared, so the cells are cleared independently.
   */
  lemma DrawIndexOnto(width: int, height: int, n: int)
    requires 0 <= n < DrawCount(width, height)
    ensures Interior(width, height, n % (width - 2) + 1, n / (width - 2) + 1)
    ensures DrawIndex(width, n % (width - 2) + 1, n / (width - 2) + 1) == n
  {
    var w := width - 2;
    var q, r := n / w, n % w;
    assert n == q * w + r;
    if q >= height - 2 {
      MulLeq(height - 2, q, w);
      assert false;
    }
  }

  lemma MulLeq(a: int, b: int, c: int)
    requires a <= b && 0 <= c
    ensures a * c <= b * c
  {
    assert b * c - a * c == (b - a) * c;
  }

  /** Two different interior cells take different draws. */
  lemma DrawIndexInjective(width: int, height: int, x1: int, z1: int, x2: int, z2: int)
    requires Interior(width, height, x1, z1) && Interior(width, height, x2, z2)
    requires (x1, z1) != (x2, z2)
    ensures DrawIndex(width, x1, z1) != DrawIndex(width, x2, z2)
  {
    var w := width - 2;
    if z1 == z2 {
    } else if z1 < z2 {
      MulLeq(z1 - 1 + 1, z2 - 1, w);
      assert (z1 - 1 + 1) * w == (z1 - 1) * w + w;
    } else {
      MulLeq(z2 - 1 + 1, z1 - 1, w);
      assert (z2 - 1 + 1) * w == (z2 - 1) * w + w;
    }
  }

  /**
   * Changing the draw of one interior cell changes no other cell: whether a cell is
   * cleared depends on its own draw alone.
   */
  lemma ClearedIndependently(width: int, height: int, rnd: Draws, other: Draws, next: nat, x: int, z: int, x': int, z': int)
    requires Interior(width, height, x, z) && (x', z') != (x, z)
    requires forall k: nat :: k != next + DrawIndex(width, x, z) ==> rnd(k) == other(k)
    ensures FilledCell(width, height, rnd, next, x', z') == FilledCell(width, height, other, next, x', z')
  {
    if Interior(width, height, x', z') {
      DrawIndexInjective(width, height, x, z, x', z');
      DrawIndexInRange(width, height, x', z');
    }
  }

  /**
   * `generateMaze(width, height)`: `height` rows of `width` ones, then for `z` in
   * `1 .. height - 2` and `x` in `1 .. width - 2` a draw below 0.3 clears `maze[z][x]`.
   * Draws are taken from `rnd(next)` on; `drawn` is the position after the last one.
   */
  method GenerateMaze(width: nat, height: nat, rnd: Draws, next: nat) returns (maze: array2<int>, drawn: nat)
    ensures fresh(maze) && maze.Length0 == height && maze.Length1 == width
    ensures forall z, x :: 0 <= z < height && 0 <= x < width ==> maze[z, x] == FilledCell(width, height, rnd, next, x, z)
    ensures drawn == next + DrawCount(width, height)
  {
    maze := new int[height, width]((z, x) => 1);
    drawn := next;
    ghost var cols := if width > 2 then width - 2 else 0;
    var z := 1;
    while z < height - 1
      invariant 1 <= z <= if height > 2 then height - 1 else 1
      invariant drawn == next + (z - 1) * cols
      invariant forall r, c :: 0 <= r < height && 0 <= c < width ==>
                  maze[r, c] == if r < z then FilledCell(width, height, rnd, next, c, r) else 1
    {
      var x := 1;
      while x < width - 1
        invariant 1 <= x <= if width > 2 then width - 1 else 1
        invariant drawn == next + (z - 1) * cols + (x - 1)
        invariant forall r, c :: 0 <= r < height && 0 <= c < width ==>
                    maze[r, c] == if r < z || (r == z && c < x) then FilledCell(width, height, rnd, next, c, r) else 1
      {
        assert drawn == next + DrawIndex(width, x, z);
        if rnd(drawn) < ClearBelow {
          maze[z, x] := 0;
        }
        drawn := drawn + 1;
        x := x + 1;
      }
      assert x - 1 == cols;
      z := z + 1;
    }
    assert (z - 1) * cols == DrawCount(width, height);
  }
}
