/**
 * Cells of a maze grid and 4-connected paths through a set of open cells.
 *
 * A cell is written `(x, z)`: column first, row second, as the maze code indexes
 * `maze[z][x]`.
 */
module GridPaths {

  type Cell = (int, int)

  /** The two cells share an edge. */
  predicate Adjacent(a: Cell, b: Cell) {
    (a.0 == b.0 && (a.1 - b.1 == 1 || b.1 - a.1 == 1)) ||
    (a.1 == b.1 && (a.0 - b.0 == 1 || b.0 - a.0 == 1))
  }

  /** `p` walks from cell to adjacent cell and never leaves `open`. */
  ghost predicate IsPathIn(open: set<Cell>, p: seq<Cell>) {
    && |p| > 0
    && (forall i :: 0 <= i < |p| ==> p[i] in open)
    && (forall i :: 0 < i < |p| ==> Adjacent(p[i - 1], p[i]))
  }

  /** `b` can be reached from `a` by a walk through open cells. */
  ghost predicate Reach(open: set<Cell>, a: Cell, b: Cell) {
    exists p :: IsPathIn(open, p) && p[0] == a && p[|p| - 1] == b
  }

  lemma ReachRefl(open: set<Cell>, a: Cell)
    requires a in open
    ensures Reach(open, a, a)
  {
    assert IsPathIn(open, [a]);
  }

  /** Opening more cells never breaks a walk. */
  lemma ReachMono(open: set<Cell>, more: set<Cell>, a: Cell, b: Cell)
    requires open <= more && Reach(open, a, b)
    ensures Reach(more, a, b)
  {
    var p :| IsPathIn(open, p) && p[0] == a && p[|p| - 1] == b;
    assert IsPathIn(more, p);
  }

  /** A walk to `b` extends by one step to an open neighbour of `b`. */
  lemma ReachStep(open: set<Cell>, a: Cell, b: Cell, c: Cell)
    requires Reach(open, a, b) && Adjacent(b, c) && c in open
    ensures Reach(open, a, c)
  {
    var p :| IsPathIn(open, p) && p[0] == a && p[|p| - 1] == b;
    var q := p + [c];
    assert IsPathIn(open, q);
  }

  lemma ReachTrans(open: set<Cell>, a: Cell, b: Cell, c: Cell)
    requires Reach(open, a, b) && Reach(open, b, c)
    ensures Reach(open, a, c)
  {
    var p :| IsPathIn(open, p) && p[0] == a && p[|p| - 1] == b;
    var q :| IsPathIn(open, q) && q[0] == b && q[|q| - 1] == c;
    var r := p + q[1..];
    assert forall i :: |p| <= i < |r| ==> r[i] == q[i - |p| + 1];
    assert IsPathIn(open, r);
  }
}
