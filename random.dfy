/**
 * `Math.random` as an injected source of draws.
 *
 * A run of the program sees one stream of draws; `rnd(k)` is the k-th draw of
 * the stream. Every property in this project is stated for every such stream,
 * so nothing depends on the distribution of the draws.
 */
module Random {

  type Draws = nat -> real

  /** Every draw lies in [0, 1), as `Math.random` promises. */
  ghost predicate ValidDraws(rnd: Draws) {
    forall k: nat :: 0.0 <= rnd(k) < 1.0
  }

  /** `Math.floor(Math.random() * (i + 1))`: the partner index of one Fisher-Yates step. */
  function SwapIndex(r: real, i: nat): (j: nat)
    requires 0.0 <= r < 1.0
    ensures j <= i
  {
    var n := (i + 1) as real;
    var scaled := r * n;
    assert 0.0 <= scaled < n by {
      assert n - scaled == (1.0 - r) * n;
      ProductPositive(1.0 - r, n);
      ProductPositive(n, r);
    }
    scaled.Floor
  }

  lemma ProductPositive(a: real, b: real)
    requires 0.0 < a && 0.0 <= b
    ensures 0.0 <= a * b && (0.0 < b ==> 0.0 < a * b)
  {
  }

  /** Exchanges positions `i` and `j`, as the destructuring assignment `[a[i], a[j]] = [a[j], a[i]]` does. */
  function Swap<T>(a: seq<T>, i: nat, j: nat): (b: seq<T>)
    requires i < |a| && j < |a|
    ensures |b| == |a| && b[i] == a[j] && b[j] == a[i]
    ensures forall k :: 0 <= k < |a| && k != i && k != j ==> b[k] == a[k]
  {
    a[i := a[j]][j := a[i]]
  }

  lemma SwapPermutes<T>(a: seq<T>, i: nat, j: nat)
    requires i < |a| && j < |a|
    ensures multiset(Swap(a, i, j)) == multiset(a)
  {
  }

  /**
   * The Fisher-Yates loop `for (let i = n - 1; i > 0; i--)` started at index `i`,
   * consuming one draw per step from position `next` of the stream.
   */
  function Shuffled<T>(a: seq<T>, i: int, rnd: Draws, next: nat): (b: seq<T>)
    requires ValidDraws(rnd) && i < |a|
    ensures |b| == |a|
    decreases i
  {
    if i <= 0 then a
    else Shuffled(Swap(a, i, SwapIndex(rnd(next), i)), i - 1, rnd, next + 1)
  }

  /** Whatever the draws, the shuffle only reorders: the result is a permutation of the input. */
  lemma {:induction false} ShuffledPermutes<T>(a: seq<T>, i: int, rnd: Draws, next: nat)
    requires ValidDraws(rnd) && i < |a|
    ensures multiset(Shuffled(a, i, rnd, next)) == multiset(a)
    decreases i
  {
    if i > 0 {
      var j := SwapIndex(rnd(next), i);
      SwapPermutes(a, i, j);
      ShuffledPermutes(Swap(a, i, j), i - 1, rnd, next + 1);
    }
  }

  /** One step of the loop: swap at `i` with the partner drawn from position `next`, then go on at `i - 1`. */
  lemma ShuffledStep<T>(a: seq<T>, i: nat, rnd: Draws, next: nat)
    requires ValidDraws(rnd) && 0 < i < |a|
    ensures Shuffled(a, i, rnd, next) == Shuffled(Swap(a, i, SwapIndex(rnd(next), i)), i - 1, rnd, next + 1)
  {
  }

  /**
   * `shuffle(array)`: for `i` from the last index down to 1, swap `a[i]` with `a[j]` for
   * `j = floor(r * (i + 1))`, where `r` is the next draw. The draws are `rnd(next)`,
   * `rnd(next + 1)`, ...; `drawn` is the position after the last one taken.
   */
  method Shuffle<T>(a: array<T>, rnd: Draws, next: nat) returns (drawn: nat)
    requires ValidDraws(rnd)
    modifies a
    ensures a[..] == Shuffled(old(a[..]), a.Length - 1, rnd, next)
    ensures drawn == next + if a.Length == 0 then 0 else a.Length - 1
  {
    ghost var goal := Shuffled(a[..], a.Length - 1, rnd, next);
    var i := a.Length - 1;
    drawn := next;
    while i > 0
      invariant (if a.Length == 0 then i == -1 else 0 <= i < a.Length) && drawn == next + (a.Length - 1 - i)
      invariant Shuffled(a[..], i, rnd, drawn) == goal
    {
      var j := SwapIndex(rnd(drawn), i);
      ShuffledStep(a[..], i, rnd, drawn);
      a[i], a[j] := a[j], a[i];
      drawn, i := drawn + 1, i - 1;
    }
  }
}
