/**
 * The per-frame controller arithmetic of script.js: the yaw and pitch update of
 * `movePlayer` and the choice of the exit the player stands on in
 * `handlePlayerCollisions`. Angles and positions are real numbers; the rounding of
 * JavaScript's doubles is not modelled.
 */
module PlayerControls {
  import opened Wrappers
  import opened LogicalMaze

  /** `Math.PI`, as the decimal JavaScript prints for it. */
  const Pi: real := 3.141592653589793
  const HalfPi: real := Pi / 2.0
  /** `rotateSpeed`: radians turned per frame while a rotation key is held. */
  const RotateSpeed: real := 0.05
  /** Distance below which the player counts as standing on an exit. */
  const ExitRadius: real := 0.5

  /** The key flags the `keydown` and `keyup` listeners maintain. */
  datatype Keys = Keys(forward: bool, backward: bool, rotateLeft: bool, rotateRight: bool, lookUp: bool, lookDown: bool)

  /** `THREE.MathUtils.lerp(x, y, t)`: the point a fraction `t` of the way from `x` to `y`. */
  function Lerp(x: real, y: real, t: real): (r: real)
    ensures r - x == t * (y - x)
    ensures t == 0.0 ==> r == x
    ensures t == 1.0 ==> r == y
  {
    (1.0 - t) * x + t * y
  }

  function Max(a: real, b: real): (r: real)
    ensures r >= a && r >= b && (r == a || r == b)
  {
    if a >= b then a else b
  }

  function Min(a: real, b: real): (r: real)
    ensures r <= a && r <= b && (r == a || r == b)
  {
    if a <= b then a else b
  }

  /** `Math.min(Math.max(v, lo), hi)`: `v` pulled into `[lo, hi]`. */
  function Clamp(v: real, lo: real, hi: real): (r: real)
    requires lo <= hi
    ensures lo <= r <= hi
    ensures lo <= v <= hi ==> r == v
    ensures v < lo ==> r == lo
    ensures v > hi ==> r == hi
  {
    Min(Max(v, lo), hi)
  }

  /** Yaw after the two rotation tests: left adds `RotateSpeed`, right subtracts it, both cancel. */
  function Turn(yaw: real, left: bool, right: bool): (r: real)
    ensures left == right ==> r == yaw
    ensures left && !right ==> r == yaw + RotateSpeed
    ensures right && !left ==> r == yaw - RotateSpeed
  {
    var turned := if left then yaw + RotateSpeed else yaw;
    if right then turned - RotateSpeed else turned
  }

  /**
   * Pitch after one frame of `movePlayer`: eased a tenth of the way to level while moving,
   * raised by look-up, lowered by look-down, then clamped to a quarter turn either way.
   */
  function NextPitch(pitch: real, keys: Keys): (r: real)
    ensures -HalfPi <= r <= HalfPi
    ensures r == Clamp((if keys.forward || keys.backward then 0.9 * pitch else pitch)
                       + (if keys.lookUp then RotateSpeed else 0.0) - (if keys.lookDown then RotateSpeed else 0.0),
                       -HalfPi, HalfPi)
    ensures !keys.lookUp && !keys.lookDown && -HalfPi <= pitch <= HalfPi ==>
              r == if keys.forward || keys.backward then 0.9 * pitch else pitch
  {
    var eased := if keys.forward || keys.backward then Lerp(pitch, 0.0, 0.1) else pitch;
    var raised := if keys.lookUp then eased + RotateSpeed else eased;
    var lowered := if keys.lookDown then raised - RotateSpeed else raised;
    Clamp(lowered, -HalfPi, HalfPi)
  }

  /** Holding both look keys is the same as holding neither. */
  lemma LookKeysCancel(pitch: real, keys: Keys)
    requires keys.lookUp && keys.lookDown
    ensures NextPitch(pitch, keys) == NextPitch(pitch, keys.(lookUp := false, lookDown := false))
  {
    var eased := if keys.forward || keys.backward then Lerp(pitch, 0.0, 0.1) else pitch;
    assert eased + RotateSpeed - RotateSpeed == eased;
  }

  /** A higher pitch stays at least as high after the same frame. */
  lemma PitchMonotone(p: real, q: real, keys: Keys)
    requires p <= q
    ensures NextPitch(p, keys) <= NextPitch(q, keys)
  {
    if keys.forward || keys.backward {
      assert Lerp(p, 0.0, 0.1) == 0.9 * p && Lerp(q, 0.0, 0.1) == 0.9 * q;
    }
  }

  /** The camera angles `movePlayer` keeps in the globals `playerYaw` and `playerPitch`. */
  class Player {
    var yaw: real
    var pitch: real

    /** `playerYaw = Math.PI`, `playerPitch = 0`. */
    constructor ()
      ensures yaw == Pi && pitch == 0.0
    {
      yaw := Pi;
      pitch := 0.0;
    }

    /** The rotation part of `movePlayer`: yaw from the turn keys, pitch eased, tilted and clamped. */
    method MovePlayer(keys: Keys)
      modifies this
      ensures yaw == Turn(old(yaw), keys.rotateLeft, keys.rotateRight)
      ensures pitch == NextPitch(old(pitch), keys)
      ensures -HalfPi <= pitch <= HalfPi
    {
      if keys.rotateLeft {
        yaw := yaw + RotateSpeed;
      }
      if keys.rotateRight {
        yaw := yaw - RotateSpeed;
      }
      if keys.forward || keys.backward {
        pitch := Lerp(pitch, 0.0, 0.1);
      }
      if keys.lookUp {
        pitch := pitch + RotateSpeed;
      }
      if keys.lookDown {
        pitch := pitch - RotateSpeed;
      }
      pitch := Min(Max(pitch, -HalfPi), HalfPi);
    }
  }

  /** Where the exit cell's centre lies in the world: `(exit.x - width / 2, -(exit.z - height / 2))`. */
  function ExitCentre(width: int, height: int, e: Exit): (c: (real, real))
    ensures e.x as real == c.0 + width as real / 2.0 && e.z as real == height as real / 2.0 - c.1
  {
    (e.x as real - width as real / 2.0, -(e.z as real - height as real / 2.0))
  }

  /**
   * The player at `(px, pz)` is closer than `ExitRadius` to the exit's centre. The height
   * of the comparison point is the player's own, so only the horizontal offset counts;
   * squares are compared, which is the same test since both sides are non-negative.
   */
  predicate Near(width: int, height: int, px: real, pz: real, e: Exit)
    ensures Near(width, height, px, pz, e) ==>
              var c := ExitCentre(width, height, e);
              -ExitRadius < px - c.0 < ExitRadius && -ExitRadius < pz - c.1 < ExitRadius
  {
    var (cx, cz) := ExitCentre(width, height, e);
    SquareBelow(px - cx, pz - cz);
    SquareBelow(pz - cz, px - cx);
    (px - cx) * (px - cx) + (pz - cz) * (pz - cz) < ExitRadius * ExitRadius
  }

  /** A point within `ExitRadius` of another lies within `ExitRadius` of it along each axis. */
  lemma SquareBelow(a: real, b: real)
    ensures a * a + b * b < ExitRadius * ExitRadius ==> -ExitRadius < a < ExitRadius
  {
    if a >= ExitRadius {
      assert a * a >= ExitRadius * a >= ExitRadius * ExitRadius;
    } else if a <= -ExitRadius {
      assert a * a >= -ExitRadius * a >= ExitRadius * ExitRadius;
    }
  }

  /**
   * `distance < 0.5`, with `distance` the horizontal length `playerPosition.distanceTo(...)`
   * returns (the comparison point has the player's own height), holds exactly when `Near` does.
   */
  lemma NearIsDistanceTest(width: int, height: int, px: real, pz: real, e: Exit, distance: real)
    requires distance >= 0.0
    requires var c := ExitCentre(width, height, e);
             distance * distance == (px - c.0) * (px - c.0) + (pz - c.1) * (pz - c.1)
    ensures Near(width, height, px, pz, e) <==> distance < ExitRadius
  {
    assert Near(width, height, px, pz, e) <==> distance * distance < ExitRadius * ExitRadius;
    if distance >= ExitRadius {
      assert distance * distance >= ExitRadius * distance >= ExitRadius * ExitRadius;
    } else {
      assert distance * distance <= ExitRadius * distance < ExitRadius * ExitRadius;
    }
  }

  /**
   * The exit loop of `handlePlayerCollisions`: the index of the first exit in list order
   * the player is near, whose page it would open; `None` when there is none.
   */
  method FindReachedExit(width: int, height: int, exits: seq<Exit>, px: real, pz: real) returns (found: Option<nat>)
    ensures found.Some? ==> found.value < |exits| && Near(width, height, px, pz, exits[found.value])
    ensures found.Some? ==> forall j :: 0 <= j < found.value ==> !Near(width, height, px, pz, exits[j])
    ensures found.None? <==> forall j :: 0 <= j < |exits| ==> !Near(width, height, px, pz, exits[j])
  {
    var i := 0;
    while i < |exits|
      invariant 0 <= i <= |exits|
      invariant forall j :: 0 <= j < i ==> !Near(width, height, px, pz, exits[j])
    {
      if Near(width, height, px, pz, exits[i]) {
        return Some(i);
      }
      i := i + 1;
    }
    return None;
  }

  /** `(a + b)^2 <= 2 a^2 + 2 b^2`. */
  lemma SquareOfSum(a: real, b: real)
    ensures (a + b) * (a + b) <= 2.0 * (a * a) + 2.0 * (b * b)
  {
    assert 2.0 * (a * a) + 2.0 * (b * b) - (a + b) * (a + b) == (a - b) * (a - b);
  }

  /** Two points are at most twice the sum of their squared distances to a third apart, squared. */
  lemma ThroughPoint(px: real, pz: real, ax: real, az: real, bx: real, bz: real)
    ensures (ax - bx) * (ax - bx) + (az - bz) * (az - bz)
         <= 2.0 * ((px - ax) * (px - ax) + (pz - az) * (pz - az)) + 2.0 * ((px - bx) * (px - bx) + (pz - bz) * (pz - bz))
  {
    SquareOfSum(ax - px, px - bx);
    SquareOfSum(az - pz, pz - bz);
    assert (px - ax) * (px - ax) == (ax - px) * (ax - px);
    assert (pz - az) * (pz - az) == (az - pz) * (az - pz);
  }

  /** An integer that is not zero has a square of at least one. */
  lemma IntSquare(n: int)
    ensures n != 0 ==> (n as real) * (n as real) >= 1.0
  {
    if n > 0 {
      assert (n as real) * (n as real) >= n as real;
    } else if n < 0 {
      assert (n as real) * (n as real) >= -(n as real);
    }
  }

  /** The centres of two different cells are at least one apart. */
  lemma CentresApart(width: int, height: int, a: Exit, b: Exit)
    requires (a.x, a.z) != (b.x, b.z)
    ensures var ca, cb := ExitCentre(width, height, a), ExitCentre(width, height, b);
            (ca.0 - cb.0) * (ca.0 - cb.0) + (ca.1 - cb.1) * (ca.1 - cb.1) >= 1.0
  {
    var ca, cb := ExitCentre(width, height, a), ExitCentre(width, height, b);
    assert ca.0 - cb.0 == (a.x - b.x) as real && ca.1 - cb.1 == -((a.z - b.z) as real);
    IntSquare(a.x - b.x);
    IntSquare(a.z - b.z);
  }

  /**
   * The player is never near two exits on different cells: their centres are at least
   * one apart, and each is less than half away. So the loop's choice does not depend on
   * the order of exits on distinct cells.
   */
  lemma NearAtMostOne(width: int, height: int, px: real, pz: real, a: Exit, b: Exit)
    requires (a.x, a.z) != (b.x, b.z)
    ensures Near(width, height, px, pz, a) ==> !Near(width, height, px, pz, b)
  {
    var ca, cb := ExitCentre(width, height, a), ExitCentre(width, height, b);
    CentresApart(width, height, a, b);
    ThroughPoint(px, pz, ca.0, ca.1, cb.0, cb.1);
  }
}
