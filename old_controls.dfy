/**
 * The controls of script_oldv1.js: the exit arrow shown by `calculateExitDirection` and the
 * camera rotation of `move`, whose look keys only act while the pitch is on the allowed
 * side of an eighth of a turn. Reals stand for JavaScript's doubles.
 */
module OldControls {
  import opened PlayerControls

  const QuarterPi: real := Pi / 4.0

  const RightArrow: string := "→"
  const LeftArrow: string := "←"
  const UpArrow: string := "↑"
  const DownArrow: string := "↓"

  /** A position on the ground plane. */
  datatype Point = Point(x: real, z: real)

  function Abs(r: real): (a: real)
    ensures a >= 0.0 && (a == r || a == -r)
  {
    if r < 0.0 then -r else r
  }

  /**
   * `calculateExitDirection(exit)`: the arrow pointing from the camera towards the exit,
   * along the axis of the larger offset; a tie goes to the vertical arrows.
   */
  function CalculateExitDirection(exit: Point, camera: Point): (arrow: string)
    ensures arrow == RightArrow || arrow == LeftArrow || arrow == UpArrow || arrow == DownArrow
    ensures arrow == RightArrow <==> Abs(exit.x - camera.x) > Abs(exit.z - camera.z) && exit.x - camera.x > 0.0
    ensures arrow == LeftArrow <==> Abs(exit.x - camera.x) > Abs(exit.z - camera.z) && exit.x - camera.x <= 0.0
    ensures arrow == UpArrow <==> Abs(exit.x - camera.x) <= Abs(exit.z - camera.z) && exit.z - camera.z > 0.0
    ensures arrow == DownArrow <==> Abs(exit.x - camera.x) <= Abs(exit.z - camera.z) && exit.z - camera.z <= 0.0
  {
    var deltaX := exit.x - camera.x;
    var deltaZ := exit.z - camera.z;
    if Abs(deltaX) > Abs(deltaZ) then
      (if deltaX > 0.0 then RightArrow else LeftArrow)
    else
      (if deltaZ > 0.0 then UpArrow else DownArrow)
  }

  /** Moving the exit and the camera by the same offset shows the same arrow. */
  lemma ExitDirectionTranslates(exit: Point, camera: Point, dx: real, dz: real)
    ensures CalculateExitDirection(Point(exit.x + dx, exit.z + dz), Point(camera.x + dx, camera.z + dz))
         == CalculateExitDirection(exit, camera)
  {
    assert (exit.x + dx) - (camera.x + dx) == exit.x - camera.x;
    assert (exit.z + dz) - (camera.z + dz) == exit.z - camera.z;
  }

  /** Standing on the exit shows the down arrow. */
  lemma ExitDirectionAtExit(p: Point)
    ensures CalculateExitDirection(p, p) == DownArrow
  {
  }

  /**
   * The look gates of `move`: look-up lowers `rotation.x` only while it is above `-QuarterPi`,
   * then look-down raises it only while it is below `QuarterPi`. A pitch within one step of
   * the gates stays within one step of them.
   */
  function GatedPitch(x: real, lookUp: bool, lookDown: bool): (r: real)
    ensures -QuarterPi - RotateSpeed <= x <= QuarterPi + RotateSpeed ==> -QuarterPi - RotateSpeed <= r <= QuarterPi + RotateSpeed
    ensures !lookUp && !lookDown ==> r == x
    ensures lookUp && !lookDown ==> r == if x > -QuarterPi then x - RotateSpeed else x
    ensures lookDown && !lookUp ==> r == if x < QuarterPi then x + RotateSpeed else x
  {
    var up := if lookUp && x > -QuarterPi then x - RotateSpeed else x;
    if lookDown && up < QuarterPi then up + RotateSpeed else up
  }

  /** The pitch after one `move` per frame, with the look keys held in each frame as `looks` lists them. */
  function PitchAfter(x: real, looks: seq<(bool, bool)>): real
    decreases |looks|
  {
    if looks == [] then x else PitchAfter(GatedPitch(x, looks[0].0, looks[0].1), looks[1..])
  }

  /** Whatever keys are held, frame after frame, a pitch that starts within one step of the gates stays there. */
  lemma {:induction false} PitchStaysInBand(x: real, looks: seq<(bool, bool)>)
    requires -QuarterPi - RotateSpeed <= x <= QuarterPi + RotateSpeed
    ensures -QuarterPi - RotateSpeed <= PitchAfter(x, looks) <= QuarterPi + RotateSpeed
    decreases |looks|
  {
    if looks != [] {
      PitchStaysInBand(GatedPitch(x, looks[0].0, looks[0].1), looks[1..]);
    }
  }

  /** The camera of script_oldv1.js: `rotation.x` is the pitch, `rotation.y` the yaw. */
  class Camera {
    var rotationX: real
    var rotationY: real

    /** `camera.rotation.set(0, Math.PI, 0)`: level, facing back along the z axis. */
    constructor ()
      ensures rotationX == 0.0 && rotationY == Pi
      ensures -QuarterPi - RotateSpeed <= rotationX <= QuarterPi + RotateSpeed
    {
      rotationX := 0.0;
      rotationY := Pi;
    }

    /** The rotation part of `move`: turn with the rotation keys, then the two look gates. */
    method Move(rotateLeft: bool, rotateRight: bool, lookUp: bool, lookDown: bool)
      modifies this
      ensures rotationY == Turn(old(rotationY), rotateLeft, rotateRight)
      ensures rotationX == GatedPitch(old(rotationX), lookUp, lookDown)
    {
      if rotateLeft {
        rotationY := rotationY + RotateSpeed;
      }
      if rotateRight {
        rotationY := rotationY - RotateSpeed;
      }
      if lookUp && rotationX > -QuarterPi {
        rotationX := rotationX - RotateSpeed;
      }
      if lookDown && rotationX < QuarterPi {
        rotationX := rotationX + RotateSpeed;
      }
    }
  }
}
