/**
 * The orbit camera of both application variants: an eye, a target and an up
 * vector, a pan offset in the camera's right/up axes, a zoom offset along the
 * view direction clamped to [-1, 4], a speed, and four movement flags that the
 * per-frame update integrates into the pan offset.
 */
module Camera {
  import opened Mesh

  /** `Direction`: the four keyboard movement directions. */
  datatype Direction = Front | Back | Left | Right

  const ScrollSensitivity: real := 0.0001
  const MinZ: real := -1.0
  const MaxZ: real := 4.0

  /**
   * The view matrix, kept as the look-at frame it is computed from: the
   * right-handed look-at matrix of `eye` and `target`, both moved by
   * `right * panX + up * panY + viewDirection * zoom`, where viewDirection is
   * the normalised `target - eye` and right the normalised `up x viewDirection`.
   * `Unset` is the matrix before anything has computed it.
   */
  datatype ViewMatrix =
    | Unset
    | LookAt(eye: Vec3, target: Vec3, up: Vec3, panX: real, panY: real, zoom: real)

  /** The zoom offset after a wheel step of `dz`: moved by `dz * 0.0001`, clamped to [-1, 4]. */
  function Zoomed(offset: real, dz: real): (r: real)
    ensures MinZ <= r <= MaxZ
    ensures MinZ <= offset + dz * ScrollSensitivity <= MaxZ ==> r == offset + dz * ScrollSensitivity
    ensures offset + dz * ScrollSensitivity < MinZ ==> r == MinZ
    ensures MaxZ < offset + dz * ScrollSensitivity ==> r == MaxZ
  {
    var z := offset + dz * ScrollSensitivity;
    if z < MinZ then MinZ
    else if z > MaxZ then MaxZ
    else z
  }

  /** The zoom offset after the wheel steps `dzs`, in order. */
  function ZoomedAll(offset: real, dzs: seq<real>): real
    decreases |dzs|
  {
    if dzs == [] then offset else ZoomedAll(Zoomed(offset, dzs[0]), dzs[1..])
  }

  /** Any sequence of zoom steps from an in-range offset stays in [-1, 4]. */
  lemma {:induction false} ZoomedAllInRange(offset: real, dzs: seq<real>)
    requires MinZ <= offset <= MaxZ
    ensures MinZ <= ZoomedAll(offset, dzs) <= MaxZ
    decreases |dzs|
  {
    if dzs != [] {
      ZoomedAllInRange(Zoomed(offset, dzs[0]), dzs[1..]);
    }
  }

  /**
   * A zoom in of any size followed by a zoom out of at least 50000 wheel units
   * (5.0 after scaling, the width of the range) ends exactly at the near limit:
   * the first step's overshoot was clamped away, not remembered.
   */
  lemma ZoomOutAfterZoomInEndsAtMin(offset: real, zoomIn: real, zoomOut: real)
    requires 50000.0 <= zoomOut
    ensures ZoomedAll(offset, [zoomIn, -zoomOut]) == MinZ
  {
    var mid := Zoomed(offset, zoomIn);
    assert [zoomIn, -zoomOut][1..] == [-zoomOut];
    assert ZoomedAll(offset, [zoomIn, -zoomOut]) == ZoomedAll(mid, [-zoomOut]);
    assert ZoomedAll(mid, [-zoomOut]) == ZoomedAll(Zoomed(mid, -zoomOut), []);
  }

  /** The pan step one axis receives from a pair of opposite movement flags. */
  function AxisStep(forward: bool, backward: bool, velocity: real): (d: real)
    ensures forward == backward ==> d == 0.0
    ensures forward && !backward ==> d == velocity
    ensures !forward && backward ==> d == -velocity
  {
    (if forward then velocity else 0.0) + (if backward then -velocity else 0.0)
  }

  /** The cosine and sine of a rotation angle. */
  datatype Turn = Turn(cos: real, sin: real)

  predicate IsTurn(t: Turn)
  {
    t.cos * t.cos + t.sin * t.sin == 1.0
  }

  /** `XMVector3TransformNormal(v, XMMatrixRotationY(angle))`. */
  function RotateY(v: Vec3, t: Turn): Vec3
  {
    Vec3(v.x * t.cos + v.z * t.sin, v.y, v.z * t.cos - v.x * t.sin)
  }

  /** `XMVector3TransformNormal(v, XMMatrixRotationX(angle))`. */
  function RotateX(v: Vec3, t: Turn): Vec3
  {
    Vec3(v.x, v.y * t.cos - v.z * t.sin, v.y * t.sin + v.z * t.cos)
  }

  function NormSquared(v: Vec3): real
  {
    v.x * v.x + v.y * v.y + v.z * v.z
  }

  lemma PlaneRotationKeepsLength(a: real, b: real, c: real, s: real)
    requires c * c + s * s == 1.0
    ensures (a * c + b * s) * (a * c + b * s) + (b * c - a * s) * (b * c - a * s) == a * a + b * b
  {
    calc {
      (a * c + b * s) * (a * c + b * s) + (b * c - a * s) * (b * c - a * s);
      a * a * (c * c + s * s) + b * b * (c * c + s * s);
      a * a + b * b;
    }
  }

  /** Orbiting moves the eye on a sphere around the origin: yaw then pitch keep its distance. */
  lemma OrbitKeepsDistance(v: Vec3, yaw: Turn, pitch: Turn)
    requires IsTurn(yaw) && IsTurn(pitch)
    ensures NormSquared(RotateX(RotateY(v, yaw), pitch)) == NormSquared(v)
  {
    PlaneRotationKeepsLength(v.x, v.z, yaw.cos, yaw.sin);
    var u := RotateY(v, yaw);
    PlaneRotationKeepsLength(u.y, -u.z, pitch.cos, pitch.sin);
  }

  /**
   * The camera fields of an application object (Application2.h:77-90). The
   * movement flags are never initialised by the source before the first key
   * event; the constructor takes their initial values as parameters.
   */
  class OrbitCamera {
    var cameraPosition: Vec3
    var cameraTarget: Vec3
    var cameraUp: Vec3
    var viewMatrix: ViewMatrix
    var cameraSpeed: real
    var cameraOffsetZ: real
    var modelScale: real
    var viewOffsetX: real
    var viewOffsetY: real
    var isMovingLeft: bool
    var isMovingRight: bool
    var isMovingFront: bool
    var isMovingBack: bool

    /** The camera invariant: the zoom offset is within its clamp range. */
    ghost predicate Valid()
      reads this
    {
      MinZ <= cameraOffsetZ <= MaxZ
    }

    /** The view matrix UpdateViewMatrix computes from the current fields. */
    function CurrentView(): ViewMatrix
      reads this
    {
      LookAt(cameraPosition, cameraTarget, cameraUp, viewOffsetX, viewOffsetY, cameraOffsetZ)
    }

    function IsMoving(d: Direction): bool
      reads this
    {
      match d
      case Front => isMovingFront
      case Back => isMovingBack
      case Left => isMovingLeft
      case Right => isMovingRight
    }

    /** The defaults InitializeCamera restores. */
    ghost predicate AtHome()
      reads this
    {
      cameraPosition == Vec3(1.0, 1.0, -1.0) && cameraTarget == Vec3(0.0, 0.0, 0.0) &&
      cameraUp == Vec3(0.0, 1.0, 0.0) && cameraSpeed == 1.0 && modelScale == 1.0 &&
      viewOffsetX == 0.0 && viewOffsetY == 0.0 && cameraOffsetZ == 0.0
    }

    /** The camera as `initialize_directX` leaves it: InitializeCamera has run, no view computed yet. */
    constructor (front: bool, back: bool, left: bool, right: bool)
      ensures Valid() && AtHome() && viewMatrix == Unset
      ensures isMovingFront == front && isMovingBack == back
      ensures isMovingLeft == left && isMovingRight == right
    {
      cameraPosition, cameraTarget, cameraUp := Vec3(1.0, 1.0, -1.0), Vec3(0.0, 0.0, 0.0), Vec3(0.0, 1.0, 0.0);
      cameraSpeed, modelScale := 1.0, 1.0;
      viewOffsetX, viewOffsetY, cameraOffsetZ := 0.0, 0.0, 0.0;
      viewMatrix := Unset;
      isMovingFront, isMovingBack, isMovingLeft, isMovingRight := front, back, left, right;
    }

    /**
     * The "home" command: restores the defaults whatever the earlier pan,
     * zoom and orbit history. It neither touches the movement flags nor
     * recomputes the view matrix (the next frame does).
     */
    method InitializeCamera()
      modifies this`cameraPosition, this`cameraTarget, this`cameraUp, this`cameraSpeed,
               this`modelScale, this`viewOffsetX, this`viewOffsetY, this`cameraOffsetZ
      ensures Valid() && AtHome()
    {
      cameraPosition := Vec3(1.0, 1.0, -1.0);
      cameraTarget := Vec3(0.0, 0.0, 0.0);
      cameraUp := Vec3(0.0, 1.0, 0.0);
      cameraSpeed := 1.0;
      modelScale := 1.0;
      viewOffsetX := 0.0;
      viewOffsetY := 0.0;
      cameraOffsetZ := 0.0;
    }

    /** Recomputes the view matrix from the current fields and changes nothing else. */
    method UpdateViewMatrix()
      modifies this`viewMatrix
      ensures viewMatrix == CurrentView()
    {
      viewMatrix := CurrentView();
    }

    /**
     * Adds (dx, dy) to the pan offset and recomputes the view. Eye and target
     * stay where they are, so the look direction `target - eye` is unchanged:
     * panning slides the whole look-at frame.
     */
    method PanModel(dx: real, dy: real)
      requires Valid()
      modifies this`viewOffsetX, this`viewOffsetY, this`viewMatrix
      ensures Valid()
      ensures viewOffsetX == old(viewOffsetX) + dx && viewOffsetY == old(viewOffsetY) + dy
      ensures viewMatrix == CurrentView()
    {
      viewOffsetX := viewOffsetX + dx;
      viewOffsetY := viewOffsetY + dy;
      UpdateViewMatrix();
    }

    /**
     * Moves the zoom offset by `dz * 0.0001`, clamped to [-1, 4], and
     * recomputes the view. The clamp restores the invariant from any state.
     */
    method ZoomView(dz: real)
      modifies this`cameraOffsetZ, this`viewMatrix
      ensures Valid()
      ensures cameraOffsetZ == Zoomed(old(cameraOffsetZ), dz)
      ensures viewMatrix == CurrentView()
    {
      cameraOffsetZ := cameraOffsetZ + dz * ScrollSensitivity;
      if cameraOffsetZ < MinZ {
        cameraOffsetZ := MinZ;
      } else if cameraOffsetZ > MaxZ {
        cameraOffsetZ := MaxZ;
      }
      UpdateViewMatrix();
    }

    /**
     * Orbits the eye about the origin: a rotation about Y by `yaw` (the
     * drag's -dx) and then about X by `pitch` (its -dy), then recomputes the
     * view. The sine and cosine come from DirectXMath.
     */
    method RotateModel(yaw: Turn, pitch: Turn)
      requires Valid() && IsTurn(yaw) && IsTurn(pitch)
      modifies this`cameraPosition, this`viewMatrix
      ensures Valid()
      ensures cameraPosition == RotateX(RotateY(old(cameraPosition), yaw), pitch)
      ensures NormSquared(cameraPosition) == NormSquared(old(cameraPosition))
      ensures viewMatrix == CurrentView()
    {
      var position := RotateY(cameraPosition, yaw);
      position := RotateX(position, pitch);
      OrbitKeepsDistance(cameraPosition, yaw, pitch);
      cameraPosition := position;
      UpdateViewMatrix();
    }

    /** Key down: raises the flag of `d` and no other. */
    method MoveCamera(d: Direction)
      modifies this`isMovingFront, this`isMovingBack, this`isMovingLeft, this`isMovingRight
      ensures IsMoving(d)
      ensures isMovingFront == (d == Front || old(isMovingFront))
      ensures isMovingBack == (d == Back || old(isMovingBack))
      ensures isMovingLeft == (d == Left || old(isMovingLeft))
      ensures isMovingRight == (d == Right || old(isMovingRight))
    {
      match d
      case Front => isMovingFront := true;
      case Back => isMovingBack := true;
      case Left => isMovingLeft := true;
      case Right => isMovingRight := true;
    }

    /** Key up: lowers the flag of `d` and no other. */
    method StopCamera(d: Direction)
      modifies this`isMovingFront, this`isMovingBack, this`isMovingLeft, this`isMovingRight
      ensures !IsMoving(d)
      ensures isMovingFront == (d != Front && old(isMovingFront))
      ensures isMovingBack == (d != Back && old(isMovingBack))
      ensures isMovingLeft == (d != Left && old(isMovingLeft))
      ensures isMovingRight == (d != Right && old(isMovingRight))
    {
      match d
      case Front => isMovingFront := false;
      case Back => isMovingBack := false;
      case Left => isMovingLeft := false;
      case Right => isMovingRight := false;
    }

    /**
     * Integrates the movement flags over `deltaTime` seconds: each raised flag
     * pans by `cameraSpeed * deltaTime` along its axis (front +y, back -y,
     * left +x, right -x). Opposite flags cancel, and with no flag raised
     * nothing changes, not even the view matrix.
     */
    method UpdateCameraPosition(deltaTime: real)
      requires Valid()
      modifies this`viewOffsetX, this`viewOffsetY, this`viewMatrix
      ensures Valid()
      ensures viewOffsetX == old(viewOffsetX) + AxisStep(isMovingLeft, isMovingRight, cameraSpeed * deltaTime)
      ensures viewOffsetY == old(viewOffsetY) + AxisStep(isMovingFront, isMovingBack, cameraSpeed * deltaTime)
      ensures isMovingFront == isMovingBack ==> viewOffsetY == old(viewOffsetY)
      ensures isMovingLeft == isMovingRight ==> viewOffsetX == old(viewOffsetX)
      ensures viewMatrix == if isMovingFront || isMovingBack || isMovingLeft || isMovingRight
                            then CurrentView() else old(viewMatrix)
    {
      var velocity := cameraSpeed * deltaTime;
      if isMovingFront {
        PanModel(0.0, velocity);
      }
      if isMovingBack {
        PanModel(0.0, -velocity);
      }
      if isMovingLeft {
        PanModel(velocity, 0.0);
      }
      if isMovingRight {
        PanModel(-velocity, 0.0);
      }
    }

    /**
     * The camera part of a frame's Update: integrate the movement, then
     * recompute the view, which is therefore current afterwards.
     */
    method Update(deltaTime: real)
      requires Valid()
      modifies this`viewOffsetX, this`viewOffsetY, this`viewMatrix
      ensures Valid()
      ensures viewOffsetX == old(viewOffsetX) + AxisStep(isMovingLeft, isMovingRight, cameraSpeed * deltaTime)
      ensures viewOffsetY == old(viewOffsetY) + AxisStep(isMovingFront, isMovingBack, cameraSpeed * deltaTime)
      ensures viewMatrix == CurrentView()
    {
      UpdateCameraPosition(deltaTime);
      UpdateViewMatrix();
    }
  }
}
