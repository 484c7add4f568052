/** Scene geometry shared by the traffic stepper and the camera director:
    the road and lane layout, the mat, buffer-zone and work-zone bounds,
    the fixed landmarks the cinematic looks at, and camera poses. */
module Scene {

  datatype Option<T> = None | Some(value: T)

  // ---------- Road layout ----------
  const RoadLen: real := 140.0
  const RoadW: real := 16.0
  const LaneCount: nat := 4
  const LaneW: real := RoadW / LaneCount as real
  /** The lane closed by the work site (the right-hand lane). */
  const WorkLane: nat := 0

  /** Longitudinal span of the road markings; cars are recycled past XEnd + 40. */
  const XStart: real := 40.0 - RoadLen / 2.0 + 2.0
  const XEnd: real := 40.0 + RoadLen / 2.0 - 2.0

  // ---------- Hazard layout along the travel axis ----------
  /** Start and length of the rubber mat on the work lane. */
  const XTapis: real := -5.0
  const TapisLen: real := 10.0
  const TapisBufferGap: real := 6.0
  /** Entrance of the buffer zone. */
  const XZone: real := XTapis + TapisLen + TapisBufferGap
  const BufferLen: real := 26.0
  /** Start of the work zone proper. */
  const XWork: real := XZone + BufferLen - 6.5
  const TruckX: real := XZone + 4.0

  /** Lateral offset of the centre of a lane. */
  function LaneCenter(lane: int): (c: real)
    ensures -RoadW / 2.0 + lane as real * LaneW < c < -RoadW / 2.0 + (lane + 1) as real * LaneW
  {
    -RoadW / 2.0 + (lane as real + 0.5) * LaneW
  }

  const YWork: real := LaneCenter(WorkLane)

  // ---------- Vectors and camera poses ----------
  datatype Vec3 = Vec3(x: real, y: real, z: real)

  /** A camera pose: the camera position and the point the orbit controls look at. */
  datatype Frame = Frame(pos: Vec3, target: Vec3)

  const SceneCenter: Vec3 := Vec3(58.0, 2.0, 0.9)
  const DefaultPos: Vec3 := Vec3(-14.0, -24.0, 10.5)
  const DefaultFrame: Frame := Frame(DefaultPos, SceneCenter)

  /** Lens of the camera mounted on the signalling truck. */
  const SignalOrigin: Vec3 := Vec3(TruckX - 0.18, YWork + 0.10, 2.08)
  /** Helmet of the first worker. */
  const Helmet: Vec3 := Vec3(XWork + 6.0, YWork - 0.95, 1.07)

  function Add(a: Vec3, b: Vec3): Vec3 {
    Vec3(a.x + b.x, a.y + b.y, a.z + b.z)
  }

  /** `a + (b - a) * alpha`, component-wise (the library's vector lerp). The
      remaining offset to `b` is the old offset scaled by `1 - alpha`. */
  function Lerp(a: Vec3, b: Vec3, alpha: real): (r: Vec3)
    ensures b.x - r.x == (1.0 - alpha) * (b.x - a.x)
    ensures b.y - r.y == (1.0 - alpha) * (b.y - a.y)
    ensures b.z - r.z == (1.0 - alpha) * (b.z - a.z)
    ensures alpha == 0.0 ==> r == a
    ensures alpha == 1.0 ==> r == b
  {
    Vec3(a.x + (b.x - a.x) * alpha, a.y + (b.y - a.y) * alpha, a.z + (b.z - a.z) * alpha)
  }

  function Abs(r: real): real {
    if r < 0.0 then -r else r
  }

  function Max(a: int, b: int): int {
    if a < b then b else a
  }

  function Min(a: int, b: int): int {
    if a < b then a else b
  }

  /** `b` to the power `n`. */
  function Pow(b: real, n: nat): (p: real)
    ensures 0.0 <= b <= 1.0 ==> 0.0 <= p <= 1.0
  {
    if n == 0 then 1.0
    else
      var q := Pow(b, n - 1);
      assert 0.0 <= b <= 1.0 ==> 0.0 <= b * q <= 1.0 * q;
      b * q
  }

  function Clamp01(t: real): (r: real)
    ensures 0.0 <= r <= 1.0
    ensures 0.0 <= t <= 1.0 ==> r == t
  {
    if t < 0.0 then 0.0 else if t > 1.0 then 1.0 else t
  }

  /** An offset `e` after `n` contractions by the factor 0.94 that the
      lateral steering and the camera chase both leave each frame. */
  function Contracted(e: real, n: nat): real {
    if n == 0 then e else 0.94 * Contracted(e, n - 1)
  }

  /** The contraction is the power of the factor times the offset. */
  lemma {:induction false} ContractedIsPow(e: real, n: nat)
    ensures Contracted(e, n) == Pow(0.94, n) * e
  {
    if n > 0 {
      ContractedIsPow(e, n - 1);
      MulAssoc(0.94, Pow(0.94, n - 1), e);
    }
  }

  lemma MulAssoc(a: real, b: real, c: real)
    ensures a * (b * c) == (a * b) * c
  {
  }


  /** Each contraction keeps the offset's sign and shrinks its size. */
  lemma {:induction false} ContractedShrinks(e: real, n: nat)
    ensures Abs(Contracted(e, n)) <= Abs(e)
    ensures e >= 0.0 ==> Contracted(e, n) >= 0.0
    ensures e <= 0.0 ==> Contracted(e, n) <= 0.0
  {
    if n > 0 {
      ContractedShrinks(e, n - 1);
    }
  }
}
