/** One car and the per-frame rules the traffic stepper applies to it:
    spawn sampling, speed shaping, the forced merge out of the work lane,
    lateral steering, advancing, recycling, the mat-entry crossing and the
    risk score. */
module Cars {
  import opened Scene

  /** The state the stepper keeps per car: position on the travel axis (x) and
      across it (y), the visual yaw, the current and target lane, and the base
      speed sampled at spawn. */
  datatype Car = Car(x: real, y: real, yaw: real, lane: nat, laneTarget: nat, speedBase: real)

  const MinSpeedBase: real := 0.22
  const SpeedSpread: real := 0.08

  // Speed factors and following-distance thresholds.
  const MatFactor: real := 0.45
  const NearGap: real := 3.0
  const NearFactor: real := 0.10
  const FarGap: real := 6.0
  const FarFactor: real := 0.55

  /** Past this point a work-lane car must merge into the next lane. */
  const MergeLine: real := XTapis + 2.5
  const SteerGain: real := 0.06
  const YawGain: real := 0.08
  const SnapEps: real := 0.02
  /** Frame time is scaled to 60 frames per second. */
  const TimeScale: real := 60.0

  const RecycleLine: real := XEnd + 40.0
  const RespawnX: real := XStart - 40.0

  /** What the stepper promises about every car it keeps: a lane on the road,
      a target that is the lane itself or, for a work-lane car, the next lane,
      and a base speed in the sampled range. */
  predicate CarOk(c: Car) {
    && c.lane < LaneCount
    && (c.laneTarget == c.lane || (c.lane == WorkLane && c.laneTarget == WorkLane + 1))
    && MinSpeedBase <= c.speedBase < MinSpeedBase + SpeedSpread
  }

  // ---------- Spawn ----------

  /** The three uniform draws in [0, 1) that place a new car. */
  datatype SpawnDraw = SpawnDraw(laneDraw: real, speedDraw: real, offsetDraw: real)

  predicate DrawOk(d: SpawnDraw) {
    && 0.0 <= d.laneDraw < 1.0
    && 0.0 <= d.speedDraw < 1.0
    && 0.0 <= d.offsetDraw < 1.0
  }

  /** The car created as the `i`-th one: a random lane, a base speed in
      [0.22, 0.30), placed before the road start (6 units apart per index,
      jittered back by up to 2), centred in its lane. */
  function Spawn(i: nat, d: SpawnDraw): (c: Car)
    requires DrawOk(d)
    ensures CarOk(c)
    ensures c.y == LaneCenter(c.lane) && c.yaw == 0.0 && c.laneTarget == c.lane
    ensures XStart - 6.0 * i as real - 2.0 < c.x <= XStart - 6.0 * i as real
  {
    var l := (d.laneDraw * LaneCount as real).Floor;
    assert 0 <= l < LaneCount as int;
    Car(XStart - i as real * 6.0 - d.offsetDraw * 2.0, LaneCenter(l), 0.0, l as nat, l as nat,
        MinSpeedBase + d.speedDraw * SpeedSpread)
  }

  // ---------- Speed shaping ----------

  /** The car is on the rubber mat of the work lane. */
  predicate OnMat(c: Car) {
    c.lane == WorkLane && XTapis <= c.x <= XTapis + TapisLen
  }

  function MatSlowdown(c: Car): real {
    if OnMat(c) then MatFactor else 1.0
  }

  /** Following-distance factor, given the x of the next car ahead in the same lane, if any. */
  function GapSlowdown(x: real, front: Option<real>): real {
    match front
    case None => 1.0
    case Some(fx) =>
      if fx - x < NearGap then NearFactor
      else if fx - x < FarGap then FarFactor
      else 1.0
  }

  /** The speed a car drives at this frame. */
  function Speed(c: Car, front: Option<real>): (v: real)
    ensures c.speedBase >= 0.0 ==> 0.0 <= v <= c.speedBase
    ensures c.speedBase > 0.0 ==> v > 0.0
  {
    c.speedBase * MatSlowdown(c) * GapSlowdown(c.x, front)
  }

  // ---------- Forced merge and steering ----------

  /** The lane a car steers toward: a work-lane car past the merge line must
      move to the next lane; every other car keeps its lane. */
  function LaneTargetOf(c: Car): (t: nat)
    ensures t == c.lane || t == c.lane + 1
    ensures t == c.lane + 1 <==> c.lane == WorkLane && c.x > MergeLine
  {
    if c.lane == WorkLane && c.x > MergeLine then WorkLane + 1 else c.lane
  }

  /** Lateral step: move a fixed fraction of the way to the target lane's centre,
      yaw in proportion to the error, and switch lanes once the error is tiny. */
  function Steer(c: Car): (r: Car)
    ensures r.x == c.x && r.speedBase == c.speedBase
    ensures r.laneTarget == LaneTargetOf(c)
    ensures LaneCenter(r.laneTarget) - r.y == 0.94 * (LaneCenter(r.laneTarget) - c.y)
    ensures Abs(LaneCenter(r.laneTarget) - c.y) < SnapEps ==> r.lane == r.laneTarget && r.yaw == 0.0
    ensures Abs(LaneCenter(r.laneTarget) - c.y) >= SnapEps ==>
              r.lane == c.lane && r.yaw == -YawGain * (LaneCenter(r.laneTarget) - c.y)
  {
    var target := LaneTargetOf(c);
    var dy := LaneCenter(target) - c.y;
    var moved := c.(laneTarget := target, y := c.y + dy * SteerGain, yaw := -dy * YawGain);
    if Abs(dy) < SnapEps then moved.(lane := target, yaw := 0.0) else moved
  }

  /** `n` lateral steps of a car that does not advance along the road. */
  function SteerN(c: Car, n: nat): Car {
    if n == 0 then c else Steer(SteerN(c, n - 1))
  }

  /** One lateral step keeps the car's position along the road and its
      target lane, and leaves 0.94 of the lateral error. */
  lemma SteerKeepsTarget(c: Car)
    ensures Steer(c).x == c.x && LaneTargetOf(Steer(c)) == LaneTargetOf(c)
    ensures LaneCenter(LaneTargetOf(c)) - Steer(c).y == 0.94 * (LaneCenter(LaneTargetOf(c)) - c.y)
  {
  }

  /** The lateral error: how far the car is from its target lane's centre. */
  function LateralError(c: Car): real {
    LaneCenter(LaneTargetOf(c)) - c.y
  }

  /** Lateral convergence: steering keeps the car's position along the road
      and its target lane, and after `n` steps the lateral error has been
      contracted `n` times by 0.94 (0.94^n of it is left, by `ContractedIsPow`). */
  lemma {:induction false} SteerConverges(c: Car, n: nat)
    ensures SteerN(c, n).x == c.x && LaneTargetOf(SteerN(c, n)) == LaneTargetOf(c)
    ensures LateralError(SteerN(c, n)) == Contracted(LateralError(c), n)
  {
    if n > 0 {
      SteerConverges(c, n - 1);
      SteerKeepsTarget(SteerN(c, n - 1));
    }
  }

  /** Once the remaining error is under the snap threshold, the next step
      puts the car in its target lane with a straight heading. */
  lemma SteerSnaps(c: Car, n: nat)
    requires Abs(Contracted(LateralError(c), n)) < SnapEps
    ensures SteerN(c, n + 1).lane == LaneTargetOf(c) && SteerN(c, n + 1).yaw == 0.0
  {
    SteerConverges(c, n);
  }

  /** The mat factor applies exactly to cars on the mat. */
  lemma MatFactorIff(c: Car, front: Option<real>)
    requires c.speedBase > 0.0
    ensures Speed(c, front) == c.speedBase * MatFactor * GapSlowdown(c.x, front) <==> OnMat(c)
  {
    var g := GapSlowdown(c.x, front);
    assert g > 0.0;
    if !OnMat(c) {
      assert c.speedBase * g > 0.0;
      assert c.speedBase * 1.0 * g != c.speedBase * MatFactor * g;
    }
  }

  // ---------- Advancing and recycling ----------

  /** Position after advancing this frame, before recycling. */
  function AdvancedX(c: Car, front: Option<real>, dt: real): real {
    c.x + Speed(c, front) * (dt * TimeScale)
  }

  /** A car that has left the road far ahead reappears far behind the start. */
  function Recycle(x: real): (r: real)
    ensures r == x || (x > RecycleLine && r == RespawnX)
    ensures r <= RecycleLine
  {
    if x > RecycleLine then RespawnX else x
  }

  /** The whole per-frame update of one car. */
  function StepCar(c: Car, front: Option<real>, dt: real): Car {
    Steer(c).(x := Recycle(AdvancedX(c, front, dt)))
  }

  /** A step keeps every car within the stepper's invariant. */
  lemma StepCarOk(c: Car, front: Option<real>, dt: real)
    requires CarOk(c)
    ensures CarOk(StepCar(c, front, dt))
  {
  }

  /** Time does not run backwards, so a car only moves forward, except when it
      is recycled to exactly the respawn point. */
  lemma StepCarForward(c: Car, front: Option<real>, dt: real)
    requires c.speedBase >= 0.0 && dt >= 0.0
    ensures var r := StepCar(c, front, dt);
      (r.x >= c.x && AdvancedX(c, front, dt) <= RecycleLine) ||
      (r.x == RespawnX && AdvancedX(c, front, dt) > RecycleLine)
  {
    var v := Speed(c, front);
    assert v >= 0.0;
    assert v * (dt * TimeScale) >= 0.0;
  }

  /** The work-lane car has driven onto the mat's start line during this frame. */
  predicate Crosses(c: Car, front: Option<real>, dt: real) {
    c.lane == WorkLane && c.x < XTapis && AdvancedX(c, front, dt) >= XTapis
  }

  // ---------- Risk ----------

  /** Risk contributed by a work-lane car at `x`: it peaks at 100 two units
      before the buffer zone and drops by 7 per unit of distance, within a
      window from 10 before to 18 after that point; zero elsewhere. */
  function Score(x: real): (r: int)
    ensures 0 <= r <= 100
    ensures r > 0 ==> -10.0 < x - (XZone - 2.0) < 18.0
    ensures -10.0 < x - (XZone - 2.0) < 18.0 ==>
              (r == 100 <==> 7.0 * Abs(x - (XZone - 2.0)) < 1.0)
  {
    var dx := x - (XZone - 2.0);
    if dx > -10.0 && dx < 18.0 then Max(0, 100 - (Abs(dx) * 7.0).Floor) else 0
  }
}
