/** The live cars and the per-frame traffic stepper that moves them in place,
    plus the traffic-density control that adds or removes cars. */
module Traffic {
  import opened Scene
  import opened Cars
  import opened Lanes

  /** Number of cars created when the scene loads. */
  const InitialCars: nat := 14

  predicate DrawsOk(draws: seq<SpawnDraw>) {
    forall i :: 0 <= i < |draws| ==> DrawOk(draws[i])
  }

  /** The most advanced work-lane car among the first `n` cars: the first one
      met, in list order, that no other work-lane car is strictly ahead of. */
  function MostAdvanced(cs: seq<Car>, n: nat): (best: Option<nat>)
    requires n <= |cs|
    ensures best.None? <==> forall k :: 0 <= k < n ==> cs[k].lane != WorkLane
    ensures best.Some? ==> best.value < n && cs[best.value].lane == WorkLane
    ensures best.Some? ==> forall k :: 0 <= k < n && cs[k].lane == WorkLane ==> cs[k].x <= cs[best.value].x
    ensures best.Some? ==> forall k :: 0 <= k < best.value && cs[k].lane == WorkLane ==> cs[k].x < cs[best.value].x
  {
    if n == 0 then None
    else
      var b := MostAdvanced(cs, n - 1);
      var c := cs[n - 1];
      if c.lane == WorkLane && (b.None? || c.x > cs[b.value].x) then Some(n - 1) else b
  }

  /** `arr` lists every car of `lane` once, and nothing else. */
  ghost predicate LaneMembers(lane: nat, arr: seq<nat>, cs: seq<Car>) {
    && Distinct(arr)
    && (forall j :: j in arr <==> 0 <= j < |cs| && cs[j].lane == lane)
    && IndicesIn(cs, arr)
  }

  /** What a lane pass relies on: `next` is every car's state after the
      frame, `arr` lists exactly the cars of `lane`, rear to front, without
      repetition, and `fronts` gives each of them the one ahead of it. */
  ghost predicate LaneSetup(lane: nat, arr: seq<nat>, dt: real,
                            cs: seq<Car>, fronts: seq<Option<real>>, next: seq<Car>)
  {
    && |cs| == |fronts| == |next|
    && (forall j :: 0 <= j < |cs| ==> next[j] == StepCar(cs[j], fronts[j], dt))
    && LaneMembers(lane, arr, cs)
    && (forall i {:trigger fronts[arr[i]]} :: 0 <= i < |arr| ==>
          fronts[arr[i]] == if i + 1 < |arr| then Some(cs[arr[i + 1]].x) else None)
  }

  /** A frame's lane groups satisfy what a lane pass relies on. */
  lemma LaneSetupHolds(cs: seq<Car>, l: nat, dt: real)
    ensures LaneSetup(l, LaneOrder(cs, l), dt, cs, FrontsOf(cs), Stepped(cs, dt))
  {
    LaneOrderIsSortedPermutation(cs, l);
    OrderFronts(cs, l);
    var next := Stepped(cs, dt);
    assert forall j :: 0 <= j < |cs| ==> next[j] == StepCar(cs[j], FrontsOf(cs)[j], dt);
  }

  lemma AllLaneSetups(cs: seq<Car>, lanes: seq<seq<nat>>, dt: real)
    requires |lanes| == LaneCount && forall m :: 0 <= m < LaneCount ==> lanes[m] == LaneOrder(cs, m)
    ensures forall l :: 0 <= l < LaneCount ==> LaneSetup(l, lanes[l], dt, cs, FrontsOf(cs), Stepped(cs, dt))
  {
    forall l | 0 <= l < LaneCount
      ensures LaneSetup(l, lanes[l], dt, cs, FrontsOf(cs), Stepped(cs, dt))
    {
      LaneSetupHolds(cs, l, dt);
    }
  }

  /** Every car is on one of the road's lanes, so once every lane pass is
      done every car has moved. */
  lemma AllLanesMoved(cs: seq<Car>, next: seq<Car>, cars: seq<Car>)
    requires AllCarsOk(cs) && |cars| == |cs| == |next|
    requires forall j :: 0 <= j < |cs| ==> cars[j] == if cs[j].lane < LaneCount then next[j] else cs[j]
    ensures cars == next
    ensures forall j :: 0 <= j < |cs| ==> cs[j].lane < LaneCount
  {
    forall j | 0 <= j < |cs|
      ensures cars[j] == next[j]
    {
      assert CarOk(cs[j]);
    }
  }

  /** The car list part of a lane pass after its first `i` cars (the set
      `done`) have moved: lanes before `lane` and the visited cars are in their
      new state, every other car in its old one. */
  ghost predicate CarsProgress(lane: nat, arr: seq<nat>, cs: seq<Car>, next: seq<Car>,
                               cars: seq<Car>, i: nat, done: set<nat>)
  {
    && i <= |arr| && |cars| == |cs| == |next|
    && (forall j :: 0 <= j < |cs| ==> cars[j] == if cs[j].lane < lane || j in done then next[j] else cs[j])
    && (forall j :: j in done ==> j < |cs| && cs[j].lane == lane && IndexOf(arr, j) < i)
    && (forall p :: 0 <= p < i ==> arr[p] in done)
  }

  /** The alert flag, the lane's risk maximum and its crossings after the
      cars in `done`, the first `i` of the lane, have moved. */
  ghost predicate TallyProgress(lane: nat, arr: seq<nat>, dt: real,
                                cs: seq<Car>, fronts: seq<Option<real>>, next: seq<Car>,
                                i: nat, done: set<nat>, alert0: bool, maxRisk0: int, triggers0: seq<real>,
                                alert: bool, maxRisk: int, triggers: seq<real>)
    requires LaneSetup(lane, arr, dt, cs, fronts, next) && i <= |arr|
  {
    && (forall j :: j in done ==> j < |cs|)
    && (alert <==> alert0 || exists j :: j in done && OnMat(cs[j]))
    && (lane == WorkLane ==> 0 <= maxRisk <= 100)
    && (lane == WorkLane ==> forall j :: j in done ==> Score(next[j].x) <= maxRisk)
    && (lane == WorkLane ==> maxRisk == 0 || exists j :: j in done && Score(next[j].x) == maxRisk)
    && (lane == WorkLane ==> triggers == Crossings(cs, fronts, arr[..i], dt))
    && (lane != WorkLane ==> maxRisk == maxRisk0 && triggers == triggers0)
  }

  /** The crossing one car reports, as a list of zero or one position. */
  function CrossingList(crossed: Option<real>): (r: seq<real>)
    ensures crossed.None? <==> r == []
  {
    if crossed.Some? then [crossed.value] else []
  }

  /** The car list after moving the `i`-th car of the lane. */
  lemma CarsProgressStep(lane: nat, arr: seq<nat>, cs: seq<Car>, next: seq<Car>,
                         cars: seq<Car>, i: nat, done: set<nat>)
    requires LaneMembers(lane, arr, cs) && i < |arr|
    requires CarsProgress(lane, arr, cs, next, cars, i, done)
    ensures arr[i] < |cs| && arr[i] !in done
    ensures CarsProgress(lane, arr, cs, next, cars[arr[i] := next[arr[i]]], i + 1, done + {arr[i]})
  {
    IndexOfDistinct(arr, i);
    assert arr[i] in arr;
  }

  /** Before the `i`-th car moves, the car ahead of it is still where the
      frame started. */
  lemma FrontUnmoved(lane: nat, arr: seq<nat>, dt: real,
                     cs: seq<Car>, fronts: seq<Option<real>>, next: seq<Car>,
                     cars: seq<Car>, i: nat, done: set<nat>)
    requires LaneSetup(lane, arr, dt, cs, fronts, next) && i < |arr|
    requires CarsProgress(lane, arr, cs, next, cars, i, done)
    ensures arr[i] < |cars| && cars[arr[i]] == cs[arr[i]]
    ensures i + 1 < |arr| ==> arr[i + 1] < |cars| && cars[arr[i + 1]] == cs[arr[i + 1]]
    ensures fronts[arr[i]] == if i + 1 < |arr| then Some(cars[arr[i + 1]].x) else None
  {
    IndexOfDistinct(arr, i);
    assert arr[i] in arr;
    if i + 1 < |arr| {
      IndexOfDistinct(arr, i + 1);
      assert arr[i + 1] in arr;
    }
    assert fronts[arr[i]] == if i + 1 < |arr| then Some(cs[arr[i + 1]].x) else None;
  }

  /** The tally after folding in the `i`-th car's report. */
  lemma TallyProgressStep(lane: nat, arr: seq<nat>, dt: real,
                          cs: seq<Car>, fronts: seq<Option<real>>, next: seq<Car>,
                          i: nat, done: set<nat>, alert0: bool, maxRisk0: int, triggers0: seq<real>,
                          alert: bool, maxRisk: int, triggers: seq<real>,
                          slowed: bool, crossed: Option<real>, risk: int)
    requires LaneSetup(lane, arr, dt, cs, fronts, next) && i < |arr|
    requires TallyProgress(lane, arr, dt, cs, fronts, next, i, done, alert0, maxRisk0, triggers0, alert, maxRisk, triggers)
    requires slowed == OnMat(cs[arr[i]])
    requires crossed == if Crosses(cs[arr[i]], fronts[arr[i]], dt) then Some(AdvancedX(cs[arr[i]], fronts[arr[i]], dt)) else None
    requires risk == Score(next[arr[i]].x)
    ensures TallyProgress(lane, arr, dt, cs, fronts, next, i + 1, done + {arr[i]}, alert0, maxRisk0, triggers0,
                          alert || slowed, if lane == WorkLane then Max(maxRisk, risk) else maxRisk,
                          if lane == WorkLane then triggers + CrossingList(crossed) else triggers)
  {
    if lane == WorkLane {
      CrossingsStep(cs, fronts, arr, i, dt);
    }
  }

  /** Once every car of the lane has moved, the pass has moved exactly that
      lane and its tally covers exactly that lane. */
  lemma PassComplete(lane: nat, arr: seq<nat>, dt: real,
                     cs: seq<Car>, fronts: seq<Option<real>>, next: seq<Car>,
                     cars: seq<Car>, done: set<nat>, alert0: bool, maxRisk0: int, triggers0: seq<real>,
                     alert: bool, maxRisk: int, triggers: seq<real>)
    requires LaneSetup(lane, arr, dt, cs, fronts, next)
    requires CarsProgress(lane, arr, cs, next, cars, |arr|, done)
    requires TallyProgress(lane, arr, dt, cs, fronts, next, |arr|, done, alert0, maxRisk0, triggers0, alert, maxRisk, triggers)
    requires lane == WorkLane ==> maxRisk0 == 0 && triggers0 == []
    ensures |cars| == |cs|
    ensures forall j :: 0 <= j < |cs| ==> cars[j] == if cs[j].lane <= lane then next[j] else cs[j]
    ensures alert <==> alert0 || exists j :: 0 <= j < |cs| && cs[j].lane == lane && OnMat(cs[j])
    ensures lane == WorkLane ==> maxRisk == MaxWorkScore(cs, next, |cs|) && triggers == Crossings(cs, fronts, arr, dt)
  {
    assert forall j :: 0 <= j < |cs| && cs[j].lane == lane ==> j in done by {
      forall j | 0 <= j < |cs| && cs[j].lane == lane ensures j in done {
        assert j in arr;
        var p := IndexOf(arr, j);
        assert arr[p] in done;
      }
    }
    if lane == WorkLane {
      assert arr[..|arr|] == arr;
      MaxWorkScoreUnique(cs, next, maxRisk);
    }
  }

  /** A car's speed this frame, shaped in the order the stepper applies the
      factors: the mat first, then the distance to the car ahead. Also
      reports whether the mat slowed it. */
  method CarSpeed(car: Car, frontX: Option<real>) returns (speed: real, slowed: bool)
    ensures speed == Speed(car, frontX)
    ensures slowed == OnMat(car)
  {
    speed := car.speedBase;
    slowed := false;
    // slow down on the mat (work lane)
    if car.lane == WorkLane && car.x >= XTapis && car.x <= XTapis + TapisLen {
      speed := speed * MatFactor;
      slowed := true;
    }
    // following distance
    if frontX.Some? {
      var dist := frontX.value - car.x;
      if dist < NearGap {
        speed := speed * NearFactor;
      } else if dist < FarGap {
        speed := speed * FarFactor;
      }
    }
  }

  /** The risk score of a work-lane car that ends the frame at `x`. */
  method CarRisk(x: real) returns (risk: int)
    ensures risk == Score(x)
  {
    risk := 0;
    var dx := x - (XZone - 2.0);
    if dx > -10.0 && dx < 18.0 {
      risk := Max(0, 100 - (Abs(dx) * 7.0).Floor);
    }
  }

  class TrafficSim {
    /** The live cars, in creation order. */
    var cars: seq<Car>

    ghost predicate Valid()
      reads this
    {
      AllCarsOk(cars)
    }

    /** The scene starts with fourteen cars. */
    constructor (draws: seq<SpawnDraw>)
      requires DrawsOk(draws) && |draws| >= InitialCars
      ensures Valid() && |cars| == InitialCars
      ensures forall i :: 0 <= i < InitialCars ==> cars[i] == Spawn(i, draws[i])
    {
      cars := [];
      new;
      var i := 0;
      while i < InitialCars
        invariant 0 <= i <= InitialCars && |cars| == i && Valid()
        invariant forall j :: 0 <= j < i ==> cars[j] == Spawn(j, draws[j])
      {
        CreateCar(i, draws[i]);
        i := i + 1;
      }
    }

    /** Add a car spawned as the `i`-th one. */
    method CreateCar(i: nat, d: SpawnDraw)
      requires Valid() && DrawOk(d)
      modifies this
      ensures Valid()
      ensures cars == old(cars) + [Spawn(i, d)]
    {
      cars := cars + [Spawn(i, d)];
    }

    /** Traffic-density control: spawn cars at the end of the list until there
        are `desired` of them, or drop the most recently added ones. */
    method SetCarCount(desired: nat, draws: seq<SpawnDraw>)
      requires Valid() && DrawsOk(draws) && desired <= |cars| + |draws|
      modifies this
      ensures Valid() && |cars| == desired
      ensures forall j :: 0 <= j < desired && j < |old(cars)| ==> cars[j] == old(cars)[j]
      ensures forall j :: |old(cars)| <= j < desired ==> cars[j] == Spawn(j, draws[j - |old(cars)|])
    {
      var before := cars;
      while |cars| < desired
        invariant Valid()
        invariant |before| <= |cars| && (|before| <= desired ==> |cars| <= desired)
        invariant |before| > desired ==> cars == before
        invariant forall j :: 0 <= j < |before| ==> cars[j] == before[j]
        invariant forall j :: |before| <= j < |cars| ==> cars[j] == Spawn(j, draws[j - |before|])
        decreases desired - |cars|
      {
        CreateCar(|cars|, draws[|cars| - |before|]);
      }
      while |cars| > desired
        invariant Valid() && |cars| >= desired
        invariant forall j :: 0 <= j < |cars| && j < |before| ==> cars[j] == before[j]
        invariant forall j :: |before| <= j < |cars| ==> cars[j] == Spawn(j, draws[j - |before|])
      {
        cars := cars[..|cars| - 1];
      }
    }

    /** The car the follow camera tracks. */
    method MostAdvancedWorkCar() returns (best: Option<nat>)
      ensures best == MostAdvanced(cars, |cars|)
      ensures best.None? <==> forall k :: 0 <= k < |cars| ==> cars[k].lane != WorkLane
      ensures best.Some? ==> best.value < |cars| && cars[best.value].lane == WorkLane
      ensures best.Some? ==> forall k :: 0 <= k < |cars| && cars[k].lane == WorkLane ==> cars[k].x <= cars[best.value].x
    {
      best := None;
      var k := 0;
      while k < |cars|
        invariant 0 <= k <= |cars|
        invariant best == MostAdvanced(cars, k)
      {
        var c := cars[k];
        if c.lane == WorkLane {
          if best.None? || c.x > cars[best.value].x {
            best := Some(k);
          }
        }
        k := k + 1;
      }
    }

    /** The lane groups of this frame: every car's index under its current
        lane, each group sorted by position, rear to front. */
    method LaneGroups() returns (lanes: seq<seq<nat>>)
      requires Valid()
      ensures |lanes| == LaneCount
      ensures forall m :: 0 <= m < LaneCount ==> lanes[m] == LaneOrder(cars, m)
    {
      lanes := seq(LaneCount, _ => []);
      var k := 0;
      while k < |cars|
        invariant 0 <= k <= |cars| && |lanes| == LaneCount
        invariant forall l :: 0 <= l < LaneCount ==> lanes[l] == Group(cars, l, k)
      {
        var l := cars[k].lane;
        lanes := lanes[l := lanes[l] + [k]];
        k := k + 1;
      }
      var l := 0;
      while l < LaneCount
        invariant 0 <= l <= LaneCount && |lanes| == LaneCount
        invariant forall m :: 0 <= m < LaneCount ==>
          lanes[m] == if m < l then LaneOrder(cars, m) else Group(cars, m, |cars|)
      {
        lanes := lanes[l := SortByX(cars, lanes[l])];
        l := l + 1;
      }
    }

    /** Move car `idx` for one frame, given the position of the car ahead of it
        in its lane group. Reports whether the mat slowed it, the position at
        which it crossed the mat's start line, if it did, and its new score. */
    method MoveCar(idx: nat, frontX: Option<real>, dt: real) returns (slowed: bool, crossed: Option<real>, risk: int)
      requires idx < |cars|
      modifies this
      ensures cars == old(cars)[idx := StepCar(old(cars)[idx], frontX, dt)]
      ensures slowed == OnMat(old(cars)[idx])
      ensures crossed == if Crosses(old(cars)[idx], frontX, dt) then Some(AdvancedX(old(cars)[idx], frontX, dt)) else None
      ensures risk == Score(cars[idx].x)
    {
      var car := cars[idx];
      var x := car.x;
      var prevX := car.x;
      var speed;
      speed, slowed := CarSpeed(car, frontX);

      // forced merge out of the work lane
      var laneTarget := if car.lane == WorkLane && car.x > MergeLine then WorkLane + 1 else car.lane;

      // lateral interpolation
      var targetY := LaneCenter(laneTarget);
      var dy := targetY - car.y;
      var y := car.y + dy * SteerGain;
      var yaw := -dy * YawGain;
      var newLane := car.lane;
      if Abs(dy) < SnapEps {
        newLane := laneTarget;
        yaw := 0.0;
      }
      assert Car(x, y, yaw, newLane, laneTarget, car.speedBase) == Steer(car);

      // advance
      var nx := x + speed * (dt * TimeScale);
      assert nx == AdvancedX(car, frontX, dt);
      crossed := None;
      if car.lane == WorkLane && prevX < XTapis && nx >= XTapis {
        crossed := Some(nx);
      }

      // recycle far behind the start
      if nx > RecycleLine {
        nx := RespawnX;
      }
      cars := cars[idx := Car(nx, y, yaw, newLane, laneTarget, car.speedBase)];
      risk := CarRisk(nx);
    }

    /** Move the `i`-th car of a lane pass and fold its report into the
        frame's alert flag, risk and crossings. */
    method VisitCar(lane: nat, arr: seq<nat>, dt: real,
                    ghost cs: seq<Car>, ghost fronts: seq<Option<real>>, ghost next: seq<Car>,
                    i: nat, ghost done: set<nat>, ghost alert0: bool, ghost maxRisk0: int, ghost triggers0: seq<real>,
                    alert: bool, maxRisk: int, triggers: seq<real>)
      returns (alert': bool, maxRisk': int, triggers': seq<real>, ghost done': set<nat>)
      requires LaneSetup(lane, arr, dt, cs, fronts, next) && i < |arr|
      requires CarsProgress(lane, arr, cs, next, cars, i, done)
      requires TallyProgress(lane, arr, dt, cs, fronts, next, i, done, alert0, maxRisk0, triggers0, alert, maxRisk, triggers)
      modifies this
      ensures CarsProgress(lane, arr, cs, next, cars, i + 1, done')
      ensures TallyProgress(lane, arr, dt, cs, fronts, next, i + 1, done', alert0, maxRisk0, triggers0, alert', maxRisk', triggers')
    {
      var idx := arr[i];
      FrontUnmoved(lane, arr, dt, cs, fronts, next, cars, i, done);
      CarsProgressStep(lane, arr, cs, next, cars, i, done);
      var frontX: Option<real> := None;
      if i < |arr| - 1 {
        frontX := Some(cars[arr[i + 1]].x);
      }
      assert frontX == fronts[idx];
      var slowed, crossed, risk := MoveCar(idx, frontX, dt);
      TallyProgressStep(lane, arr, dt, cs, fronts, next, i, done, alert0, maxRisk0, triggers0,
                        alert, maxRisk, triggers, slowed, crossed, risk);
      alert', maxRisk', triggers' := alert, maxRisk, triggers;
      if slowed {
        alert' := true;
      }
      if lane == WorkLane {
        if crossed.Some? {
          triggers' := triggers' + [crossed.value];
        }
        maxRisk' := Max(maxRisk', risk);
      }
      done' := done + {idx};
    }

    /** Move the cars of one lane group, rear to front, adding to the frame's
        alert flag, risk and crossings. `cs` is the car list at the start of
        the frame, `fronts` what is ahead of each car and `next` every car's
        state after the frame; the groups before `lane` have already moved. */
    method StepLane(lane: nat, arr: seq<nat>, dt: real,
                    ghost cs: seq<Car>, ghost fronts: seq<Option<real>>, ghost next: seq<Car>,
                    alert0: bool, maxRisk0: int, triggers0: seq<real>)
      returns (alert: bool, maxRisk: int, triggers: seq<real>)
      requires LaneSetup(lane, arr, dt, cs, fronts, next) && |cars| == |cs|
      requires forall j :: 0 <= j < |cs| ==> cars[j] == if cs[j].lane < lane then next[j] else cs[j]
      requires lane == WorkLane ==> maxRisk0 == 0 && triggers0 == []
      modifies this
      ensures |cars| == |cs|
      ensures forall j :: 0 <= j < |cs| ==> cars[j] == if cs[j].lane <= lane then next[j] else cs[j]
      ensures alert <==> alert0 || exists j :: 0 <= j < |cs| && cs[j].lane == lane && OnMat(cs[j])
      ensures lane == WorkLane ==> maxRisk == MaxWorkScore(cs, next, |cs|) && triggers == Crossings(cs, fronts, arr, dt)
      ensures lane != WorkLane ==> maxRisk == maxRisk0 && triggers == triggers0
    {
      alert, maxRisk, triggers := alert0, maxRisk0, triggers0;
      ghost var done: set<nat> := {};
      var i := 0;
      while i < |arr|
        invariant 0 <= i <= |arr|
        invariant CarsProgress(lane, arr, cs, next, cars, i, done)
        invariant TallyProgress(lane, arr, dt, cs, fronts, next, i, done, alert0, maxRisk0, triggers0, alert, maxRisk, triggers)
      {
        alert, maxRisk, triggers, done := VisitCar(lane, arr, dt, cs, fronts, next, i, done, alert0, maxRisk0, triggers0, alert, maxRisk, triggers);
        i := i + 1;
      }
      PassComplete(lane, arr, dt, cs, fronts, next, cars, done, alert0, maxRisk0, triggers0, alert, maxRisk, triggers);
    }

    /** One traffic frame: group the cars by lane, sort each group rear to
        front, then move every car in place, lane by lane and rear to front.
        Returns whether some car was slowed on the mat, the frame's risk, and
        the positions at which work-lane cars crossed the mat's start line
        (each one asks the camera director for a cinematic). */
    method UpdateTraffic(dt: real) returns (alert: bool, maxRisk: int, triggers: seq<real>)
      requires Valid()
      modifies this
      ensures Valid()
      ensures cars == Stepped(old(cars), dt)
      ensures alert <==> FrameAlert(old(cars))
      ensures maxRisk == FrameRisk(old(cars), dt)
      ensures triggers == FrameCrossings(old(cars), dt)
    {
      ghost var cs := cars;
      ghost var fronts := FrontsOf(cs);
      ghost var next := Stepped(cs, dt);
      var lanes := LaneGroups();
      AllLaneSetups(cs, lanes, dt);
      alert, maxRisk, triggers := StepLanes(lanes, dt, cs, fronts, next);
      AllLanesMoved(cs, next, cars);
      SteppedKeepsCarsOk(cs, dt);
    }

    /** Every lane pass of a frame, lane by lane, work lane first. */
    method StepLanes(lanes: seq<seq<nat>>, dt: real,
                     ghost cs: seq<Car>, ghost fronts: seq<Option<real>>, ghost next: seq<Car>)
      returns (alert: bool, maxRisk: int, triggers: seq<real>)
      requires |lanes| == LaneCount && cars == cs && |fronts| == |cs| && |next| == |cs|
      requires forall l :: 0 <= l < LaneCount ==> LaneSetup(l, lanes[l], dt, cs, fronts, next)
      modifies this
      ensures |cars| == |cs|
      ensures forall j :: 0 <= j < |cs| ==> cars[j] == if cs[j].lane < LaneCount then next[j] else cs[j]
      ensures alert <==> exists j :: 0 <= j < |cs| && cs[j].lane < LaneCount && OnMat(cs[j])
      ensures |next| == |cs| && IndicesIn(cs, lanes[WorkLane]) && |fronts| == |cs|
      ensures maxRisk == MaxWorkScore(cs, next, |cs|) && triggers == Crossings(cs, fronts, lanes[WorkLane], dt)
    {
      alert := false;
      maxRisk := 0;
      triggers := [];
      var lane := 0;
      while lane < LaneCount
        invariant 0 <= lane <= LaneCount && |cars| == |cs|
        invariant forall j :: 0 <= j < |cs| ==> cars[j] == if cs[j].lane < lane then next[j] else cs[j]
        invariant alert <==> exists j :: 0 <= j < |cs| && cs[j].lane < lane && OnMat(cs[j])
        invariant lane == WorkLane ==> maxRisk == 0 && triggers == []
        invariant lane > WorkLane ==> maxRisk == MaxWorkScore(cs, next, |cs|) && triggers == Crossings(cs, fronts, lanes[WorkLane], dt)
      {
        alert, maxRisk, triggers := StepLane(lane, lanes[lane], dt, cs, fronts, next, alert, maxRisk, triggers);
        lane := lane + 1;
      }
    }
  }
}
