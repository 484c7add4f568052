/** One animation frame: the traffic step (unless paused) with the cinematic
    requests its mat crossings make, then the camera director's frame, and
    what the status bar and the risk gauge show afterwards. */
module Animation {
  import opened Scene
  import opened Cars
  import opened Lanes
  import opened Traffic
  import opened Hud
  import opened Director

  /** What the traffic step shows: the signal alert flag, the risk gauge and
      the camera label refreshed right after the step. */
  datatype TrafficReport = TrafficReport(alert: bool, risk: RiskDisplay, cameraLabel: CameraLabel)

  /** Where the most advanced work-lane car is, if there is one. */
  function BestPos(cs: seq<Car>): (p: Option<(real, real)>)
    ensures p.None? <==> forall k :: 0 <= k < |cs| ==> cs[k].lane != WorkLane
    ensures p.Some? ==> forall k :: 0 <= k < |cs| && cs[k].lane == WorkLane ==> cs[k].x <= p.value.0
    ensures p.Some? ==>
      exists b :: 0 <= b < |cs| && cs[b].lane == WorkLane && p.value == (cs[b].x, cs[b].y) &&
        forall k :: 0 <= k < b && cs[k].lane == WorkLane ==> cs[k].x < cs[b].x
  {
    match MostAdvanced(cs, |cs|)
    case None => None
    case Some(i) => Some((cs[i].x, cs[i].y))
  }

  /** The director after a frame's traffic step: every crossing has asked for a cinematic. */
  function AfterTraffic(cs: seq<Car>, s: DirectorState, dt: real, now: real, paused: bool): DirectorState {
    if paused then s else StartAll(s, now, FrameCrossings(cs, dt))
  }

  /** The director at the end of a frame that starts with cars `cs`. */
  function FrameDirector(cs: seq<Car>, s: DirectorState, dt: real, now: real, paused: bool): DirectorState {
    DirectorFrame(AfterTraffic(cs, s, dt, now, paused), dt, now,
                  BestPos(if paused then cs else Stepped(cs, dt)))
  }

  /** The status after a traffic step. */
  function FrameReport(cs: seq<Car>, s: DirectorState, dt: real, now: real): TrafficReport {
    var d := AfterTraffic(cs, s, dt, now, false);
    TrafficReport(FrameAlert(cs),
                  SetRisk(FrameRisk(cs, dt) as real),
                  CameraLabelOf(d.active, d.segment, d.top, d.follow))
  }

  /** The cinematic requests of a traffic step, in the order the cars made them. */
  method ReplayRequests(director: CameraDirector, now: real, triggers: seq<real>)
    requires director.Valid()
    modifies director
    ensures director.Valid() && director.State() == StartAll(old(director.State()), now, triggers)
  {
    ghost var s0 := director.State();
    var k := 0;
    while k < |triggers|
      invariant 0 <= k <= |triggers| && director.Valid()
      invariant StartAll(director.State(), now, triggers[k..]) == StartAll(s0, now, triggers)
    {
      assert triggers[k..][1..] == triggers[k + 1..];
      director.TryStartCinematic(now, Some(triggers[k]));
      k := k + 1;
    }
  }

  /** The director's part of a frame: advance a running cinematic, then, when
      none runs, step the follow view toward the most advanced work-lane car
      and the top view toward the top pose. */
  method CameraStep(traffic: TrafficSim, director: CameraDirector, dt: real, now: real)
    requires director.Valid() && dt >= 0.0
    modifies director
    ensures director.Valid()
    ensures director.State() == DirectorFrame(old(director.State()), dt, now, BestPos(traffic.cars))
  {
    if director.cinematicActive {
      director.UpdateCinematic(dt, now);
    }
    if director.followMode && !director.cinematicActive {
      var best := traffic.MostAdvancedWorkCar();
      if best.Some? {
        var c := traffic.cars[best.value];
        director.FollowToward(c.x, c.y);
      }
    }
    if director.topMode && !director.cinematicActive {
      director.TopToward();
    }
  }

  /** The traffic part of an unpaused frame: step the cars, replay the
      cinematic requests their crossings made, and report the alert, the
      gauge and the camera label. */
  method TrafficStep(traffic: TrafficSim, director: CameraDirector, dt: real, now: real)
    returns (report: TrafficReport)
    requires traffic.Valid() && director.Valid()
    modifies traffic, director
    ensures traffic.Valid() && director.Valid()
    ensures traffic.cars == Stepped(old(traffic.cars), dt)
    ensures director.State() == AfterTraffic(old(traffic.cars), old(director.State()), dt, now, false)
    ensures report == FrameReport(old(traffic.cars), old(director.State()), dt, now)
  {
    ghost var cs, s := traffic.cars, director.State();
    var alert, maxRisk, triggers := traffic.UpdateTraffic(dt);
    ReplayRequests(director, now, triggers);
    ghost var d := director.State();
    assert d == AfterTraffic(cs, s, dt, now, false);
    var cameraLabel := director.CameraStatus();
    assert cameraLabel == CameraLabelOf(d.active, d.segment, d.top, d.follow);
    report := TrafficReport(alert, SetRisk(maxRisk as real), cameraLabel);
  }

  /** One frame of `animate`: move the traffic unless paused, replay its
      cinematic requests, advance a running cinematic, then step the follow
      or top view when no cinematic runs. */
  method AnimateFrame(traffic: TrafficSim, director: CameraDirector, dt: real, now: real, paused: bool)
    returns (report: Option<TrafficReport>)
    requires traffic.Valid() && director.Valid() && dt >= 0.0
    modifies traffic, director
    ensures traffic.Valid() && director.Valid()
    ensures traffic.cars == if paused then old(traffic.cars) else Stepped(old(traffic.cars), dt)
    ensures director.State() == FrameDirector(old(traffic.cars), old(director.State()), dt, now, paused)
    ensures report.None? <==> paused
    ensures report.Some? ==> report.value == FrameReport(old(traffic.cars), old(director.State()), dt, now)
  {
    report := None;
    if !paused {
      var r := TrafficStep(traffic, director, dt, now);
      report := Some(r);
    }
    CameraStep(traffic, director, dt, now);
  }

  /** The gauge shows the frame's risk itself: the risk is already a whole
      percentage, and it is in the red band exactly when it reaches 70. */
  lemma GaugeShowsRisk(cs: seq<Car>, s: DirectorState, dt: real, now: real)
    ensures FrameReport(cs, s, dt, now).risk.percent == FrameRisk(cs, dt)
    ensures FrameReport(cs, s, dt, now).risk.band == Bad <==> FrameRisk(cs, dt) >= 70
  {
    SetRiskWhole(FrameRisk(cs, dt));
  }

  /** Of a frame's crossings only the first can start a cinematic, and it is
      the crossing of the rearmost work-lane car that drove onto the mat. */
  lemma FirstCrossingStarts(cs: seq<Car>, s: DirectorState, dt: real, now: real)
    ensures var t := FrameCrossings(cs, dt);
      AfterTraffic(cs, s, dt, now, false) == if t == [] then s else TryStart(s, now, Some(t[0]))
    ensures var t := FrameCrossings(cs, dt);
      IndicesIn(cs, LaneOrder(cs, WorkLane)) &&
      (t != [] ==> FirstCrosserAt(cs, FrontsOf(cs), LaneOrder(cs, WorkLane), dt, t[0]))
  {
    OnlyFirstTriggerCounts(s, now, FrameCrossings(cs, dt));
    LaneOrderIsSortedPermutation(cs, WorkLane);
    FirstCrossing(cs, FrontsOf(cs), LaneOrder(cs, WorkLane), dt);
  }

  /** While a cinematic runs and does not end this frame, the camera is on its
      time line, whatever view was chosen and whatever the traffic did. */
  lemma CinematicOwnsCamera(cs: seq<Car>, s: DirectorState, dt: real, now: real, paused: bool)
    requires Consistent(s) && s.active && s.time + dt < TOut
    ensures FrameDirector(cs, s, dt, now, paused).camera == CinematicFrame(s, s.time + dt)
  {
    RunningIgnoresCrossings(cs, s, dt, now, paused);
    var best := BestPos(if paused then cs else Stepped(cs, dt));
    assert FrameDirector(cs, s, dt, now, paused) == DirectorFrame(s, dt, now, best);
  }

  /** A running cinematic ignores the requests of the frame's crossings. */
  lemma RunningIgnoresCrossings(cs: seq<Car>, s: DirectorState, dt: real, now: real, paused: bool)
    requires s.active
    ensures AfterTraffic(cs, s, dt, now, paused) == s
  {
    if !paused {
      StartAllBlocked(s, now, FrameCrossings(cs, dt));
    }
  }

  /** With neither the follow nor the top view chosen and no cinematic running
      or started, a frame leaves the camera where it is. */
  lemma FreeOrbitKeepsCamera(cs: seq<Car>, s: DirectorState, dt: real, now: real, paused: bool)
    requires !s.active && !s.follow && !s.top
    requires !paused ==> FrameCrossings(cs, dt) == [] || now < s.cooldownUntil
    ensures FrameDirector(cs, s, dt, now, paused) == s
  {
    if !paused {
      if FrameCrossings(cs, dt) != [] {
        StartAllBlocked(s, now, FrameCrossings(cs, dt));
      }
    }
  }
}
