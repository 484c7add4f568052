/** The camera director: the three-shot cinematic a mat crossing starts, its
    cooldown, the follow and top views, and resetting the camera. The
    director state is a value with pure transitions; `CameraDirector` keeps
    it in fields and applies the transitions in place. */
module Director {
  import opened Scene
  import opened Easing
  import opened Hud

  // Segment lengths of the cinematic, in seconds.
  const SegA: real := 1.0
  const SegB: real := 1.0
  const SegC: real := 1.0
  const SegHold: real := 0.9
  const SegOut: real := 1.0
  /** Seconds after a cinematic ends before another may start. */
  const Cooldown: real := 4.5

  // Segment end times.
  const TA: real := SegA
  const TB: real := TA + SegB
  const TC: real := TB + SegC
  const THold: real := TC + SegHold
  const TOut: real := THold + SegOut

  /** Camera pose and look target of the top view. */
  const TopFrame: Frame := Frame(Vec3(40.0, -28.0, 28.0), Vec3(40.0, 0.0, 0.0))
  /** Fraction of the way to the goal the follow and top views move per frame. */
  const ViewGain: real := 0.06

  datatype DirectorState = DirectorState(
    follow: bool,
    top: bool,
    active: bool,
    segment: int,
    time: real,
    cooldownUntil: real,
    plan1: Frame,
    plan2: Frame,
    plan3: Frame,
    start: Frame,
    camera: Frame,
    controlsEnabled: bool)

  /** The director at page load: free orbit, no cinematic, camera at the default pose. */
  const Initial: DirectorState :=
    DirectorState(false, false, false, -1, 0.0, 0.0, DefaultFrame, DefaultFrame, DefaultFrame,
                  DefaultFrame, DefaultFrame, true)

  /** The segment a running cinematic is in at time `t`: shots 1 and 2, then
      shot 3 for its move, hold and return. */
  function SegmentOf(t: real): (k: int)
    ensures 0 <= k <= 2
    ensures k == 0 <==> t < TA
    ensures k == 2 <==> t >= TB
  {
    if t < TA then 0 else if t < TB then 1 else 2
  }

  /** The director's own invariant: orbit controls are enabled exactly when no
      cinematic runs, and a running cinematic is inside its time line, in the
      segment its time says. */
  predicate Consistent(s: DirectorState) {
    && s.controlsEnabled == !s.active
    && (s.active ==> 0.0 <= s.time < TOut && s.segment == SegmentOf(s.time))
    && (!s.active ==> s.segment == -1)
  }

  // ---------- Starting a cinematic ----------

  /** A start request is ignored while a cinematic runs, during the cooldown,
      and in the top or follow view. */
  predicate Blocked(s: DirectorState, now: real) {
    s.active || now < s.cooldownUntil || s.top || s.follow
  }

  /** Shot 1 frames the triggering car from behind and below its lane. */
  function Plan1(cx: real): (f: Frame)
    ensures f.target.x - f.pos.x == 5.0 && f.target.y - f.pos.y == 2.0
    ensures f.pos.x < cx < f.target.x && f.target.y == YWork && f.pos.y < YWork
  {
    Frame(Vec3(cx - 3.2, YWork - 2.0, 1.55), Vec3(cx + 1.8, YWork, 0.42))
  }

  /** Shot 2 looks at the signalling truck's lens. */
  const Plan2: Frame := Frame(Vec3(TruckX - 2.9, YWork - 2.05, 1.9), SignalOrigin)
  /** Shot 3 looks at the first worker's helmet from close by. */
  const Plan3: Frame := Frame(Add(Helmet, Vec3(-1.25, -1.0, 0.55)), Helmet)

  /** The request a crossing car makes: plan the three shots around it (or
      around the middle of the mat when no car is given), remember the
      current pose and start at time 0 in the first segment, taking the
      camera away from the orbit controls. */
  function TryStart(s: DirectorState, now: real, carX: Option<real>): (r: DirectorState)
    ensures Blocked(s, now) ==> r == s
    ensures !Blocked(s, now) ==>
      && r.active && r.time == 0.0 && r.segment == 0 && !r.controlsEnabled
      && r.start == s.camera && r.camera == s.camera
      && r.plan1 == Plan1(if carX.Some? then carX.value else XTapis + TapisLen * 0.5)
      && r.plan2 == Plan2 && r.plan3 == Plan3
      && r.follow == s.follow && r.top == s.top && r.cooldownUntil == s.cooldownUntil
  {
    if Blocked(s, now) then s
    else
      var cx := if carX.Some? then carX.value else XTapis + TapisLen * 0.5;
      s.(plan1 := Plan1(cx), plan2 := Plan2, plan3 := Plan3, start := s.camera,
         time := 0.0, segment := 0, active := true, controlsEnabled := false)
  }

  /** A request changes the director exactly when it is not blocked, and then
      it starts a cinematic. */
  lemma TryStartIgnoredIff(s: DirectorState, now: real, carX: Option<real>)
    ensures TryStart(s, now, carX) == s <==> Blocked(s, now)
    ensures !Blocked(s, now) ==> !s.active && TryStart(s, now, carX).active
  {
  }

  // ---------- Running a cinematic ----------

  /** The pose at time `t` of the cinematic planned in `s`: ease from the
      starting pose to shot 1, to shot 2, to shot 3, hold shot 3, then ease
      back to the default pose. */
  function CinematicFrame(s: DirectorState, t: real): Frame {
    if t < TA then MixFrames(s.start, s.plan1, t / SegA)
    else if t < TB then MixFrames(s.plan1, s.plan2, (t - TA) / SegB)
    else if t < TC then MixFrames(s.plan2, s.plan3, (t - TB) / SegC)
    else if t < THold then s.plan3
    else MixFrames(s.plan3, DefaultFrame, (t - THold) / SegOut)
  }

  /** One frame of the cinematic: advance its clock by `dt`; before the end
      place the camera on the time line, at the end hand the camera back to
      the orbit controls at the default pose and start the cooldown. */
  function Advance(s: DirectorState, dt: real, now: real): (r: DirectorState)
    ensures !s.active ==> r == s
    ensures s.active && s.time + dt < TOut ==>
      r == s.(time := s.time + dt, segment := SegmentOf(s.time + dt), camera := CinematicFrame(s, s.time + dt))
    ensures s.active && s.time + dt >= TOut ==>
      && !r.active && r.segment == -1 && r.controlsEnabled && r.camera == DefaultFrame
      && r.cooldownUntil == now + Cooldown
    ensures r.follow == s.follow && r.top == s.top
  {
    if !s.active then s
    else
      var t := s.time + dt;
      if t < TOut then s.(time := t, segment := SegmentOf(t), camera := CinematicFrame(s, t))
      else s.(time := t, active := false, segment := -1, cooldownUntil := now + Cooldown,
              controlsEnabled := true, camera := DefaultFrame)
  }

  /** The time line has no jumps: it starts at the pose the camera had, each
      segment starts where the previous one ended, and the last one ends at
      the default pose the camera is put at when the cinematic stops. */
  lemma CinematicContinuous(s: DirectorState)
    ensures CinematicFrame(s, 0.0) == s.start
    ensures MixFrames(s.start, s.plan1, TA / SegA) == CinematicFrame(s, TA) == s.plan1
    ensures MixFrames(s.plan1, s.plan2, (TB - TA) / SegB) == CinematicFrame(s, TB) == s.plan2
    ensures MixFrames(s.plan2, s.plan3, (TC - TB) / SegC) == CinematicFrame(s, TC) == s.plan3
    ensures CinematicFrame(s, THold) == s.plan3
    ensures MixFrames(s.plan3, DefaultFrame, (TOut - THold) / SegOut) == DefaultFrame
  {
    assert MixFrames(s.plan1, s.plan2, 0.0) == s.plan1;
    assert MixFrames(s.plan2, s.plan3, 0.0) == s.plan2;
    assert MixFrames(s.plan3, DefaultFrame, 0.0) == s.plan3;
  }

  /** The time line never overshoots: inside each eased segment every
      coordinate of the pose stays between the two poses it eases between,
      and during the hold the camera stays on shot 3. */
  lemma CinematicStaysBetween(s: DirectorState, t: real)
    ensures t < TA ==> VecBetween(s.start.pos, s.plan1.pos, CinematicFrame(s, t).pos)
    ensures t < TA ==> VecBetween(s.start.target, s.plan1.target, CinematicFrame(s, t).target)
    ensures TA <= t < TB ==> VecBetween(s.plan1.pos, s.plan2.pos, CinematicFrame(s, t).pos)
    ensures TA <= t < TB ==> VecBetween(s.plan1.target, s.plan2.target, CinematicFrame(s, t).target)
    ensures TB <= t < TC ==> VecBetween(s.plan2.pos, s.plan3.pos, CinematicFrame(s, t).pos)
    ensures TB <= t < TC ==> VecBetween(s.plan2.target, s.plan3.target, CinematicFrame(s, t).target)
    ensures TC <= t < THold ==> CinematicFrame(s, t) == s.plan3
    ensures THold <= t ==> VecBetween(s.plan3.pos, DefaultFrame.pos, CinematicFrame(s, t).pos)
    ensures THold <= t ==> VecBetween(s.plan3.target, DefaultFrame.target, CinematicFrame(s, t).target)
  {
    if t < TA {
      MixStaysBetween(s.start, s.plan1, t / SegA);
    } else if t < TB {
      MixStaysBetween(s.plan1, s.plan2, (t - TA) / SegB);
    } else if t < TC {
      MixStaysBetween(s.plan2, s.plan3, (t - TB) / SegC);
    } else if THold <= t {
      MixStaysBetween(s.plan3, DefaultFrame, (t - THold) / SegOut);
    }
  }

  /** Segments only move forward as time passes. */
  lemma SegmentMonotone(t1: real, t2: real)
    requires t1 <= t2
    ensures SegmentOf(t1) <= SegmentOf(t2)
  {
  }

  // ---------- Reset, follow and top views ----------

  /** Back to free orbit at the default pose, ending any cinematic; its clock
      and the cooldown are left as they were. */
  function Reset(s: DirectorState): (r: DirectorState)
    ensures !r.follow && !r.top && !r.active && r.segment == -1 && r.controlsEnabled
    ensures r.camera == DefaultFrame
    ensures r.cooldownUntil == s.cooldownUntil && r.time == s.time
    ensures r.plan1 == s.plan1 && r.plan2 == s.plan2 && r.plan3 == s.plan3 && r.start == s.start
  {
    s.(follow := false, top := false, active := false, segment := -1, controlsEnabled := true,
       camera := DefaultFrame)
  }

  /** The pose the follow view chases for a car at (carX, carY): behind and to the
      side of it, looking 12 units ahead of it on the road axis. */
  function FollowGoal(carX: real, carY: real): Frame {
    Frame(Vec3(carX - 10.0, carY - 10.0, 7.0), Vec3(carX + 12.0, 0.0, 0.0))
  }

  /** Move the camera a fixed fraction of the way toward a goal pose. */
  function Toward(s: DirectorState, goal: Frame): (r: DirectorState)
    ensures r == s.(camera := r.camera)
    ensures goal.pos.x - r.camera.pos.x == 0.94 * (goal.pos.x - s.camera.pos.x)
    ensures goal.pos.y - r.camera.pos.y == 0.94 * (goal.pos.y - s.camera.pos.y)
    ensures goal.pos.z - r.camera.pos.z == 0.94 * (goal.pos.z - s.camera.pos.z)
    ensures goal.target.x - r.camera.target.x == 0.94 * (goal.target.x - s.camera.target.x)
    ensures goal.target.y - r.camera.target.y == 0.94 * (goal.target.y - s.camera.target.y)
    ensures goal.target.z - r.camera.target.z == 0.94 * (goal.target.z - s.camera.target.z)
  {
    s.(camera := Frame(Lerp(s.camera.pos, goal.pos, ViewGain), Lerp(s.camera.target, goal.target, ViewGain)))
  }

  /** `n` frames of chasing the same goal. */
  function Chase(s: DirectorState, goal: Frame, n: nat): DirectorState {
    if n == 0 then s else Toward(Chase(s, goal, n - 1), goal)
  }

  /** Chasing a fixed goal closes the gap geometrically: after `n` frames
      each coordinate's offset has been contracted `n` times by 0.94 (that is,
      0.94^n of it is left, by `ContractedIsPow`), and nothing but the camera
      moves. */
  lemma {:induction false} ChaseConverges(s: DirectorState, goal: Frame, n: nat)
    ensures Chase(s, goal, n) == s.(camera := Chase(s, goal, n).camera)
    ensures goal.pos.x - Chase(s, goal, n).camera.pos.x == Contracted(goal.pos.x - s.camera.pos.x, n)
    ensures goal.pos.y - Chase(s, goal, n).camera.pos.y == Contracted(goal.pos.y - s.camera.pos.y, n)
    ensures goal.pos.z - Chase(s, goal, n).camera.pos.z == Contracted(goal.pos.z - s.camera.pos.z, n)
    ensures goal.target.x - Chase(s, goal, n).camera.target.x == Contracted(goal.target.x - s.camera.target.x, n)
    ensures goal.target.y - Chase(s, goal, n).camera.target.y == Contracted(goal.target.y - s.camera.target.y, n)
    ensures goal.target.z - Chase(s, goal, n).camera.target.z == Contracted(goal.target.z - s.camera.target.z, n)
  {
    if n > 0 {
      ChaseConverges(s, goal, n - 1);
    }
  }

  // ---------- Per-frame dispatch ----------

  /** The camera part of one animation frame, after traffic: advance a
      running cinematic; then, if none runs, chase the most advanced work-lane
      car in the follow view (when there is one) and the top pose in the top
      view. */
  function DirectorFrame(s: DirectorState, dt: real, now: real, best: Option<(real, real)>): (r: DirectorState)
    ensures s.active && s.time + dt < TOut ==> r == Advance(s, dt, now)
    ensures !s.active && !s.follow && !s.top ==> r == s
    ensures r.follow == s.follow && r.top == s.top
  {
    var s1 := if s.active then Advance(s, dt, now) else s;
    var s2 := if s1.follow && !s1.active && best.Some? then Toward(s1, FollowGoal(best.value.0, best.value.1)) else s1;
    if s2.top && !s2.active then Toward(s2, TopFrame) else s2
  }

  // ---------- The invariant ----------

  lemma InitialConsistent()
    ensures Consistent(Initial)
    ensures CameraLabelOf(Initial.active, Initial.segment, Initial.top, Initial.follow) == Free
  {
  }

  /** Every transition keeps the director consistent, given that time does not
      run backwards. */
  lemma TransitionsKeepConsistent(s: DirectorState, dt: real, now: real, carX: Option<real>,
                                  goal: Frame, best: Option<(real, real)>)
    requires Consistent(s) && dt >= 0.0
    ensures Consistent(TryStart(s, now, carX))
    ensures Consistent(Advance(s, dt, now))
    ensures Consistent(Reset(s))
    ensures Consistent(Toward(s, goal))
    ensures Consistent(DirectorFrame(s, dt, now, best))
  {
  }

  /** While a cinematic runs the label names its shot, the segment plus one. */
  lemma LabelShowsShot(s: DirectorState)
    requires Consistent(s) && s.active
    ensures CameraLabelOf(s.active, s.segment, s.top, s.follow) == Cine(SegmentOf(s.time) + 1)
  {
  }

  /** After a reset the label reads free orbit. */
  lemma ResetLabel(s: DirectorState)
    ensures var r := Reset(s); CameraLabelOf(r.active, r.segment, r.top, r.follow) == Free
  {
  }

  // ---------- Termination and cooldown ----------

  /** Frames of the cinematic one after another, each with its own `dt` and clock reading. */
  function Run(s: DirectorState, dts: seq<real>, nows: seq<real>): DirectorState
    requires |dts| == |nows|
    decreases |dts|
  {
    if dts == [] then s else Run(Advance(s, dts[0], nows[0]), dts[1..], nows[1..])
  }

  /** Total time of a sequence of frames. */
  function Sum(dts: seq<real>): real {
    if dts == [] then 0.0 else dts[0] + Sum(dts[1..])
  }

  /** Frames run while no cinematic is active change nothing. */
  lemma {:induction false} RunInactive(s: DirectorState, dts: seq<real>, nows: seq<real>)
    requires |dts| == |nows| && !s.active
    ensures Run(s, dts, nows) == s
    decreases |dts|
  {
    if dts != [] {
      RunInactive(s, dts[1..], nows[1..]);
    }
  }

  /** A cinematic always ends: once frames whose times add up to what is left
      of its time line are over, it has handed the camera back to the orbit
      controls at the default pose. */
  lemma {:induction false} CinematicEnds(s: DirectorState, dts: seq<real>, nows: seq<real>)
    requires |dts| == |nows| && Consistent(s)
    requires forall i :: 0 <= i < |dts| ==> dts[i] >= 0.0
    requires s.active ==> s.time + Sum(dts) >= TOut
    ensures !Run(s, dts, nows).active
    ensures Consistent(Run(s, dts, nows))
    ensures s.active ==> Run(s, dts, nows).camera == DefaultFrame
    decreases |dts|
  {
    if dts == [] {
      assert s.active ==> s.time >= TOut;
    } else {
      var s1 := Advance(s, dts[0], nows[0]);
      TransitionsKeepConsistent(s, dts[0], nows[0], None, DefaultFrame, None);
      assert forall i :: 0 <= i < |dts[1..]| ==> dts[1..][i] >= 0.0 by {
        forall i | 0 <= i < |dts[1..]| ensures dts[1..][i] >= 0.0 {
          assert dts[1..][i] == dts[i + 1];
        }
      }
      if s1.active {
        CinematicEnds(s1, dts[1..], nows[1..]);
      } else {
        RunInactive(s1, dts[1..], nows[1..]);
      }
    }
  }

  /** The cooldown: once a cinematic has ended at clock `now0`, a new request
      (outside the top and follow views) starts another exactly when it comes
      4.5 seconds or more later. */
  lemma CooldownGate(s: DirectorState, dt: real, now0: real, now: real, carX: Option<real>)
    requires s.active && s.time + dt >= TOut && !s.top && !s.follow
    ensures var e := Advance(s, dt, now0);
      !e.active && (TryStart(e, now, carX).active <==> now >= now0 + Cooldown)
  {
  }

  /** Requests made in the same frame: only the first one can start a
      cinematic; the others find it running, or are blocked for the same
      reason as the first. */
  function StartAll(s: DirectorState, now: real, triggers: seq<real>): DirectorState
    decreases |triggers|
  {
    if triggers == [] then s else StartAll(TryStart(s, now, Some(triggers[0])), now, triggers[1..])
  }

  lemma {:induction false} OnlyFirstTriggerCounts(s: DirectorState, now: real, triggers: seq<real>)
    ensures StartAll(s, now, triggers) == if triggers == [] then s else TryStart(s, now, Some(triggers[0]))
  {
    if triggers != [] {
      var s1 := TryStart(s, now, Some(triggers[0]));
      assert Blocked(s1, now);
      StartAllBlocked(s1, now, triggers[1..]);
    }
  }

  lemma {:induction false} StartAllBlocked(s: DirectorState, now: real, triggers: seq<real>)
    requires Blocked(s, now)
    ensures StartAll(s, now, triggers) == s
    decreases |triggers|
  {
    if triggers != [] {
      StartAllBlocked(s, now, triggers[1..]);
    }
  }

  // ---------- The director in place ----------

  class CameraDirector {
    var followMode: bool
    var topMode: bool
    var cinematicActive: bool
    var cinematicSegment: int
    var cinematicTime: real
    var cinematicCooldownUntil: real
    var cinematicPlan1: Frame
    var cinematicPlan2: Frame
    var cinematicPlan3: Frame
    var cinematicStart: Frame
    /** The camera position and the orbit controls' target. */
    var camera: Frame
    var controlsEnabled: bool

    ghost function State(): DirectorState
      reads this
    {
      DirectorState(followMode, topMode, cinematicActive, cinematicSegment, cinematicTime,
                    cinematicCooldownUntil, cinematicPlan1, cinematicPlan2, cinematicPlan3,
                    cinematicStart, camera, controlsEnabled)
    }

    ghost predicate Valid()
      reads this
    {
      Consistent(State())
    }

    constructor ()
      ensures State() == Initial && Valid()
    {
      followMode, topMode := false, false;
      cinematicActive, cinematicSegment := false, -1;
      cinematicTime, cinematicCooldownUntil := 0.0, 0.0;
      cinematicPlan1, cinematicPlan2, cinematicPlan3 := DefaultFrame, DefaultFrame, DefaultFrame;
      cinematicStart, camera := DefaultFrame, DefaultFrame;
      controlsEnabled := true;
    }

    method TryStartCinematic(now: real, carX: Option<real>)
      requires Valid()
      modifies this
      ensures Valid() && State() == TryStart(old(State()), now, carX)
    {
      if cinematicActive || now < cinematicCooldownUntil || topMode || followMode {
        return;
      }
      var cx := if carX.Some? then carX.value else XTapis + TapisLen * 0.5;
      cinematicPlan1 := Plan1(cx);
      cinematicPlan2 := Plan2;
      cinematicPlan3 := Plan3;
      cinematicStart := camera;
      cinematicTime := 0.0;
      cinematicSegment := 0;
      cinematicActive := true;
      controlsEnabled := false;
    }

    /** Place the camera at `t` on the time line, easing with the segment-local fraction. */
    method MixCameraFrames(from: Frame, to: Frame, t: real)
      modifies this
      ensures State() == old(State()).(camera := MixFrames(from, to, t))
    {
      var tt := EaseInOutCubic(Clamp01(t));
      camera := Frame(Lerp(from.pos, to.pos, tt), Lerp(from.target, to.target, tt));
    }

    method UpdateCinematic(dt: real, now: real)
      requires Valid() && dt >= 0.0
      modifies this
      ensures Valid() && State() == Advance(old(State()), dt, now)
    {
      ghost var s := State();
      TransitionsKeepConsistent(s, dt, now, None, DefaultFrame, None);
      if !cinematicActive {
        return;
      }
      cinematicTime := cinematicTime + dt;
      if cinematicTime < TA {
        cinematicSegment := 0;
        MixCameraFrames(cinematicStart, cinematicPlan1, cinematicTime / SegA);
      } else if cinematicTime < TB {
        cinematicSegment := 1;
        MixCameraFrames(cinematicPlan1, cinematicPlan2, (cinematicTime - TA) / SegB);
      } else if cinematicTime < TC {
        cinematicSegment := 2;
        MixCameraFrames(cinematicPlan2, cinematicPlan3, (cinematicTime - TB) / SegC);
      } else if cinematicTime < THold {
        cinematicSegment := 2;
        camera := cinematicPlan3;
      } else if cinematicTime < TOut {
        cinematicSegment := 2;
        MixCameraFrames(cinematicPlan3, DefaultFrame, (cinematicTime - THold) / SegOut);
      } else {
        cinematicActive := false;
        cinematicSegment := -1;
        cinematicCooldownUntil := now + Cooldown;
        controlsEnabled := true;
        camera := DefaultFrame;
      }
    }

    method ResetCamera()
      requires Valid()
      modifies this
      ensures Valid() && State() == Reset(old(State()))
    {
      followMode := false;
      topMode := false;
      cinematicActive := false;
      cinematicSegment := -1;
      controlsEnabled := true;
      camera := DefaultFrame;
    }

    /** Move the camera toward a goal pose by the view gain. */
    method LerpToward(goal: Frame)
      requires Valid()
      modifies this
      ensures Valid() && State() == Toward(old(State()), goal)
    {
      camera := Frame(Lerp(camera.pos, goal.pos, ViewGain), Lerp(camera.target, goal.target, ViewGain));
    }

    /** The follow view's step toward the car at (carX, carY). */
    method FollowToward(carX: real, carY: real)
      requires Valid()
      modifies this
      ensures Valid() && State() == Toward(old(State()), FollowGoal(carX, carY))
    {
      LerpToward(FollowGoal(carX, carY));
    }

    /** The top view's step toward the top pose. */
    method TopToward()
      requires Valid()
      modifies this
      ensures Valid() && State() == Toward(old(State()), TopFrame)
    {
      LerpToward(TopFrame);
    }

    /** The camera label the status bar shows. */
    method CameraStatus() returns (l: CameraLabel)
      ensures l == CameraLabelOf(cinematicActive, cinematicSegment, topMode, followMode)
      ensures l == CameraLabelOf(State().active, State().segment, State().top, State().follow)
      ensures Valid() && cinematicActive ==> l == Cine(cinematicSegment + 1)
    {
      l := if cinematicActive then Cine(Max(1, Min(3, cinematicSegment + 1)))
           else if topMode then Top
           else if followMode then Follow
           else Free;
    }
  }
}
