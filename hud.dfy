/** What the status bar shows about the camera and the risk gauge. */
module Hud {
  import opened Scene

  /** The colour band of the risk pill. */
  datatype Band = Ok | Warn | Bad

  /** The risk gauge: the percentage shown and the pill's band. */
  datatype RiskDisplay = RiskDisplay(percent: int, band: Band)

  const WarnFrom: int := 35
  const BadFrom: int := 70

  function BandOf(pct: int): Band {
    if pct < WarnFrom then Ok else if pct < BadFrom then Warn else Bad
  }

  /** The gauge for a risk value: rounded down, clamped to [0, 100], and
      banded below 35, below 70, or above. */
  function SetRisk(pct: real): (d: RiskDisplay)
    ensures 0 <= d.percent <= 100
    ensures 0.0 <= pct < 101.0 ==> d.percent == pct.Floor
    ensures pct < 0.0 ==> d.percent == 0
    ensures pct >= 100.0 ==> d.percent == 100
    ensures d.band == Ok <==> d.percent < 35
    ensures d.band == Warn <==> 35 <= d.percent < 70
    ensures d.band == Bad <==> 70 <= d.percent
  {
    var p := Max(0, Min(100, pct.Floor));
    RiskDisplay(p, BandOf(p))
  }

  /** A risk that is already a whole percentage is shown unchanged. */
  lemma SetRiskWhole(n: int)
    requires 0 <= n <= 100
    ensures SetRisk(n as real).percent == n
  {
    assert (n as real).Floor == n;
  }

  /** A higher risk never shows a milder band. */
  lemma BandMonotone(a: real, b: real)
    requires a <= b
    ensures SetRisk(a).percent <= SetRisk(b).percent
    ensures SetRisk(a).band == Bad ==> SetRisk(b).band == Bad
    ensures SetRisk(b).band == Ok ==> SetRisk(a).band == Ok
  {
    assert a.Floor <= b.Floor;
  }

  /** The camera mode label: the cinematic's shot number out of three while
      it runs, otherwise the top view, the follow view, or free orbit. */
  datatype CameraLabel = Cine(shot: int) | Top | Follow | Free

  function CameraLabelOf(active: bool, segment: int, top: bool, follow: bool): (l: CameraLabel)
    ensures l.Cine? <==> active
    ensures l.Cine? ==> 1 <= l.shot <= 3
    ensures active && 0 <= segment <= 2 ==> l == Cine(segment + 1)
    ensures !active ==> (l == Top <==> top)
    ensures !active && !top ==> (l == Follow <==> follow)
    ensures l == Free <==> !active && !top && !follow
  {
    if active then Cine(Max(1, Min(3, segment + 1)))
    else if top then Top
    else if follow then Follow
    else Free
  }
}
