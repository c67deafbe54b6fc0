/**
  The progress panel of the distance-tracking sheet: a remembered baseline
  distance, the progress fraction derived from it, the status message and
  colour bound to that fraction, and the two display labels.

  Swift `Double` arithmetic is modelled over `real`; IEEE rounding, NaN and
  infinities are not represented.
 */
module DistanceTracker {
  import opened Wrappers
  import opened Numeric

  /** Swift's `max(0, min(1, x))`. */
  function Clamp01(x: real): (r: real)
    ensures 0.0 <= r <= 1.0
    ensures 0.0 <= x <= 1.0 ==> r == x
    ensures x <= 0.0 ==> r == 0.0
    ensures x >= 1.0 ==> r == 1.0
  {
    Max(0.0, Min(1.0, x))
  }

  /** Swift's `Int(x)` on a finite `Double`: truncation toward zero. */
  function Truncate(x: real): (n: int)
    ensures 0.0 <= x ==> 0 <= n && n as real <= x < n as real + 1.0
    ensures x < 0.0 ==> n <= 0 && n as real - 1.0 < x <= n as real
  {
    if x >= 0.0 then x.Floor else -((-x).Floor)
  }

  // ---------------------------------------------------------------------
  // Baseline and progress
  // ---------------------------------------------------------------------

  /** The sheet's only piece of state: the distance remembered as 100% remaining. */
  datatype Tracker = Tracker(initialDistance: Option<real>)

  /** A freshly presented sheet has no baseline. */
  const Fresh: Tracker := Tracker(None)

  /** The baseline is usable as a divisor: present and strictly positive. */
  predicate HasBaseline(t: Tracker) {
    t.initialDistance.Some? && t.initialDistance.value > 0.0
  }

  /** One progress computation: the state afterwards and the fraction shown. */
  datatype Step = Step(tracker: Tracker, progress: real)

  /**
    The progress computation for the current distance. Without a usable
    baseline it captures the current distance and reports no progress;
    otherwise it reports the closed fraction of the baseline, clamped to [0, 1].
   */
  function Progress(t: Tracker, current: real): (s: Step)
    // capture branch
    ensures !HasBaseline(t) ==> s.tracker.initialDistance == Some(current) && s.progress == 0.0
    // measuring branch: the baseline is never touched
    ensures HasBaseline(t) ==> s.tracker == t
    ensures 0.0 <= s.progress <= 1.0
    // within [0, baseline] the result is exactly the closed fraction
    ensures HasBaseline(t) && 0.0 <= current <= t.initialDistance.value ==>
              s.progress * t.initialDistance.value == t.initialDistance.value - current
    ensures HasBaseline(t) && current >= t.initialDistance.value ==> s.progress == 0.0
    ensures HasBaseline(t) && current <= 0.0 ==> s.progress == 1.0
  {
    if !HasBaseline(t) then
      Step(Tracker(Some(current)), 0.0)
    else
      var initial := t.initialDistance.value;
      Step(t, Clamp01(1.0 - current / initial))
  }

  /**
    With a fixed baseline, progress never increases as the current distance
    grows: walking away lowers it, since no high-water mark is kept.
   */
  lemma ProgressNonIncreasing(t: Tracker, near: real, far: real)
    requires HasBaseline(t)
    requires near <= far
    ensures Progress(t, far).progress <= Progress(t, near).progress
  {
    var initial := t.initialDistance.value;
    DivideMonotone(near, far, initial);
  }

  lemma DivideMonotone(a: real, b: real, d: real)
    requires a <= b && d > 0.0
    ensures a / d <= b / d
  {
  }

  /**
    Within the baseline the decrease is strict: any step away from the
    destination is visible as lost progress.
   */
  lemma ProgressRegresses(t: Tracker, near: real, far: real)
    requires HasBaseline(t)
    requires 0.0 <= near < far <= t.initialDistance.value
    ensures Progress(t, far).progress < Progress(t, near).progress
  {
  }

  /**
    The appear hook: takes the tracked distance as baseline only when no
    baseline was ever stored and a distance is available.
   */
  function Appear(t: Tracker, distance: Option<real>): (r: Tracker)
    ensures t.initialDistance.Some? ==> r == t
    ensures distance.None? ==> r == t
    ensures t.initialDistance.None? && distance.Some? ==> r.initialDistance == distance
  {
    if distance.Some? && t.initialDistance.None? then Tracker(distance) else t
  }

  /** Appearing twice is the same as appearing once. */
  lemma AppearIdempotent(t: Tracker, d1: Option<real>, d2: Option<real>)
    ensures Appear(Appear(t, d1), d1) == Appear(t, d1)
    ensures d1.Some? ==> Appear(Appear(t, d1), d2) == Appear(t, d1)
  {
  }

  /**
    A baseline taken on appear is kept by the first progress computation,
    which reports 0 for an unchanged distance.
   */
  lemma AppearThenProgress(d: real)
    requires d > 0.0
    ensures Progress(Appear(Fresh, Some(d)), d) == Step(Tracker(Some(d)), 0.0)
  {
  }

  /**
    The order on first display: the body is evaluated before the appear hook
    fires, so the first progress computation captures the baseline and the
    hook then leaves it alone.
   */
  lemma FirstRenderThenAppear(d: real)
    ensures Progress(Fresh, d).progress == 0.0
    ensures Appear(Progress(Fresh, d).tracker, Some(d)) == Tracker(Some(d))
    ensures Render(Fresh, Some(d)).tracker == Appear(Render(Fresh, Some(d)).tracker, Some(d))
  {
  }

  // ---------------------------------------------------------------------
  // A run of distance samples
  // ---------------------------------------------------------------------

  /** The state after a run of samples and the progress shown for each. */
  datatype Trace = Trace(tracker: Tracker, progress: seq<real>)

  /** Feeds every sample of a run through `Progress`, in order. */
  function Track(t: Tracker, samples: seq<real>): (r: Trace)
    ensures |r.progress| == |samples|
    ensures forall i :: 0 <= i < |r.progress| ==> 0.0 <= r.progress[i] <= 1.0
    ensures HasBaseline(t) ==> r.tracker == t
    decreases |samples|
  {
    if samples == [] then
      Trace(t, [])
    else
      var s := Progress(t, samples[0]);
      var rest := Track(s.tracker, samples[1..]);
      Trace(rest.tracker, [s.progress] + rest.progress)
  }

  /**
    The baseline is set once: the first positive sample after a fresh start
    becomes the baseline, shows 0, and survives the rest of the run.
   */
  lemma BaselineSetOnce(samples: seq<real>)
    requires |samples| > 0 && samples[0] > 0.0
    ensures Track(Fresh, samples).tracker == Tracker(Some(samples[0]))
    ensures Track(Fresh, samples).progress[0] == 0.0
  {
  }

  /**
    A constant distance shows a constant progress: every sample shows the
    value derived from the one baseline, e.g. 0 when the distance equals it.
   */
  lemma {:induction false} ConstantDistanceConstantProgress(t: Tracker, c: real, samples: seq<real>)
    requires HasBaseline(t)
    requires forall i :: 0 <= i < |samples| ==> samples[i] == c
    ensures forall i :: 0 <= i < |samples| ==> Track(t, samples).progress[i] == Progress(t, c).progress
    ensures c == t.initialDistance.value ==> Progress(t, c).progress == 0.0
    decreases |samples|
  {
    if samples != [] {
      ConstantDistanceConstantProgress(t, c, samples[1..]);
      var rest := Track(t, samples[1..]);
      assert Track(t, samples).progress == [Progress(t, c).progress] + rest.progress;
    }
  }

  /**
    Walking straight to the destination from a fresh start: the first sample
    is the baseline, halfway shows one half, arrival shows the full bar.
   */
  lemma StraightWalk(d: real)
    requires d > 0.0
    ensures Track(Fresh, [d, d / 2.0, 0.0]).progress == [0.0, 0.5, 1.0]
  {
    var t := Tracker(Some(d));
    var half := d / 2.0;
    HalfwayIsHalf(t);
    var last := Track(t, [0.0]);
    assert last.progress == [1.0] by {
      assert [0.0][1..] == [];
    }
    var mid := Track(t, [half, 0.0]);
    assert mid.progress == [0.5, 1.0] by {
      assert [half, 0.0][1..] == [0.0];
    }
    assert [d, half, 0.0][1..] == [half, 0.0];
  }

  lemma HalfwayIsHalf(t: Tracker)
    requires HasBaseline(t)
    ensures Progress(t, t.initialDistance.value / 2.0) == Step(t, 0.5)
  {
    var d := t.initialDistance.value;
    assert (d / 2.0) / d == 0.5 by {
      assert (d / 2.0) == 0.5 * d;
    }
  }

  // ---------------------------------------------------------------------
  // Status message
  // ---------------------------------------------------------------------

  const Arrived: string := "You've arrived at your destination!"
  const AlmostThere: string := "Almost there! You're very close!"
  const GettingCloser: string := "Getting closer! Keep going!"
  const GoodProgress: string := "You're making good progress!"
  const OnYourWay: string := "On your way! Keep going!"

  /** The thresholds in increasing order, and the message for each tier. */
  const Thresholds: seq<real> := [0.3, 0.6, 0.85, 0.95]
  const Messages: seq<string> := [OnYourWay, GoodProgress, GettingCloser, AlmostThere, Arrived]

  /** How many of `ts` the progress has reached. */
  function CountMet(ts: seq<real>, p: real): (n: nat)
    ensures n <= |ts|
  {
    if ts == [] then 0 else (if ts[0] <= p then 1 else 0) + CountMet(ts[1..], p)
  }

  /** The message picked by the first threshold that is met, checked from the top. */
  function StatusMessage(p: real): (m: string)
    ensures m in Messages
    ensures m == Arrived <==> p >= 0.95
    ensures m == AlmostThere <==> 0.85 <= p < 0.95
    ensures m == GettingCloser <==> 0.6 <= p < 0.85
    ensures m == GoodProgress <==> 0.3 <= p < 0.6
    ensures m == OnYourWay <==> p < 0.3
  {
    if p >= 0.95 then Arrived
    else if p >= 0.85 then AlmostThere
    else if p >= 0.6 then GettingCloser
    else if p >= 0.3 then GoodProgress
    else OnYourWay
  }

  /**
    The if-chain agrees with the table reading: the message is the one of
    the tier given by how many thresholds are met, i.e. the highest one met.
   */
  lemma StatusIsHighestThresholdMet(p: real)
    ensures StatusMessage(p) == Messages[CountMet(Thresholds, p)]
  {
    var t := Thresholds;
    assert t[1..] == [0.6, 0.85, 0.95];
    assert t[1..][1..] == [0.85, 0.95];
    assert t[1..][1..][1..] == [0.95];
    assert t[1..][1..][1..][1..] == [];
    var n3 := CountMet([0.95], p);
    var n2 := CountMet([0.85, 0.95], p);
    var n1 := CountMet([0.6, 0.85, 0.95], p);
    assert n3 == if 0.95 <= p then 1 else 0;
    assert n2 == (if 0.85 <= p then 1 else 0) + n3;
    assert n1 == (if 0.6 <= p then 1 else 0) + n2;
    assert CountMet(t, p) == (if 0.3 <= p then 1 else 0) + n1;
  }

  /** More progress never shows an earlier-tier message. */
  lemma {:induction false} CountMetMonotone(ts: seq<real>, p: real, q: real)
    requires p <= q
    ensures CountMet(ts, p) <= CountMet(ts, q)
    decreases |ts|
  {
    if ts != [] {
      CountMetMonotone(ts[1..], p, q);
    }
  }

  // ---------------------------------------------------------------------
  // Colour ramp
  // ---------------------------------------------------------------------

  datatype Rgb = Rgb(red: real, green: real, blue: real)

  /** Red at 0, yellow at 0.5, green at 1, by two linear segments. */
  function ProgressColor(p: real): (c: Rgb)
    ensures c.blue == 0.0
    ensures c.red == 1.0 || c.green == 1.0
    ensures 0.0 <= p <= 1.0 ==> 0.0 <= c.red <= 1.0 && 0.0 <= c.green <= 1.0
    ensures p == 0.0 ==> c == Rgb(1.0, 0.0, 0.0)
    ensures p == 0.5 ==> c == Rgb(1.0, 1.0, 0.0)
    ensures p == 1.0 ==> c == Rgb(0.0, 1.0, 0.0)
  {
    if p < 0.5 then Rgb(1.0, p * 2.0, 0.0)
    else Rgb(1.0 - (p - 0.5) * 2.0, 1.0, 0.0)
  }

  /**
    The ramp is continuous across the split at 0.5: each channel moves by at
    most twice the change in progress, for any two progress values.
   */
  lemma ColorLipschitz(p: real, q: real)
    ensures Abs(ProgressColor(p).red - ProgressColor(q).red) <= 2.0 * Abs(p - q)
    ensures Abs(ProgressColor(p).green - ProgressColor(q).green) <= 2.0 * Abs(p - q)
  {
  }

  /** Along the ramp red only fades and green only grows. */
  lemma ColorMonotone(p: real, q: real)
    requires p <= q
    ensures ProgressColor(q).red <= ProgressColor(p).red
    ensures ProgressColor(p).green <= ProgressColor(q).green
  {
  }

  // ---------------------------------------------------------------------
  // Labels and the panel as a whole
  // ---------------------------------------------------------------------

  /** Under a kilometre the distance shows whole metres, otherwise kilometres. */
  datatype DistanceLabel = Meters(meters: int) | Kilometers(kilometers: real)

  function DistanceText(d: real): (l: DistanceLabel)
    ensures l.Meters? <==> d < 1000.0
    ensures 0.0 <= d < 1000.0 ==> 0 <= l.meters <= 999 && l.meters as real <= d < l.meters as real + 1.0
    ensures d >= 1000.0 ==> l.kilometers >= 1.0 && l.kilometers * 1000.0 == d
  {
    if d < 1000.0 then Meters(Truncate(d)) else Kilometers(d / 1000.0)
  }

  /** The whole-percent figure shown above the bar. */
  function PercentText(p: real): (n: int)
    requires 0.0 <= p <= 1.0
    ensures 0 <= n <= 100
    ensures n as real <= p * 100.0 < n as real + 1.0
  {
    Truncate(p * 100.0)
  }

  /** What the sheet shows: a spinner, or the full progress panel. */
  datatype Panel =
    | Calculating
    | Showing(distance: DistanceLabel, percent: int, progress: real, status: string, color: Rgb)

  datatype Frame = Frame(tracker: Tracker, panel: Panel)

  /**
    One evaluation of the sheet for the tracked distance, if any: no distance
    shows the spinner and leaves the baseline alone; a distance runs the
    progress computation and binds message and colour to its result.
   */
  function Render(t: Tracker, distance: Option<real>): (f: Frame)
    ensures distance.None? ==> f == Frame(t, Calculating)
    ensures distance.Some? ==> f.tracker == Progress(t, distance.value).tracker
    ensures distance.Some? ==>
              && f.panel.Showing?
              && f.panel.progress == Progress(t, distance.value).progress
              && f.panel.distance == DistanceText(distance.value)
              && f.panel.percent == PercentText(f.panel.progress)
              && f.panel.status == StatusMessage(f.panel.progress)
              && f.panel.color == ProgressColor(f.panel.progress)
              && 0 <= f.panel.percent <= 100
              && f.panel.status in Messages
              && 0.0 <= f.panel.color.red <= 1.0
              && 0.0 <= f.panel.color.green <= 1.0
              && f.panel.color.blue == 0.0
  {
    match distance
    case None => Frame(t, Calculating)
    case Some(d) =>
      var s := Progress(t, d);
      Frame(s.tracker, Showing(DistanceText(d), PercentText(s.progress), s.progress,
                               StatusMessage(s.progress), ProgressColor(s.progress)))
  }

  /**
    The panel is consistent with itself: the arrival message appears exactly
    when the percent figure reads 95 or more, and the bar is green exactly
    when it reads 100.
   */
  lemma PanelConsistent(t: Tracker, d: real)
    ensures var panel := Render(t, Some(d)).panel;
      panel.status == Arrived <==> panel.percent >= 95
    ensures var panel := Render(t, Some(d)).panel;
      panel.color == Rgb(0.0, 1.0, 0.0) <==> panel.percent == 100
  {
  }
}
