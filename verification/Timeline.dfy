/** The generated presentation timeline: evenly spaced, and never drifting from the host's clock. */
module Timeline {
  import opened Options

  const RATE_WINDOW_FRAMES := 64
  const STEP_MIN_FACTOR := 0.5
  const STEP_MAX_FACTOR := 2.0
  const MAX_FRAME_NUMBER_GAP := 120
  const LEAD_DEADBAND_MS := 8.0
  const LEAD_CORRECTION_PER_FRAME_MS := 0.05
  const REANCHOR_LEAD_MS := 30.0
  const LEAD_TARGET_MIN_MS := 2.0
  const LEAD_TARGET_MAX_MS := 200.0

  /** The servo that holds the lead over the platform's clock: unset, or the filtered lead and its target. */
  datatype Servo = Unset | Holding(filteredMs: real, targetMs: real)

  /** Seconds; host times are in milliseconds. */
  datatype State = State(frameDuration: real, hasRef: bool, frameRef: int, windowHostMs: int, windowFrames: int,
        step: real, servo: Servo)

  /** What a frame brings; `reanchor` is there after a flush, with the platform's position in seconds if it has one. */
  datatype Frame = Frame(hostMs: int, number: int, reanchor: Option<Option<real>>)

  function FreshState(frameDuration: real): State { State(frameDuration, false, 0, 0, 0, frameDuration, Unset) }

  /** The measured step is taken only for something that can be a frame rate. */
  predicate Acceptable(spanMs: int, frames: int, nominal: real)
    requires frames > 0
  {
    spanMs > 0 && nominal * STEP_MIN_FACTOR <= Measured(spanMs, frames) <= nominal * STEP_MAX_FACTOR
  }

  function Measured(spanMs: int, frames: int): real
    requires frames > 0
  {
    spanMs as real / 1000.0 / frames as real
  }

  /** In milliseconds, for so many frames. */
  function Correction(servo: Servo, frames: int): real {
    if servo.Unset? then 0.0
    else if servo.filteredMs - servo.targetMs > LEAD_DEADBAND_MS then -LEAD_CORRECTION_PER_FRAME_MS * frames as real
    else if servo.filteredMs - servo.targetMs < -LEAD_DEADBAND_MS then LEAD_CORRECTION_PER_FRAME_MS * frames as real
    else 0.0
  }

  /** After a frame that advanced the frame number by `elapsed`. */
  function Advanced(s: State, f: Frame, elapsed: int): State
    requires elapsed >= 1
  {
    var frames := s.windowFrames + elapsed;
    var t := s.(frameRef := f.number);
    if frames < RATE_WINDOW_FRAMES then t.(windowFrames := frames)
    else
      t.(windowHostMs := f.hostMs, windowFrames := 0,
         step := if Acceptable(f.hostMs - s.windowHostMs, frames, s.frameDuration)
           then Measured(f.hostMs - s.windowHostMs, frames) else s.step)
  }

  function Restarted(s: State, f: Frame): State {
    s.(frameRef := f.number, windowHostMs := f.hostMs, windowFrames := 0)
  }

  function After(s: State, f: Frame): State {
    var elapsed := f.number - s.frameRef;
    if !s.hasRef then Restarted(s, f).(hasRef := true, step := s.frameDuration)
    else if f.reanchor.Some? then Restarted(s, f).(servo := Unset)
    else if elapsed < 1 || elapsed > MAX_FRAME_NUMBER_GAP then Restarted(s, f).(step := s.frameDuration)
    else Advanced(s, f, elapsed)
  }

  function Pts(s: State, f: Frame, previous: real): real {
    var elapsed := f.number - s.frameRef;
    if !s.hasRef then 0.0
    else if f.reanchor.Some? then
      match f.reanchor.value
      case Some(position) => position + REANCHOR_LEAD_MS / 1000.0
      case None => previous + s.step
    else if elapsed < 1 || elapsed > MAX_FRAME_NUMBER_GAP then previous + s.frameDuration
    else previous + Advanced(s, f, elapsed).step * elapsed as real + Correction(s.servo, elapsed) / 1000.0
  }

  class Generator {
    var frameDuration: real
    var hasRef: bool
    var frameRef: int
    var windowHostMs: int
    var windowFrames: int
    var step: real
    var reanchorRequested: bool
    var servo: Servo

    function View(): State
      reads this
    {
      State(frameDuration, hasRef, frameRef, windowHostMs, windowFrames, step, servo)
    }

    predicate Valid()
      reads this
    {
      windowFrames >= 0
    }

    constructor (redrawRate: nat)
      requires redrawRate > 0
      ensures Valid() && View() == FreshState(1.0 / redrawRate as real) && !reanchorRequested
    {
      frameDuration, step := 1.0 / redrawRate as real, 1.0 / redrawRate as real;
      hasRef, frameRef, windowHostMs, windowFrames, reanchorRequested, servo := false, 0, 0, 0, false, Unset;
    }

    /** `position` is where the platform is now, if it ever said. A request to re-anchor is consumed. */
    method NextPacketPts(hostMs: int, frameNumber: int, previous: real, position: Option<real>) returns (pts: real)
      requires Valid()
      modifies this
      ensures var f := Frame(hostMs, frameNumber, if old(reanchorRequested) then Some(position) else None);
        && Valid() && View() == After(old(View()), f) && pts == Pts(old(View()), f, previous)
        && reanchorRequested == (old(reanchorRequested) && !old(hasRef))
    {
      hide Advanced, Correction;
      if !hasRef {
        hasRef, frameRef, windowHostMs, windowFrames, step := true, frameNumber, hostMs, 0, frameDuration;
        return 0.0;
      }
      if reanchorRequested {
        reanchorRequested := false;
        frameRef, windowHostMs, windowFrames := frameNumber, hostMs, 0;
        servo := Unset;
        if position.Some? {
          return position.value + REANCHOR_LEAD_MS / 1000.0;
        }
        return previous + step;
      }
      var elapsed := frameNumber - frameRef;
      ghost var before := View();
      frameRef := frameNumber;
      if elapsed < 1 || elapsed > MAX_FRAME_NUMBER_GAP {
        windowHostMs, windowFrames, step := hostMs, 0, frameDuration;
        return previous + frameDuration;
      }
      ghost var f := Frame(hostMs, frameNumber, None);
      AdvancedRef(before, f, elapsed, frameNumber);
      CountFrames(hostMs, elapsed, f);
      var correctionMs := CorrectionMs(elapsed);
      pts := previous + step * elapsed as real + correctionMs / 1000.0;
    }

    /** Re-measure the step once the window is full. */
    method CountFrames(hostMs: int, elapsed: int, ghost f: Frame)
      requires Valid() && elapsed >= 1 && f.hostMs == hostMs && f.number == frameRef
      modifies this
      ensures Valid() && reanchorRequested == old(reanchorRequested) && servo == old(servo)
      ensures View() == Advanced(old(View()), f, elapsed)
    {
      windowFrames := windowFrames + elapsed;
      if windowFrames >= RATE_WINDOW_FRAMES {
        var spanMs := hostMs - windowHostMs;
        if spanMs > 0 {
          var measured := Measured(spanMs, windowFrames);
          if measured >= frameDuration * STEP_MIN_FACTOR && measured <= frameDuration * STEP_MAX_FACTOR {
            step := measured;
          }
        }
        windowHostMs, windowFrames := hostMs, 0;
      }
    }

    method CorrectionMs(elapsed: int) returns (ms: real)
      ensures ms == Correction(servo, elapsed)
    {
      ms := 0.0;
      if servo.Holding? {
        var errorMs := servo.filteredMs - servo.targetMs;
        if errorMs > LEAD_DEADBAND_MS {
          ms := -LEAD_CORRECTION_PER_FRAME_MS * elapsed as real;
        } else if errorMs < -LEAD_DEADBAND_MS {
          ms := LEAD_CORRECTION_PER_FRAME_MS * elapsed as real;
        }
      }
    }
  }

  // ---- One frame ----

  /** Not re-anchored and not taken for a restart, by `n` frames further than the last one. */
  predicate Moves(s: State, f: Frame, n: int) {
    s.hasRef && f.reanchor.None? && n == f.number - s.frameRef && 1 <= n <= 120
  }

  /**
   * The servo moves the timeline towards its target: ahead exactly when the filtered lead is more than eight
   * milliseconds below it, back exactly when it is more than eight above, by a twentieth of a millisecond for each
   * frame.
   */
  lemma ServoDirection(s: State, f: Frame, previous: real, n: int)
    requires Moves(s, f, n)
    ensures var even := previous + After(s, f).step * n as real; var pts := Pts(s, f, previous);
      && (pts > even <==> s.servo.Holding? && s.servo.filteredMs < s.servo.targetMs - 8.0)
      && (pts < even <==> s.servo.Holding? && s.servo.filteredMs > s.servo.targetMs + 8.0)
      && (pts > even ==> pts == even + 0.00005 * n as real)
      && (pts < even ==> pts == even - 0.00005 * n as real)
  {
  }

  /** What the frame adds to the lead, in milliseconds, beyond the even step. */
  function Added(s: State, f: Frame, previous: real, n: int): real {
    (Pts(s, f, previous) - (previous + After(s, f).step * n as real)) * 1000.0
  }

  function Distance(lead: real, target: real): real { if lead >= target then lead - target else target - lead }

  /** A correction never takes the lead further from its target, and takes it nearer whenever it does anything. */
  lemma ServoApproaches(s: State, f: Frame, previous: real, n: int)
    requires Moves(s, f, n) && s.servo.Holding?
    ensures var lead, target := s.servo.filteredMs, s.servo.targetMs; var moved := lead + Added(s, f, previous, n);
      && (Distance(moved, target) < Distance(lead, target) <==> Distance(lead, target) > 8.0)
      && (Distance(lead, target) <= 8.0 ==> moved == lead)
  {
    hide Pts, After;
    ServoDirection(s, f, previous, n);
    var added, lead, target := Added(s, f, previous, n), s.servo.filteredMs, s.servo.targetMs;
    if lead > target + 8.0 {
      assert added == -0.05 * n as real && 1.0 <= n as real <= 120.0;
    } else if lead < target - 8.0 {
      assert added == 0.05 * n as real && 1.0 <= n as real <= 120.0;
    } else {
      assert added == 0.0;
    }
  }

  /**
   * The step changes only when 64 frames or more have gone by, and then to the host's time for each of them exactly
   * when that is between half and twice the nominal step.
   */
  lemma StepChanges(s: State, f: Frame, n: int)
    requires Moves(s, f, n) && s.windowFrames >= 0
    ensures var frames, spanMs, t := s.windowFrames + n, f.hostMs - s.windowHostMs, After(s, f);
      if frames < 64 then t.step == s.step && t.windowFrames == frames && t.windowHostMs == s.windowHostMs
      else
        && t.windowFrames == 0 && t.windowHostMs == f.hostMs
        && var each := spanMs as real / 1000.0 / frames as real;
           t.step == if spanMs > 0 && 0.5 * s.frameDuration <= each <= 2.0 * s.frameDuration then each else s.step
  {
  }

  /** Frames lost inside a window do not matter: two steps are one. */
  lemma LossKeepsTime(s: State, f: Frame, g: Frame, previous: real)
    requires Moves(s, f, f.number - s.frameRef) && Moves(s, g, g.number - s.frameRef) && f.number < g.number
    requires 0 <= s.windowFrames && s.windowFrames + (g.number - s.frameRef) < 64
    ensures After(After(s, f), g) == After(s, g) && Pts(After(s, f), g, Pts(s, f, previous)) == Pts(s, g, previous)
  {
    var m, n, step := f.number - s.frameRef, g.number - f.number, s.step;
    assert step * m as real + step * n as real == step * (m + n) as real;
    CorrectionSum(s.servo, m, n);
  }

  lemma CorrectionSum(servo: Servo, m: int, n: int)
    ensures Correction(servo, m) + Correction(servo, n) == Correction(servo, m + n)
  {
  }

  // ---- After a flush or a restart ----

  /** So far nothing has been counted in this window. */
  predicate WindowOpens(s: State, f: Frame) {
    s.hasRef && s.frameRef == f.number && s.windowHostMs == f.hostMs && s.windowFrames == 0
  }

  /** A flushed timeline starts again thirty milliseconds ahead of the platform, or goes on if that is not known. */
  lemma Reanchored(s: State, f: Frame, previous: real)
    requires s.hasRef && f.reanchor.Some?
    ensures var t := After(s, f); WindowOpens(t, f) && t.step == s.step && t.servo.Unset?
    ensures Pts(s, f, previous) ==
      if f.reanchor.value.Some? then f.reanchor.value.value + 0.03 else previous + s.step
  {
  }

  /** A number that did not advance, or by more than 120, is a restart: one nominal frame later, at the nominal step. */
  lemma RestartedAt(s: State, f: Frame, previous: real)
    requires s.hasRef && f.reanchor.None? && (f.number <= s.frameRef || f.number > s.frameRef + 120)
    ensures var t := After(s, f); WindowOpens(t, f) && t.step == s.frameDuration && t.servo == s.servo
    ensures Pts(s, f, previous) == previous + s.frameDuration
  {
  }

  /** From there frames go on evenly for a whole window, be it from a new anchor, a restart or the first frame. */
  lemma {:induction false} EvenlyOn(start: Run, f: Frame, ins: seq<Input>)
    requires WindowOpens(start.state, f) && |ins| < 64 && forall i :: 0 <= i < |ins| ==> ins[i].servo.Unset?
    ensures var r := PlayFrom(start, Consecutive(f.number + 1, ins));
      && r.pts == start.pts + |ins| as real * start.state.step
      && r.state == start.state.(frameRef := f.number + |ins|, windowFrames := |ins|,
                                 servo := if ins == [] then start.state.servo else Unset)
  {
    var n := |ins| - 1;
    if ins != [] {
      EvenlyOn(start, f, ins[..n]);
      assert Consecutive(f.number + 1, ins)[..n] == Consecutive(f.number + 1, ins[..n]);
      assert |ins| as real * start.state.step == n as real * start.state.step + start.state.step;
    }
  }

  // ---- No drift ----

  lemma AdvancedRef(s: State, f: Frame, elapsed: int, ref: int)
    requires elapsed >= 1
    ensures Advanced(s.(frameRef := ref), f, elapsed) == Advanced(s, f, elapsed)
  {
  }

  /** A frame, and what the servo holds before it, which may change at any time. */
  datatype Arrival = Arrival(frame: Frame, servo: Servo)

  datatype Run = Run(state: State, pts: real)

  /** The state and the timestamp that any frames leave. */
  function PlayFrom(start: Run, arrivals: seq<Arrival>): Run {
    if arrivals == [] then start
    else
      var n := |arrivals| - 1;
      var before := PlayFrom(start, arrivals[..n]);
      var s := before.state.(servo := arrivals[n].servo);
      Run(After(s, arrivals[n].frame), Pts(s, arrivals[n].frame, before.pts))
  }

  /** From a fresh start on. */
  function Play(nominal: real, arrivals: seq<Arrival>): Run { PlayFrom(Run(FreshState(nominal), 0.0), arrivals) }

  datatype Input = Input(hostMs: int, servo: Servo)

  /** Frames with consecutive numbers, none lost and none re-anchored. */
  function Consecutive(first: int, ins: seq<Input>): seq<Arrival> {
    seq(|ins|, i requires 0 <= i < |ins| => Arrival(Frame(ins[i].hostMs, first + i, None), ins[i].servo))
  }

  function Steady(nominal: real, first: int, ins: seq<Input>): Run { Play(nominal, Consecutive(first, ins)) }

  lemma SteadyNext(nominal: real, first: int, ins: seq<Input>)
    requires ins != []
    ensures var n := |ins| - 1; var before := Steady(nominal, first, ins[..n]);
      var s := before.state.(servo := ins[n].servo); var f := Frame(ins[n].hostMs, first + n, None);
      Steady(nominal, first, ins) == Run(After(s, f), Pts(s, f, before.pts))
  {
    hide After, Pts;
    assert Consecutive(first, ins)[..|ins| - 1] == Consecutive(first, ins[..|ins| - 1]);
  }

  /** Host time from one window's start to the next. */
  function Span(ins: seq<Input>, k: nat): int
    requires 64 * k + 64 < |ins|
  {
    ins[64 * k + 64].hostMs - ins[64 * k].hostMs
  }

  ghost predicate AllAcceptable(nominal: real, ins: seq<Input>) {
    forall k: nat :: 64 * k + 64 < |ins| ==> Acceptable(Span(ins, k), 64, nominal)
  }

  /** The step in use in window `k`: nominal in the first, then the rate of the window before. */
  function StepIn(nominal: real, ins: seq<Input>, k: nat): real
    requires 64 * k < |ins|
  {
    if k == 0 then nominal else Measured(Span(ins, k - 1), 64)
  }

  /** Milliseconds the servo has added up to the last frame. */
  function Corrections(ins: seq<Input>): real {
    if |ins| <= 1 then 0.0 else Corrections(ins[..|ins| - 1]) + Correction(ins[|ins| - 1].servo, 1)
  }

  /** Where window `k` starts from: 63 nominal frames and the host time of all the windows before. */
  function Base(nominal: real, ins: seq<Input>, k: nat): real
    requires k > 0 && 64 * k < |ins|
  {
    63.0 * nominal + (ins[64 * (k - 1)].hostMs - ins[0].hostMs) as real / 1000.0
  }

  /** The timestamp of frame 64k + r without the servo. */
  function Even(nominal: real, ins: seq<Input>, k: nat, r: nat): real
    requires 64 * k + r < |ins|
  {
    if k == 0 then r as real * nominal else Base(nominal, ins, k) + (r + 1) as real * StepIn(nominal, ins, k)
  }

  lemma WholeWindow(spanMs: int)
    ensures 64.0 * Measured(spanMs, 64) == spanMs as real / 1000.0
  {
  }

  /** The last frame of a window stands exactly where the next window starts from. */
  lemma WindowEnd(nominal: real, ins: seq<Input>, k: nat)
    requires 64 * k + 64 < |ins|
    ensures Even(nominal, ins, k, 63) == Base(nominal, ins, k + 1)
  {
    if k > 0 {
      WholeWindow(Span(ins, k - 1));
    }
  }

  lemma EvenNext(nominal: real, ins: seq<Input>, k: nat, r: nat)
    requires 64 * k + r + 1 < |ins|
    ensures Even(nominal, ins, k, r + 1) == Even(nominal, ins, k, r) + StepIn(nominal, ins, k)
  {
    var step := StepIn(nominal, ins, k);
    assert (r + 1) as real * step == r as real * step + step;
    assert (r + 2) as real * step == (r + 1) as real * step + step;
  }

  lemma EvenPrefix(nominal: real, ins: seq<Input>, n: nat, k: nat, r: nat)
    requires 64 * k + r < n <= |ins|
    ensures Even(nominal, ins[..n], k, r) == Even(nominal, ins, k, r)
      && StepIn(nominal, ins[..n], k) == StepIn(nominal, ins, k)
  {
  }

  lemma AcceptablePrefix(nominal: real, ins: seq<Input>, n: nat)
    requires AllAcceptable(nominal, ins) && n <= |ins|
    ensures AllAcceptable(nominal, ins[..n])
  {
    forall k: nat | 64 * k + 64 < |ins[..n]|
      ensures Acceptable(Span(ins[..n], k), 64, nominal)
    {
      assert Span(ins[..n], k) == Span(ins, k);
    }
  }

  /** Where frame 64k + r stands, and the state it leaves. */
  lemma {:induction false} SteadyAt(nominal: real, first: int, ins: seq<Input>, k: nat, r: nat)
    requires |ins| == 64 * k + r + 1 && r < 64 && AllAcceptable(nominal, ins)
    ensures Steady(nominal, first, ins).state ==
            State(nominal, true, first + |ins| - 1, ins[64 * k].hostMs, r, StepIn(nominal, ins, k),
              ins[|ins| - 1].servo)
    ensures Steady(nominal, first, ins).pts == Even(nominal, ins, k, r) + Corrections(ins) / 1000.0
    decreases |ins|
  {
    hide Acceptable, Measured, Correction, Even, AllAcceptable, Base, Steady;
    var n := |ins| - 1;
    SteadyNext(nominal, first, ins);
    if n == 0 {
      SteadyEmpty(nominal, first);
      EvenStart(nominal, ins);
    } else {
      var f := Frame(ins[n].hostMs, first + n, None);
      AcceptablePrefix(nominal, ins, n);
      if r > 0 {
        SteadyAt(nominal, first, ins[..n], k, r - 1);
        EvenPrefix(nominal, ins, n, k, r - 1);
        EvenNext(nominal, ins, k, r - 1);
      } else {
        SteadyAt(nominal, first, ins[..n], k - 1, 63);
        EvenPrefix(nominal, ins, n, k - 1, 63);
        WindowEnd(nominal, ins, k - 1);
        EvenFirst(nominal, ins, k);
        AcceptableAt(nominal, ins, k - 1);
      }
    }
  }

  lemma SteadyEmpty(nominal: real, first: int)
    ensures Steady(nominal, first, []) == Run(FreshState(nominal), 0.0)
  {
  }

  lemma EvenStart(nominal: real, ins: seq<Input>)
    requires |ins| > 0
    ensures Even(nominal, ins, 0, 0) == 0.0
  {
  }

  lemma EvenFirst(nominal: real, ins: seq<Input>, k: nat)
    requires k > 0 && 64 * k < |ins|
    ensures Even(nominal, ins, k, 0) == Base(nominal, ins, k) + StepIn(nominal, ins, k)
  {
  }

  lemma AcceptableAt(nominal: real, ins: seq<Input>, k: nat)
    requires AllAcceptable(nominal, ins) && 64 * k + 64 < |ins|
    ensures Acceptable(Span(ins, k), 64, nominal)
  {
  }

  /**
   * At the end of every window the timeline stands at 63 nominal frames plus the host time from the first frame to the
   * window's start, plus whatever the servo has added: the rate is the host's, and nothing accumulates.
   */
  lemma NoDrift(nominal: real, first: int, ins: seq<Input>, k: nat)
    requires |ins| == 64 * k + 64 && AllAcceptable(nominal, ins)
    ensures Steady(nominal, first, ins).pts ==
      63.0 * nominal + (ins[64 * k].hostMs - ins[0].hostMs) as real / 1000.0 + Corrections(ins) / 1000.0
  {
    hide Steady, Corrections;
    SteadyAt(nominal, first, ins, k, 63);
    if k > 0 {
      WholeWindow(Span(ins, k - 1));
    }
  }

  lemma {:induction false} UnsetNoCorrection(ins: seq<Input>)
    requires forall i :: 0 <= i < |ins| ==> ins[i].servo.Unset?
    ensures Corrections(ins) == 0.0
  {
    if |ins| > 1 {
      UnsetNoCorrection(ins[..|ins| - 1]);
    }
  }

  /** With the servo unset nothing is added. */
  lemma NoDriftUnset(nominal: real, first: int, ins: seq<Input>, k: nat)
    requires |ins| == 64 * k + 64 && AllAcceptable(nominal, ins) && forall i :: 0 <= i < |ins| ==> ins[i].servo.Unset?
    ensures Steady(nominal, first, ins).pts == 63.0 * nominal + (ins[64 * k].hostMs - ins[0].hostMs) as real / 1000.0
  {
    hide Steady, Corrections;
    NoDrift(nominal, first, ins, k);
    UnsetNoCorrection(ins);
  }

  /** The servo moves the timeline by no more than its ceiling for each frame. */
  lemma {:induction false} CorrectionsBounded(ins: seq<Input>)
    ensures -LEAD_CORRECTION_PER_FRAME_MS * |ins| as real <= Corrections(ins)
    ensures Corrections(ins) <= LEAD_CORRECTION_PER_FRAME_MS * |ins| as real
  {
    if |ins| > 1 {
      CorrectionsBounded(ins[..|ins| - 1]);
    }
  }

  // ---- Always forward ----

  /** The step never falls below half the nominal frame duration. */
  predicate Paced(s: State) {
    s.frameDuration > 0.0 && s.step >= s.frameDuration * STEP_MIN_FACTOR && s.windowFrames >= 0
  }

  lemma PacedKept(s: State, f: Frame)
    requires Paced(s)
    ensures Paced(After(s, f)) && After(s, f).frameDuration == s.frameDuration
  {
    hide Measured;
  }

  /**
   * Without a re-anchoring, a frame's timestamp exceeds the one before it exactly when the frame restarts the window,
   * or the servo is not pulling back, or the step in use is longer than the servo's ceiling for one frame.
   */
  lemma IncreasesWhen(s: State, f: Frame, previous: real)
    requires Paced(s) && s.hasRef && f.reanchor.None?
    ensures var elapsed := f.number - s.frameRef;
      Pts(s, f, previous) > previous <==>
      || elapsed < 1 || elapsed > MAX_FRAME_NUMBER_GAP
      || Correction(s.servo, 1) >= 0.0 || Advanced(s, f, elapsed).step > LEAD_CORRECTION_PER_FRAME_MS / 1000.0
  {
    hide Advanced, Correction;
    var elapsed := f.number - s.frameRef;
    if 1 <= elapsed <= MAX_FRAME_NUMBER_GAP {
      PacedKept(s, f);
      CorrectionScales(s.servo, elapsed);
      StepAgainstServo(Advanced(s, f, elapsed).step, elapsed as real, Correction(s.servo, 1));
    }
  }

  lemma CorrectionScales(servo: Servo, frames: int)
    ensures Correction(servo, frames) == Correction(servo, 1) * frames as real
    ensures Correction(servo, 1) < 0.0 ==> Correction(servo, 1) == -LEAD_CORRECTION_PER_FRAME_MS
  {
  }

  lemma StepAgainstServo(step: real, n: real, correctionMs: real)
    requires n >= 1.0
    ensures step * n + correctionMs * n / 1000.0 > 0.0 <==> step + correctionMs / 1000.0 > 0.0
  {
    var each := step + correctionMs / 1000.0;
    assert each * n == step * n + correctionMs * n / 1000.0;
    if each > 0.0 {
      assert each * n > 0.0;
    } else {
      assert each * n <= 0.0;
    }
  }

  /** So they increase whatever arrives, as long as a nominal frame is longer than a tenth of a millisecond. */
  lemma Increasing(s: State, f: Frame, previous: real)
    requires Paced(s) && s.hasRef && f.reanchor.None? && s.frameDuration > 0.0001
    ensures Pts(s, f, previous) > previous
  {
    hide Pts, Advanced, Correction, Measured;
    IncreasesWhen(s, f, previous);
    var elapsed := f.number - s.frameRef;
    if 1 <= elapsed <= MAX_FRAME_NUMBER_GAP {
      PacedKept(s, f);
    }
  }

  /** No re-anchoring, and a servo that was calibrated aims at a lead it may aim at. */
  predicate Plain(arrivals: seq<Arrival>) {
    forall i :: 0 <= i < |arrivals| ==>
      && arrivals[i].frame.reanchor.None?
      && (arrivals[i].servo.Holding? ==> LEAD_TARGET_MIN_MS <= arrivals[i].servo.targetMs <= LEAD_TARGET_MAX_MS)
  }

  lemma {:induction false} PlayPaced(nominal: real, arrivals: seq<Arrival>)
    requires nominal > 0.0
    ensures var s := Play(nominal, arrivals).state;
      Paced(s) && s.frameDuration == nominal && s.hasRef == (arrivals != [])
  {
    hide Paced, After, Pts;
    if arrivals == [] {
      FreshPaced(nominal);
    } else {
      var n := |arrivals| - 1;
      PlayPaced(nominal, arrivals[..n]);
      var s := Play(nominal, arrivals[..n]).state;
      PacedServo(s, arrivals[n].servo);
      PacedKept(s.(servo := arrivals[n].servo), arrivals[n].frame);
      AfterHasRef(s.(servo := arrivals[n].servo), arrivals[n].frame);
    }
  }

  lemma FreshPaced(nominal: real)
    requires nominal > 0.0
    ensures Paced(FreshState(nominal))
  {
  }

  lemma PacedServo(s: State, servo: Servo)
    requires Paced(s)
    ensures Paced(s.(servo := servo))
  {
  }

  lemma AfterHasRef(s: State, f: Frame)
    ensures After(s, f).hasRef
  {
  }

  /** Over a whole run from the first frame on, timestamps strictly increase. */
  lemma {:induction false} RunIncreasing(nominal: real, arrivals: seq<Arrival>, i: nat, j: nat)
    requires nominal > 0.0001 && Plain(arrivals) && 1 <= i < j <= |arrivals|
    ensures 0.0 <= Play(nominal, arrivals[..i]).pts < Play(nominal, arrivals[..j]).pts
    decreases j
  {
    hide After, Pts, Paced;
    if j == 2 {
      FirstAtZero(nominal, arrivals[..1]);
    } else if i == j - 1 {
      RunIncreasing(nominal, arrivals, i - 1, i);
    } else {
      RunIncreasing(nominal, arrivals, i, j - 1);
    }
    PlayPaced(nominal, arrivals[..j - 1]);
    var last, run := arrivals[j - 1], Play(nominal, arrivals[..j - 1]);
    PacedServo(run.state, last.servo);
    Increasing(run.state.(servo := last.servo), last.frame, run.pts);
    assert arrivals[..j][..j - 1] == arrivals[..j - 1];
  }

  lemma FirstAtZero(nominal: real, arrivals: seq<Arrival>)
    requires |arrivals| == 1
    ensures Play(nominal, arrivals).pts == 0.0
  {
    assert arrivals[..0] == [];
    assert Play(nominal, []) == Run(FreshState(nominal), 0.0);
  }

  ghost predicate RunsForward(nominal: real) {
    forall arrivals: seq<Arrival> :: |arrivals| >= 2 && Plain(arrivals) ==>
      Play(nominal, arrivals).pts > Play(nominal, arrivals[..|arrivals| - 1]).pts
  }

  ghost predicate StatesForward(nominal: real) {
    forall s: State, f: Frame, previous: real ::
      Paced(s) && s.hasRef && s.frameDuration == nominal && f.reanchor.None? ==> Pts(s, f, previous) > previous
  }

  /** Windows of 80 frames in 4 milliseconds: 0.05 milliseconds a frame. */
  function Rushed(windows: nat): seq<Arrival> {
    seq(windows + 1, i => Arrival(Frame(4 * i, 80 * i, None), Unset))
  }

  /**
   * After the first such window the step is the shortest the nominal one allows, or no longer than the ceiling
   * anyway.
   */
  lemma {:induction false} RushedState(nominal: real, windows: nat)
    requires 0.0 < nominal <= 0.0001
    ensures Play(nominal, Rushed(windows)).state ==
            State(nominal, true, 80 * windows, 4 * windows, 0,
                  if windows > 0 && nominal >= 0.000025 then 0.00005 else nominal, Unset)
  {
    var arrivals := Rushed(windows);
    if windows == 0 {
      assert arrivals[..0] == [];
      assert Play(nominal, []) == Run(FreshState(nominal), 0.0);
    } else {
      RushedState(nominal, windows - 1);
      assert arrivals[..windows] == Rushed(windows - 1);
      assert Measured(4, 80) == 0.00005;
    }
  }

  /**
   * At ten thousand frames a second and more the servo can hold the timeline still or turn it back, however many frames
   * it has settled on before: after any number of such windows, one more frame with a lead ten milliseconds too long.
   */
  lemma HeldStill(nominal: real, windows: nat) returns (s: State, f: Frame, previous: real)
    requires 0.0 < nominal <= 0.0001 && windows > 0
    ensures f == Frame(4 * windows, 80 * windows + 1, None) && previous == Play(nominal, Rushed(windows)).pts
    ensures s == Play(nominal, Rushed(windows)).state.(servo := Holding(20.0, 10.0))
    ensures Paced(s) && s.hasRef && s.frameDuration == nominal && Pts(s, f, previous) <= previous
    ensures var arrivals := Rushed(windows) + [Arrival(f, s.servo)];
      Plain(arrivals) && Play(nominal, arrivals).pts <= Play(nominal, Rushed(windows)).pts
  {
    hide Play;
    RushedState(nominal, windows);
    var run := Play(nominal, Rushed(windows));
    s, f := run.state.(servo := Holding(20.0, 10.0)), Frame(4 * windows, 80 * windows + 1, None);
    previous := run.pts;
    PlayNext(nominal, Rushed(windows), Arrival(f, s.servo));
  }

  lemma PlayNext(nominal: real, arrivals: seq<Arrival>, last: Arrival)
    ensures var run := Play(nominal, arrivals); var s := run.state.(servo := last.servo);
      Play(nominal, arrivals + [last]) == Run(After(s, last.frame), Pts(s, last.frame, run.pts))
  {
    hide After, Pts;
    assert (arrivals + [last])[..|arrivals|] == arrivals;
  }

  /** Timestamps increase in every run, and from every paced state, exactly below ten thousand frames a second. */
  lemma ForwardExactlyWhen(nominal: real)
    requires nominal > 0.0
    ensures RunsForward(nominal) <==> nominal > 0.0001
    ensures StatesForward(nominal) <==> nominal > 0.0001
  {
    hide Pts, Paced, Play, Plain;
    if nominal > 0.0001 {
      forall arrivals: seq<Arrival> | |arrivals| >= 2 && Plain(arrivals)
        ensures Play(nominal, arrivals).pts > Play(nominal, arrivals[..|arrivals| - 1]).pts
      {
        RunIncreasing(nominal, arrivals, |arrivals| - 1, |arrivals|);
        assert arrivals[..|arrivals|] == arrivals;
      }
      forall s: State, f: Frame, previous: real | Paced(s) && s.hasRef && s.frameDuration == nominal && f.reanchor.None?
        ensures Pts(s, f, previous) > previous
      {
        Increasing(s, f, previous);
      }
    } else {
      var s, f, previous := HeldStill(nominal, 1);
      assert !(Pts(s, f, previous) > previous);
      var arrivals := Rushed(1) + [Arrival(f, s.servo)];
      assert arrivals[..|arrivals| - 1] == Rushed(1);
      assert !(Play(nominal, arrivals).pts > Play(nominal, arrivals[..|arrivals| - 1]).pts);
    }
  }
}
