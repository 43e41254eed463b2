/**
 * What `_loop` guarantees over whole runs of frames: faceless frames are
 * inert, each eye's queue holds the last radii, the brow baseline is latched
 * exactly once, and every timer is the debounce timer of `Debounce` driven by
 * its own condition on the face frames.
 */
module Behaviour {
  import opened Wrappers
  import opened Config
  import opened Stats
  import opened Smoothing
  import opened Geometry
  import opened Calibration
  import opened Debounce
  import opened Engine

  /** A face frame appends each eye's radius to its queue. */
  lemma FaceFrameQueues(s: EngineState, f: FaceInput, now: real)
    ensures FrameStep(s, Some(f), now).0.qL == Window(s.qL, QueueLen, f.left.radius)
    ensures FrameStep(s, Some(f), now).0.qR == Window(s.qR, QueueLen, f.right.radius)
  {
  }

  /** A face frame reports its brow gap and latches the baseline with it. */
  lemma FaceFrameCalibration(s: EngineState, f: FaceInput, now: real)
    ensures var r := FrameStep(s, Some(f), now);
      && r.1.blg == BrowGap(f.left.lidUpY, f.left.browY, f.right.lidUpY, f.right.browY, f.h)
      && r.0.calib == Latch(s.calib, s.t0, now, r.1.blg)
  {
  }

  /**
   * A face frame re-arms each timer on its condition, read off the frame's
   * reported metrics; the moderate timer follows `ecr >= EcrT1` alone.
   */
  lemma FaceFrameTimers(s: EngineState, f: FaceInput, now: real)
    ensures var r := FrameStep(s, Some(f), now);
      && r.0.t1 == Arm(s.t1, r.1.ecr >= EcrT1, now)
      && r.0.t2 == Arm(s.t2, Closure2(r.1.ecr), now)
      && r.0.tM == Arm(s.tM, MouthOpen(r.1.mar), now)
  {
  }

  /** Running `a` and then `b` is running `a + b`; the outputs line up. */
  lemma {:induction false} RunAppend(s: EngineState, a: seq<Frame>, b: seq<Frame>)
    ensures Run(s, a + b).0 == Run(Run(s, a).0, b).0
    ensures Run(s, a + b).1 == Run(s, a).1 + Run(Run(s, a).0, b).1
  {
    if |b| == 0 {
      assert a + b == a;
    } else {
      var b' := b[..|b| - 1];
      assert (a + b)[..|a + b| - 1] == a + b';
      assert (a + b)[|a + b| - 1] == b[|b| - 1];
      RunAppend(s, a, b');
    }
  }

  predicate NoFaces(frames: seq<Frame>) {
    forall k :: 0 <= k < |frames| ==> frames[k].face.None?
  }

  predicate AllFaces(frames: seq<Frame>) {
    forall k :: 0 <= k < |frames| ==> frames[k].face.Some?
  }

  /**
   * Frames without a face touch neither the queues, nor the calibration,
   * nor the timers, and each reports zero metrics and no alert.
   */
  lemma {:induction false} NoFaceRunIsInert(s: EngineState, frames: seq<Frame>)
    requires NoFaces(frames)
    ensures Run(s, frames).0 == s
    ensures forall k :: 0 <= k < |frames| ==> Run(s, frames).1[k] == NoFace
  {
    if |frames| > 0 {
      NoFaceRunIsInert(s, frames[..|frames| - 1]);
    }
  }

  /**
   * Losing the face for any number of frames is invisible afterwards: the
   * state is what it would have been had those frames never arrived.
   */
  lemma FaceLossIsTransparent(s: EngineState, before: seq<Frame>, gap: seq<Frame>, after: seq<Frame>)
    requires NoFaces(gap)
    ensures Run(s, before + gap + after).0 == Run(s, before + after).0
  {
    RunAppend(s, before + gap, after);
    RunAppend(s, before, gap);
    NoFaceRunIsInert(Run(s, before).0, gap);
    RunAppend(s, before, after);
  }

  /** The well-formedness of the state (queues within `QueueLen`) survives any run. */
  lemma {:induction false} RunStaysWellFormed(s: EngineState, frames: seq<Frame>)
    requires WellFormed(s)
    ensures WellFormed(Run(s, frames).0)
  {
    if |frames| > 0 {
      RunStaysWellFormed(s, frames[..|frames| - 1]);
    }
  }

  datatype Side = Left | Right

  function QueueOf(s: EngineState, side: Side): seq<real> {
    match side
    case Left => s.qL
    case Right => s.qR
  }

  /** The raw radii of one eye, one per face frame, oldest first. */
  function Radii(frames: seq<Frame>, side: Side): seq<real> {
    if |frames| == 0 then []
    else
      var last := frames[|frames| - 1];
      Radii(frames[..|frames| - 1], side)
        + match last.face
          case None => []
          case Some(f) => [if side == Left then f.left.radius else f.right.radius]
  }

  lemma {:induction false} QueueIsPushAll(s: EngineState, frames: seq<Frame>, side: Side)
    ensures QueueOf(Run(s, frames).0, side) == PushAll(QueueOf(s, side), QueueLen, Radii(frames, side))
  {
    if |frames| > 0 {
      var init := frames[..|frames| - 1];
      QueueIsPushAll(s, init, side);
      var prev := Run(s, init).0;
      var xs := Radii(init, side);
      match frames[|frames| - 1].face {
        case None =>
          assert Radii(frames, side) == xs + [] == xs;
        case Some(f) =>
          FaceFrameQueues(prev, f, frames[|frames| - 1].now);
          var x := if side == Left then f.left.radius else f.right.radius;
          assert (xs + [x])[..|xs + [x]| - 1] == xs;
      }
    }
  }

  /**
   * Each eye's queue holds exactly the last `min(n, 3)` radii it was given,
   * oldest first: the initial contents followed by one radius per face frame,
   * cut to the last `QueueLen`.
   */
  lemma QueuesHoldLastRadii(s: EngineState, frames: seq<Frame>, side: Side)
    requires WellFormed(s)
    ensures QueueOf(Run(s, frames).0, side) == LastN(QueueOf(s, side) + Radii(frames, side), QueueLen)
  {
    QueueIsPushAll(s, frames, side);
    PushAllKeepsLast(QueueOf(s, side), QueueLen, Radii(frames, side));
  }

  /** Once the baseline is set, no frame changes it or the samples. */
  lemma {:induction false} BaselineSettled(s: EngineState, frames: seq<Frame>)
    requires s.calib.base.Some?
    ensures Run(s, frames).0.calib == s.calib
  {
    if |frames| > 0 {
      var init := frames[..|frames| - 1];
      BaselineSettled(s, init);
      if frames[|frames| - 1].face.Some? {
        FaceFrameCalibration(Run(s, init).0, frames[|frames| - 1].face.value, frames[|frames| - 1].now);
      }
    }
  }

  /** Some face frame of the run arrived at or after the end of the calibration window. */
  predicate WindowPassed(t0: real, frames: seq<Frame>) {
    exists k :: 0 <= k < |frames| && frames[k].face.Some? && frames[k].now - t0 >= BlgCalib
  }

  lemma WindowPassedSnoc(t0: real, frames: seq<Frame>)
    requires |frames| > 0
    ensures var init, last := frames[..|frames| - 1], frames[|frames| - 1];
      WindowPassed(t0, frames) <==> WindowPassed(t0, init) || (last.face.Some? && last.now - t0 >= BlgCalib)
  {
    var n := |frames| - 1;
    var init := frames[..n];
    if WindowPassed(t0, frames) {
      var k :| 0 <= k < |frames| && frames[k].face.Some? && frames[k].now - t0 >= BlgCalib;
      if k < n {
        assert init[k] == frames[k];
      }
    }
    if WindowPassed(t0, init) {
      var k :| 0 <= k < |init| && init[k].face.Some? && init[k].now - t0 >= BlgCalib;
      assert frames[k] == init[k];
    }
  }

  /**
   * The baseline is set after a run exactly when it was set before or some
   * face frame of the run came at or after the end of the window.
   */
  lemma {:induction false} BaselineSetIffWindowPassed(s: EngineState, frames: seq<Frame>)
    ensures Run(s, frames).0.calib.base.Some? <==> s.calib.base.Some? || WindowPassed(s.t0, frames)
  {
    if |frames| > 0 {
      var init, last := frames[..|frames| - 1], frames[|frames| - 1];
      BaselineSetIffWindowPassed(s, init);
      if last.face.Some? {
        FaceFrameCalibration(Run(s, init).0, last.face.value, last.now);
      }
      WindowPassedSnoc(s.t0, frames);
    }
  }

  /** The brow gaps of the face frames, oldest first. */
  function Gaps(frames: seq<Frame>): seq<real> {
    if |frames| == 0 then []
    else
      var last := frames[|frames| - 1];
      Gaps(frames[..|frames| - 1])
        + match last.face
          case None => []
          case Some(f) => [BrowGap(f.left.lidUpY, f.left.browY, f.right.lidUpY, f.right.browY, f.h)]
  }

  /** Every face frame of the run arrived inside the calibration window. */
  predicate InsideWindow(t0: real, frames: seq<Frame>) {
    forall k :: 0 <= k < |frames| && frames[k].face.Some? ==> frames[k].now - t0 < BlgCalib
  }

  /**
   * While every face frame is inside the window the baseline stays unset
   * and each face frame's brow gap is collected, in order.
   */
  lemma {:induction false} CollectingSamples(s: EngineState, frames: seq<Frame>)
    requires s.calib.base.None? && InsideWindow(s.t0, frames)
    ensures Run(s, frames).0.calib == Baseline(None, s.calib.samples + Gaps(frames))
  {
    if |frames| > 0 {
      var init, last := frames[..|frames| - 1], frames[|frames| - 1];
      assert InsideWindow(s.t0, init) by {
        forall k | 0 <= k < |init| && init[k].face.Some?
          ensures init[k].now - s.t0 < BlgCalib
        {
          assert init[k] == frames[k];
        }
      }
      CollectingSamples(s, init);
      var g := Gaps(init);
      match last.face {
        case None =>
          assert Gaps(frames) == g + [] == g;
        case Some(f) =>
          FaceFrameCalibration(Run(s, init).0, f, last.now);
          assert s.calib.samples + Gaps(frames) == (s.calib.samples + g) + [Gaps(frames)[|Gaps(frames)| - 1]];
      }
    }
  }

  /**
   * The latch: after face frames inside the window, the first face frame at
   * or after its end freezes the baseline to the median of the collected
   * gaps (its own gap when none were collected), and it stays so forever.
   */
  lemma BaselineLatchesOnce(s: EngineState, before: seq<Frame>, f: FaceInput, now: real, encoded: bool, after: seq<Frame>)
    requires s.calib.base.None? && InsideWindow(s.t0, before) && now - s.t0 >= BlgCalib
    ensures var samples := s.calib.samples + Gaps(before);
      Run(s, before + [Frame(Some(f), now, encoded)] + after).0.calib
        == Baseline(Some(if |samples| > 0 then Median(samples)
                         else BrowGap(f.left.lidUpY, f.left.browY, f.right.lidUpY, f.right.browY, f.h)),
                    samples)
  {
    var frame := Frame(Some(f), now, encoded);
    RunAppend(s, before + [frame], after);
    RunAppend(s, before, [frame]);
    CollectingSamples(s, before);
    var mid := Run(s, before).0;
    assert [frame][..0] == [];
    FaceFrameCalibration(mid, f, now);
    BaselineSettled(Run(s, before + [frame]).0, after);
  }

  /** The three debounce timers of `_loop`. */
  datatype TimerKind = ModerateTimer | Closure2Timer | MouthTimer

  function TimerOf(s: EngineState, k: TimerKind): Option<real> {
    match k
    case ModerateTimer => s.t1
    case Closure2Timer => s.t2
    case MouthTimer => s.tM
  }

  function Duration(k: TimerKind): real {
    match k
    case ModerateTimer => T1Dur
    case Closure2Timer => T2Dur
    case MouthTimer => MarDur
  }

  /**
   * The condition a timer runs on, read off the frame's reported metrics.
   * The moderate condition is `ecr >= EcrT1` whatever the brow state (see
   * `Moderate`).
   */
  predicate Holds(k: TimerKind, o: Output) {
    match k
    case ModerateTimer => o.ecr >= EcrT1
    case Closure2Timer => Closure2(o.ecr)
    case MouthTimer => MouthOpen(o.mar)
  }

  /** What timer `k` sees of a run: one tick per face frame, with its condition and time. */
  function Ticks(k: TimerKind, frames: seq<Frame>, outs: seq<Output>): seq<Tick>
    requires |frames| == |outs|
  {
    if |frames| == 0 then []
    else
      var n := |frames| - 1;
      Ticks(k, frames[..n], outs[..n])
        + if frames[n].face.Some? then [Tick(Holds(k, outs[n]), frames[n].now)] else []
  }

  /**
   * Every timer of the engine is the debounce timer of `Debounce` driven by
   * its own condition on the run's face frames; faceless frames are skipped.
   */
  lemma {:induction false} TimerFollowsTicks(s: EngineState, frames: seq<Frame>, k: TimerKind)
    ensures TimerOf(Run(s, frames).0, k) == TimerRun(TimerOf(s, k), Ticks(k, frames, Run(s, frames).1))
  {
    if |frames| > 0 {
      var n := |frames| - 1;
      var init := frames[..n];
      TimerFollowsTicks(s, init, k);
      var outs := Run(s, frames).1;
      assert outs[..n] == Run(s, init).1;
      var ts := Ticks(k, init, outs[..n]);
      match frames[n].face {
        case None =>
          assert Ticks(k, frames, outs) == ts + [] == ts;
        case Some(f) =>
          FaceFrameTimers(Run(s, init).0, f, frames[n].now);
          var t := Tick(Holds(k, outs[n]), frames[n].now);
          assert (ts + [t])[..|ts + [t]| - 1] == ts;
      }
    }
  }

  /** On a run of face frames, tick `i` is frame `i`'s condition and time. */
  lemma {:induction false} AllFaceTicks(k: TimerKind, frames: seq<Frame>, outs: seq<Output>)
    requires |frames| == |outs| && AllFaces(frames)
    ensures |Ticks(k, frames, outs)| == |frames|
    ensures forall i :: 0 <= i < |frames| ==> Ticks(k, frames, outs)[i] == Tick(Holds(k, outs[i]), frames[i].now)
  {
    if |frames| > 0 {
      var n := |frames| - 1;
      AllFaceTicks(k, frames[..n], outs[..n]);
    }
  }

  /**
   * The alert of a frame is raised exactly when it has a face and at least
   * one timer, after the frame, has run for its duration.
   */
  lemma FrameAlert(s: EngineState, face: Option<FaceInput>, now: real)
    ensures var r := FrameStep(s, face, now);
      r.1.alert <==> face.Some? && exists k :: Sustained(TimerOf(r.0, k), now, Duration(k))
  {
    var r := FrameStep(s, face, now);
    if face.Some? && exists k :: Sustained(TimerOf(r.0, k), now, Duration(k)) {
      var k :| Sustained(TimerOf(r.0, k), now, Duration(k));
      match k {
        case ModerateTimer =>
        case Closure2Timer =>
        case MouthTimer =>
      }
    }
    if r.1.alert {
      assert Sustained(TimerOf(r.0, ModerateTimer), now, Duration(ModerateTimer))
          || Sustained(TimerOf(r.0, Closure2Timer), now, Duration(Closure2Timer))
          || Sustained(TimerOf(r.0, MouthTimer), now, Duration(MouthTimer));
    }
  }

  /** The alert of a run's last frame, in terms of the timers after it. */
  lemma LastFrameAlert(s: EngineState, frames: seq<Frame>)
    requires |frames| > 0
    ensures var n := |frames| - 1;
      var after := Run(s, frames).0;
      Run(s, frames).1[n].alert <==> frames[n].face.Some? && exists k :: Sustained(TimerOf(after, k), frames[n].now, Duration(k))
  {
    var n := |frames| - 1;
    FrameAlert(Run(s, frames[..n]).0, frames[n].face, frames[n].now);
  }

  /**
   * The debounce contract of `_loop`: starting from an idle timer, when
   * every frame of a run has a face and the timer's condition holds on all
   * of them, the timer started at the first frame and it is sustained at the
   * last frame exactly when its duration has elapsed since the first.
   */
  lemma HeldConditionTimer(s: EngineState, frames: seq<Frame>, k: TimerKind)
    requires TimerOf(s, k).None? && |frames| > 0 && AllFaces(frames) && frames[0].now != 0.0
    requires forall i :: 0 <= i < |frames| ==> Holds(k, Run(s, frames).1[i])
    ensures var first, last := frames[0].now, frames[|frames| - 1].now;
      && TimerOf(Run(s, frames).0, k) == Some(first)
      && (Sustained(TimerOf(Run(s, frames).0, k), last, Duration(k)) <==> last - first >= Duration(k))
  {
    var outs := Run(s, frames).1;
    TimerFollowsTicks(s, frames, k);
    AllFaceTicks(k, frames, outs);
    var ticks := Ticks(k, frames, outs);
    forall i | 0 <= i < |ticks|
      ensures ticks[i].cond
    {
      assert ticks[i] == Tick(Holds(k, outs[i]), frames[i].now);
    }
    SustainedIffHeldLongEnough(ticks, Duration(k));
  }

  /** ... and once the duration has elapsed, the last frame raises the alert. */
  lemma HeldConditionRaisesAlert(s: EngineState, frames: seq<Frame>, k: TimerKind)
    requires TimerOf(s, k).None? && |frames| > 0 && AllFaces(frames) && frames[0].now != 0.0
    requires forall i :: 0 <= i < |frames| ==> Holds(k, Run(s, frames).1[i])
    requires frames[|frames| - 1].now - frames[0].now >= Duration(k)
    ensures Run(s, frames).1[|frames| - 1].alert
  {
    HeldConditionTimer(s, frames, k);
    LastFrameAlert(s, frames);
  }
}
