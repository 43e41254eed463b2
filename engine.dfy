/**
 * The eyelid engine: the per-frame metric, calibration and debounce step of
 * `EyelidEngine._loop`, and the loop that drives it over the frames the
 * camera delivers. Detection, drawing, encoding and threading are outside
 * the model: the detector's result arrives as an optional `FaceInput`, the
 * clock as `now`, and the outcome of opening the camera and of encoding a
 * frame as booleans.
 */
module Engine {
  import opened Wrappers
  import opened Config
  import opened Stats
  import opened Smoothing
  import opened Geometry
  import opened Calibration
  import opened Debounce

  /**
   * What one eye contributes: the raw iris radius in pixels (the mean
   * distance from the iris centre to its four perimeter landmarks) and the
   * normalised y-coordinates of the upper lid, lower lid and brow landmarks.
   */
  datatype EyeInput = EyeInput(radius: real, lidUpY: real, lidDownY: real, browY: real)

  /**
   * A detected face: the frame height, both eyes, and the two mouth
   * distances (inner lip to inner lip, corner to corner) in pixels.
   */
  datatype FaceInput = FaceInput(
    h: real, left: EyeInput, right: EyeInput,
    lipVertical: real, lipHorizontal: real)

  /** The metrics and alert of one frame. */
  datatype Output = Output(ecr: real, blg: real, mar: real, alert: bool)

  /** What a frame without a face reports. */
  const NoFace := Output(0.0, 0.0, 0.0, false)

  /** The state `_loop` carries from one iteration to the next. */
  datatype EngineState = EngineState(
    qL: seq<real>, qR: seq<real>, calib: Baseline, t0: real,
    t1: Option<real>, t2: Option<real>, tM: Option<real>)

  /** The state right after the camera opened at time `t0`. */
  function Initial(t0: real): EngineState {
    EngineState([], [], Baseline(None, []), t0, None, None, None)
  }

  predicate WellFormed(s: EngineState) {
    |s.qL| <= QueueLen && |s.qR| <= QueueLen
  }

  /** What one face frame measures: the updated iris queues and the three metrics. */
  datatype Metrics = Metrics(qL: seq<real>, qR: seq<real>, ecr: real, blg: real, mar: real)

  /**
   * The metric stage of a face frame: each eye's radius joins its queue, the
   * smoothed diameters and the lid gaps give the ECR, the brow-to-lid gaps
   * the BLG, the lip distances the MAR.
   */
  function FaceMetrics(qL: seq<real>, qR: seq<real>, f: FaceInput): (m: Metrics)
    ensures |qL| <= QueueLen ==> |m.qL| <= QueueLen
    ensures |qR| <= QueueLen ==> |m.qR| <= QueueLen
  {
    var qL' := Window(qL, QueueLen, f.left.radius);
    var qR' := Window(qR, QueueLen, f.right.radius);
    var ecr := Ecr(2.0 * Median(qL'), LidGap(f.left.lidUpY, f.left.lidDownY, f.h),
                   2.0 * Median(qR'), LidGap(f.right.lidUpY, f.right.lidDownY, f.h));
    var blg := BrowGap(f.left.lidUpY, f.left.browY, f.right.lidUpY, f.right.browY, f.h);
    Metrics(qL', qR', ecr, blg, MouthAspectRatio(f.lipVertical, f.lipHorizontal))
  }

  /**
   * The calibration and debounce stage of a face frame, given what it
   * measured: the baseline latch, the three timers and the alert.
   */
  function Advance(s: EngineState, m: Metrics, now: real): (r: (EngineState, Output))
    ensures r.0.qL == m.qL && r.0.qR == m.qR && r.0.t0 == s.t0
  {
    var calib := Latch(s.calib, s.t0, now, m.blg);
    var t1 := Arm(s.t1, Moderate(m.ecr, CheatBrow(calib.base, m.blg)), now);
    var t2 := Arm(s.t2, Closure2(m.ecr), now);
    var tM := Arm(s.tM, MouthOpen(m.mar), now);
    var alert := Sustained(t1, now, T1Dur) || Sustained(t2, now, T2Dur) || Sustained(tM, now, MarDur);
    (EngineState(m.qL, m.qR, calib, s.t0, t1, t2, tM), Output(m.ecr, m.blg, m.mar, alert))
  }

  /**
   * One iteration of `_loop` after the detector has run. A frame without a
   * face reports zeros and touches no state.
   */
  function FrameStep(s: EngineState, face: Option<FaceInput>, now: real): (r: (EngineState, Output))
    ensures WellFormed(s) ==> WellFormed(r.0)
    ensures r.0.t0 == s.t0
  {
    match face
    case None => (s, NoFace)
    case Some(f) => Advance(s, FaceMetrics(s.qL, s.qR, f), now)
  }

  /** A frame as the camera and the encoder deliver it. */
  datatype Frame = Frame(face: Option<FaceInput>, now: real, encoded: bool)

  /** The state and the per-frame outputs after a run of frames. */
  function Run(s: EngineState, frames: seq<Frame>): (r: (EngineState, seq<Output>))
    ensures |r.1| == |frames| && r.0.t0 == s.t0
  {
    if |frames| == 0 then (s, [])
    else
      var prev := Run(s, frames[..|frames| - 1]);
      var last := frames[|frames| - 1];
      var next := FrameStep(prev.0, last.face, last.now);
      (next.0, prev.1 + [next.1])
  }

  /** The outputs handed to the callback: those of the frames that encoded. */
  function Emitted(frames: seq<Frame>, outs: seq<Output>): (r: seq<Output>)
    requires |frames| == |outs|
    ensures |r| <= |outs|
    ensures (forall k :: 0 <= k < |frames| ==> frames[k].encoded) ==> r == outs
    ensures (forall k :: 0 <= k < |frames| ==> !frames[k].encoded) ==> r == []
  {
    if |frames| == 0 then []
    else
      var n := |frames| - 1;
      Emitted(frames[..n], outs[..n]) + (if frames[n].encoded then [outs[n]] else [])
  }

  /** `EyelidEngine` with the state of `_loop` as fields. */
  class EyelidEngine {
    const qL: BoundedDeque
    const qR: BoundedDeque
    const t0: real
    var blgBase: Option<real>
    var blgSamples: seq<real>
    var t1: Option<real>
    var t2: Option<real>
    var tM: Option<real>

    ghost predicate Valid()
      reads this, qL, qR
    {
      qL != qR && qL.maxlen == QueueLen && qR.maxlen == QueueLen && qL.Valid() && qR.Valid()
    }

    function Snapshot(): EngineState
      reads this, qL, qR
    {
      EngineState(qL.items, qR.items, Baseline(blgBase, blgSamples), t0, t1, t2, tM)
    }

    /** The set-up at the head of `_loop`, once the camera has opened at `t0`. */
    constructor (t0: real)
      ensures Valid() && fresh(qL) && fresh(qR)
      ensures Snapshot() == Initial(t0)
    {
      qL := new BoundedDeque(QueueLen);
      qR := new BoundedDeque(QueueLen);
      this.t0 := t0;
      blgBase, blgSamples := None, [];
      t1, t2, tM := None, None, None;
    }

    /** The body of one iteration of `_loop`, from the detector's result on. */
    method Step(face: Option<FaceInput>, now: real) returns (ecr: real, blg: real, mar: real, alert: bool)
      requires Valid()
      modifies this, qL, qR
      ensures Valid()
      ensures (Snapshot(), Output(ecr, blg, mar, alert)) == FrameStep(old(Snapshot()), face, now)
    {
      ecr, blg, mar, alert := 0.0, 0.0, 0.0, false;
      if face.Some? {
        ecr, blg, mar := Measure(face.value);
        alert := Update(ecr, blg, mar, now);
      }
    }

    /** The metric stage: `iris_metrics` for each eye, then ECR, BLG and MAR. */
    method Measure(f: FaceInput) returns (ecr: real, blg: real, mar: real)
      requires Valid()
      modifies qL, qR
      ensures Valid()
      ensures Metrics(qL.items, qR.items, ecr, blg, mar) == FaceMetrics(old(qL.items), old(qR.items), f)
    {
      var dL, gL := IrisMetrics(qL, f.left.radius, f.left.lidUpY, f.left.lidDownY, f.h);
      var dR, gR := IrisMetrics(qR, f.right.radius, f.right.lidUpY, f.right.lidDownY, f.h);
      ecr := Ecr(dL, gL, dR, gR);
      blg := BrowGap(f.left.lidUpY, f.left.browY, f.right.lidUpY, f.right.browY, f.h);
      mar := MouthAspectRatio(f.lipVertical, f.lipHorizontal);
    }

    /** The calibration and debounce stage, once the frame's metrics are known. */
    method Update(ecr: real, blg: real, mar: real, now: real) returns (alert: bool)
      requires Valid()
      modifies this
      ensures Valid()
      ensures (Snapshot(), Output(ecr, blg, mar, alert))
           == Advance(old(Snapshot()), Metrics(qL.items, qR.items, ecr, blg, mar), now)
    {
      if blgBase.None? {
        if now - t0 < BlgCalib {
          blgSamples := blgSamples + [blg];
        } else {
          blgBase := Some(if |blgSamples| > 0 then Median(blgSamples) else blg);
        }
      }
      var cheatBrow := CheatBrow(blgBase, blg);

      var fired1, fired2, firedM;
      t1, fired1 := UpdateTimer(t1, Moderate(ecr, cheatBrow), now, T1Dur);
      t2, fired2 := UpdateTimer(t2, Closure2(ecr), now, T2Dur);
      tM, firedM := UpdateTimer(tM, MouthOpen(mar), now, MarDur);
      alert := fired1 || fired2 || firedM;
    }
  }

  /**
   * The update every timer gets on a face frame: while `cond` holds the timer
   * keeps its start (`t = t or now`) and fires once `dur` has elapsed;
   * otherwise it is cleared.
   */
  method UpdateTimer(t: Option<real>, cond: bool, now: real, dur: real) returns (t': Option<real>, fired: bool)
    ensures t' == Arm(t, cond, now)
    ensures fired <==> Sustained(t', now, dur)
  {
    fired := false;
    if cond {
      t' := Some(StartOr(t, now));
      if now - t'.value >= dur {
        fired := true;
      }
    } else {
      t' := None;
    }
  }

  /**
   * `_loop` over the frames the camera delivers until a read fails: nothing
   * at all when the camera did not open; otherwise one `Step` per frame, and
   * the frame's output goes to the callback when its encoding succeeded.
   */
  method RunLoop(cameraOpen: bool, t0: real, frames: seq<Frame>) returns (emitted: seq<Output>)
    ensures !cameraOpen ==> emitted == []
    ensures cameraOpen ==> emitted == Emitted(frames, Run(Initial(t0), frames).1)
  {
    emitted := [];
    if !cameraOpen {
      return;
    }
    var engine := new EyelidEngine(t0);
    var i := 0;
    while i < |frames|
      invariant 0 <= i <= |frames|
      invariant engine.Valid() && fresh(engine.qL) && fresh(engine.qR)
      invariant engine.Snapshot() == Run(Initial(t0), frames[..i]).0
      invariant emitted == Emitted(frames[..i], Run(Initial(t0), frames[..i]).1)
    {
      var ecr, blg, mar, alert := engine.Step(frames[i].face, frames[i].now);
      if frames[i].encoded {
        emitted := emitted + [Output(ecr, blg, mar, alert)];
      }
      assert frames[..i + 1][..i] == frames[..i];
      i := i + 1;
    }
    assert frames[..i] == frames;
  }
}
