/**
 * The brow-gap baseline. While the baseline is unset and less than
 * `BlgCalib` seconds have passed since engine start, every face frame's brow
 * gap is collected. The first face frame at or after the end of that window
 * latches the baseline to the median of the collected gaps, or to its own gap
 * when none were collected; after that the baseline never changes.
 */
module Calibration {
  import opened Wrappers
  import opened Config
  import opened Stats

  /** The baseline and the collected samples after one face frame. */
  datatype Baseline = Baseline(base: Option<real>, samples: seq<real>)

  function Latch(b: Baseline, t0: real, now: real, blg: real): (r: Baseline)
    ensures b.base.Some? ==> r == b
    ensures r.base.Some? <==> b.base.Some? || now - t0 >= BlgCalib
    ensures |b.samples| <= |r.samples| && r.samples[..|b.samples|] == b.samples
  {
    if b.base.Some? then b
    else if now - t0 < BlgCalib then Baseline(None, b.samples + [blg])
    else Baseline(Some(if |b.samples| > 0 then Median(b.samples) else blg), b.samples)
  }

  /**
   * `cheat_brow`: the baseline is set to a truthy (non-zero) value and the
   * brow gap exceeds `BlgCoef` times it.
   */
  function CheatBrow(base: Option<real>, blg: real): (r: bool)
    ensures r ==> base.Some? && base.value != 0.0
    ensures base == Some(0.0) ==> !r
  {
    base.Some? && base.value != 0.0 && blg > BlgCoef * base.value
  }

  /** Inside the window an unset baseline stays unset and the gap is collected. */
  lemma LatchCollects(b: Baseline, t0: real, now: real, blg: real)
    requires b.base.None? && now - t0 < BlgCalib
    ensures Latch(b, t0, now, blg) == Baseline(None, b.samples + [blg])
  {
  }

  /**
   * At or after the window an unset baseline is frozen to the median of the
   * samples (or to the current gap when there are none); the current gap is
   * not collected.
   */
  lemma LatchFreezes(b: Baseline, t0: real, now: real, blg: real)
    requires b.base.None? && now - t0 >= BlgCalib
    ensures Latch(b, t0, now, blg).samples == b.samples
    ensures |b.samples| > 0 ==> Latch(b, t0, now, blg).base == Some(Median(b.samples))
    ensures |b.samples| == 0 ==> Latch(b, t0, now, blg).base == Some(blg)
  {
  }
}
