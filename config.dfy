/**
 * The tuning constants of the eyelid engine: closure thresholds, debounce
 * durations, the brow coefficient, the calibration window and the length of
 * the per-eye smoothing queue. Times are in seconds.
 */
module Config {
  /** Moderate closure: ECR threshold and the time it must be held. */
  const EcrT1: real := 1.30
  const T1Dur: real := 0.20

  /** Second closure timer: ECR threshold and the time it must be held. */
  const EcrT2: real := 1.15
  const T2Dur: real := 0.50

  /** ECR threshold of the brow-raise clause of the moderate condition. */
  const EcrBrow: real := 1.40

  /** Mouth-open threshold on the mouth aspect ratio, and its hold time. */
  const MarTh: real := 0.35
  const MarDur: real := 0.50

  /** A brow gap above this multiple of the baseline is a brow raise. */
  const BlgCoef: real := 1.25

  /** Length of the brow-gap calibration window after engine start. */
  const BlgCalib: real := 1.5

  /** Capacity of each eye's smoothing queue. */
  const QueueLen: nat := 3
}
