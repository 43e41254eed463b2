/**
 * Per-frame geometry of the face: the iris diameter smoothed through the
 * eye's deque, the lid gap, the eye closure ratio (ECR), the brow gap (BLG)
 * and the mouth aspect ratio (MAR). Landmark y-coordinates are normalised to
 * [0, 1] and scaled by the frame height `h`; the Euclidean distances that the
 * source takes with `np.hypot` / `np.linalg.norm` arrive already computed.
 */
module Geometry {
  import opened Stats
  import opened Smoothing

  /**
   * `mouth_ar`: the distance between the inner lips over the distance between
   * the mouth corners, where a zero corner distance is replaced by 1.
   */
  function MouthAspectRatio(vertical: real, horizontal: real): (r: real)
    ensures horizontal == 0.0 ==> r == vertical
  {
    vertical / (if horizontal == 0.0 then 1.0 else horizontal)
  }

  /** Pixel gap from the upper to the lower lid landmark. */
  function LidGap(upY: real, downY: real, h: real): (g: real)
    ensures upY == downY ==> g == 0.0
  {
    (downY - upY) * h
  }

  /** Closure ratio of one eye: diameter over lid gap, or 0 for a zero gap. */
  function EyeRatio(diam: real, gap: real): (r: real)
    ensures gap == 0.0 ==> r == 0.0
  {
    if gap != 0.0 then diam / gap else 0.0
  }

  /** The frame's ECR: the larger of the two eyes' closure ratios. */
  function Ecr(diamL: real, gapL: real, diamR: real, gapR: real): (r: real)
    ensures r >= EyeRatio(diamL, gapL) && r >= EyeRatio(diamR, gapR)
    ensures r == EyeRatio(diamL, gapL) || r == EyeRatio(diamR, gapR)
  {
    var left, right := EyeRatio(diamL, gapL), EyeRatio(diamR, gapR);
    if right > left then right else left
  }

  /** The brow gap: lid-to-brow pixel distance averaged over both eyes. */
  function BrowGap(lidL: real, browL: real, lidR: real, browR: real, h: real): (r: real)
    ensures lidL == browL && lidR == browR ==> r == 0.0
    ensures h == 0.0 ==> r == 0.0
  {
    ((lidL - browL) * h + (lidR - browR) * h) / 2.0
  }

  /**
   * The mouth aspect ratio times the corner distance gives back the lip
   * distance whenever the corner distance is non-zero, and it is never
   * negative for distances.
   */
  lemma MouthRatioInverts(vertical: real, horizontal: real)
    ensures horizontal != 0.0 ==> MouthAspectRatio(vertical, horizontal) * horizontal == vertical
    ensures 0.0 <= vertical && 0.0 <= horizontal ==> 0.0 <= MouthAspectRatio(vertical, horizontal)
  {
  }

  /** On a frame of positive height the gap is positive iff the lower lid lies below the upper. */
  lemma LidGapSign(upY: real, downY: real, h: real)
    requires h > 0.0
    ensures LidGap(upY, downY, h) > 0.0 <==> downY > upY
  {
    var d := downY - upY;
    if d > 0.0 {
      assert d * h > 0.0 * h;
    } else {
      assert (-d) * h >= 0.0 * h;
      assert d * h == -((-d) * h);
    }
    assert LidGap(upY, downY, h) == d * h;
  }

  /**
   * The eye ratio times a non-zero gap gives back the diameter, and a
   * non-negative diameter over a non-negative gap gives a non-negative ratio.
   */
  lemma EyeRatioInverts(diam: real, gap: real)
    ensures gap != 0.0 ==> EyeRatio(diam, gap) * gap == diam
    ensures 0.0 <= diam && 0.0 <= gap ==> 0.0 <= EyeRatio(diam, gap)
  {
  }

  /**
   * The brow gap lies between the two eyes' lid-to-brow gaps, and equals
   * them when they agree.
   */
  lemma BrowGapBetween(lidL: real, browL: real, lidR: real, browR: real, h: real)
    ensures var gl, gr, r := (lidL - browL) * h, (lidR - browR) * h, BrowGap(lidL, browL, lidR, browR, h);
      ((gl <= r <= gr) || (gr <= r <= gl)) && (gl == gr ==> r == gl)
  {
  }

  /**
   * `iris_metrics`: appends the raw iris radius to the eye's deque, and
   * returns twice the median of the deque's contents together with the
   * eye's lid gap.
   */
  method IrisMetrics(q: BoundedDeque, radius: real, upY: real, downY: real, h: real)
    returns (diam: real, gap: real)
    requires q.Valid() && q.maxlen > 0
    modifies q
    ensures q.Valid()
    ensures q.items == Window(old(q.items), q.maxlen, radius)
    ensures diam == 2.0 * Median(q.items) && gap == LidGap(upY, downY, h)
  {
    q.Append(radius);
    diam := 2.0 * Median(q.items);
    gap := (downY - upY) * h;
  }

  /**
   * The smoothed diameter after any sequence of pushes into a fresh deque of
   * three: twice the middle of the last three radii, the sum of the two
   * radii, or twice the only radius.
   */
  lemma SmoothedDiameter(xs: seq<real>)
    requires |xs| > 0
    ensures var n := |xs|;
      2.0 * Median(PushAll([], 3, xs)) ==
        if n >= 3 then 2.0 * Mid3(xs[n - 3], xs[n - 2], xs[n - 1])
        else if n == 2 then xs[0] + xs[1]
        else 2.0 * xs[0]
  {
    PushAllFromEmpty(3, xs);
    var w := PushAll([], 3, xs);
    if |w| == 3 {
      MedianOfThree(w);
    } else if |w| == 2 {
      MedianOfTwo(w);
    } else {
      MedianOfOne(w);
    }
  }

  /** Pushing radii 10, 12, 11 into a fresh three-slot deque gives diameter 22. */
  lemma DiameterExample()
    ensures 2.0 * Median(PushAll([], 3, [10.0, 12.0, 11.0])) == 22.0
  {
    SmoothedDiameter([10.0, 12.0, 11.0]);
  }
}
