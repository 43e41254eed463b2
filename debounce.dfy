/**
 * The debounce timers. Each timer is the start time of its condition, or
 * `None` while idle. On a face frame whose condition holds the timer keeps
 * its start (Python's `t = t or now`, so a start of 0.0, being falsy, is
 * replaced by `now`); on a face frame whose condition fails it is cleared.
 * A timer contributes to the alert once `now - start` reaches its duration.
 */
module Debounce {
  import opened Wrappers
  import opened Config

  /** Python's `t or now` for an optional float. */
  function StartOr(t: Option<real>, now: real): (r: real)
    ensures t.Some? && t.value != 0.0 ==> r == t.value
    ensures t.None? || t.value == 0.0 ==> r == now
  {
    if t.Some? && t.value != 0.0 then t.value else now
  }

  /** The timer after a face frame on which its condition is `cond`. */
  function Arm(t: Option<real>, cond: bool, now: real): (r: Option<real>)
    ensures r.Some? <==> cond
  {
    if cond then Some(StartOr(t, now)) else None
  }

  /** The timer has been running for at least `dur`. */
  predicate Sustained(t: Option<real>, now: real, dur: real) {
    t.Some? && now - t.value >= dur
  }

  /**
   * The moderate-closure condition `ecr >= ECR_T1 or (ecr >= ECR_BROW and
   * cheat_brow)`. Since `EcrBrow >= EcrT1` the brow clause never changes its
   * value: the condition is `ecr >= EcrT1` whatever the brow state.
   */
  function Moderate(ecr: real, cheatBrow: bool): (r: bool)
    ensures r <==> ecr >= EcrT1
  {
    ecr >= EcrT1 || (ecr >= EcrBrow && cheatBrow)
  }

  /** The second closure condition, on the lower threshold `ECR_T2`. */
  predicate Closure2(ecr: real) {
    ecr >= EcrT2
  }

  /** The mouth-open condition. */
  predicate MouthOpen(mar: real) {
    mar > MarTh
  }

  /** One face frame as a timer sees it: its condition and its time. */
  datatype Tick = Tick(cond: bool, now: real)

  /** The timer after a run of face frames. */
  function TimerRun(t: Option<real>, ticks: seq<Tick>): (r: Option<real>)
    ensures |ticks| > 0 ==> (r.Some? <==> ticks[|ticks| - 1].cond)
    ensures |ticks| == 0 ==> r == t
  {
    if |ticks| == 0 then t
    else
      var last := ticks[|ticks| - 1];
      Arm(TimerRun(t, ticks[..|ticks| - 1]), last.cond, last.now)
  }

  predicate AllHeld(ticks: seq<Tick>) {
    forall k :: 0 <= k < |ticks| ==> ticks[k].cond
  }

  /** A zero start time is falsy, so a held condition restarts the timer at `now`. */
  lemma ZeroStartRestarts(now: real)
    ensures Arm(Some(0.0), true, now) == Some(now)
  {
  }

  lemma {:induction false} TimerRunAppend(t: Option<real>, a: seq<Tick>, b: seq<Tick>)
    ensures TimerRun(t, a + b) == TimerRun(TimerRun(t, a), b)
  {
    if |b| == 0 {
      assert a + b == a;
    } else {
      var b' := b[..|b| - 1];
      assert (a + b)[..|a + b| - 1] == a + b';
      TimerRunAppend(t, a, b');
    }
  }

  /** While the condition keeps holding, a non-zero start time never moves. */
  lemma {:induction false} HeldKeepsStart(start: real, ticks: seq<Tick>)
    requires start != 0.0 && AllHeld(ticks)
    ensures TimerRun(Some(start), ticks) == Some(start)
  {
    if |ticks| > 0 {
      HeldKeepsStart(start, ticks[..|ticks| - 1]);
    }
  }

  /**
   * From idle, a condition held on every frame of a run leaves the timer
   * started at the run's first frame (when that time is non-zero).
   */
  lemma HeldSinceFirst(ticks: seq<Tick>)
    requires |ticks| > 0 && AllHeld(ticks) && ticks[0].now != 0.0
    ensures TimerRun(None, ticks) == Some(ticks[0].now)
  {
    assert ticks == ticks[..1] + ticks[1..];
    TimerRunAppend(None, ticks[..1], ticks[1..]);
    assert TimerRun(None, ticks[..1]) == Some(ticks[0].now) by {
      assert ticks[..1][..0] == [];
    }
    HeldKeepsStart(ticks[0].now, ticks[1..]);
  }

  /** A single frame on which the condition fails erases everything before it. */
  lemma ReleaseResets(t: Option<real>, before: seq<Tick>, now: real, after: seq<Tick>)
    ensures TimerRun(t, before + [Tick(false, now)] + after) == TimerRun(None, after)
  {
    TimerRunAppend(t, before + [Tick(false, now)], after);
    TimerRunAppend(t, before, [Tick(false, now)]);
    assert [Tick(false, now)][..0] == [];
  }

  /**
   * The debounce contract: starting idle, a condition held on every frame of
   * a run is sustained at the run's last frame exactly when the time since
   * the run's first frame has reached the duration.
   */
  lemma SustainedIffHeldLongEnough(ticks: seq<Tick>, dur: real)
    requires |ticks| > 0 && AllHeld(ticks) && ticks[0].now != 0.0
    ensures var last := ticks[|ticks| - 1].now;
      Sustained(TimerRun(None, ticks), last, dur) <==> last - ticks[0].now >= dur
  {
    HeldSinceFirst(ticks);
  }
}
