/**
 * The per-eye smoothing queue: a `collections.deque` created with a `maxlen`,
 * to which each frame appends one raw iris radius. Appending to a full deque
 * drops its oldest (leftmost) element first.
 */
module Smoothing {

  /** The last `n` elements of `s` (all of `s` when it is shorter). */
  function LastN<T>(s: seq<T>, n: nat): (r: seq<T>)
    ensures |r| == if |s| <= n then |s| else n
  {
    if |s| <= n then s else s[|s| - n..]
  }

  /** The contents of a deque with capacity `cap` after appending `x` to `q`. */
  function Window(q: seq<real>, cap: nat, x: real): (r: seq<real>)
    ensures |r| == if |q| < cap then |q| + 1 else cap
    ensures cap > 0 ==> r[|r| - 1] == x
  {
    LastN(q + [x], cap)
  }

  /**
   * Appending keeps the newest of the old values, in order: everything but
   * the first `|q| + 1 - |r|` of them.
   */
  lemma WindowKeepsNewest(q: seq<real>, cap: nat, x: real)
    requires cap > 0
    ensures var r := Window(q, cap, x);
      forall i :: 0 <= i < |r| - 1 ==> r[i] == q[|q| - |r| + 1 + i]
  {
  }

  /** The contents after appending every element of `xs`, in order. */
  function PushAll(q: seq<real>, cap: nat, xs: seq<real>): (r: seq<real>)
    ensures |q| <= cap ==> |r| <= cap
    ensures cap > 0 && |xs| > 0 ==> |r| > 0 && r[|r| - 1] == xs[|xs| - 1]
  {
    if |xs| == 0 then q
    else Window(PushAll(q, cap, xs[..|xs| - 1]), cap, xs[|xs| - 1])
  }

  lemma LastNSnoc<T>(s: seq<T>, n: nat, x: T)
    ensures LastN(LastN(s, n) + [x], n) == LastN(s + [x], n)
  {
  }

  /**
   * A deque that never held more than `cap` elements holds, after any
   * sequence of appends, exactly the last `cap` of everything it was given,
   * oldest first.
   */
  lemma {:induction false} PushAllKeepsLast(q: seq<real>, cap: nat, xs: seq<real>)
    requires |q| <= cap
    ensures PushAll(q, cap, xs) == LastN(q + xs, cap)
  {
    if |xs| == 0 {
      assert q + xs == q;
    } else {
      var init, x := xs[..|xs| - 1], xs[|xs| - 1];
      PushAllKeepsLast(q, cap, init);
      LastNSnoc(q + init, cap, x);
      assert q + xs == (q + init) + [x];
      calc {
        PushAll(q, cap, xs);
        Window(PushAll(q, cap, init), cap, x);
        LastN(LastN(q + init, cap) + [x], cap);
        LastN(q + xs, cap);
      }
    }
  }

  /** A freshly created deque holds the last `min(n, cap)` of the `n` values appended. */
  lemma PushAllFromEmpty(cap: nat, xs: seq<real>)
    ensures PushAll([], cap, xs) == LastN(xs, cap)
  {
    PushAllKeepsLast([], cap, xs);
    assert [] + xs == xs;
  }

  /** `collections.deque(maxlen=...)`, holding reals. */
  class BoundedDeque {
    const maxlen: nat
    var items: seq<real>

    ghost predicate Valid()
      reads this
    {
      |items| <= maxlen
    }

    constructor (maxlen: nat)
      ensures Valid() && this.maxlen == maxlen && items == []
    {
      this.maxlen := maxlen;
      items := [];
    }

    /** `append`: on a full deque the leftmost element is discarded first. */
    method Append(x: real)
      requires Valid()
      modifies this
      ensures Valid()
      ensures items == Window(old(items), maxlen, x)
    {
      if maxlen == 0 {
        return;
      }
      if |items| == maxlen {
        items := items[1..];
      }
      items := items + [x];
    }
  }
}
