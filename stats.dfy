/**
 * The median of a non-empty list of reals, as `statistics.median` and
 * `np.median` compute it: sort, then take the middle element, or the mean of
 * the two middle elements when the count is even.
 */
module Stats {

  predicate IsSorted(s: seq<real>) {
    forall i, j :: 0 <= i < j < |s| ==> s[i] <= s[j]
  }

  /** Inserts `x` before the first element of `s` that is not below it. */
  function Insert(x: real, s: seq<real>): (r: seq<real>)
    ensures |r| == |s| + 1
  {
    if |s| == 0 || x <= s[0] then [x] + s
    else [s[0]] + Insert(x, s[1..])
  }

  /** Insertion sort; stands for Python's `sorted`. */
  function Sort(s: seq<real>): (r: seq<real>)
    ensures |r| == |s|
  {
    if |s| == 0 then [] else Insert(s[0], Sort(s[1..]))
  }

  /** Inserting into a sorted list keeps it sorted and adds exactly `x`. */
  lemma {:induction false} InsertSorted(x: real, s: seq<real>)
    requires IsSorted(s)
    ensures Insert(x, s)[0] == if |s| == 0 || x <= s[0] then x else s[0]
    ensures IsSorted(Insert(x, s))
    ensures multiset(Insert(x, s)) == multiset(s) + multiset{x}
  {
    if |s| > 0 && x > s[0] {
      assert s == [s[0]] + s[1..];
      InsertSorted(x, s[1..]);
    }
  }

  /** `Sort` returns a sorted rearrangement of its input. */
  lemma {:induction false} SortSorts(s: seq<real>)
    ensures IsSorted(Sort(s))
    ensures multiset(Sort(s)) == multiset(s)
  {
    if |s| > 0 {
      SortSorts(s[1..]);
      InsertSorted(s[0], Sort(s[1..]));
      assert s == [s[0]] + s[1..];
    }
  }

  /** The middle of a list that is already sorted. */
  function Middle(t: seq<real>): real
    requires |t| > 0
  {
    var n := |t|;
    if n % 2 == 1 then t[n / 2] else (t[n / 2 - 1] + t[n / 2]) / 2.0
  }

  /** `statistics.median`. */
  function Median(s: seq<real>): real
    requires |s| > 0
  {
    Middle(Sort(s))
  }

  /** Independent reference for the median of three: the middle value. */
  function Mid3(a: real, b: real, c: real): real {
    var lo := if a <= b then a else b;
    var hi := if a <= b then b else a;
    if c <= lo then lo else if c <= hi then c else hi
  }

  /** The head of a sorted list is below every element of it. */
  lemma SortedHeadIsLeast(a: seq<real>, x: real)
    requires IsSorted(a) && x in multiset(a)
    ensures a[0] <= x
  {
    var i :| 0 <= i < |a| && a[i] == x;
  }

  /** Two sorted lists with the same elements are the same list. */
  lemma {:induction false} SortedUnique(a: seq<real>, b: seq<real>)
    requires IsSorted(a) && IsSorted(b)
    requires multiset(a) == multiset(b)
    ensures a == b
  {
    assert |a| == |multiset(a)| == |multiset(b)| == |b|;
    if |a| > 0 {
      SortedHeadIsLeast(a, b[0]);
      SortedHeadIsLeast(b, a[0]);
      var a', b' := a[1..], b[1..];
      assert a == [a[0]] + a';
      assert b == [b[0]] + b';
      assert a[0] == b[0];
      assert multiset(a') == multiset(b') by {
        assert multiset(a) == multiset{a[0]} + multiset(a');
        assert multiset(b) == multiset{a[0]} + multiset(b');
        assert multiset(a') == multiset(a) - multiset{a[0]};
      }
      SortedUnique(a', b');
    }
  }

  /** The median of a list is the middle of any sorted rearrangement of it. */
  lemma MedianViaSorted(s: seq<real>, t: seq<real>)
    requires |s| > 0 && IsSorted(t) && multiset(t) == multiset(s)
    ensures |t| == |s| && Median(s) == Middle(t)
  {
    assert |t| == |multiset(t)| == |multiset(s)| == |s|;
    SortSorts(s);
    SortedUnique(Sort(s), t);
  }

  /** The median depends only on the values, not on their order. */
  lemma MedianOfPermutation(a: seq<real>, b: seq<real>)
    requires |a| > 0 && multiset(a) == multiset(b)
    ensures |b| > 0 && Median(a) == Median(b)
  {
    assert |a| == |multiset(a)| == |multiset(b)| == |b|;
    SortSorts(a);
    SortSorts(b);
    SortedUnique(Sort(a), Sort(b));
  }

  /** The median of a sorted list is its middle (or the mean of its two middles). */
  lemma MedianOfSorted(s: seq<real>)
    requires |s| > 0 && IsSorted(s)
    ensures Median(s) == Middle(s)
  {
    MedianViaSorted(s, s);
  }

  /** The median lies within any bounds that hold of every element. */
  lemma MedianWithin(s: seq<real>, lo: real, hi: real)
    requires |s| > 0
    requires forall i :: 0 <= i < |s| ==> lo <= s[i] <= hi
    ensures lo <= Median(s) <= hi
  {
    var t := Sort(s);
    SortSorts(s);
    forall k | 0 <= k < |t| ensures lo <= t[k] <= hi {
      assert t[k] in multiset(s);
      var i :| 0 <= i < |s| && s[i] == t[k];
    }
  }

  /** The median of a single value is that value. */
  lemma MedianOfOne(s: seq<real>)
    requires |s| == 1
    ensures Median(s) == s[0]
  {
    MedianViaSorted(s, s);
  }

  /** The median of two values is their mean. */
  lemma MedianOfTwo(s: seq<real>)
    requires |s| == 2
    ensures Median(s) == (s[0] + s[1]) / 2.0
  {
    if s[0] <= s[1] {
      MedianViaSorted(s, s);
    } else {
      assert s == [s[0], s[1]];
      MedianViaSorted(s, [s[1], s[0]]);
    }
  }

  /** The median of three values is the middle one. */
  lemma MedianOfThree(s: seq<real>)
    requires |s| == 3
    ensures Median(s) == Mid3(s[0], s[1], s[2])
  {
    var a, b, c := s[0], s[1], s[2];
    if a <= b && b <= c {
      MedianOfThreeIn(s, a, b, c);
    } else if a <= c && c <= b {
      MedianOfThreeIn(s, a, c, b);
    } else if b <= a && a <= c {
      MedianOfThreeIn(s, b, a, c);
    } else if b <= c && c <= a {
      MedianOfThreeIn(s, b, c, a);
    } else if c <= a && a <= b {
      MedianOfThreeIn(s, c, a, b);
    } else {
      MedianOfThreeIn(s, c, b, a);
    }
  }

  /** A list of three holding `x <= y <= z` in some order has median `y`. */
  lemma MedianOfThreeIn(s: seq<real>, x: real, y: real, z: real)
    requires |s| == 3 && x <= y <= z
    requires multiset{s[0], s[1], s[2]} == multiset{x, y, z}
    ensures Median(s) == y
  {
    ThreeSameValues(s, x, y, z);
    MedianViaSorted(s, [x, y, z]);
  }

  lemma ThreeSameValues(s: seq<real>, x: real, y: real, z: real)
    requires |s| == 3 && multiset{s[0], s[1], s[2]} == multiset{x, y, z}
    ensures multiset([x, y, z]) == multiset(s)
  {
    assert s == [s[0], s[1], s[2]];
    assert multiset(s) == multiset{s[0], s[1], s[2]};
  }
}
