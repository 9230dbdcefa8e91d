// Nearest-value lookup in a sorted sequence: the tracker's modified binary
// search, which returns the index of the closest (or equal) value.
module ClosestMatch {
  import opened Numeric

  /** Arrays shorter than this are refused with `null`. */
  const MinLength := 8

  /**
   * s[i] under a name of its own: only sortedness facts mention it, so the
   * pairwise quantifier in Sorted is instantiated where a proof asks for it
   * and not for every element a bisection touches.
   */
  ghost function At(s: seq<real>, i: nat): real
    requires i < |s|
  {
    s[i]
  }

  /** Non-decreasing: the table passed to findClosest is in ascending order. */
  ghost predicate Sorted(s: seq<real>) {
    forall i, j :: 0 <= i < j < |s| ==> At(s, i) <= At(s, j)
  }

  /** Position i holds a value no farther from x than any other element. */
  ghost predicate IsNearest(s: seq<real>, x: real, i: int) {
    0 <= i < |s| && forall j :: 0 <= j < |s| ==> Abs(x - s[i]) <= Abs(x - s[j])
  }

  /**
   * Reference definition: a linear scan for the first index of a nearest
   * value among the first n elements.
   */
  function NearestIn(s: seq<real>, x: real, n: nat): (k: nat)
    requires 1 <= n <= |s|
    ensures k < n
    ensures forall j :: 0 <= j < n ==> Abs(x - s[k]) <= Abs(x - s[j])
  {
    if n == 1 then 0
    else
      var k := NearestIn(s, x, n - 1);
      if Abs(x - s[n - 1]) < Abs(x - s[k]) then n - 1 else k
  }

  /** The smallest distance from x to an element of s. */
  function MinDistance(s: seq<real>, x: real): (d: real)
    requires |s| >= 1
    ensures forall j :: 0 <= j < |s| ==> d <= Abs(x - s[j])
    ensures exists j :: 0 <= j < |s| && d == Abs(x - s[j])
  {
    Abs(x - s[NearestIn(s, x, |s|)])
  }

  /**
   * findClosest(findWhat, inWhat): `null` (None) below MinLength elements,
   * otherwise the bisection over the whole index range.
   */
  function FindClosest(findWhat: real, inWhat: seq<real>): (r: Option<nat>)
    ensures r.None? <==> |inWhat| < MinLength
    ensures r.Some? ==> r.value < |inWhat|
  {
    if |inWhat| < MinLength then None
    else Some(Search(findWhat, inWhat, 0, |inWhat| - 1))
  }

  /**
   * The recursive step on the index range [bottom, top]. The midpoint is
   * Math.round((top + bottom) / 2), which rounds halves up. A neighbour
   * beyond the end of the array reads `undefined` in the source, and the
   * comparison with it is false: it never counts as farther.
   */
  function Search(findWhat: real, inWhat: seq<real>, bottom: nat, top: nat): (r: nat)
    requires top < |inWhat| && bottom <= top + 1
    ensures r <= top
    ensures bottom <= top ==> bottom <= r
    decreases top + 1 - bottom
  {
    if bottom >= top then top
    else
      var mid := Midpoint(bottom, top);
      if findWhat == inWhat[mid] then mid
      else if inWhat[mid] > findWhat then
        if Abs(findWhat - inWhat[mid]) < Abs(findWhat - inWhat[mid - 1]) then mid
        else Search(findWhat, inWhat, bottom, mid - 1)
      else
        if mid + 1 < |inWhat| && Abs(findWhat - inWhat[mid]) < Abs(findWhat - inWhat[mid + 1]) then mid
        else Search(findWhat, inWhat, mid + 1, top)
  }

  /** s[mid - 1] < x < s[mid] with s[mid] strictly nearer: s[mid] is a nearest value. */
  lemma NearestFromAbove(x: real, s: seq<real>, mid: nat)
    requires Sorted(s) && 0 < mid < |s|
    requires s[mid] > x && Abs(x - s[mid]) < Abs(x - s[mid - 1])
    ensures IsNearest(s, x, mid)
  {
    assert At(s, mid - 1) <= At(s, mid);
    forall j | 0 <= j < |s|
      ensures Abs(x - s[mid]) <= Abs(x - s[j])
    {
      if j < mid {
        assert At(s, j) <= At(s, mid - 1);
      } else {
        assert At(s, mid) <= At(s, j);
      }
    }
  }

  /** s[mid] < x < s[mid + 1] with s[mid] strictly nearer: s[mid] is a nearest value. */
  lemma NearestFromBelow(x: real, s: seq<real>, mid: nat)
    requires Sorted(s) && mid + 1 < |s|
    requires s[mid] < x && Abs(x - s[mid]) < Abs(x - s[mid + 1])
    ensures IsNearest(s, x, mid)
  {
    assert At(s, mid) <= At(s, mid + 1);
    forall j | 0 <= j < |s|
      ensures Abs(x - s[mid]) <= Abs(x - s[j])
    {
      if j > mid {
        assert At(s, mid + 1) <= At(s, j);
      } else {
        assert At(s, j) <= At(s, mid);
      }
    }
  }

  /** Math.round((top + bottom) / 2) for non-negative integers: halves round up. */
  function Midpoint(bottom: nat, top: nat): (mid: nat)
    ensures bottom < top ==> bottom < mid <= top
  {
    (top + bottom + 1) / 2
  }

  /** The bisection step returns the midpoint itself, without recursing. */
  ghost predicate ReturnsMid(x: real, s: seq<real>, mid: nat)
    requires 0 < mid < |s|
  {
    x == s[mid]
    || (s[mid] > x && Abs(x - s[mid]) < Abs(x - s[mid - 1]))
    || (s[mid] < x && mid + 1 < |s| && Abs(x - s[mid]) < Abs(x - s[mid + 1]))
  }

  /** The bisection steps that return the midpoint at once return a nearest index. */
  lemma SearchReturnsMid(x: real, s: seq<real>, bottom: nat, top: nat)
    requires Sorted(s)
    requires bottom < top < |s|
    requires ReturnsMid(x, s, Midpoint(bottom, top))
    ensures Search(x, s, bottom, top) == Midpoint(bottom, top)
    ensures Abs(x - s[Midpoint(bottom, top)]) == MinDistance(s, x)
  {
    var mid := Midpoint(bottom, top);
    if x == s[mid] {
      assert IsNearest(s, x, mid);
    } else if s[mid] > x {
      NearestFromAbove(x, s, mid);
    } else {
      NearestFromBelow(x, s, mid);
    }
    assert Abs(x - s[mid]) <= Abs(x - s[NearestIn(s, x, |s|)]);
  }

  /**
   * Above x, s[mid - 1] is at least as near as s[mid]: the search drops the
   * upper part [mid, top], and a nearest index k stays in range (k itself,
   * or mid - 1 when k was dropped).
   */
  lemma SearchDescends(x: real, s: seq<real>, bottom: nat, top: nat, k: nat) returns (k': nat)
    requires Sorted(s) && bottom < top < |s|
    requires bottom <= k <= top && Abs(x - s[k]) == MinDistance(s, x)
    requires !ReturnsMid(x, s, Midpoint(bottom, top)) && s[Midpoint(bottom, top)] > x
    ensures Search(x, s, bottom, top) == Search(x, s, bottom, Midpoint(bottom, top) - 1)
    ensures bottom <= k' < Midpoint(bottom, top) && Abs(x - s[k']) == MinDistance(s, x)
  {
    var mid := Midpoint(bottom, top);
    k' := k;
    if k >= mid {
      assert At(s, mid) <= At(s, k);
      k' := mid - 1;
    }
  }

  /**
   * Below x, s[mid + 1] (or s[mid] itself when mid is the last index of the
   * array or of the range) is at least as near as s[mid]: the search drops
   * the lower part, and a nearest index stays in range.
   */
  lemma SearchAscends(x: real, s: seq<real>, bottom: nat, top: nat, k: nat) returns (k': nat)
    requires Sorted(s) && bottom < top < |s|
    requires bottom <= k <= top && Abs(x - s[k]) == MinDistance(s, x)
    requires !ReturnsMid(x, s, Midpoint(bottom, top)) && s[Midpoint(bottom, top)] <= x
    ensures Search(x, s, bottom, top) == Search(x, s, Midpoint(bottom, top) + 1, top)
    ensures (if Midpoint(bottom, top) + 1 <= top then Midpoint(bottom, top) + 1 else top) <= k' <= top
    ensures Abs(x - s[k']) == MinDistance(s, x)
  {
    var mid := Midpoint(bottom, top);
    var lo := if mid + 1 <= top then mid + 1 else top;
    k' := k;
    if k <= mid {
      assert At(s, k) <= At(s, mid);
      assert Abs(x - s[lo]) <= Abs(x - s[k]);
      k' := lo;
    }
  }

  /**
   * If a nearest value of a sorted sequence sits at index k of the current
   * range, the bisection returns an index of a nearest value.
   */
  lemma {:induction false} SearchNearest(x: real, s: seq<real>, bottom: nat, top: nat, k: nat)
    requires Sorted(s)
    requires top < |s| && bottom <= top + 1
    requires (if bottom <= top then bottom else top) <= k <= top
    requires Abs(x - s[k]) == MinDistance(s, x)
    ensures Abs(x - s[Search(x, s, bottom, top)]) == MinDistance(s, x)
    decreases top + 1 - bottom
  {
    if bottom >= top {
      assert Search(x, s, bottom, top) == top;
    } else {
      var mid := Midpoint(bottom, top);
      if ReturnsMid(x, s, mid) {
        SearchReturnsMid(x, s, bottom, top);
      } else if s[mid] > x {
        var k' := SearchDescends(x, s, bottom, top, k);
        SearchNearest(x, s, bottom, mid - 1, k');
      } else {
        var k' := SearchAscends(x, s, bottom, top, k);
        SearchNearest(x, s, mid + 1, top, k');
      }
    }
  }

  /**
   * For a sorted sequence of at least MinLength values, findClosest returns
   * an index whose value is no farther from the query than any other.
   */
  lemma FindClosestNearest(x: real, s: seq<real>)
    requires Sorted(s) && |s| >= MinLength
    ensures FindClosest(x, s).Some?
    ensures IsNearest(s, x, FindClosest(x, s).value)
    ensures Abs(x - s[FindClosest(x, s).value]) == Abs(x - s[NearestIn(s, x, |s|)])
  {
    SearchNearest(x, s, 0, |s| - 1, NearestIn(s, x, |s|));
  }

  /** A query equal to some element of a sorted sequence is found exactly. */
  lemma FindClosestExact(x: real, s: seq<real>, i: nat)
    requires Sorted(s) && |s| >= MinLength
    requires i < |s| && s[i] == x
    ensures FindClosest(x, s).Some? && s[FindClosest(x, s).value] == x
  {
    FindClosestNearest(x, s);
    assert Abs(x - s[i]) == 0.0;
  }
}
