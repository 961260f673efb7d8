/** Sample statistics applied to a zone's frame times at evaluation:
    ordering, median, mean and the Bessel-corrected variance. Frame times
    are modelled as exact reals. */
module Stats {

  /** Ascending order, the order std::sort leaves a copy of the samples in. */
  predicate Sorted(s: seq<real>) {
    forall i, j :: 0 <= i < j < |s| ==> s[i] <= s[j]
  }

  /** Running sum in the order the accumulating loops add the values up. */
  function Sum(s: seq<real>): real {
    if s == [] then 0.0 else Sum(s[..|s| - 1]) + s[|s| - 1]
  }

  /** Arithmetic mean; the source divides by the element count, so an
      empty vector is a division by zero and is excluded here. */
  function Mean(s: seq<real>): (m: real)
    requires |s| > 0
    ensures m * (|s| as real) == Sum(s)
  {
    Sum(s) / (|s| as real)
  }

  /** Sum of squared deviations from a given mean. */
  function SquaredDeviations(s: seq<real>, mean: real): real {
    if s == [] then 0.0
    else SquaredDeviations(s[..|s| - 1], mean) + (s[|s| - 1] - mean) * (s[|s| - 1] - mean)
  }

  /** The median of a sorted vector: 0 for an empty one, the middle element
      for an odd count and the mean of the two middle elements for an even
      count. It splits a sorted vector in two halves: the first half lies at
      or below it and the second half at or above it. */
  function Median(sorted: seq<real>): (m: real)
    ensures sorted == [] ==> m == 0.0
    ensures Sorted(sorted) ==> forall i :: 0 <= i < (|sorted| + 1) / 2 ==> sorted[i] <= m
    ensures Sorted(sorted) ==> forall i :: |sorted| / 2 <= i < |sorted| ==> m <= sorted[i]
    ensures |sorted| > 0 && |sorted| % 2 == 0 ==>
              2.0 * m == sorted[|sorted| / 2 - 1] + sorted[|sorted| / 2]
  {
    if |sorted| == 0 then 0.0
    else if |sorted| % 2 == 0 then
      0.5 * (sorted[|sorted| / 2 - 1] + sorted[|sorted| / 2])
    else sorted[|sorted| / 2]
  }

  /** Inserts one value into a sorted sequence. */
  function Insert(x: real, s: seq<real>): (r: seq<real>)
    requires Sorted(s)
    ensures Sorted(r)
    ensures multiset(r) == multiset(s) + multiset{x}
  {
    if s == [] || x <= s[0] then [x] + s
    else
      var rest := Insert(x, s[1..]);
      InsertStep(x, s, rest);
      [s[0]] + rest
  }

  /** The recursive case of Insert: the head of s stays in front of the
      insertion into the tail. */
  lemma InsertStep(x: real, s: seq<real>, rest: seq<real>)
    requires Sorted(s) && s != [] && s[0] < x
    requires Sorted(rest) && multiset(rest) == multiset(s[1..]) + multiset{x}
    ensures Sorted([s[0]] + rest)
    ensures multiset([s[0]] + rest) == multiset(s) + multiset{x}
  {
    assert s == [s[0]] + s[1..];
    InsertedAbove(s[0], x, s[1..], rest);
  }

  /** A value below x and below every element of s is below every element
      of any rearrangement of s with x added. */
  lemma InsertedAbove(lo: real, x: real, s: seq<real>, r: seq<real>)
    requires lo <= x && forall i :: 0 <= i < |s| ==> lo <= s[i]
    requires multiset(r) == multiset(s) + multiset{x}
    ensures forall k :: 0 <= k < |r| ==> lo <= r[k]
  {
    forall k | 0 <= k < |r| ensures lo <= r[k] {
      assert r[k] in multiset(s) + multiset{x};
      if r[k] != x {
        assert r[k] in s;
      }
    }
  }

  /** The sorted copy of a zone's samples. Any correct sort gives the same
      sequence (SortedPermutationUnique), so this insertion sort stands for
      std::sort. */
  function SortAscending(s: seq<real>): (r: seq<real>)
    ensures Sorted(r)
    ensures multiset(r) == multiset(s)
    ensures |r| == |s|
  {
    if s == [] then []
    else
      assert s == [s[0]] + s[1..];
      Insert(s[0], SortAscending(s[1..]))
  }

  /** The smallest value of a sorted sequence is its first element. */
  lemma SortedHeadsAgree(a: seq<real>, b: seq<real>)
    requires Sorted(a) && Sorted(b)
    requires multiset(a) == multiset(b) && a != []
    ensures b != [] && a[0] == b[0]
  {
    assert a[0] in multiset(b);
    var j :| 0 <= j < |b| && b[j] == a[0];
    assert b[0] in multiset(a);
    var k :| 0 <= k < |a| && a[k] == b[0];
    assert a[0] <= a[k];
    assert b[0] <= b[j];
  }

  /** Two sorted sequences holding the same values are equal. */
  lemma {:induction false} SortedPermutationUnique(a: seq<real>, b: seq<real>)
    requires Sorted(a) && Sorted(b)
    requires multiset(a) == multiset(b)
    ensures a == b
    decreases |a|
  {
    if a == [] {
      assert |multiset(b)| == 0;
    } else {
      SortedHeadsAgree(a, b);
      TailsSamePermutation(a, b);
      assert Sorted(a[1..]) && Sorted(b[1..]);
      SortedPermutationUnique(a[1..], b[1..]);
      assert a == [a[0]] + a[1..];
      assert b == [b[0]] + b[1..];
    }
  }

  /** Dropping the same first value from two permutations of each other
      leaves permutations of each other. */
  lemma TailsSamePermutation(a: seq<real>, b: seq<real>)
    requires a != [] && b != [] && a[0] == b[0]
    requires multiset(a) == multiset(b)
    ensures multiset(a[1..]) == multiset(b[1..])
  {
    assert a == [a[0]] + a[1..];
    assert b == [b[0]] + b[1..];
    assert multiset(a[1..]) == multiset(a) - multiset{a[0]};
    assert multiset(b[1..]) == multiset(b) - multiset{b[0]};
  }

  lemma {:induction false} SumAppend(a: seq<real>, b: seq<real>)
    ensures Sum(a + b) == Sum(a) + Sum(b)
  {
    if b != [] {
      assert (a + b)[..|a + b| - 1] == a + b[..|b| - 1];
      SumAppend(a, b[..|b| - 1]);
    } else {
      assert a + b == a;
    }
  }

  /** The sum does not depend on the order of the samples, so the mean of
      the sorted copy equals the mean of the recorded order. */
  lemma {:induction false} SumPermutation(s: seq<real>, t: seq<real>)
    requires multiset(s) == multiset(t)
    ensures Sum(s) == Sum(t)
    decreases |s|
  {
    if s == [] {
      assert |multiset(t)| == 0;
    } else {
      var x := s[|s| - 1];
      var init := s[..|s| - 1];
      assert s == init + [x];
      assert x in multiset(t);
      var j :| 0 <= j < |t| && t[j] == x;
      var rest := t[..j] + t[j + 1..];
      assert t == t[..j] + [x] + t[j + 1..];
      assert multiset(t) == multiset(t[..j]) + multiset{x} + multiset(t[j + 1..]);
      assert multiset(s) == multiset(init) + multiset{x};
      assert multiset(rest) == multiset(t[..j]) + multiset(t[j + 1..]);
      assert multiset(rest) == multiset(t) - multiset{x};
      assert multiset(init) == multiset(s) - multiset{x};
      SumPermutation(init, rest);
      SumAppend(t[..j] + [x], t[j + 1..]);
      SumAppend(t[..j], [x]);
      SumAppend(t[..j], t[j + 1..]);
    }
  }

  lemma {:induction false} SumBounds(s: seq<real>, lo: real, hi: real)
    requires forall i :: 0 <= i < |s| ==> lo <= s[i] <= hi
    ensures lo * (|s| as real) <= Sum(s) <= hi * (|s| as real)
  {
    if s != [] {
      SumBounds(s[..|s| - 1], lo, hi);
    }
  }

  /** The mean lies within any bounds of the samples; with the bounds taken
      from a sorted copy, first <= mean <= last. */
  lemma MeanBounds(s: seq<real>, lo: real, hi: real)
    requires |s| > 0
    requires forall i :: 0 <= i < |s| ==> lo <= s[i] <= hi
    ensures lo <= Mean(s) <= hi
  {
    SumBounds(s, lo, hi);
  }

  /** The median of a sorted vector is one of its values or lies between
      its two middle values. */
  lemma MedianWithinRange(s: seq<real>)
    requires Sorted(s) && |s| > 0
    ensures s[0] <= Median(s) <= s[|s| - 1]
  {
    var m := Median(s);
    assert s[0] <= m;
    assert m <= s[|s| - 1];
  }

  /** For an even count the median is the mean of the two middle values. */
  lemma MedianEvenIsMean(sorted: seq<real>)
    requires |sorted| > 0 && |sorted| % 2 == 0
    ensures Median(sorted) == Mean(sorted[|sorted| / 2 - 1 .. |sorted| / 2 + 1])
  {
    var h := |sorted| / 2;
    var a, b := sorted[h - 1], sorted[h];
    assert sorted[h - 1 .. h + 1] == [a, b];
    assert Sum([a, b]) == a + b by {
      assert [a, b][..1] == [a];
      assert [a][..0] == [];
      assert Sum([a]) == a;
    }
  }

  /** The medians of the library's own examples. */
  lemma MedianExamples()
    ensures Median([]) == 0.0
    ensures Median([2.0]) == 2.0
    ensures Median([1.0, 2.0, 3.0]) == 2.0
    ensures Median([2.0, 4.0]) == 3.0
    ensures Median([1.0, 2.0, 3.0, 4.0]) == 2.5
  {
    var even2, even4 := [2.0, 4.0], [1.0, 2.0, 3.0, 4.0];
    assert even2[0] == 2.0 && even2[1] == 4.0;
    assert Median(even2) == 0.5 * (2.0 + 4.0);
    assert even4[1] == 2.0 && even4[2] == 3.0;
    assert Median(even4) == 0.5 * (2.0 + 3.0);
  }

  /** The last element of a sorted copy is the largest sample. */
  lemma SortedLastIsMax(s: seq<real>, t: seq<real>)
    requires |s| > 0 && Sorted(t) && multiset(t) == multiset(s)
    ensures |t| == |s|
    ensures t[|t| - 1] in s
    ensures forall i :: 0 <= i < |s| ==> s[i] <= t[|t| - 1]
  {
    assert |t| == |multiset(s)|;
    var n := |t|;
    assert t[n - 1] in multiset(s);
    forall i | 0 <= i < |s| ensures s[i] <= t[n - 1] {
      assert s[i] in multiset(t);
    }
  }

  /** What the evaluation reads off a sorted copy of the samples: median and
      mean lie between its first and last element, and the mean is the mean
      of the samples in recorded order. */
  lemma SortedCopyFacts(s: seq<real>, t: seq<real>)
    requires |s| > 0 && Sorted(t) && multiset(t) == multiset(s)
    ensures |t| == |s|
    ensures t[0] <= Median(t) <= t[|t| - 1]
    ensures t[0] <= Mean(t) <= t[|t| - 1]
    ensures Mean(t) == Mean(s)
  {
    MeanPermutation(s, t);
    MedianWithinRange(t);
    assert forall i :: 0 <= i < |t| ==> t[0] <= t[i] <= t[|t| - 1];
    MeanBounds(t, t[0], t[|t| - 1]);
  }

  /** The mean does not depend on the order of the samples. */
  lemma MeanPermutation(s: seq<real>, t: seq<real>)
    requires |s| > 0 && multiset(t) == multiset(s)
    ensures |t| == |s| && Mean(t) == Mean(s)
  {
    assert |t| == |multiset(s)|;
    SumPermutation(t, s);
  }

  /** Squared deviations are never negative, so the variance is not either. */
  lemma {:induction false} SquaredDeviationsNonNegative(s: seq<real>, mean: real)
    ensures SquaredDeviations(s, mean) >= 0.0
  {
    if s != [] {
      SquaredDeviationsNonNegative(s[..|s| - 1], mean);
      var d := s[|s| - 1] - mean;
      assert d * d >= 0.0;
    }
  }

  /** The sample of the standard-deviation test: mean 77, squared
      deviations 2018, so the corrected variance 2018/9 lies strictly
      between 14.9738 squared and 14.9742 squared: the deviation is 14.974
      to within 2e-4. */
  lemma BesselVarianceExample()
    ensures var v := [72.0, 64.0, 72.0, 102.0, 65.0, 89.0, 55.0, 97.0, 78.0, 76.0];
            && Mean(v) == 77.0
            && SquaredDeviations(v, 77.0) == 2018.0
            && 14.9738 * 14.9738 < 2018.0 / 9.0 < 14.9742 * 14.9742
  {
    var v := [72.0, 64.0, 72.0, 102.0, 65.0, 89.0, 55.0, 97.0, 78.0, 76.0];
    assert v[..1][..0] == v[..0];
    assert Sum(v[..1]) == 72.0 && SquaredDeviations(v[..1], 77.0) == 25.0;
    assert v[..2][..1] == v[..1];
    assert Sum(v[..2]) == 136.0 && SquaredDeviations(v[..2], 77.0) == 194.0;
    assert v[..3][..2] == v[..2];
    assert Sum(v[..3]) == 208.0 && SquaredDeviations(v[..3], 77.0) == 219.0;
    assert v[..4][..3] == v[..3];
    assert Sum(v[..4]) == 310.0 && SquaredDeviations(v[..4], 77.0) == 844.0;
    assert v[..5][..4] == v[..4];
    assert Sum(v[..5]) == 375.0 && SquaredDeviations(v[..5], 77.0) == 988.0;
    assert v[..6][..5] == v[..5];
    assert Sum(v[..6]) == 464.0 && SquaredDeviations(v[..6], 77.0) == 1132.0;
    assert v[..7][..6] == v[..6];
    assert Sum(v[..7]) == 519.0 && SquaredDeviations(v[..7], 77.0) == 1616.0;
    assert v[..8][..7] == v[..7];
    assert Sum(v[..8]) == 616.0 && SquaredDeviations(v[..8], 77.0) == 2016.0;
    assert v[..9][..8] == v[..8];
    assert Sum(v[..9]) == 694.0 && SquaredDeviations(v[..9], 77.0) == 2017.0;
    assert v[..10][..9] == v[..9];
    assert Sum(v[..10]) == 770.0 && SquaredDeviations(v[..10], 77.0) == 2018.0;
    assert v[..10] == v;
  }

  /** The summing loop of get_mean. */
  method GetMean(vec: seq<real>) returns (mean: real)
    requires |vec| > 0
    ensures mean == Mean(vec)
    ensures mean * (|vec| as real) == Sum(vec)
  {
    var sum := 0.0;
    for i := 0 to |vec|
      invariant sum == Sum(vec[..i])
    {
      assert vec[..i + 1][..i] == vec[..i];
      sum := sum + vec[i];
    }
    assert vec[..|vec|] == vec;
    mean := sum / (|vec| as real);
  }

  /** The accumulating loop of get_std_dev up to the square root: the
      Bessel-corrected variance, which needs at least two samples. */
  method GetBesselVariance(vec: seq<real>, mean: real) returns (variance: real)
    requires |vec| >= 2
    ensures variance == SquaredDeviations(vec, mean) / ((|vec| - 1) as real)
    ensures variance >= 0.0
  {
    var squares := 0.0;
    for i := 0 to |vec|
      invariant squares == SquaredDeviations(vec[..i], mean)
    {
      assert vec[..i + 1][..i] == vec[..i];
      var term := vec[i] - mean;
      squares := squares + term * term;
    }
    assert vec[..|vec|] == vec;
    SquaredDeviationsNonNegative(vec, mean);
    variance := squares / ((|vec| - 1) as real);
  }
}
