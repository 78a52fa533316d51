/** Nearest-rank percentiles on machine words. */
module Percentiles {
  import opened Machine
  import opened Sorting

  predicate WordLe(a: u64, b: u64) { a <= b }

  lemma WordOrder()
    ensures TotalPreorder(WordLe)
  {}

  function DivCeil(a: nat, b: nat): (r: nat)
    requires b > 0
    ensures (r - 1) * b < a <= r * b || (a == 0 && r == 0)
  {
    var q := a / b;
    assert a == q * b + a % b;
    if a % b == 0 then q
    else
      assert (q + 1 - 1) * b < a <= (q + 1) * b;
      q + 1
  }

  function SatProduct(a: nat, b: nat): (r: nat)
    ensures r == Min(a * b, U64_MAX)
  {
    MulNonNegative(a, b);
    Min(a * b, U64_MAX)
  }

  function Index(n: nat, numerator: nat, denominator: nat): (i: nat)
    requires n > 0 && denominator > 0
    ensures i < n
  {
    Min(DivCeil(SatProduct(n - 1, numerator), denominator), n - 1)
  }

  function OfSorted(values: seq<u64>, numerator: nat, denominator: nat): Option<u64>
  {
    if values == [] || denominator == 0 then None
    else Some(values[Index(|values|, numerator, denominator)])
  }

  function Percentile(values: seq<u64>, numerator: nat, denominator: nat): Option<u64>
  {
    SortPermutes(values, WordLe);
    OfSorted(Sort(values, WordLe), numerator, denominator)
  }

  // ----- ranks, without sorting

  /** How many values are below `v`, or at most `v`. */
  function Count(s: seq<u64>, v: u64, inclusive: bool): nat
  {
    if s == [] then 0
    else Count(s[..|s| - 1], v, inclusive)
         + if s[|s| - 1] < v || (inclusive && s[|s| - 1] == v) then 1 else 0
  }

  /** The value of rank `i`: at most `i` values lie below it, more than `i` lie at or below it. */
  predicate HasRank(s: seq<u64>, v: u64, i: nat)
  {
    Count(s, v, false) <= i < Count(s, v, true)
  }

  lemma {:induction false} CountAppend(a: seq<u64>, b: seq<u64>, v: u64, inclusive: bool)
    ensures Count(a + b, v, inclusive) == Count(a, v, inclusive) + Count(b, v, inclusive)
  {
    if b == [] {
      assert a + b == a;
    } else {
      assert (a + b)[..|a + b| - 1] == a + b[..|b| - 1];
      CountAppend(a, b[..|b| - 1], v, inclusive);
    }
  }

  lemma CountWithout(s: seq<u64>, i: nat, v: u64, inclusive: bool)
    requires i < |s|
    ensures Count(s, v, inclusive) == Count(Without(s, i), v, inclusive) + Count([s[i]], v, inclusive)
  {
    hide Count, Without;
    Reassemble(s, i);
    CountAppend(s[..i], [s[i]] + s[i + 1..], v, inclusive);
    CountAppend([s[i]], s[i + 1..], v, inclusive);
    CountAppend(s[..i], s[i + 1..], v, inclusive);
  }

  lemma {:induction false} CountPermutes(a: seq<u64>, b: seq<u64>, v: u64, inclusive: bool)
    requires multiset(a) == multiset(b)
    ensures Count(a, v, inclusive) == Count(b, v, inclusive)
    decreases |a|
  {
    if a == [] {
      assert |multiset(b)| == 0;
    } else {
      assert a[0] in multiset(b);
      var i :| 0 <= i < |b| && b[i] == a[0];
      RemoveOne(a, 0);
      RemoveOne(b, i);
      CountPermutes(Without(a, 0), Without(b, i), v, inclusive);
      CountWithout(a, 0, v, inclusive);
      CountWithout(b, i, v, inclusive);
    }
  }

  /** All of `s` counts, or none of it does. */
  lemma {:induction false} CountAll(s: seq<u64>, v: u64, inclusive: bool)
    ensures Count(s, v, inclusive) <= |s|
    ensures inclusive && (forall k :: 0 <= k < |s| ==> s[k] <= v) ==> Count(s, v, inclusive) == |s|
    ensures !inclusive && (forall k :: 0 <= k < |s| ==> s[k] >= v) ==> Count(s, v, inclusive) == 0
  {
    if s != [] {
      CountAll(s[..|s| - 1], v, inclusive);
    }
  }

  lemma {:induction false} CountPointwise(a: seq<u64>, b: seq<u64>, v: u64, inclusive: bool)
    requires |a| == |b| && forall k :: 0 <= k < |a| ==> a[k] <= b[k]
    ensures Count(b, v, inclusive) <= Count(a, v, inclusive)
  {
    if a != [] {
      CountPointwise(a[..|a| - 1], b[..|b| - 1], v, inclusive);
    }
  }

  lemma {:induction false} CountBelow(s: seq<u64>, v: u64, w: u64)
    requires v < w
    ensures Count(s, v, true) <= Count(s, w, false)
  {
    if s != [] {
      CountBelow(s[..|s| - 1], v, w);
    }
  }

  lemma SortedRank(s: seq<u64>, i: nat)
    requires Sorted(s, WordLe) && i < |s|
    ensures HasRank(s, s[i], i)
  {
    forall j | 0 <= j < |s| ensures (j <= i ==> s[j] <= s[i]) && (i <= j ==> s[i] <= s[j]) {
      assert j < i ==> WordLe(s[j], s[i]);
      assert i < j ==> WordLe(s[i], s[j]);
    }
    CountSplit(s, i, s[i], false);
    CountSplit(s, i + 1, s[i], true);
  }

  lemma CountSplit(s: seq<u64>, i: nat, v: u64, inclusive: bool)
    requires i <= |s|
    requires inclusive ==> forall j :: 0 <= j < i ==> s[j] <= v
    requires !inclusive ==> forall j :: i <= j < |s| ==> v <= s[j]
    ensures if inclusive then Count(s, v, true) >= i else Count(s, v, false) <= i
  {
    assert s == s[..i] + s[i..];
    CountAppend(s[..i], s[i..], v, inclusive);
    CountAll(s[..i], v, inclusive);
    CountAll(s[i..], v, inclusive);
  }

  /** The percentile is the one value of the nearest rank: a definition that never sorts. */
  lemma PercentileIsRank(values: seq<u64>, numerator: nat, denominator: nat, v: u64)
    requires values != [] && denominator > 0
    ensures Percentile(values, numerator, denominator) == Some(v)
            <==> HasRank(values, v, Index(|values|, numerator, denominator))
  {
    var sorted := Sort(values, WordLe);
    WordOrder();
    SortPermutes(values, WordLe);
    SortSorts(values, WordLe);
    var i := Index(|values|, numerator, denominator);
    var p := sorted[i];
    SortedRank(sorted, i);
    CountPermutes(sorted, values, p, false);
    CountPermutes(sorted, values, p, true);
    if HasRank(values, v, i) && v != p {
      if v < p { CountBelow(values, v, p); } else { CountBelow(values, p, v); }
    }
  }

  lemma {:induction false} RankIsElement(s: seq<u64>, v: u64)
    requires Count(s, v, false) < Count(s, v, true)
    ensures v in s
  {
    if s[|s| - 1] != v {
      RankIsElement(s[..|s| - 1], v);
    }
  }

  lemma PercentileIsElement(values: seq<u64>, numerator: nat, denominator: nat)
    requires values != [] && denominator > 0
    ensures Percentile(values, numerator, denominator).Some?
    ensures Percentile(values, numerator, denominator).value in values
  {
    SortPermutes(values, WordLe);
    var v := Percentile(values, numerator, denominator).value;
    PercentileIsRank(values, numerator, denominator, v);
    RankIsElement(values, v);
  }

  lemma PercentileIgnoresOrder(a: seq<u64>, b: seq<u64>, numerator: nat, denominator: nat)
    requires multiset(a) == multiset(b)
    ensures Percentile(a, numerator, denominator) == Percentile(b, numerator, denominator)
  {
    assert |multiset(a)| == |a| && |multiset(b)| == |b|;
    SortPermutes(a, WordLe);
    SortPermutes(b, WordLe);
    if a != [] && denominator > 0 {
      var v := Percentile(a, numerator, denominator).value;
      PercentileIsRank(a, numerator, denominator, v);
      PercentileIsRank(b, numerator, denominator, v);
      CountPermutes(a, b, v, false);
      CountPermutes(a, b, v, true);
    }
  }

  /** Order statistics of pointwise ordered samples are ordered. */
  lemma PercentilePointwise(a: seq<u64>, b: seq<u64>, numerator: nat, denominator: nat)
    requires |a| == |b| > 0 && denominator > 0
    requires forall k :: 0 <= k < |a| ==> a[k] <= b[k]
    ensures Percentile(a, numerator, denominator).Some? && Percentile(b, numerator, denominator).Some?
    ensures Percentile(a, numerator, denominator).value <= Percentile(b, numerator, denominator).value
  {
    PercentileIsElement(a, numerator, denominator);
    PercentileIsElement(b, numerator, denominator);
    var p, q := Percentile(a, numerator, denominator).value, Percentile(b, numerator, denominator).value;
    PercentileIsRank(a, numerator, denominator, p);
    PercentileIsRank(b, numerator, denominator, q);
    if q < p {
      CountPointwise(a, b, q, true);
      CountBelow(a, q, p);
    }
  }

  lemma IndexMonotone(n: nat, low: nat, high: nat, denominator: nat)
    requires n > 0 && denominator > 0 && low <= high
    ensures Index(n, low, denominator) <= Index(n, high, denominator)
  {
    MulMonotone(n - 1, low, high);
    DivCeilMonotone(SatProduct(n - 1, low), SatProduct(n - 1, high), denominator);
  }

  lemma MulMonotone(a: nat, b: nat, c: nat)
    requires b <= c
    ensures a * b <= a * c
  {}

  lemma DivCeilMonotone(a: nat, b: nat, d: nat)
    requires a <= b && d > 0
    ensures DivCeil(a, d) <= DivCeil(b, d)
  {
    var x, y := DivCeil(a, d), DivCeil(b, d);
    if x > y {
      MulMonotone(d, y, x - 1);
    }
  }

  /** In particular p50 <= p95 <= p99. */
  lemma PercentileMonotone(values: seq<u64>, low: nat, high: nat, denominator: nat)
    requires values != [] && denominator > 0 && low <= high
    ensures Percentile(values, low, denominator).Some? && Percentile(values, high, denominator).Some?
    ensures Percentile(values, low, denominator).value <= Percentile(values, high, denominator).value
  {
    var sorted := Sort(values, WordLe);
    WordOrder();
    SortPermutes(values, WordLe);
    SortSorts(values, WordLe);
    IndexMonotone(|values|, low, high, denominator);
    var i, j := Index(|values|, low, denominator), Index(|values|, high, denominator);
    if i < j {
      assert WordLe(sorted[i], sorted[j]);
    }
  }

  /** The p95 tail holds at least one value, and one more for every twenty beyond the first. */
  lemma TailSize(values: seq<u64>)
    requires values != []
    ensures Percentile(values, 95, 100).Some?
    ensures |values| - Count(values, Percentile(values, 95, 100).value, false) >= 1 + (|values| - 1) / 20
  {
    PercentileIsElement(values, 95, 100);
    var n := |values|;
    var p := Percentile(values, 95, 100).value;
    PercentileIsRank(values, 95, 100, p);
    var r := DivCeil(SatProduct(n - 1, 95), 100);
    assert (r - 1) * 100 < (n - 1) * 95 || r == 0;
  }

  /** The nearest rank, said by its defining inequalities: the least whole number of ranks that covers
      the fraction of the way to the last. The index of the source is that rank. */
  lemma PercentileIsNearestRank(values: seq<u64>, numerator: nat, denominator: nat, i: nat, v: u64)
    requires values != [] && 0 < denominator && numerator <= denominator
    requires (|values| - 1) * numerator <= U64_MAX
    requires (i - 1) * denominator < (|values| - 1) * numerator <= i * denominator
    ensures Percentile(values, numerator, denominator) == Some(v) <==> HasRank(values, v, i)
  {
    hide Percentile, HasRank, Index;
    IndexIsNearest(|values|, numerator, denominator, i);
    PercentileIsRank(values, numerator, denominator, v);
  }

  lemma IndexIsNearest(n: nat, numerator: nat, denominator: nat, i: nat)
    requires n > 0 && 0 < denominator && numerator <= denominator && (n - 1) * numerator <= U64_MAX
    requires (i - 1) * denominator < (n - 1) * numerator <= i * denominator
    ensures Index(n, numerator, denominator) == i
  {
    var a := (n - 1) * numerator;
    MulNonNegative(n - 1, numerator);
    RankUnique(a, denominator, DivCeil(a, denominator), i);
    RankFits(n - 1, numerator, denominator, i);
  }

  lemma RankFits(last: nat, numerator: nat, denominator: nat, i: nat)
    requires 0 < denominator && numerator <= denominator && (i - 1) * denominator < last * numerator
    ensures i <= last
  {
    MulMonotone(last, numerator, denominator);
    if i > last {
      MulMonotone(denominator, last, i - 1);
    }
  }

  lemma RankUnique(a: nat, d: nat, r: nat, i: nat)
    requires d > 0 && ((r - 1) * d < a <= r * d || (a == 0 && r == 0)) && (i - 1) * d < a <= i * d
    ensures r == i
  {
    RankAtMost(a, d, r, i);
    RankAtMost(a, d, i, r);
  }

  lemma RankAtMost(a: int, d: int, r: int, i: int)
    requires d > 0 && (r - 1) * d < a <= i * d
    ensures r <= i
  {
    var k := r - 1 - i;
    assert k * d == (r - 1) * d - i * d;
    assert k >= 0 ==> k * d >= 0;
  }

  /** The p95 tail is no larger than it must be: at most one value in twenty beyond the first lies above
      the p95. */
  lemma TailIsSmall(values: seq<u64>)
    requires values != [] && (|values| - 1) * 95 <= U64_MAX
    ensures Percentile(values, 95, 100).Some?
    ensures |values| - Count(values, Percentile(values, 95, 100).value, true) <= (|values| - 1) / 20
  {
    PercentileIsElement(values, 95, 100);
    var n := |values|;
    var p := Percentile(values, 95, 100).value;
    var i := DivCeil((n - 1) * 95, 100);
    PercentileIsNearestRank(values, 95, 100, i, p);
  }

  /** The last percentile is the largest value, the first the smallest. */
  lemma PercentileEnds(values: seq<u64>, denominator: nat)
    requires values != [] && 0 < denominator && (|values| - 1) * denominator <= U64_MAX
    ensures Percentile(values, denominator, denominator).Some? && Percentile(values, 0, denominator).Some?
    ensures forall v :: v in values ==> v <= Percentile(values, denominator, denominator).value
    ensures forall v :: v in values ==> Percentile(values, 0, denominator).value <= v
  {
    var n := |values|;
    PercentileIsElement(values, denominator, denominator);
    PercentileIsElement(values, 0, denominator);
    var top, low := Percentile(values, denominator, denominator).value, Percentile(values, 0, denominator).value;
    assert (n - 1 - 1) * denominator == (n - 1) * denominator - denominator;
    PercentileIsNearestRank(values, denominator, denominator, n - 1, top);
    PercentileIsNearestRank(values, 0, denominator, 0, low);
    forall v | v in values ensures low <= v <= top {
      CountOccurs(values, v);
      if v > top {
        CountBelow(values, top, v);
        CountAll(values, v, true);
      }
      if v < low {
        CountBelow(values, v, low);
      }
    }
  }

  lemma {:induction false} CountOccurs(s: seq<u64>, v: u64)
    requires v in s
    ensures Count(s, v, false) < Count(s, v, true) <= |s|
  {
    if s[|s| - 1] != v {
      CountOccurs(s[..|s| - 1], v);
    } else {
      CountLess(s[..|s| - 1], v);
    }
  }

  lemma {:induction false} CountLess(s: seq<u64>, v: u64)
    ensures Count(s, v, false) <= Count(s, v, true) <= |s|
  {
    if s != [] {
      CountLess(s[..|s| - 1], v);
    }
  }

  /** The positions of the values below `v`, or at most `v`. */
  ghost function Positions(s: seq<u64>, v: u64, inclusive: bool): set<int>
  {
    set k | 0 <= k < |s| && (s[k] < v || (inclusive && s[k] == v))
  }

  lemma PositionsNext(s: seq<u64>, v: u64, inclusive: bool)
    requires s != []
    ensures var n := |s| - 1; var before := Positions(s[..n], v, inclusive);
            && n !in before
            && Positions(s, v, inclusive) == before + if s[n] < v || (inclusive && s[n] == v) then {n} else {}
  {}

  /** Ranks are told by counting positions: what `HasRank` counts are the values below, and those at or
      below. */
  lemma {:induction false} CountIsSize(s: seq<u64>, v: u64, inclusive: bool)
    ensures Count(s, v, inclusive) == |Positions(s, v, inclusive)|
  {
    hide Positions;
    if s == [] {
      NoPositions(v, inclusive);
    } else {
      CountIsSize(s[..|s| - 1], v, inclusive);
      PositionsNext(s, v, inclusive);
    }
  }

  lemma NoPositions(v: u64, inclusive: bool)
    ensures Positions([], v, inclusive) == {}
  {}
}
