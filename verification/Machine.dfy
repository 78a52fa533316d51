/** The 64-bit unsigned arithmetic the capture and analysis code runs on.
    Rust's `saturating_add`, `saturating_sub` and `saturating_mul` are written out on
    mathematical integers; values held in a field are confined to `u64`. */
module Machine {
  import opened Sorting

  const U64_MAX: int := 0xFFFF_FFFF_FFFF_FFFF

  type u64 = x: int | 0 <= x <= U64_MAX

  datatype Option<+T> = None | Some(value: T)

  function Min(a: int, b: int): int { if a <= b then a else b }

  function Max(a: int, b: int): int { if a >= b then a else b }

  function SatAdd(a: u64, b: u64): (r: u64)
    ensures r == Min(a + b, U64_MAX)
  {
    if a + b > U64_MAX then U64_MAX else a + b
  }

  function SatSub(a: u64, b: u64): (r: u64)
    ensures r == Max(a - b, 0)
  {
    if a >= b then a - b else 0
  }

  function SatMul(a: u64, b: u64): (r: u64)
    ensures r == Min(a * b, U64_MAX)
  {
    if a * b > U64_MAX then U64_MAX else (MulNonNegative(a, b); a * b)
  }

  lemma MulNonNegative(a: int, b: int)
    requires 0 <= a && 0 <= b
    ensures 0 <= a * b
  {}

  /** The exact sum, which no machine word bounds. */
  function Sum(s: seq<u64>): nat
  {
    if s == [] then 0 else Sum(s[..|s| - 1]) + s[|s| - 1]
  }

  /** `fold(0, saturating_add)` in the order of the sequence. */
  function SatSum(s: seq<u64>): u64
  {
    if s == [] then 0 else SatAdd(SatSum(s[..|s| - 1]), s[|s| - 1])
  }

  /** A left fold of saturating additions loses nothing but the overflow of the exact sum. */
  lemma {:induction false} SatSumIsExactOrMax(s: seq<u64>)
    ensures SatSum(s) == Min(Sum(s), U64_MAX)
  {
    if s != [] {
      SatSumIsExactOrMax(s[..|s| - 1]);
    }
  }

  lemma {:induction false} SumAppend(a: seq<u64>, b: seq<u64>)
    ensures Sum(a + b) == Sum(a) + Sum(b)
  {
    if b == [] {
      assert a + b == a;
    } else {
      var b' := b[..|b| - 1];
      assert (a + b)[..|a + b| - 1] == a + b';
      SumAppend(a, b');
    }
  }

  lemma SumWithout(s: seq<u64>, i: nat)
    requires i < |s|
    ensures Sum(s) == Sum(Without(s, i)) + s[i]
  {
    hide Sum, Without;
    var l, x, r := s[..i], [s[i]], s[i + 1..];
    SumOne(s[i]);
    Reassemble(s, i);
    SumAppend(l, x + r);
    SumAppend(x, r);
    SumAppend(l, r);
  }

  lemma SumOne(v: u64)
    ensures Sum([v]) == v
  {
    assert [v][..0] == [];
  }

  lemma {:induction false} SumPermutes(a: seq<u64>, b: seq<u64>)
    requires multiset(a) == multiset(b)
    ensures Sum(a) == Sum(b) && SatSum(a) == SatSum(b)
    decreases |a|
  {
    SatSumIsExactOrMax(a);
    SatSumIsExactOrMax(b);
    if a == [] {
      assert |multiset(b)| == 0;
    } else {
      assert a[0] in multiset(b);
      var i :| 0 <= i < |b| && b[i] == a[0];
      RemoveOne(a, 0);
      RemoveOne(b, i);
      SumPermutes(Without(a, 0), Without(b, i));
      SumWithout(a, 0);
      SumWithout(b, i);
    }
  }

  lemma {:induction false} SumIncluded<T>(some: seq<T>, all: seq<T>, f: T -> u64)
    requires multiset(some) <= multiset(all)
    ensures Sum(Map(some, f)) <= Sum(Map(all, f))
    decreases |some|
  {
    if some != [] {
      assert some[0] in multiset(some);
      assert some[0] in multiset(all);
      var i :| 0 <= i < |all| && all[i] == some[0];
      RemoveOne(some, 0);
      RemoveOne(all, i);
      SumIncluded(Without(some, 0), Without(all, i), f);
      MapOfWithout(some, 0, f);
      MapOfWithout(all, i, f);
      SumWithout(Map(some, f), 0);
      SumWithout(Map(all, f), i);
    }
  }
}
