/** The slice and vector functions and the `Stats` type of
    days/day17/ownership_borrowing_depth/src/main.rs. `i32` arithmetic that would overflow
    panics in Rust; here it is excluded by preconditions. */
module OwnershipBorrowingDepth {
  import opened RustInt

  /** The sum of a sequence, added up from the left as `Iterator::sum` does. */
  function SeqSum(s: seq<int>): int
    decreases |s|
  {
    if s == [] then 0 else SeqSum(s[..|s| - 1]) + s[|s| - 1]
  }

  /** `Iterator::sum` over `i32` panics as soon as a running total leaves the `i32` range. */
  predicate SumFits(s: seq<int>) {
    forall k :: 0 <= k <= |s| ==> InI32(SeqSum(s[..k]))
  }

  /** Sums split over concatenation. */
  lemma {:induction false} SeqSumAppend(a: seq<int>, b: seq<int>)
    ensures SeqSum(a + b) == SeqSum(a) + SeqSum(b)
    decreases |b|
  {
    if b == [] {
      assert a + b == a;
    } else {
      assert (a + b)[..|a + b| - 1] == a + b[..|b| - 1];
      SeqSumAppend(a, b[..|b| - 1]);
    }
  }

  /** Sums of entries bounded by `bound` are bounded by `|s| * bound`. */
  lemma {:induction false} SeqSumBound(s: seq<int>, bound: nat)
    requires forall k :: 0 <= k < |s| ==> -(bound as int) <= s[k] <= bound
    ensures -(|s| * bound) <= SeqSum(s) <= |s| * bound
    decreases |s|
  {
    if s != [] {
      SeqSumBound(s[..|s| - 1], bound);
    }
  }

  /** At most a thousand entries of magnitude at most a thousand never overflow while being
      summed. */
  lemma SmallEntriesFit(s: seq<int>)
    requires forall k :: 0 <= k < |s| ==> -1000 <= s[k] <= 1000
    requires |s| <= 1000
    ensures SumFits(s)
  {
    forall k | 0 <= k <= |s|
      ensures InI32(SeqSum(s[..k]))
    {
      SeqSumBound(s[..k], 1000);
    }
  }

  /** `sum_owned`. */
  function SumOwned(nums: seq<I32>): (r: I32)
    requires SumFits(nums)
    ensures r == SeqSum(nums)
  {
    assert nums[..|nums|] == nums;
    SeqSum(nums)
  }

  /** `sum_borrowed`: borrowing instead of taking the vector gives the same sum. */
  function SumBorrowed(nums: seq<I32>): (r: I32)
    requires SumFits(nums)
    ensures r == SumOwned(nums)
  {
    assert nums[..|nums|] == nums;
    SeqSum(nums)
  }

  /** `increment_all`: adds one to every element, in place. */
  method IncrementAll(nums: array<I32>)
    requires forall k :: 0 <= k < nums.Length ==> nums[k] < I32_MAX
    modifies nums
    ensures forall k :: 0 <= k < nums.Length ==> nums[k] == old(nums[k]) as int + 1
  {
    var i := 0;
    while i < nums.Length
      invariant 0 <= i <= nums.Length
      invariant forall k :: 0 <= k < i ==> nums[k] == old(nums[k]) as int + 1
      invariant forall k :: i <= k < nums.Length ==> nums[k] == old(nums[k])
    {
      nums[i] := nums[i] + 1;
      i := i + 1;
    }
  }

  /** `first_word`: the text before the first space, or all of it. The search is over bytes,
      but a space byte is always the whole character ' ' in UTF-8, so searching the
      characters finds the same place. */
  method FirstWord(s: string) returns (w: string)
    ensures |w| <= |s| && w == s[..|w|]
    ensures forall k :: 0 <= k < |w| ==> w[k] != ' '
    ensures |w| < |s| ==> s[|w|] == ' '
  {
    var i := 0;
    while i < |s|
      invariant 0 <= i <= |s|
      invariant forall k :: 0 <= k < i ==> s[k] != ' '
    {
      if s[i] == ' ' {
        return s[..i];
      }
      i := i + 1;
    }
    return s;
  }

  /** `process`: splits the slice at `len / 2`, adds one to every element of the left part
      and doubles every element of the right part. */
  method Process(nums: array<I32>)
    requires forall k :: 0 <= k < nums.Length / 2 ==> nums[k] < I32_MAX
    requires forall k :: nums.Length / 2 <= k < nums.Length ==> InI32(nums[k] as int * 2)
    modifies nums
    ensures forall k :: 0 <= k < nums.Length / 2 ==> nums[k] == old(nums[k]) as int + 1
    ensures forall k :: nums.Length / 2 <= k < nums.Length ==> nums[k] == old(nums[k]) as int * 2
  {
    var mid := nums.Length / 2;
    var i := 0;
    while i < mid
      invariant 0 <= i <= mid
      invariant forall k :: 0 <= k < i ==> nums[k] == old(nums[k]) as int + 1
      invariant forall k :: i <= k < nums.Length ==> nums[k] == old(nums[k])
    {
      nums[i] := nums[i] + 1;
      i := i + 1;
    }
    while i < nums.Length
      invariant mid <= i <= nums.Length
      invariant forall k :: 0 <= k < mid ==> nums[k] == old(nums[k]) as int + 1
      invariant forall k :: mid <= k < i ==> nums[k] == old(nums[k]) as int * 2
      invariant forall k :: i <= k < nums.Length ==> nums[k] == old(nums[k])
    {
      nums[i] := nums[i] * 2;
      i := i + 1;
    }
  }

  /** `main`: the sums before and after `increment_all`, the first word, and `process` on
      `[1, 2, 3, 4, 5, 6]`. */
  method MainScenario() returns (s1: int, s2: int, first: string, values: seq<int>)
    ensures s1 == 6 && s2 == 9 && first == "hello" && values == [2, 3, 4, 8, 10, 12]
  {
    var v := new I32[3][1, 2, 3];
    assert v[..] == [1, 2, 3];
    SmallEntriesFit(v[..]);
    assert SeqSum([1, 2, 3]) == 6 by {
      assert [1, 2, 3][..2] == [1, 2] && [1, 2][..1] == [1] && [1][..0] == [];
    }
    s1 := SumBorrowed(v[..]);
    IncrementAll(v);
    assert v[..] == [2, 3, 4];
    SmallEntriesFit(v[..]);
    assert SeqSum([2, 3, 4]) == 9 by {
      assert [2, 3, 4][..2] == [2, 3] && [2, 3][..1] == [2] && [2][..0] == [];
    }
    s2 := SumOwned(v[..]);
    first := FirstWord("hello world rustacean");
    assert first == "hello" by {
      var t := "hello world rustacean";
      assert t[5] == ' ';
      assert forall k :: 0 <= k < 5 ==> t[k] != ' ';
    }
    var a := new I32[6][1, 2, 3, 4, 5, 6];
    Process(a);
    values := a[..];
  }

  // ---------------------------------------------------------------------------------------
  // `Stats`

  predicate Sorted(s: seq<int>) {
    forall i, j :: 0 <= i < j < |s| ==> s[i] <= s[j]
  }

  /** A sequence whose elements all lie at or above `b`, given by its multiset. */
  lemma {:induction false} LowerBoundByMultiset(b: int, s: seq<int>, x: int, t: seq<int>)
    requires forall k :: 0 <= k < |s| ==> b <= s[k]
    requires b <= x && multiset(t) == multiset(s) + multiset{x}
    ensures forall k :: 0 <= k < |t| ==> b <= t[k]
  {
    forall k | 0 <= k < |t|
      ensures b <= t[k]
    {
      assert t[k] in multiset(t);
      if t[k] != x {
        assert t[k] in multiset(s);
        var j :| 0 <= j < |s| && s[j] == t[k];
      }
    }
  }

  /** A sorted sequence stays sorted with a smallest element put in front. */
  lemma {:induction false} ConsSorted(h: int, t: seq<int>)
    requires Sorted(t) && forall k :: 0 <= k < |t| ==> h <= t[k]
    ensures Sorted([h] + t)
  {
    var r := [h] + t;
    forall i, j | 0 <= i < j < |r|
      ensures r[i] <= r[j]
    {
      assert r[j] == t[j - 1];
      if i > 0 { assert r[i] == t[i - 1]; }
    }
  }

  /** Put `x` into a sorted sequence before the first larger element. */
  function Insert(x: int, s: seq<int>): (r: seq<int>)
    requires Sorted(s)
    ensures Sorted(r) && multiset(r) == multiset(s) + multiset{x}
    decreases |s|
  {
    if s == [] then [x]
    else if x <= s[0] then
      ConsSorted(x, s);
      [x] + s
    else
      var tail := s[1..];
      assert s == [s[0]] + tail;
      assert forall k :: 0 <= k < |tail| ==> s[0] <= tail[k] by {
        forall k | 0 <= k < |tail| ensures s[0] <= tail[k] { assert tail[k] == s[k + 1]; }
      }
      var t := Insert(x, tail);
      LowerBoundByMultiset(s[0], tail, x, t);
      ConsSorted(s[0], t);
      [s[0]] + t
  }

  /** The sorted arrangement of a sequence (what `Vec::sort` leaves). */
  function SortSeq(s: seq<int>): (r: seq<int>)
    ensures Sorted(r) && multiset(r) == multiset(s)
    decreases |s|
  {
    if s == [] then []
    else
      assert s == s[..|s| - 1] + [s[|s| - 1]];
      Insert(s[|s| - 1], SortSeq(s[..|s| - 1]))
  }

  /** Every element multiplied by `factor`. */
  function Scaled(s: seq<int>, factor: int): (r: seq<int>)
    ensures |r| == |s| && forall k :: 0 <= k < |s| ==> r[k] == s[k] * factor
  {
    seq(|s|, k requires 0 <= k < |s| => s[k] * factor)
  }

  /** Scaling every element scales the sum. */
  lemma {:induction false} ScaledSum(s: seq<int>, factor: int)
    ensures SeqSum(Scaled(s, factor)) == SeqSum(s) * factor
    decreases |s|
  {
    if s != [] {
      var init := s[..|s| - 1];
      assert Scaled(s, factor)[..|s| - 1] == Scaled(init, factor);
      ScaledSum(init, factor);
      assert SeqSum(s) * factor == SeqSum(init) * factor + s[|s| - 1] * factor;
    }
  }

  class Stats {
    var values: seq<int>

    /** `Stats::new`: no values. */
    constructor ()
      ensures values == []
    {
      values := [];
    }

    /** `Stats::add`: appends the value at the end. */
    method Add(value: I32)
      modifies this
      ensures values == old(values) + [value]
    {
      values := values + [value];
    }

    /** `Stats::sum`. */
    function Sum(): (r: I32)
      reads this
      requires SumFits(values)
      ensures r == SeqSum(values)
    {
      assert values[..|values|] == values;
      SeqSum(values)
    }

    /** `Stats::scale`: multiplies every value by `factor`, in place; no product may
        overflow. */
    method Scale(factor: I32)
      requires forall k :: 0 <= k < |values| ==> InI32(values[k] * factor)
      modifies this
      ensures values == Scaled(old(values), factor)
    {
      var i := 0;
      while i < |values|
        invariant 0 <= i <= |values| == |old(values)|
        invariant forall k :: 0 <= k < i ==> values[k] == old(values[k]) * factor
        invariant forall k :: i <= k < |values| ==> values[k] == old(values[k])
      {
        values := values[i := values[i] * factor];
        i := i + 1;
      }
    }

    /** `Stats::into_sorted`: the values, sorted, with nothing lost or added. */
    method IntoSorted() returns (sorted: seq<int>)
      ensures Sorted(sorted) && multiset(sorted) == multiset(values)
      ensures |sorted| == |values|
    {
      sorted := SortSeq(values);
      assert |sorted| == |multiset(sorted)| == |multiset(values)| == |values|;
    }
  }
}
