/** How `RedisService::do_service` cuts the keys of one fetch into MGET batches. */
module Batching {

  /** n / d, and one more when there is a remainder, as the two counts are computed. */
  function CountFor(n: nat, d: nat): nat
    requires d >= 1
  {
    if n % d != 0 then n / d + 1 else n / d
  }

  /** The counts are ceilings: enough portions of d, and not one too many. */
  lemma CountIsCeiling(n: nat, d: nat)
    requires n >= 1 && d >= 1
    ensures CountFor(n, d) >= 1
    ensures n <= CountFor(n, d) * d < n + d
  {
    assert n == (n / d) * d + n % d;
  }

  /** Recomputing the step from the batch count leaves the count right: that many batches of `step` keys cover all
      n keys, and one fewer would not; and no batch is larger than configured. */
  lemma StepFitsCount(n: nat, batchSize: nat)
    requires n >= 1 && batchSize >= 1
    ensures var count := CountFor(n, batchSize);
            count >= 1 && (var step := CountFor(n, count);
            && 1 <= step <= batchSize
            && (count - 1) * step < n <= count * step)
  {
    CountIsCeiling(n, batchSize);
    var count := CountFor(n, batchSize);
    CountIsCeiling(n, count);
    var step := CountFor(n, count);
    if step > batchSize {
      Scale(batchSize, step - 1, count);
      assert false;
    }
    Scale(step, batchSize, count - 1);
    assert (count - 1) * step < n by {
      assert (count - 1) * step <= (count - 1) * batchSize == count * batchSize - batchSize;
    }
  }

  lemma Scale(a: int, b: int, k: nat)
    requires a <= b
    ensures k * a <= k * b && a * k <= b * k
  {
  }

  /** Where the k-th send starts: the loop variable after k increments. */
  function StartOf(k: nat, step: nat): nat {
    if k == 0 then 0 else StartOf(k - 1, step) + step
  }

  lemma {:induction false} StartIsProduct(k: nat, step: nat)
    ensures StartOf(k, step) == k * step
  {
    if k > 0 {
      StartIsProduct(k - 1, step);
      assert (k - 1) * step + step == k * step;
    }
  }

  /** Dividing the start of the k-th send by the step gives back its cell. */
  lemma CellOf(k: nat, step: nat)
    requires step >= 1
    ensures StartOf(k, step) / step == k
  {
    StartIsProduct(k, step);
    DivUnique(k * step, step, k);
  }

  lemma DivUnique(x: nat, d: nat, q: nat)
    requires d >= 1 && q * d <= x < q * d + d
    ensures x / d == q
  {
    var r := x / d;
    assert x == r * d + x % d;
    if r < q {
      Scale(r + 1, q, d);
    } else if r > q {
      Scale(q + 1, r, d);
    }
  }

  function Min(a: nat, b: nat): nat {
    if a < b then a else b
  }

  /** The batches of one fetch: `ranges[k]` is the half-open range of key positions of the k-th send. */
  ghost predicate Partition(ranges: seq<(nat, nat)>, n: nat) {
    && (|ranges| == 0 <==> n == 0)
    && (forall k :: 0 <= k < |ranges| ==> ranges[k].0 < ranges[k].1)
    && (|ranges| > 0 ==> ranges[0].0 == 0 && ranges[|ranges| - 1].1 == n)
    && (forall k, l :: 0 <= k && l == k + 1 && l < |ranges| ==> ranges[k].1 == ranges[l].0)
  }

  /** Each key position lies in exactly one of the ranges. */
  lemma PartitionCovers(ranges: seq<(nat, nat)>, n: nat, x: nat)
    requires Partition(ranges, n) && x < n
    ensures exists k :: 0 <= k < |ranges| && ranges[k].0 <= x < ranges[k].1 &&
                   forall l :: 0 <= l < |ranges| && ranges[l].0 <= x < ranges[l].1 ==> l == k
  {
    var k := FindRange(ranges, n, x, 0);
    forall l | 0 <= l < |ranges| && ranges[l].0 <= x < ranges[l].1 ensures l == k {
      if l < k {
        Ascending(ranges, n, l, k);
      } else if k < l {
        Ascending(ranges, n, k, l);
      }
    }
  }

  lemma {:induction false} FindRange(ranges: seq<(nat, nat)>, n: nat, x: nat, from: nat) returns (k: nat)
    requires Partition(ranges, n) && x < n && from < |ranges| && ranges[from].0 <= x
    ensures k < |ranges| && ranges[k].0 <= x < ranges[k].1
    decreases |ranges| - from
  {
    if x < ranges[from].1 {
      k := from;
    } else {
      k := FindRange(ranges, n, x, from + 1);
    }
  }

  lemma {:induction false} Ascending(ranges: seq<(nat, nat)>, n: nat, k: nat, l: nat)
    requires Partition(ranges, n) && k < l < |ranges|
    ensures ranges[k].1 <= ranges[l].0
    decreases l
  {
    if k + 1 < l {
      Ascending(ranges, n, k, l - 1);
      assert ranges[l - 1].1 == ranges[l].0;
    }
  }

  /** The key positions of the k-th send. */
  function RangeOf(k: nat, step: nat, n: nat): (nat, nat) {
    (StartOf(k, step), Min(StartOf(k, step) + step, n))
  }

  /** The loop has made its sends: the last one starts before n and reaches it. */
  ghost predicate Exhausted(sends: nat, step: nat, n: nat) {
    sends >= 1 && StartOf(sends - 1, step) < n <= StartOf(sends, step)
  }

  /** Ranges that follow one another in steps, the last one reaching the end, partition the keys. */
  lemma StepsPartition(ranges: seq<(nat, nat)>, n: nat, step: nat)
    requires n >= 1 && step >= 1 && Exhausted(|ranges|, step, n)
    requires forall k :: 0 <= k < |ranges| ==> ranges[k] == RangeOf(k, step, n)
    ensures Partition(ranges, n)
  {
    forall k | 0 <= k < |ranges| ensures StartOf(k, step) < n && (k + 1 < |ranges| ==> StartOf(k, step) + step < n) {
      Increasing(k, |ranges| - 1, step);
      if k + 1 < |ranges| {
        Increasing(k + 1, |ranges| - 1, step);
      }
    }
    forall k, l | 0 <= k && l == k + 1 && l < |ranges| ensures ranges[k].1 == ranges[l].0 {
      assert ranges[k] == RangeOf(k, step, n) && ranges[l] == RangeOf(l, step, n);
    }
  }

  lemma {:induction false} Increasing(k: nat, l: nat, step: nat)
    requires k <= l
    ensures StartOf(k, step) <= StartOf(l, step)
    decreases l
  {
    if k < l {
      Increasing(k, l - 1, step);
    }
  }

  /** The loop ends after exactly the number of sends that the step was made for. */
  lemma SendsAreCounted(sends: nat, count: nat, step: nat, n: nat)
    requires n >= 1 && count >= 1 && (count - 1) * step < n <= count * step
    requires Exhausted(sends, step, n)
    ensures sends == count
  {
    StartIsProduct(count, step);
    StartIsProduct(count - 1, step);
    if sends < count {
      Increasing(sends, count - 1, step);
    } else if sends > count {
      Increasing(count, sends - 1, step);
    }
  }

  /** The issuing loop: a send for each start position, and the result cell its callback will write. */
  method Sends(n: nat, step: nat) returns (ranges: seq<(nat, nat)>, cells: seq<nat>)
    requires n >= 1 && step >= 1
    ensures |ranges| == |cells| && Exhausted(|ranges|, step, n)
    ensures forall k :: 0 <= k < |ranges| ==> ranges[k] == RangeOf(k, step, n)
    ensures forall k :: 0 <= k < |cells| ==> cells[k] == k
  {
    ranges, cells := [], [];
    var i := 0;
    while i < n
      invariant |ranges| == |cells| && i == StartOf(|ranges|, step)
      invariant |ranges| >= 1 ==> StartOf(|ranges| - 1, step) < n
      invariant forall k :: 0 <= k < |ranges| ==> ranges[k] == RangeOf(k, step, n)
      invariant forall k :: 0 <= k < |ranges| ==> cells[k] == k
      decreases n - i
    {
      CellOf(|ranges|, step);
      ranges := ranges + [(i, Min(i + step, n))];
      cells := cells + [i / step];
      i := i + step;
    }
  }

  /** The least number of portions of d that hold n. */
  predicate IsCeiling(count: int, n: nat, d: nat) {
    (count - 1) * d < n <= count * d
  }

  /** The batch count that initialises the inner countdown, and the issuing loop.  With MGET the keys are spread evenly
      over the fewest batches that the configured size allows; without it there is one send for each key.  The loop makes
      exactly as many sends as the countdown expects: the k-th send has the k-th portion of `step` keys, as far as there
      are any, and a result cell of its own; together the sends partition the keys. */
  method IssueBatches(n: nat, batchSize: nat, multiGet: bool) returns (count: nat, step: nat, ranges: seq<(nat, nat)>, cells: seq<nat>)
    requires n >= 1 && batchSize >= 1
    ensures |ranges| == |cells| == count
    ensures if multiGet then IsCeiling(count, n, batchSize) && IsCeiling(step, n, count) else count == n && step == 1
    ensures 1 <= step <= if multiGet then batchSize else 1
    ensures Partition(ranges, n)
    ensures forall k :: 0 <= k < count ==> ranges[k] == (k * step, Min(k * step + step, n))
    ensures forall k :: 0 <= k < count ==> cells[k] == k
  {
    if multiGet {
      count, step := PlanStep(n, batchSize);
    } else {
      count, step := n, 1;
    }
    ranges, cells := Sends(n, step);
    SendsAreBatches(ranges, n, step, count);
  }

  lemma SendsAreBatches(ranges: seq<(nat, nat)>, n: nat, step: nat, count: nat)
    requires n >= 1 && step >= 1 && count >= 1 && Exhausted(|ranges|, step, n) && IsCeiling(count, n, step)
    requires forall k :: 0 <= k < |ranges| ==> ranges[k] == RangeOf(k, step, n)
    ensures |ranges| == count && Partition(ranges, n)
    ensures forall k :: 0 <= k < count ==> ranges[k] == (k * step, Min(k * step + step, n))
  {
    SendsAreCounted(|ranges|, count, step, n);
    StepsPartition(ranges, n, step);
    RangesAreProducts(ranges, n, step);
  }

  lemma RangesAreProducts(ranges: seq<(nat, nat)>, n: nat, step: nat)
    requires forall k :: 0 <= k < |ranges| ==> ranges[k] == RangeOf(k, step, n)
    ensures forall k :: 0 <= k < |ranges| ==> ranges[k] == (k * step, Min(k * step + step, n))
  {
    forall k: nat | k < |ranges| ensures ranges[k] == (k * step, Min(k * step + step, n)) {
      StartIsProduct(k, step);
    }
  }

  /** The batch count, and the step recomputed from it. */
  method PlanStep(n: nat, batchSize: nat) returns (count: nat, step: nat)
    requires n >= 1 && batchSize >= 1
    ensures count >= 1 && IsCeiling(count, n, batchSize) && IsCeiling(step, n, count)
    ensures 1 <= step <= batchSize && IsCeiling(count, n, step)
  {
    StepFitsCount(n, batchSize);
    CountIsCeiling(n, batchSize);
    CeilingIs(CountFor(n, batchSize), n, batchSize);
    count := n / batchSize;
    if n % batchSize != 0 {
      count := count + 1;
    }
    CountIsCeiling(n, count);
    CeilingIs(CountFor(n, count), n, count);
    step := n / count;
    if n % count != 0 {
      step := step + 1;
    }
  }

  lemma CeilingIs(count: nat, n: nat, d: nat)
    requires n <= count * d < n + d
    ensures IsCeiling(count, n, d)
  {
    assert (count - 1) * d == count * d - d;
  }

  /** There is only one such number. */
  lemma CeilingIsUnique(a: int, b: int, n: nat, d: nat)
    requires d >= 1 && IsCeiling(a, n, d) && IsCeiling(b, n, d)
    ensures a == b
  {
    if a < b {
      Scale(a, b - 1, d);
    } else if b < a {
      Scale(b, a - 1, d);
    }
  }
}
