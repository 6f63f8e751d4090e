/**
 The fixed-size latency histogram that stands in for keeping every request duration.

 `Summary(bounds, seen)` says what the counters must hold after the observations `seen`;
 `Histogram` is the mutable object, tied to `Summary` by its invariant; the lemmas compare
 what `Quantile` answers with the sorted list of observations the histogram replaced.
 Durations are `real`.
 */
module LatencyHistogram {

  import opened Wrappers
  import opened Sequences
  import opened Ratios

  // Bucket bounds in milliseconds.
  const BUCKET_BOUNDS: seq<real> := [
    1.0, 2.0, 3.0, 4.0, 5.0, 7.0, 10.0, 15.0, 20.0, 30.0, 40.0, 50.0, 75.0, 100.0, 150.0, 200.0,
    300.0, 400.0, 500.0, 750.0, 1000.0, 1500.0, 2000.0, 3000.0, 5000.0, 7500.0, 10000.0, 15000.0,
    20000.0, 30000.0, 60000.0]

  ghost predicate IsScale(bounds: seq<real>) {
    && bounds != []
    && 0.0 < bounds[0]
    && forall i, j :: 0 <= i < j < |bounds| ==> bounds[i] < bounds[j]
  }

  // Everything below holds of any positive, increasing bounds.
  type Scale = bounds: seq<real> | IsScale(bounds) ghost witness [1.0]

  lemma BucketBoundsAreAScale()
    ensures IsScale(BUCKET_BOUNDS)
  {
  }

  // ----- buckets: one per bound, and a last one for everything past the last bound -----

  ghost predicate InBucket(bounds: Scale, i: nat, ms: real) {
    && i <= |bounds|
    && (i > 0 ==> bounds[i - 1] < ms)
    && (i < |bounds| ==> ms <= bounds[i])
  }

  lemma BucketUnique(bounds: Scale, i: nat, j: nat, ms: real)
    requires InBucket(bounds, i, ms) && InBucket(bounds, j, ms)
    ensures i == j
  {
  }

  function BucketFrom(bounds: Scale, ms: real, i: nat): (b: nat)
    requires i <= |bounds|
    requires i > 0 ==> bounds[i - 1] < ms
    ensures InBucket(bounds, b, ms)
    decreases |bounds| - i
  {
    if i == |bounds| || ms <= bounds[i] then i else BucketFrom(bounds, ms, i + 1)
  }

  /** The bucket a duration is counted in: the first whose bound it does not exceed. */
  function Bucket(bounds: Scale, ms: real): (b: nat)
    ensures InBucket(bounds, b, ms)
  {
    BucketFrom(bounds, ms, 0)
  }

  lemma BucketMonotone(bounds: Scale, x: real, y: real)
    requires x <= y
    ensures Bucket(bounds, x) <= Bucket(bounds, y)
  {
  }

  /** sort.SearchFloat64s: the least index whose bound is not below `ms`, by bisection. */
  method SearchBounds(bounds: Scale, ms: real) returns (index: nat)
    ensures index == Bucket(bounds, ms)
  {
    var low, high := 0, |bounds|;
    while low < high
      invariant 0 <= low <= high <= |bounds|
      invariant low > 0 ==> bounds[low - 1] < ms
      invariant high < |bounds| ==> ms <= bounds[high]
    {
      var mid := (low + high) / 2;
      if bounds[mid] < ms { low := mid + 1; } else { high := mid; }
    }
    index := low;
    BucketUnique(bounds, index, Bucket(bounds, ms), ms);
  }

  // ----- what the counters summarise -----

  /** How many observations fell in bucket `i`. */
  function Count(bounds: Scale, seen: seq<real>, i: nat): nat {
    if seen == [] then 0
    else Count(bounds, Init(seen), i) + if Bucket(bounds, Last(seen)) == i then 1 else 0
  }

  /** How many observations fell in a bucket before `i`. */
  function Below(bounds: Scale, seen: seq<real>, i: nat): nat {
    if seen == [] then 0
    else Below(bounds, Init(seen), i) + if Bucket(bounds, Last(seen)) < i then 1 else 0
  }

  function Least(seen: seq<real>): (m: real)
    requires seen != []
    ensures m in seen && forall x :: x in seen ==> m <= x
  {
    if |seen| == 1 then seen[0]
    else
      assert seen == Init(seen) + [Last(seen)];
      var rest := Least(Init(seen));
      if Last(seen) < rest then Last(seen) else rest
  }

  function Greatest(seen: seq<real>): (m: real)
    requires seen != []
    ensures m in seen && forall x :: x in seen ==> x <= m
  {
    if |seen| == 1 then seen[0]
    else
      assert seen == Init(seen) + [Last(seen)];
      var rest := Greatest(Init(seen));
      if Last(seen) > rest then Last(seen) else rest
  }

  datatype Hist = Hist(counts: seq<nat>, total: nat, maxSeen: real, minSeen: real, haveSeen: bool)

  ghost function Summary(bounds: Scale, seen: seq<real>): Hist {
    Hist(seq(|bounds| + 1, i requires 0 <= i <= |bounds| => Count(bounds, seen, i)),
         |seen|,
         if seen == [] then 0.0 else Greatest(seen),
         if seen == [] then 0.0 else Least(seen),
         seen != [])
  }

  ghost predicate NonNegative(seen: seq<real>) {
    forall x :: x in seen ==> 0.0 <= x
  }

  /** The counters after one more observation. */
  function Observed(bounds: Scale, h: Hist, ms: real): Hist
    requires |h.counts| == |bounds| + 1
  {
    if ms < 0.0 then h
    else
      var i := Bucket(bounds, ms);
      Hist(h.counts[i := h.counts[i] + 1],
           h.total + 1,
           if !h.haveSeen || ms > h.maxSeen then ms else h.maxSeen,
           if !h.haveSeen || ms < h.minSeen then ms else h.minSeen,
           true)
  }

  function Heard(seen: seq<real>, ms: real): seq<real> {
    if ms < 0.0 then seen else seen + [ms]
  }

  /** Updating the counters keeps them a summary of everything observed; negative durations are not. */
  lemma {:induction false} ObservedKeepsSummary(bounds: Scale, seen: seq<real>, ms: real)
    ensures Observed(bounds, Summary(bounds, seen), ms) == Summary(bounds, Heard(seen, ms))
  {
    if ms >= 0.0 {
      Snoc(seen, ms);
      var h, after := Observed(bounds, Summary(bounds, seen), ms), Summary(bounds, seen + [ms]);
      assert h.counts == after.counts;
    }
  }

  lemma {:induction false} CountIsIncrement(bounds: Scale, seen: seq<real>, i: nat)
    ensures Below(bounds, seen, i + 1) == Below(bounds, seen, i) + Count(bounds, seen, i)
  {
    if seen != [] { CountIsIncrement(bounds, Init(seen), i); }
  }

  lemma {:induction false} BelowEnds(bounds: Scale, seen: seq<real>)
    ensures Below(bounds, seen, 0) == 0 && Below(bounds, seen, |bounds| + 1) == |seen|
  {
    if seen != [] { BelowEnds(bounds, Init(seen)); }
  }

  lemma {:induction false} CountWitness(bounds: Scale, seen: seq<real>, i: nat) returns (x: real)
    requires Count(bounds, seen, i) > 0
    ensures x in seen && Bucket(bounds, x) == i
  {
    if Bucket(bounds, Last(seen)) == i {
      x := Last(seen);
    } else {
      x := CountWitness(bounds, Init(seen), i);
    }
  }

  // ----- quantiles -----

  function Lower(bounds: Scale, i: nat): real
    requires i <= |bounds|
  {
    if i > 0 then bounds[i - 1] else 0.0
  }

  // The overflow bucket has no upper bound: the largest value seen takes its place.
  function Upper(bounds: Scale, i: nat, maxSeen: real): real
    requires i <= |bounds|
  {
    var upper := if i < |bounds| then bounds[i] else maxSeen;
    if upper < Lower(bounds, i) then Lower(bounds, i) else upper
  }

  function Clamp(value: real, low: real, high: real): real {
    var raised := if value < low then low else value;
    if raised > high then high else raised
  }

  function Along(lower: real, upper: real, ahead: real, count: nat): real
    requires count > 0
  {
    lower + (upper - lower) * (ahead / count as real)
  }

  function Interpolated(bounds: Scale, h: Hist, i: nat, target: real, before: real): real
    requires |h.counts| == |bounds| + 1 && i <= |bounds| && h.counts[i] > 0
  {
    Clamp(Along(Lower(bounds, i), Upper(bounds, i, h.maxSeen), target - before, h.counts[i]), h.minSeen, h.maxSeen)
  }

  /** Walk the buckets from `i` on, `before` observations being behind us, to the one holding `target`. */
  function Scan(bounds: Scale, h: Hist, target: real, i: nat, before: real): real
    requires |h.counts| == |bounds| + 1 && i <= |h.counts|
    decreases |h.counts| - i
  {
    if i == |h.counts| then h.maxSeen
    else if h.counts[i] == 0 then Scan(bounds, h, target, i + 1, before)
    else if before + h.counts[i] as real < target then Scan(bounds, h, target, i + 1, before + h.counts[i] as real)
    else Interpolated(bounds, h, i, target, before)
  }

  function Target(p: real, total: nat): real {
    p * total as real
  }

  /** The approximate value at `p`, or nothing if nothing was observed. */
  function Quantile(bounds: Scale, h: Hist, p: real): Option<real>
    requires |h.counts| == |bounds| + 1
  {
    if h.total == 0 then None
    else if p <= 0.0 then Some(h.minSeen)
    else if p >= 1.0 then Some(h.maxSeen)
    else Some(Scan(bounds, h, Target(p, h.total), 0, 0.0))
  }

  class Histogram {
    const bounds: Scale
    const counts: array<nat>
    var total: nat
    var maxSeen: real
    var minSeen: real
    var haveSeen: bool
    // What was observed since the last reset, in order.
    ghost var seen: seq<real>

    ghost function View(): Hist
      reads this, counts
    {
      Hist(counts[..], total, maxSeen, minSeen, haveSeen)
    }

    ghost predicate Valid()
      reads this, counts
    {
      View() == Summary(bounds, seen) && NonNegative(seen)
    }

    constructor (bounds: Scale)
      ensures Valid() && seen == [] && this.bounds == bounds && fresh(counts)
    {
      this.bounds := bounds;
      counts := new nat[|bounds| + 1](_ => 0);
      total, haveSeen, minSeen, maxSeen := 0, false, 0.0, 0.0;
      seen := [];
    }

    method Observe(ms: real)
      requires Valid()
      modifies this, counts
      ensures Valid()
      ensures seen == Heard(old(seen), ms)
    {
      ObservedKeepsSummary(bounds, seen, ms);
      assert counts.Length == |Summary(bounds, seen).counts|;
      if ms < 0.0 { return; }
      var index := SearchBounds(bounds, ms);
      counts[index] := counts[index] + 1;
      total := total + 1;
      seen := seen + [ms];
      if !haveSeen {
        minSeen, maxSeen, haveSeen := ms, ms, true;
        return;
      }
      if ms < minSeen { minSeen := ms; }
      if ms > maxSeen { maxSeen := ms; }
    }

    method Reset()
      requires Valid()
      modifies this, counts
      ensures Valid() && seen == []
    {
      assert counts.Length == |Summary(bounds, seen).counts|;
      for i := 0 to counts.Length
        invariant forall k :: 0 <= k < i ==> counts[k] == 0
      {
        counts[i] := 0;
      }
      total, haveSeen, minSeen, maxSeen := 0, false, 0.0, 0.0;
      seen := [];
    }

    method QuantileAt(p: real) returns (value: real, ok: bool)
      requires Valid()
      ensures ok <==> seen != []
      ensures Quantile(bounds, Summary(bounds, seen), p) == if ok then Some(value) else None
    {
      ghost var h := View();
      assert |h.counts| == |Summary(bounds, seen).counts|;
      if total == 0 { return 0.0, false; }
      if p <= 0.0 { return minSeen, true; }
      if p >= 1.0 { return maxSeen, true; }
      var target := Target(p, total);
      var cumulative := 0.0;
      for i := 0 to counts.Length
        invariant Scan(bounds, h, target, 0, 0.0) == Scan(bounds, h, target, i, cumulative)
      {
        var count := counts[i];
        if count == 0 { continue; }
        var next := cumulative + count as real;
        if next < target {
          cumulative := next;
          continue;
        }
        var lower := 0.0;
        if i > 0 { lower := bounds[i - 1]; }
        var upper := maxSeen;
        if i < |bounds| { upper := bounds[i]; }
        if upper < lower { upper := lower; }
        assert lower == Lower(bounds, i) && upper == Upper(bounds, i, maxSeen);
        value := Along(lower, upper, target - cumulative, count);
        if value < minSeen { value := minSeen; }
        if value > maxSeen { value := maxSeen; }
        assert value == Interpolated(bounds, h, i, target, cumulative);
        return value, true;
      }
      return maxSeen, true;
    }
  }

  // ----- agreement with the sorted observations -----

  /** The walk always lands in a bucket: the return after the loop is never taken. */
  lemma {:induction false} ScanLands(bounds: Scale, seen: seq<real>, target: real, i: nat) returns (b: nat)
    requires i <= |bounds| + 1 && Below(bounds, seen, i) as real < target <= |seen| as real
    ensures i <= b <= |bounds| && Count(bounds, seen, b) > 0
    ensures Below(bounds, seen, b) as real < target <= Below(bounds, seen, b + 1) as real
    ensures Scan(bounds, Summary(bounds, seen), target, i, Below(bounds, seen, i) as real)
         == Interpolated(bounds, Summary(bounds, seen), b, target, Below(bounds, seen, b) as real)
    decreases |bounds| + 1 - i
  {
    BelowEnds(bounds, seen);
    CountIsIncrement(bounds, seen, i);
    if Below(bounds, seen, i + 1) as real < target {
      b := ScanLands(bounds, seen, target, i + 1);
    } else {
      b := i;
    }
  }

  /** An interpolated value falls in the bucket it was interpolated in, and within what was seen. */
  lemma InterpolationStays(bounds: Scale, seen: seq<real>, b: nat, target: real)
    requires NonNegative(seen) && b <= |bounds| && Count(bounds, seen, b) > 0
    requires Below(bounds, seen, b) as real < target <= Below(bounds, seen, b + 1) as real
    ensures Bucket(bounds, Interpolated(bounds, Summary(bounds, seen), b, target, Below(bounds, seen, b) as real)) == b
    ensures Least(seen)
         <= Interpolated(bounds, Summary(bounds, seen), b, target, Below(bounds, seen, b) as real)
         <= Greatest(seen)
  {
    var h := Summary(bounds, seen);
    var x := CountWitness(bounds, seen, b);
    CountIsIncrement(bounds, seen, b);
    var lower, upper := Lower(bounds, b), Upper(bounds, b, h.maxSeen);
    AlongStays(lower, upper, target - Below(bounds, seen, b) as real, h.counts[b]);
    var v := Interpolated(bounds, h, b, target, Below(bounds, seen, b) as real);
    BucketUnique(bounds, b, Bucket(bounds, v), v);
  }

  lemma AlongStays(lower: real, upper: real, ahead: real, count: nat)
    requires lower <= upper && 0.0 < ahead <= count as real
    ensures lower <= Along(lower, upper, ahead, count) <= upper
    ensures lower < upper ==> lower < Along(lower, upper, ahead, count)
  {
    FractionInside(ahead, count as real);
    ScaledInside(upper - lower, ahead / count as real);
  }

  lemma ScaledInside(d: real, position: real)
    requires 0.0 <= d && 0.0 < position <= 1.0
    ensures 0.0 <= d * position <= d && (0.0 < d ==> 0.0 < d * position)
  {
    assert d - d * position == d * (1.0 - position);
  }

  lemma AlongMonotone(lower: real, upper: real, s: real, t: real, count: nat)
    requires lower <= upper && s <= t && count > 0
    ensures Along(lower, upper, s, count) <= Along(lower, upper, t, count)
  {
    var d, c := upper - lower, count as real;
    assert s / c <= t / c;
    assert 0.0 <= d * (t / c - s / c);
  }

  ghost predicate Sorted(s: seq<real>) {
    forall i, j :: 0 <= i < j < |s| ==> s[i] <= s[j]
  }

  lemma {:induction false} BelowConcat(bounds: Scale, a: seq<real>, b: seq<real>, i: nat)
    ensures Below(bounds, a + b, i) == Below(bounds, a, i) + Below(bounds, b, i)
  {
    if b == [] {
      assert a + b == a;
    } else {
      assert Init(a + b) == a + Init(b);
      BelowConcat(bounds, a, Init(b), i);
    }
  }

  function Without(s: seq<real>, k: nat): seq<real>
    requires k < |s|
  {
    s[..k] + s[k + 1..]
  }

  lemma BelowWithout(bounds: Scale, s: seq<real>, k: nat, i: nat)
    requires k < |s|
    ensures Below(bounds, s, i) == Below(bounds, Without(s, k), i) + if Bucket(bounds, s[k]) < i then 1 else 0
  {
    assert s == (s[..k] + [s[k]]) + s[k + 1..];
    Snoc(s[..k], s[k]);
    BelowConcat(bounds, s[..k] + [s[k]], s[k + 1..], i);
    BelowConcat(bounds, s[..k], s[k + 1..], i);
  }

  lemma LessLast(a: seq<real>)
    requires a != []
    ensures multiset(a) == multiset(Init(a)) + multiset{Last(a)}
  {
    assert a == Init(a) + [Last(a)];
  }

  lemma LessOne(b: seq<real>, k: nat)
    requires k < |b|
    ensures multiset(b) == multiset(Without(b, k)) + multiset{b[k]}
  {
    assert b == b[..k] + [b[k]] + b[k + 1..];
  }

  lemma Finds(b: seq<real>, x: real) returns (k: nat)
    requires x in multiset(b)
    ensures k < |b| && b[k] == x
  {
    k :| 0 <= k < |b| && b[k] == x;
  }

  lemma SameRest(a: multiset<real>, b: multiset<real>, x: real)
    requires a + multiset{x} == b + multiset{x}
    ensures a == b
  {
    assert a == (a + multiset{x}) - multiset{x};
    assert b == (b + multiset{x}) - multiset{x};
  }

  lemma FindLast(a: seq<real>, b: seq<real>) returns (k: nat)
    requires a != [] && multiset(a) == multiset(b)
    ensures k < |b| && b[k] == Last(a) && multiset(Init(a)) == multiset(Without(b, k))
  {
    LessLast(a);
    k := Finds(b, Last(a));
    LessOne(b, k);
    SameRest(multiset(Init(a)), multiset(Without(b, k)), Last(a));
  }

  /** Counting does not depend on the order of the observations. */
  lemma {:induction false} BelowPermutes(bounds: Scale, a: seq<real>, b: seq<real>, i: nat)
    requires multiset(a) == multiset(b)
    ensures Below(bounds, a, i) == Below(bounds, b, i)
  {
    if a == [] {
      assert |multiset(b)| == 0;
    } else {
      var k := FindLast(a, b);
      BelowPermutes(bounds, Init(a), Without(b, k), i);
      BelowWithout(bounds, b, k, i);
    }
  }

  lemma {:induction false} BelowAtMostLength(bounds: Scale, s: seq<real>, i: nat)
    ensures Below(bounds, s, i) <= |s|
  {
    if s != [] { BelowAtMostLength(bounds, Init(s), i); }
  }

  lemma {:induction false} AllBelow(bounds: Scale, s: seq<real>, i: nat)
    requires Sorted(s) && s != [] && Bucket(bounds, Last(s)) < i
    ensures Below(bounds, s, i) == |s|
  {
    if |s| > 1 {
      BucketMonotone(bounds, Last(Init(s)), Last(s));
      AllBelow(bounds, Init(s), i);
    }
  }

  /** In a sorted list the first `Below(s, i)` values are exactly those in buckets before `i`. */
  lemma {:induction false} SortedSplit(bounds: Scale, s: seq<real>, i: nat, j: nat)
    requires Sorted(s) && j < |s|
    ensures Bucket(bounds, s[j]) < i <==> j < Below(bounds, s, i)
  {
    BelowAtMostLength(bounds, Init(s), i);
    if Bucket(bounds, Last(s)) < i {
      AllBelow(bounds, s, i);
      BucketMonotone(bounds, s[j], Last(s));
    } else if j < |s| - 1 {
      SortedSplit(bounds, Init(s), i, j);
    }
  }

  /** `rank` is the least whole number not below `target`. */
  ghost predicate IsCeiling(rank: int, target: real) {
    rank as real - 1.0 < target <= rank as real
  }

  /** The rank of the value that `p` asks for among `n`: p n, rounded up. */
  ghost predicate IsRank(rank: int, p: real, n: nat) {
    rank as real - 1.0 < p * n as real <= rank as real
  }

  ghost function Width(bounds: Scale, b: nat, maxSeen: real): real
    requires b <= |bounds|
  {
    Upper(bounds, b, maxSeen) - Lower(bounds, b)
  }

  lemma SameBucketIsClose(bounds: Scale, seen: seq<real>, sorted: seq<real>, x: real, exact: real)
    requires NonNegative(seen) && multiset(sorted) == multiset(seen) && exact in sorted
    requires seen != [] && Least(seen) <= x <= Greatest(seen) && Bucket(bounds, x) == Bucket(bounds, exact)
    ensures var width := Width(bounds, Bucket(bounds, exact), Greatest(seen));
      -width <= x - exact <= width
  {
    assert exact in multiset(sorted);
    assert exact in seen && Least(seen) in seen;
    assert 0.0 <= exact <= Greatest(seen);
  }

  /** The walk towards 0 < target <= n ends at the bucket holding the ceil(target)-th smallest value. */
  lemma ScanAccurate(bounds: Scale, seen: seq<real>, target: real, sorted: seq<real>, rank: int)
    requires NonNegative(seen) && 0.0 < target <= |seen| as real
    requires Sorted(sorted) && multiset(sorted) == multiset(seen)
    requires IsCeiling(rank, target)
    ensures |sorted| == |seen| && 1 <= rank <= |seen|
    ensures Bucket(bounds, Scan(bounds, Summary(bounds, seen), target, 0, 0.0)) == Bucket(bounds, sorted[rank - 1])
  {
    assert |multiset(sorted)| == |multiset(seen)|;
    BelowEnds(bounds, seen);
    var b := ScanLands(bounds, seen, target, 0);
    InterpolationStays(bounds, seen, b, target);
    BelowPermutes(bounds, sorted, seen, b);
    BelowPermutes(bounds, sorted, seen, b + 1);
    SortedSplit(bounds, sorted, b, rank - 1);
    SortedSplit(bounds, sorted, b + 1, rank - 1);
  }

  lemma ScanWithin(bounds: Scale, seen: seq<real>, target: real)
    requires NonNegative(seen) && 0.0 < target <= |seen| as real
    ensures Least(seen) <= Scan(bounds, Summary(bounds, seen), target, 0, 0.0) <= Greatest(seen)
  {
    BelowEnds(bounds, seen);
    var b := ScanLands(bounds, seen, target, 0);
    InterpolationStays(bounds, seen, b, target);
  }

  lemma {:induction false} BelowMonotone(bounds: Scale, seen: seq<real>, i: nat, j: nat)
    requires i <= j
    ensures Below(bounds, seen, i) <= Below(bounds, seen, j)
  {
    if seen != [] { BelowMonotone(bounds, Init(seen), i, j); }
  }

  lemma ScanMonotone(bounds: Scale, seen: seq<real>, s: real, t: real)
    requires NonNegative(seen) && 0.0 < s <= t <= |seen| as real
    ensures Scan(bounds, Summary(bounds, seen), s, 0, 0.0) <= Scan(bounds, Summary(bounds, seen), t, 0, 0.0)
  {
    var h := Summary(bounds, seen);
    BelowEnds(bounds, seen);
    var a := ScanLands(bounds, seen, s, 0);
    var b := ScanLands(bounds, seen, t, 0);
    InterpolationStays(bounds, seen, a, s);
    InterpolationStays(bounds, seen, b, t);
    assert a <= b by {
      if b < a { BelowMonotone(bounds, seen, b + 1, a); }
    }
    if a < b {
      LaterBucketIsLarger(bounds, Scan(bounds, h, s, 0, 0.0), Scan(bounds, h, t, 0, 0.0));
    } else {
      var before := Below(bounds, seen, a) as real;
      AlongMonotone(Lower(bounds, a), Upper(bounds, a, h.maxSeen), s - before, t - before, h.counts[a]);
    }
  }

  lemma LaterBucketIsLarger(bounds: Scale, x: real, y: real)
    requires Bucket(bounds, x) < Bucket(bounds, y)
    ensures x < y
  {
  }

  lemma TargetInside(p: real, n: nat)
    requires 0.0 < p < 1.0 && n > 0
    ensures 0.0 < Target(p, n) <= n as real
  {
  }

  lemma TargetMonotone(p: real, q: real, n: nat)
    requires p <= q
    ensures Target(p, n) <= Target(q, n)
  {
    assert 0.0 <= (q - p) * n as real;
  }

  /**
   For 0 < p < 1 the answer lies in the same bucket as the ceil(p * n)-th smallest
   observation, so it is off by at most the width of that bucket.
   */
  lemma {:induction false} QuantileAccurate(bounds: Scale, seen: seq<real>, sorted: seq<real>, p: real, rank: int)
    requires seen != [] && NonNegative(seen) && 0.0 < p < 1.0
    requires Sorted(sorted) && multiset(sorted) == multiset(seen)
    requires IsRank(rank, p, |seen|)
    ensures |sorted| == |seen| && 1 <= rank <= |seen|
    ensures Quantile(bounds, Summary(bounds, seen), p).Some?
    ensures var exact, answer := sorted[rank - 1], Quantile(bounds, Summary(bounds, seen), p).value;
      var width := Width(bounds, Bucket(bounds, exact), Greatest(seen));
      Bucket(bounds, answer) == Bucket(bounds, exact) && -width <= answer - exact <= width
  {
    TargetInside(p, |seen|);
    ScanAccurate(bounds, seen, Target(p, |seen|), sorted, rank);
    QuantileWithin(bounds, seen, p);
    SameBucketIsClose(bounds, seen, sorted, Quantile(bounds, Summary(bounds, seen), p).value, sorted[rank - 1]);
  }

  /** As near to the ceil(p n)-th smallest of these durations as the bucket it falls in. */
  ghost predicate Estimates(bounds: Scale, ds: seq<real>, p: real, answer: Option<real>) {
    answer.Some? && forall sorted: seq<real>, rank: int ::
      Sorted(sorted) && multiset(sorted) == multiset(ds) && IsRank(rank, p, |ds|) ==>
        1 <= rank <= |sorted| && Bucket(bounds, answer.value) == Bucket(bounds, sorted[rank - 1])
  }

  lemma QuantileEstimates(bounds: Scale, seen: seq<real>, p: real)
    requires seen != [] && NonNegative(seen) && 0.0 < p < 1.0
    ensures Estimates(bounds, seen, p, Quantile(bounds, Summary(bounds, seen), p))
  {
    var answer := Quantile(bounds, Summary(bounds, seen), p);
    QuantileWithin(bounds, seen, p);
    forall sorted: seq<real>, rank: int |
      Sorted(sorted) && multiset(sorted) == multiset(seen) && IsRank(rank, p, |seen|)
      ensures 1 <= rank <= |sorted| && Bucket(bounds, answer.value) == Bucket(bounds, sorted[rank - 1])
    {
      QuantileAccurate(bounds, seen, sorted, p, rank);
    }
  }

  lemma QuantileWithin(bounds: Scale, seen: seq<real>, p: real)
    requires seen != [] && NonNegative(seen)
    ensures Quantile(bounds, Summary(bounds, seen), p).Some?
    ensures Least(seen) <= Quantile(bounds, Summary(bounds, seen), p).value <= Greatest(seen)
  {
    if 0.0 < p < 1.0 {
      TargetInside(p, |seen|);
      ScanWithin(bounds, seen, Target(p, |seen|));
    }
  }

  /** Quantiles never decrease in `p` and never leave the observed range. */
  lemma QuantileMonotone(bounds: Scale, seen: seq<real>, p: real, q: real)
    requires seen != [] && NonNegative(seen) && p <= q
    ensures Quantile(bounds, Summary(bounds, seen), p).Some? && Quantile(bounds, Summary(bounds, seen), q).Some?
    ensures Least(seen) <= Quantile(bounds, Summary(bounds, seen), p).value
         <= Quantile(bounds, Summary(bounds, seen), q).value <= Greatest(seen)
  {
    QuantileWithin(bounds, seen, p);
    QuantileWithin(bounds, seen, q);
    if 0.0 < p && q < 1.0 {
      TargetInside(p, |seen|);
      TargetInside(q, |seen|);
      TargetMonotone(p, q, |seen|);
      ScanMonotone(bounds, seen, Target(p, |seen|), Target(q, |seen|));
    }
  }

  /** A duration equal to a bound is counted below that bound, not above it. */
  lemma BoundIsInclusive(bounds: Scale, i: nat)
    requires i < |bounds|
    ensures Bucket(bounds, bounds[i]) == i
  {
    BucketUnique(bounds, i, Bucket(bounds, bounds[i]), bounds[i]);
  }

  /** `v` lies as far between the two bounds as `ahead` observations are into `count` of them. */
  ghost predicate InProportion(v: real, lower: real, upper: real, ahead: real, count: nat) {
    (v - lower) * count as real == (upper - lower) * ahead
  }

  lemma FractionUndone(d: real, a: real, c: real)
    requires c > 0.0
    ensures d * (a / c) * c == d * a
  {
    assert a / c * c == a;
  }

  lemma AlongIs(lower: real, upper: real, ahead: real, count: nat)
    requires count > 0
    ensures InProportion(Along(lower, upper, ahead, count), lower, upper, ahead, count)
  {
    FractionUndone(upper - lower, ahead, count as real);
  }

  lemma LandsInProportion(bounds: Scale, seen: seq<real>, b: nat, target: real) returns (v: real)
    requires b <= |bounds| && Count(bounds, seen, b) > 0
    ensures seen != []
    ensures InProportion(v, if b == 0 then 0.0 else bounds[b - 1], if b < |bounds| then bounds[b] else Greatest(seen),
                         target - Below(bounds, seen, b) as real, Count(bounds, seen, b))
    ensures Interpolated(bounds, Summary(bounds, seen), b, target, Below(bounds, seen, b) as real)
         == if v < Least(seen) then Least(seen) else if v > Greatest(seen) then Greatest(seen) else v
  {
    var ahead := target - Below(bounds, seen, b) as real;
    UpperIs(bounds, seen, b);
    v := Along(Lower(bounds, b), Upper(bounds, b, Greatest(seen)), ahead, Count(bounds, seen, b));
    AlongIs(Lower(bounds, b), Upper(bounds, b, Greatest(seen)), ahead, Count(bounds, seen, b));
    assert Least(seen) <= Greatest(seen);
  }

  lemma UpperIs(bounds: Scale, seen: seq<real>, b: nat)
    requires b <= |bounds| && Count(bounds, seen, b) > 0
    ensures seen != [] && Upper(bounds, b, Greatest(seen)) == if b < |bounds| then bounds[b] else Greatest(seen)
  {
    var x := CountWitness(bounds, seen, b);
  }

  lemma {:induction false} ScanInterpolates(bounds: Scale, seen: seq<real>, target: real) returns (b: nat, v: real)
    requires NonNegative(seen) && 0.0 < target <= |seen| as real
    ensures b <= |bounds| && Count(bounds, seen, b) > 0
    ensures b == Bucket(bounds, Scan(bounds, Summary(bounds, seen), target, 0, 0.0))
    ensures InProportion(v, if b == 0 then 0.0 else bounds[b - 1], if b < |bounds| then bounds[b] else Greatest(seen),
                         target - Below(bounds, seen, b) as real, Count(bounds, seen, b))
    ensures Scan(bounds, Summary(bounds, seen), target, 0, 0.0)
         == if v < Least(seen) then Least(seen) else if v > Greatest(seen) then Greatest(seen) else v
  {
    BelowEnds(bounds, seen);
    b := ScanLands(bounds, seen, target, 0);
    v := LandsInProportion(bounds, seen, b, target);
    InterpolationStays(bounds, seen, b, target);
  }

  /**
   Within the bucket of the ceil(p n)-th smallest observation the answer is interpolated linearly: as far from
   the bucket's lower bound to its upper one as p n is from the observations before the bucket to those in
   it; the largest observation takes the place of the bound the last bucket does not have. Where
   that would leave the range observed, the answer is the nearer end of it.
   */
  lemma {:induction false} QuantileInterpolates(bounds: Scale, seen: seq<real>, sorted: seq<real>, p: real, rank: int)
    returns (v: real)
    requires seen != [] && NonNegative(seen) && 0.0 < p < 1.0
    requires Sorted(sorted) && multiset(sorted) == multiset(seen)
    requires IsRank(rank, p, |seen|)
    ensures |sorted| == |seen| && 1 <= rank <= |seen|
    ensures var b := Bucket(bounds, sorted[rank - 1]);
      && Count(bounds, seen, b) > 0
      && InProportion(v, if b == 0 then 0.0 else bounds[b - 1], if b < |bounds| then bounds[b] else Greatest(seen),
                      p * |seen| as real - Below(bounds, seen, b) as real, Count(bounds, seen, b))
    ensures Quantile(bounds, Summary(bounds, seen), p)
         == Some(if v < Least(seen) then Least(seen) else if v > Greatest(seen) then Greatest(seen) else v)
  {
    var b: nat;
    TargetInside(p, |seen|);
    b, v := ScanInterpolates(bounds, seen, Target(p, |seen|));
    ScanAccurate(bounds, seen, Target(p, |seen|), sorted, rank);
  }

  /** The ends of the scale are the extremes observed. */
  lemma QuantileEnds(bounds: Scale, seen: seq<real>, p: real)
    requires seen != []
    ensures p <= 0.0 ==> Quantile(bounds, Summary(bounds, seen), p) == Some(Least(seen))
    ensures p >= 1.0 ==> Quantile(bounds, Summary(bounds, seen), p) == Some(Greatest(seen))
  {
  }

  lemma BoundsAtMostDouble(i: nat)
    requires 0 < i < |BUCKET_BOUNDS|
    ensures BUCKET_BOUNDS[i] <= 2.0 * BUCKET_BOUNDS[i - 1]
  {
  }

  lemma ScaleInUse()
    ensures |BUCKET_BOUNDS| == 31
    ensures BUCKET_BOUNDS[0] == 1.0 && BUCKET_BOUNDS[30] == 60000.0
  {
  }

  lemma SameBucketWithinFactorTwo(b: nat, x: real, y: real)
    requires IsScale(BUCKET_BOUNDS) && InBucket(BUCKET_BOUNDS, b, x) && InBucket(BUCKET_BOUNDS, b, y)
    requires 1.0 < x <= 60000.0
    ensures x <= 2.0 * y && y <= 2.0 * x
  {
    ScaleInUse();
    assert 0 < b < 31;
    BoundsAtMostDouble(b);
  }

  /**
   With the bounds in use: for any value between one millisecond and one minute, what is reported is at most twice
   that value and at least half of it.
   */
  lemma {:induction false} QuantileWithinFactorTwo(seen: seq<real>, sorted: seq<real>, p: real, rank: int)
    requires IsScale(BUCKET_BOUNDS)
    requires seen != [] && NonNegative(seen) && 0.0 < p < 1.0
    requires Sorted(sorted) && multiset(sorted) == multiset(seen)
    requires IsRank(rank, p, |seen|)
    ensures |sorted| == |seen| && 1 <= rank <= |seen|
    ensures var answer := Quantile(BUCKET_BOUNDS, Summary(BUCKET_BOUNDS, seen), p);
      answer.Some? && (1.0 < sorted[rank - 1] <= 60000.0 ==>
        sorted[rank - 1] <= 2.0 * answer.value && answer.value <= 2.0 * sorted[rank - 1])
  {
    QuantileAccurate(BUCKET_BOUNDS, seen, sorted, p, rank);
    var answer, exact := Quantile(BUCKET_BOUNDS, Summary(BUCKET_BOUNDS, seen), p).value, sorted[rank - 1];
    if 1.0 < exact <= 60000.0 {
      SameBucketWithinFactorTwo(Bucket(BUCKET_BOUNDS, exact), exact, answer);
    }
  }
}
