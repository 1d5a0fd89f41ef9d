/** The token bucket limiter over a nondecreasing integer clock (rate_limiting.go). */
module TokenBuckets {
  import opened Arithmetic

  datatype Bucket = Bucket(capacity: int, tokens: int, refillRate: int, lastRefill: int,
                           currentTokens: int, allowed: nat, denied: nat)

  ghost predicate Valid(b: Bucket) {
    && 0 <= b.tokens <= b.capacity
    && b.refillRate > 0
    && b.currentTokens == b.tokens
  }

  /** How many whole intervals a refill at this moment would credit; what is left of the elapsed time is discarded. */
  function Intervals(b: Bucket, now: int): int
    requires b.refillRate > 0
  {
    if now - b.lastRefill >= b.refillRate then (now - b.lastRefill) / b.refillRate else 0
  }

  function Refill(b: Bucket, now: int): Bucket
    requires b.refillRate > 0
  {
    if now - b.lastRefill < b.refillRate then b
    else
      var sum := b.tokens + Intervals(b, now);
      var tokens := if sum > b.capacity then b.capacity else sum;
      b.(tokens := tokens, lastRefill := now, currentTokens := tokens)
  }

  function Take(b: Bucket, now: int, n: nat): Bucket
    requires b.refillRate > 0
  {
    var f := Refill(b, now);
    if f.tokens >= n then f.(tokens := f.tokens - n, currentTokens := f.tokens - n, allowed := f.allowed + 1)
    else f.(denied := f.denied + 1)
  }

  /** A request for n tokens, or a reservation, which only refills. */
  datatype Step = Request(now: int, n: nat) | Reservation(now: int)

  function Next(b: Bucket, step: Step): Bucket
    requires b.refillRate > 0
  {
    match step
    case Request(now, n) => Take(b, now, n)
    case Reservation(now) => Refill(b, now)
  }

  function GrantedBy(b: Bucket, step: Step): nat
    requires b.refillRate > 0
  {
    if step.Request? && Refill(b, step.now).tokens >= step.n then step.n else 0
  }

  function Run(b: Bucket, steps: seq<Step>): (r: Bucket)
    requires b.refillRate > 0
    ensures r.refillRate == b.refillRate && r.capacity == b.capacity
  {
    if steps == [] then b else Next(Run(b, steps[..|steps| - 1]), steps[|steps| - 1])
  }

  /** All tokens handed out by a run. */
  function Granted(b: Bucket, steps: seq<Step>): nat
    requires b.refillRate > 0
  {
    if steps == [] then 0
    else
      var last := |steps| - 1;
      Granted(b, steps[..last]) + GrantedBy(Run(b, steps[..last]), steps[last])
  }

  /** All tokens credited by the refills of a run, before capping. */
  function Added(b: Bucket, steps: seq<Step>): int
    requires b.refillRate > 0
  {
    if steps == [] then 0
    else
      var last := |steps| - 1;
      Added(b, steps[..last]) + Intervals(Run(b, steps[..last]), steps[last].now)
  }

  function Requests(steps: seq<Step>): nat {
    if steps == [] then 0
    else Requests(steps[..|steps| - 1]) + if steps[|steps| - 1].Request? then 1 else 0
  }

  /** The clock never runs backwards. */
  ghost predicate Ordered(from: int, steps: seq<Step>) {
    && (forall i :: 0 <= i < |steps| ==> from <= steps[i].now)
    && forall i, j :: 0 <= i < j < |steps| ==> steps[i].now <= steps[j].now
  }

  function LastTime(from: int, steps: seq<Step>): int {
    if steps == [] then from else steps[|steps| - 1].now
  }

  lemma OrderedPrefix(from: int, steps: seq<Step>)
    requires steps != [] && Ordered(from, steps)
    ensures Ordered(from, steps[..|steps| - 1])
    ensures LastTime(from, steps[..|steps| - 1]) <= steps[|steps| - 1].now
  {
  }

  // ---------------------------------------------------------------- what a refill credits

  /** k whole refill intervals, and no more, lie between two moments. */
  ghost predicate WholeIntervals(rate: int, from: int, now: int, k: int) {
    k >= 0 && k * rate <= now - from < (k + 1) * rate
  }

  function AtMost(x: int, limit: int): int {
    if x > limit then limit else x
  }

  lemma IntervalsAre(b: Bucket, now: int, k: int)
    requires b.refillRate > 0 && WholeIntervals(b.refillRate, b.lastRefill, now, k)
    ensures Intervals(b, now) == k
  {
    var rate, elapsed := b.refillRate, now - b.lastRefill;
    Distribute(k, 1, rate);
    QuotientIsUnique(elapsed, k, elapsed - k * rate, rate);
    if k >= 1 {
      TimesMonotone(1, k, rate);
    }
  }

  /** After k whole intervals a refill credits k tokens, up to the capacity; before the first one it changes nothing. */
  lemma RefillCredits(b: Bucket, now: int, k: int)
    requires b.refillRate > 0 && WholeIntervals(b.refillRate, b.lastRefill, now, k)
    ensures k == 0 ==> Refill(b, now) == b
    ensures k >= 1 ==>
      && Refill(b, now).tokens == AtMost(b.tokens + k, b.capacity) == Refill(b, now).currentTokens
      && Refill(b, now).lastRefill == now
  {
    IntervalsAre(b, now, k);
    if k >= 1 {
      TimesMonotone(1, k, b.refillRate);
    }
  }

  /** Any request for at most what was there and has been credited since is granted, and any larger one refused. */
  lemma IdleBucketGrantsExactly(b: Bucket, now: int, k: int, n: nat)
    requires Valid(b) && WholeIntervals(b.refillRate, b.lastRefill, now, k)
    ensures var t := Take(b, now, n);
      if n <= AtMost(b.tokens + k, b.capacity) then
        t.tokens == AtMost(b.tokens + k, b.capacity) - n && t.allowed == b.allowed + 1 && t.denied == b.denied
      else
        t.tokens == AtMost(b.tokens + k, b.capacity) && t.allowed == b.allowed && t.denied == b.denied + 1
  {
    RefillCredits(b, now, k);
  }

  /** What a refill at this moment could not credit, because the bucket was full. */
  function SpilledAt(b: Bucket, now: int): int
    requires b.refillRate > 0
  {
    var k := Intervals(b, now);
    if k > 0 && b.tokens + k > b.capacity then b.tokens + k - b.capacity else 0
  }

  function Spilled(b: Bucket, steps: seq<Step>): int
    requires b.refillRate > 0
  {
    if steps == [] then 0
    else
      var last := |steps| - 1;
      Spilled(b, steps[..last]) + SpilledAt(Run(b, steps[..last]), steps[last].now)
  }

  /** How many requests of a run were granted. */
  function Grants(b: Bucket, steps: seq<Step>): nat
    requires b.refillRate > 0
  {
    if steps == [] then 0
    else
      var last := |steps| - 1;
      Grants(b, steps[..last])
        + if steps[last].Request? && steps[last].n <= Refill(Run(b, steps[..last]), steps[last].now).tokens then 1 else 0
  }

  lemma StepConserves(b: Bucket, step: Step)
    requires b.refillRate > 0 && b.lastRefill <= step.now
    ensures Next(b, step).tokens == b.tokens + Intervals(b, step.now) - SpilledAt(b, step.now) - GrantedBy(b, step)
    ensures step.Request? ==> Next(b, step).allowed == b.allowed + if step.n <= Refill(b, step.now).tokens then 1 else 0
    ensures step.Reservation? ==> Next(b, step).allowed == b.allowed
  {
    DivisionBounds(step.now - b.lastRefill, b.refillRate);
  }

  /** Conservation: every token in hand was there at the start or credited since, and neither spilled nor handed out. */
  lemma {:induction false} TokensAreConserved(b: Bucket, steps: seq<Step>)
    requires Valid(b) && Ordered(b.lastRefill, steps)
    ensures Run(b, steps).tokens == b.tokens + Added(b, steps) - Spilled(b, steps) - Granted(b, steps)
    ensures Run(b, steps).allowed == b.allowed + Grants(b, steps)
  {
    if steps != [] {
      var last := |steps| - 1;
      OrderedPrefix(b.lastRefill, steps);
      TokensAreConserved(b, steps[..last]);
      RunIsValid(b, steps[..last]);
      StepConserves(Run(b, steps[..last]), steps[last]);
    }
  }

  // ---------------------------------------------------------------- the ideal bucket

  /** Refills continuously: level is in units of 1/refillRate tokens, and never exceeds cap. */
  datatype Ideal = Ideal(level: int, time: int)

  function Filled(i: Ideal, cap: int, now: int): int {
    if i.level + now - i.time > cap then cap else i.level + now - i.time
  }

  /** The ideal bucket of the given capacity serves the requests that the code granted. */
  function IdealRun(b: Bucket, capacity: int, steps: seq<Step>): Ideal
    requires b.refillRate > 0
  {
    if steps == [] then Ideal(b.tokens * b.refillRate, b.lastRefill)
    else
      var last := |steps| - 1;
      var before := IdealRun(b, capacity, steps[..last]);
      var granted := GrantedBy(Run(b, steps[..last]), steps[last]);
      Ideal(Filled(before, capacity * b.refillRate, steps[last].now) - granted * b.refillRate, steps[last].now)
  }

  /** Every request that the code granted finds enough in the ideal bucket, which therefore grants it, too. */
  ghost predicate IdealGrantsAll(b: Bucket, capacity: int, steps: seq<Step>)
    requires b.refillRate > 0
  {
    forall k :: 0 <= k < |steps| ==> IdealGrants(b, capacity, steps, k)
  }

  ghost predicate IdealGrants(b: Bucket, capacity: int, steps: seq<Step>, k: nat)
    requires b.refillRate > 0 && k < |steps|
  {
    GrantedBy(Run(b, steps[..k]), steps[k]) * b.refillRate
      <= Filled(IdealRun(b, capacity, steps[..k]), capacity * b.refillRate, steps[k].now)
  }

  /** The tokens in hand and the time since the last refill, in units of 1/refillRate tokens. */
  function Potential(b: Bucket, now: int): int {
    b.tokens * b.refillRate + (now - b.lastRefill)
  }

  /** A refill never raises the potential, and leaves less than capacity + 1. */
  lemma RefillPotential(b: Bucket, now: int)
    requires Valid(b) && b.lastRefill <= now
    ensures var f := Refill(b, now);
      && Valid(f) && f.lastRefill <= now < f.lastRefill + f.refillRate
      && Potential(f, now) <= Potential(b, now)
      && Potential(f, now) < (b.capacity + 1) * b.refillRate
  {
    var f, rate := Refill(b, now), b.refillRate;
    var sum := b.tokens + Intervals(b, now);
    DivisionBounds(now - b.lastRefill, rate);
    TimesMonotone(f.tokens, b.capacity, rate);
    assert (b.capacity + 1) * rate == b.capacity * rate + rate;
    if now - b.lastRefill >= rate {
      assert sum * rate == b.tokens * rate + Intervals(b, now) * rate;
      TimesMonotone(f.tokens, sum, rate);
    }
  }

  lemma StepPotential(b: Bucket, step: Step)
    requires Valid(b) && b.lastRefill <= step.now
    ensures var a := Next(b, step);
      && Valid(a) && a.lastRefill <= step.now < a.lastRefill + a.refillRate
      && Potential(a, step.now) + GrantedBy(b, step) * b.refillRate == Potential(Refill(b, step.now), step.now)
      && a.allowed + a.denied == b.allowed + b.denied + if step.Request? then 1 else 0
  {
    RefillPotential(b, step.now);
    var f, g := Refill(b, step.now), GrantedBy(b, step);
    assert (f.tokens - g) * b.refillRate == f.tokens * b.refillRate - g * b.refillRate;
  }

  /** What every run keeps: bounds, the statistics, and a last refill less than one interval old. */
  lemma {:induction false} RunIsValid(b: Bucket, steps: seq<Step>)
    requires Valid(b) && Ordered(b.lastRefill, steps)
    ensures var r := Run(b, steps);
      && Valid(r)
      && r.allowed + r.denied == b.allowed + b.denied + Requests(steps)
      && r.lastRefill <= LastTime(b.lastRefill, steps)
      && (steps != [] ==> LastTime(b.lastRefill, steps) < r.lastRefill + r.refillRate)
  {
    if steps != [] {
      var last := |steps| - 1;
      OrderedPrefix(b.lastRefill, steps);
      RunIsValid(b, steps[..last]);
      StepPotential(Run(b, steps[..last]), steps[last]);
    }
  }

  /** The ideal bucket with capacity + 1 always holds at least what the code's bucket is worth. */
  lemma {:induction false} IdealDominates(b: Bucket, steps: seq<Step>)
    requires Valid(b) && Ordered(b.lastRefill, steps)
    ensures var i, now := IdealRun(b, b.capacity + 1, steps), LastTime(b.lastRefill, steps);
      i.time == now && i.level >= Potential(Run(b, steps), now)
  {
    if steps != [] {
      var last := |steps| - 1;
      OrderedPrefix(b.lastRefill, steps);
      IdealDominates(b, steps[..last]);
      RunIsValid(b, steps[..last]);
      RefillPotential(Run(b, steps[..last]), steps[last].now);
      StepPotential(Run(b, steps[..last]), steps[last]);
    }
  }

  lemma OrderedUpTo(from: int, steps: seq<Step>, k: nat)
    requires k < |steps| && Ordered(from, steps)
    ensures Ordered(from, steps[..k]) && LastTime(from, steps[..k]) <= steps[k].now
  {
  }

  /** Each request granted by the code is granted by a fraction-keeping bucket of capacity + 1. */
  lemma RefinesIdealBucket(b: Bucket, steps: seq<Step>)
    requires Valid(b) && Ordered(b.lastRefill, steps)
    ensures IdealGrantsAll(b, b.capacity + 1, steps)
  {
    var capacity := b.capacity + 1;
    forall k: nat | k < |steps|
      ensures IdealGrants(b, capacity, steps, k)
    {
      OrderedUpTo(b.lastRefill, steps, k);
      IdealDominates(b, steps[..k]);
      RunIsValid(b, steps[..k]);
      var at := Run(b, steps[..k]);
      RefillPotential(at, steps[k].now);
      TimesMonotone(GrantedBy(at, steps[k]), Refill(at, steps[k].now).tokens, b.refillRate);
    }
  }

  /** The extra token is needed: every full bucket has a run that an ideal bucket of the same capacity refuses. */
  lemma ExtraTokenIsNeeded(b: Bucket)
    requires Valid(b) && b.tokens == b.capacity >= 1 && b.refillRate >= 2
    ensures exists steps: seq<Step> :: Ordered(b.lastRefill, steps) && !IdealGrantsAll(b, b.capacity, steps)
  {
    var rate, start := b.refillRate, b.lastRefill;
    var drain, again := Request(start + rate - 1, b.capacity), Request(start + rate, 1);
    var steps := [drain, again];
    var drained := Take(b, drain.now, drain.n);
    assert steps[..1] == [drain] && [drain][..0] == [];
    assert Run(b, []) == b;
    assert Run(b, [drain]) == drained && drained.tokens == 0 && drained.lastRefill == start;
    assert IdealRun(b, b.capacity, []) == Ideal(b.tokens * rate, start);
    assert IdealRun(b, b.capacity, [drain]) == Ideal(0, drain.now);
    DivisionBounds(rate, rate);
    assert GrantedBy(drained, again) == 1;
    assert !IdealGrants(b, b.capacity, steps, 1);
    assert !IdealGrantsAll(b, b.capacity, steps);
    assert Ordered(b.lastRefill, steps);
  }

  // ---------------------------------------------------------------- rate bounds

  /** One step hands out no more than the potential it finds, which is less than capacity + 1. */
  lemma StepPays(b: Bucket, step: Step)
    requires Valid(b) && b.lastRefill <= step.now
    ensures var paid := GrantedBy(b, step) * b.refillRate + Potential(Next(b, step), step.now);
      paid <= Potential(b, step.now) && paid < (b.capacity + 1) * b.refillRate
  {
    RefillPotential(b, step.now);
    StepPotential(b, step);
  }

  lemma {:induction false} GrantedIsPaidFor(b: Bucket, steps: seq<Step>)
    requires Valid(b) && steps != [] && Ordered(b.lastRefill, steps)
    ensures Granted(b, steps) * b.refillRate + Potential(Run(b, steps), LastTime(b.lastRefill, steps))
      < (b.capacity + 1) * b.refillRate + LastTime(b.lastRefill, steps) - steps[0].now
    decreases |steps|
  {
    var last := |steps| - 1;
    var front := steps[..last];
    OrderedPrefix(b.lastRefill, steps);
    RunIsValid(b, front);
    StepPays(Run(b, front), steps[last]);
    Distribute(Granted(b, front), GrantedBy(Run(b, front), steps[last]), b.refillRate);
    if front != [] {
      GrantedIsPaidFor(b, front);
    }
  }

  lemma CeilingBound(granted: int, capacity: nat, d: nat, rate: int)
    requires rate > 0 && (granted == 0 || granted * rate < (capacity + 1) * rate + d)
    ensures granted <= capacity + (d + rate - 1) / rate
  {
    var q := (d + rate - 1) / rate;
    DivisionBounds(d + rate - 1, rate);
    Distribute(q, 1, rate);
    if q < 0 {
      TimesMonotone(q + 1, 0, rate);
    } else if granted > capacity + q {
      TimesMonotone(capacity + 1 + q, granted, rate);
      Distribute(capacity + 1, q, rate);
    }
  }

  lemma GrantedWithin(b: Bucket, window: seq<Step>, d: nat)
    requires Valid(b) && Ordered(b.lastRefill, window)
    requires window != [] ==> LastTime(0, window) - window[0].now <= d
    ensures Granted(b, window) == 0 || Granted(b, window) * b.refillRate < (b.capacity + 1) * b.refillRate + d
  {
    if window != [] {
      GrantedIsPaidFor(b, window);
      RunIsValid(b, window);
      TimesMonotone(0, Run(b, window).tokens, b.refillRate);
    }
  }

  /** In any window of length d, after any history, at most capacity + ceil(d / refillRate) tokens are granted. */
  lemma WindowBound(b: Bucket, history: seq<Step>, window: seq<Step>, d: nat)
    requires Valid(b) && Ordered(b.lastRefill, history) && Ordered(LastTime(b.lastRefill, history), window)
    requires window != [] ==> LastTime(0, window) - window[0].now <= d
    ensures Granted(Run(b, history), window) <= b.capacity + (d + b.refillRate - 1) / b.refillRate
  {
    RunIsValid(b, history);
    GrantedWithin(Run(b, history), window, d);
    CeilingBound(Granted(Run(b, history), window), b.capacity, d, b.refillRate);
  }

  /** Drain a full bucket just before an interval ends, then take one token at each of the next m refills. */
  /** The moment of the m-th refill interval's end. */
  function IntervalEnd(b: Bucket, m: nat): int {
    if m == 0 then b.lastRefill else IntervalEnd(b, m - 1) + b.refillRate
  }

  lemma {:induction false} IntervalEndIs(b: Bucket, m: nat)
    ensures IntervalEnd(b, m) == b.lastRefill + m * b.refillRate
  {
    if m > 0 {
      IntervalEndIs(b, m - 1);
      Distribute(m - 1, 1, b.refillRate);
    }
  }

  function Burst(b: Bucket, m: nat): (steps: seq<Step>)
    requires b.capacity >= 0
    ensures |steps| == m + 1
  {
    if m == 0 then [Request(b.lastRefill + b.refillRate - 1, b.capacity)]
    else Burst(b, m - 1) + [Request(IntervalEnd(b, m), 1)]
  }

  lemma OneAtEachRefill(b: Bucket)
    requires Valid(b) && b.tokens == 0 && b.capacity >= 1
    ensures var step := Request(b.lastRefill + b.refillRate, 1);
      GrantedBy(b, step) == 1 && Next(b, step).tokens == 0 && Next(b, step).lastRefill == step.now
  {
    RefillCredits(b, b.lastRefill + b.refillRate, 1);
  }

  lemma {:induction false} BurstRuns(b: Bucket, m: nat)
    requires Valid(b) && b.tokens == b.capacity >= 1
    ensures Granted(b, Burst(b, m)) == b.capacity + m
    ensures var r := Run(b, Burst(b, m)); Valid(r) && r.tokens == 0 && r.lastRefill == IntervalEnd(b, m)
    decreases m
  {
    var steps := Burst(b, m);
    assert steps[..m] == if m == 0 then [] else Burst(b, m - 1);
    if m == 0 {
      assert Run(b, []) == b && Granted(b, []) == 0;
    } else {
      BurstRuns(b, m - 1);
      BurstStep(Run(b, Burst(b, m - 1)), IntervalEnd(b, m));
    }
  }

  lemma BurstStep(r: Bucket, now: int)
    requires Valid(r) && r.tokens == 0 && r.capacity >= 1 && now == r.lastRefill + r.refillRate
    ensures GrantedBy(r, Request(now, 1)) == 1
    ensures var n := Next(r, Request(now, 1)); Valid(n) && n.tokens == 0 && n.lastRefill == now
  {
    OneAtEachRefill(r);
    StepPotential(r, Request(now, 1));
  }

  lemma {:induction false} BurstTimes(b: Bucket, m: nat)
    requires Valid(b)
    ensures Ordered(b.lastRefill, Burst(b, m))
    ensures Burst(b, m)[0].now == b.lastRefill + b.refillRate - 1
    ensures m > 0 ==> LastTime(0, Burst(b, m)) == IntervalEnd(b, m) >= b.lastRefill + b.refillRate
    decreases m
  {
    if m > 0 {
      BurstTimes(b, m - 1);
      OrderedEnd(b.lastRefill, Burst(b, m - 1));
    }
  }

  /** The bound is the exact maximum: for every window length some run of a full bucket reaches it. */
  lemma WindowBoundIsReached(b: Bucket, d: nat)
    requires Valid(b) && b.tokens == b.capacity >= 1
    ensures exists steps: seq<Step> :: && steps != [] && Ordered(b.lastRefill, steps) && LastTime(0, steps) - steps[0].now <= d
                            && Granted(b, steps) == b.capacity + (d + b.refillRate - 1) / b.refillRate
  {
    var m := CeilingOf(d, b.refillRate);
    BurstRuns(b, m);
    BurstTimes(b, m);
    IntervalEndIs(b, m);
    var steps := Burst(b, m);
    assert LastTime(0, steps) - steps[0].now <= d;
    assert Granted(b, steps) == b.capacity + (d + b.refillRate - 1) / b.refillRate;
  }

  lemma CeilingOf(d: nat, rate: int) returns (m: nat)
    requires rate > 0
    ensures m == (d + rate - 1) / rate && m * rate <= d + rate - 1
  {
    var q := (d + rate - 1) / rate;
    DivisionBounds(d + rate - 1, rate);
    if q < 0 {
      TimesMonotone(q + 1, 0, rate);
    }
    m := q;
  }

  lemma RefillLoses(b: Bucket, now: int)
    requires b.refillRate > 0 && b.lastRefill <= now
    ensures var moved, k := Refill(b, now).lastRefill - b.lastRefill, Intervals(b, now);
      && k * b.refillRate <= moved
      && (if k == 0 then moved == 0 else k > 0 && moved < k * (2 * b.refillRate))
  {
    var rate, k := b.refillRate, Intervals(b, now);
    DivisionBounds(now - b.lastRefill, rate);
    if k > 0 {
      TimesMonotone(k + 1, 2 * k, rate);
      assert k * (2 * rate) == 2 * k * rate;
    }
  }

  /** Discarding remainders never loses half the rate: the time between refills is less than 2 intervals per token. */
  lemma {:induction false} LessThanHalfIsLost(b: Bucket, steps: seq<Step>)
    requires Valid(b) && Ordered(b.lastRefill, steps)
    ensures var elapsed, added := Run(b, steps).lastRefill - b.lastRefill, Added(b, steps);
      && added * b.refillRate <= elapsed <= added * (2 * b.refillRate)
      && (elapsed > 0 ==> elapsed < added * (2 * b.refillRate))
  {
    if steps != [] {
      var last := |steps| - 1;
      var front := steps[..last];
      OrderedPrefix(b.lastRefill, steps);
      LessThanHalfIsLost(b, front);
      RunIsValid(b, front);
      RefillLoses(Run(b, front), steps[last].now);
      Distribute(Added(b, front), Intervals(Run(b, front), steps[last].now), b.refillRate);
      Distribute(Added(b, front), Intervals(Run(b, front), steps[last].now), 2 * b.refillRate);
    }
  }

  /** Reservations one tick short of two intervals apart. */
  function Sparse(b: Bucket, m: nat): (steps: seq<Step>)
    ensures |steps| == m
  {
    if m == 0 then [] else Sparse(b, m - 1) + [Reservation(b.lastRefill + m * (2 * b.refillRate - 1))]
  }

  /** The factor 2 is the best possible: such a run is credited only one token for all but two intervals' time. */
  lemma {:induction false} NearlyHalfCanBeLost(b: Bucket, m: nat)
    requires Valid(b)
    ensures Ordered(b.lastRefill, Sparse(b, m)) && Added(b, Sparse(b, m)) == m
    ensures Run(b, Sparse(b, m)).lastRefill == b.lastRefill + m * (2 * b.refillRate - 1)
    ensures LastTime(b.lastRefill, Sparse(b, m)) == Run(b, Sparse(b, m)).lastRefill
    decreases m
  {
    if m > 0 {
      NearlyHalfCanBeLost(b, m - 1);
      var front := Sparse(b, m - 1);
      OrderedEnd(b.lastRefill, front);
      assert Sparse(b, m)[..m - 1] == front;
      Distribute(m - 1, 1, 2 * b.refillRate - 1);
      OneTokenForTwoIntervals(Run(b, front), Sparse(b, m)[m - 1].now);
    }
  }

  lemma OneTokenForTwoIntervals(b: Bucket, now: int)
    requires b.refillRate > 0 && now == b.lastRefill + 2 * b.refillRate - 1
    ensures Intervals(b, now) == 1 && Refill(b, now).lastRefill == now
  {
    DivisionBounds(now - b.lastRefill, b.refillRate);
    if Intervals(b, now) >= 2 {
      TimesMonotone(2, Intervals(b, now), b.refillRate);
    }
  }

  lemma OrderedEnd(from: int, steps: seq<Step>)
    requires Ordered(from, steps)
    ensures forall i :: 0 <= i < |steps| ==> steps[i].now <= LastTime(from, steps)
    ensures from <= LastTime(from, steps)
  {
  }

  // ---------------------------------------------------------------- waiting for a token

  /** How long a caller without a token is told to sleep; later is the second reading of the clock. */
  function ReserveTime(b: Bucket, now: int, later: int): int
    requires b.refillRate > 0
  {
    var f := Refill(b, now);
    if f.tokens > 0 then 0
    else
      var until := f.refillRate - (later - f.lastRefill);
      if until < 0 then 0 else until
  }

  /** The reserved time is exact: a token is there at a moment after the reservation if and only if that much has passed. */
  lemma ReservationIsExact(b: Bucket, now: int, later: int, wake: int)
    requires Valid(b) && b.capacity >= 1 && b.lastRefill <= now <= later <= wake
    ensures Refill(Refill(b, now), wake).tokens >= 1 <==> wake >= later + ReserveTime(b, now, later)
  {
    var f := Refill(b, now);
    RefillPotential(b, now);
    RefillPotential(f, wake);
    DivisionBounds(wake - f.lastRefill, f.refillRate);
  }

  /** Sleeping for the reserved time guarantees a token if and only if the bucket can hold one. */
  lemma ReservationGuaranteesToken(b: Bucket, now: int, later: int, wake: int)
    requires Valid(b) && b.lastRefill <= now <= later
    requires wake >= later + ReserveTime(b, now, later)
    ensures Refill(Refill(b, now), wake).tokens >= 1 <==> b.capacity >= 1
  {
    if b.capacity >= 1 {
      ReservationIsExact(b, now, later, wake);
    }
  }

  class TokenBucket {
    var capacity: int
    var tokens: int
    var refillRate: int
    var lastRefill: int
    var currentTokens: int
    var requestsAllowed: nat
    var requestsDenied: nat

    constructor (capacity: int, refillRate: int, now: int)
      ensures View() == Bucket(capacity, capacity, refillRate, now, capacity, 0, 0)
    {
      this.capacity, tokens, this.refillRate, lastRefill := capacity, capacity, refillRate, now;
      currentTokens, requestsAllowed, requestsDenied := capacity, 0, 0;
    }

    function View(): Bucket
      reads this
    {
      Bucket(capacity, tokens, refillRate, lastRefill, currentTokens, requestsAllowed, requestsDenied)
    }

    method RefillNow(now: int)
      requires refillRate > 0
      modifies this
      ensures View() == Refill(old(View()), now)
      ensures forall k :: WholeIntervals(refillRate, old(lastRefill), now, k) ==>
        && tokens == (if k == 0 then old(tokens) else AtMost(old(tokens) + k, capacity))
        && lastRefill == if k == 0 then old(lastRefill) else now
    {
      forall k | WholeIntervals(refillRate, lastRefill, now, k)
        ensures var f := Refill(View(), now);
          && f.tokens == (if k == 0 then tokens else AtMost(tokens + k, capacity))
          && f.lastRefill == if k == 0 then lastRefill else now
      {
        RefillCredits(View(), now, k);
      }
      var elapsed := now - lastRefill;
      if elapsed >= refillRate {
        var tokensToAdd := elapsed / refillRate;
        tokens := tokens + tokensToAdd;
        if tokens > capacity {
          tokens := capacity;
        }
        lastRefill := now;
        currentTokens := tokens;
      }
    }

    method TakeTokens(now: int, n: nat) returns (ok: bool)
      requires refillRate > 0
      modifies this
      ensures View() == Take(old(View()), now, n)
      ensures ok <==> n <= Refill(old(View()), now).tokens
    {
      RefillNow(now);
      if tokens >= n {
        tokens := tokens - n;
        requestsAllowed := requestsAllowed + 1;
        currentTokens := tokens;
        return true;
      }
      requestsDenied := requestsDenied + 1;
      return false;
    }

    method Reserve(now: int, later: int) returns (duration: int)
      requires refillRate > 0
      modifies this
      ensures View() == Refill(old(View()), now)
      ensures duration == ReserveTime(old(View()), now, later)
    {
      RefillNow(now);
      if tokens > 0 {
        return 0;
      }
      var timeSinceLastRefill := later - lastRefill;
      var timeUntilNextRefill := refillRate - timeSinceLastRefill;
      if timeUntilNextRefill < 0 {
        return 0;
      }
      return timeUntilNextRefill;
    }
  }

  /** A clock that the caller can only read, and that moves on by itself between readings. */
  class Clock {
    var time: int

    constructor (start: int)
      ensures time == start
    {
      time := start;
    }

    method Now() returns (now: int)
      modifies this
      ensures now == time >= old(time)
    {
      var passed: int := *;
      if passed > 0 {
        time := time + passed;
      }
      return time;
    }

    /** Returns after at least the given duration. */
    method Sleep(duration: int)
      modifies this
      ensures time >= old(time) && time >= old(time) + duration
    {
      var passed: int := *;
      if passed >= duration && passed > 0 {
        time := time + passed;
      } else if duration > 0 {
        time := time + duration;
      }
    }
  }

  /**
   * Waiting for one token, alone on the bucket: the second attempt succeeds at the latest, and the caller gives up
   * only when its context is cancelled during the one sleep.
   */
  method Wait(bucket: TokenBucket, clock: Clock, cancelled: bool) returns (ok: bool, attempts: nat)
    requires Valid(bucket.View()) && bucket.capacity >= 1 && bucket.lastRefill <= clock.time
    modifies bucket, clock
    ensures Valid(bucket.View())
    ensures ok ==> 1 <= attempts <= 2 && bucket.requestsAllowed == old(bucket.requestsAllowed) + 1
    ensures !ok ==> cancelled && attempts == 1 && bucket.requestsAllowed == old(bucket.requestsAllowed)
    ensures bucket.requestsDenied == old(bucket.requestsDenied) + attempts - if ok then 1 else 0
  {
    attempts := 0;
    while true
      invariant Valid(bucket.View()) && bucket.capacity >= 1 && bucket.lastRefill <= clock.time
      invariant attempts <= 1
      invariant attempts == 1 ==> forall now :: now >= clock.time ==> Refill(bucket.View(), now).tokens >= 1
      invariant bucket.requestsAllowed == old(bucket.requestsAllowed)
      invariant bucket.requestsDenied == old(bucket.requestsDenied) + attempts
      decreases 2 - attempts
    {
      var now := clock.Now();
      StepPotential(bucket.View(), Request(now, 1));
      ok := bucket.TakeTokens(now, 1);
      attempts := attempts + 1;
      if ok {
        return;
      }
      now := clock.Now();
      var later := clock.Now();
      ghost var before := bucket.View();
      RefillPotential(before, now);
      var duration := bucket.Reserve(now, later);
      var done: bool := *;
      if cancelled && done {
        return;
      }
      clock.Sleep(duration);
      forall wake | wake >= clock.time
        ensures Refill(bucket.View(), wake).tokens >= 1
      {
        ReservationGuaranteesToken(before, now, later, wake);
      }
    }
  }
}
