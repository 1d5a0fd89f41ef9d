/** Fixed-window quotas with 64-bit counters over a nondecreasing integer clock (rate_limiting.go). */
module Quotas {
  import opened Arithmetic
  import opened Ints

  datatype QuotaState = QuotaState(limit: int, used: int, windowStart: int, windowEnd: int, resetPeriod: int,
                                   total: nat, allowed: nat, denied: nat, exceeded: nat)

  /** The clock is read once to see whether the window has expired and, if so, once more to open the next one. */
  function CheckReset(q: QuotaState, now: int, later: int): QuotaState {
    if now > q.windowEnd then q.(used := 0, windowStart := later, windowEnd := later + q.resetPeriod) else q
  }

  /** The comparison as the machine performs it: the 64-bit sum wraps around. */
  predicate Fits(q: QuotaState, amount: int) {
    Int64(q.used + amount) <= q.limit
  }

  function Use(q: QuotaState, now: int, later: int, amount: int): QuotaState {
    var c := CheckReset(q, now, later);
    if Fits(c, amount) then c.(used := Int64(c.used + amount), total := c.total + 1, allowed := c.allowed + 1)
    else c.(total := c.total + 1, denied := c.denied + 1, exceeded := c.exceeded + 1)
  }

  /** A use, or a check or sweep of expired windows, which only reset. */
  datatype Step = Consume(now: int, later: int, amount: int) | Look(now: int, later: int)

  function Next(q: QuotaState, step: Step): QuotaState {
    match step
    case Consume(now, later, amount) => Use(q, now, later, amount)
    case Look(now, later) => CheckReset(q, now, later)
  }

  function AcceptedBy(q: QuotaState, step: Step): int {
    if step.Consume? && Fits(CheckReset(q, step.now, step.later), step.amount) then step.amount else 0
  }

  predicate Resets(q: QuotaState, step: Step) {
    step.now > q.windowEnd
  }

  function Run(q: QuotaState, steps: seq<Step>): QuotaState {
    if steps == [] then q else Next(Run(q, steps[..|steps| - 1]), steps[|steps| - 1])
  }

  /** The amounts accepted from the i-th step of a run on. */
  function AcceptedSince(q: QuotaState, steps: seq<Step>, i: nat): int {
    if |steps| <= i then 0
    else
      var last := |steps| - 1;
      AcceptedSince(q, steps[..last], i) + AcceptedBy(Run(q, steps[..last]), steps[last])
  }

  function Accepted(q: QuotaState, steps: seq<Step>): int {
    AcceptedSince(q, steps, 0)
  }

  function Resettings(q: QuotaState, steps: seq<Step>): nat {
    if steps == [] then 0
    else
      var last := |steps| - 1;
      Resettings(q, steps[..last]) + if Resets(Run(q, steps[..last]), steps[last]) then 1 else 0
  }

  /** One more than the index of the step that opened the current window; 0 if it is still the initial one. */
  function WindowOpenedBy(q: QuotaState, steps: seq<Step>): (i: nat)
    ensures i <= |steps|
  {
    if steps == [] then 0
    else
      var last := |steps| - 1;
      if Resets(Run(q, steps[..last]), steps[last]) then |steps| else WindowOpenedBy(q, steps[..last])
  }

  // ---------------------------------------------------------------- accounting over all runs

  lemma WrapTwice(x: int, y: int)
    ensures Int64(Int64(x) + y) == Int64(x + y)
  {
    var m := 0x1_0000_0000_0000_0000;
    var h := 0x8000_0000_0000_0000;
    var k := (x + h) / m;
    assert Int64(x) == x - k * m;
    var z := x + y + h;
    assert (z - k * m) % m == z % m by { ShiftModulo(z, k, m); }
  }

  /** What has been accepted since the current window was opened. */
  function InWindow(q: QuotaState, steps: seq<Step>): int {
    var i := WindowOpenedBy(q, steps);
    if i == 0 then q.used + Accepted(q, steps) else AcceptedSince(q, steps, i - 1)
  }

  lemma InWindowStep(q: QuotaState, steps: seq<Step>)
    requires steps != []
    ensures var front, step := steps[..|steps| - 1], steps[|steps| - 1];
      InWindow(q, steps) == (if Resets(Run(q, front), step) then 0 else InWindow(q, front)) + AcceptedBy(Run(q, front), step)
  {
    assert AcceptedSince(q, steps[..|steps| - 1], |steps| - 1) == 0;
  }

  lemma StepAccounts(q: QuotaState, step: Step)
    requires q.used == Int64(q.used) && q.allowed + q.denied == q.total && q.exceeded == q.denied
    ensures var a := Next(q, step);
      && a.used == Int64((if Resets(q, step) then 0 else q.used) + AcceptedBy(q, step))
      && a.allowed + a.denied == a.total && a.exceeded == a.denied
      && a.windowStart == if Resets(q, step) then step.later else q.windowStart
  {
  }

  /** Used is the sum accepted since the window was opened, as a 64-bit number, and the statistics add up. */
  lemma {:induction false} UsedIsAcceptedInWindow(q: QuotaState, steps: seq<Step>)
    requires q.used == Int64(q.used) && q.allowed + q.denied == q.total && q.exceeded == q.denied
    ensures var r, i := Run(q, steps), WindowOpenedBy(q, steps);
      && r.allowed + r.denied == r.total && r.exceeded == r.denied
      && r.used == Int64(InWindow(q, steps))
      && r.windowStart == if i == 0 then q.windowStart else steps[i - 1].later
  {
    if steps != [] {
      var front, step := steps[..|steps| - 1], steps[|steps| - 1];
      UsedIsAcceptedInWindow(q, front);
      StepAccounts(Run(q, front), step);
      InWindowStep(q, steps);
      WrapTwice(InWindow(q, front), AcceptedBy(Run(q, front), step));
    }
  }

  /** How many uses of a run were accepted, and how many there were. */
  function AcceptedUses(q: QuotaState, steps: seq<Step>): nat {
    if steps == [] then 0
    else
      var at, step := Run(q, steps[..|steps| - 1]), steps[|steps| - 1];
      AcceptedUses(q, steps[..|steps| - 1])
        + if step.Consume? && Int64((if step.now > at.windowEnd then 0 else at.used) + step.amount) <= at.limit then 1 else 0
  }

  function Uses(steps: seq<Step>): nat {
    if steps == [] then 0 else Uses(steps[..|steps| - 1]) + if steps[|steps| - 1].Consume? then 1 else 0
  }

  /** Each use is counted once, as allowed or as denied, and every denial as one for exceeding the quota. */
  lemma {:induction false} UsesAreCounted(q: QuotaState, steps: seq<Step>)
    ensures var r := Run(q, steps);
      && r.limit == q.limit
      && r.total == q.total + Uses(steps)
      && r.allowed == q.allowed + AcceptedUses(q, steps)
      && AcceptedUses(q, steps) <= Uses(steps)
      && r.denied == q.denied + (Uses(steps) - AcceptedUses(q, steps))
      && r.exceeded == q.exceeded + (Uses(steps) - AcceptedUses(q, steps))
  {
    if steps != [] {
      UsesAreCounted(q, steps[..|steps| - 1]);
    }
  }

  /** A denied use leaves usage and window as they are after a due reset. */
  lemma DenialChangesNothing(q: QuotaState, now: int, later: int, amount: int)
    requires Int64((if now > q.windowEnd then 0 else q.used) + amount) > q.limit
    ensures var r := Use(q, now, later, amount);
      && r.used == (if now > q.windowEnd then 0 else q.used)
      && r.windowStart == (if now > q.windowEnd then later else q.windowStart)
      && r.windowEnd == (if now > q.windowEnd then later + q.resetPeriod else q.windowEnd)
      && r.allowed == q.allowed && r.denied == q.denied + 1 && r.exceeded == q.exceeded + 1 && r.total == q.total + 1
  {
  }

  // ---------------------------------------------------------------- what the comparison really accepts

  /** A use is accepted exactly when the amount fits, or when the sum leaves the 64-bit range. */
  lemma AcceptedExactly(q: QuotaState, amount: int)
    requires 0 <= q.used <= q.limit <= MAX_INT64 && 0 <= amount <= MAX_INT64
    ensures Fits(q, amount) <==> q.used + amount <= q.limit || q.used + amount > MAX_INT64
    ensures q.used + amount > MAX_INT64 ==> Int64(q.used + amount) < 0
  {
    WrapsOnce(q.used + amount);
  }

  lemma WrapsOnce(x: int)
    requires 0 <= x <= 2 * MAX_INT64
    ensures x > MAX_INT64 ==> Int64(x) == x - 0x1_0000_0000_0000_0000
  {
  }

  ghost predicate NeverExceeds(limit: int, largest: int) {
    forall q: QuotaState, amount: int :: 0 <= q.used <= q.limit == limit && 0 <= amount <= largest && Fits(q, amount)
      ==> q.used + amount <= limit
  }

  /** Amounts up to a bound can never push the usage over the limit if and only if limit plus bound is a 64-bit number. */
  lemma LimitHoldsExactly(limit: int, largest: int)
    requires 0 <= limit <= MAX_INT64 && 0 <= largest <= MAX_INT64
    ensures NeverExceeds(limit, largest) <==> limit + largest <= MAX_INT64
  {
    if limit + largest <= MAX_INT64 {
      forall q: QuotaState, amount: int | 0 <= q.used <= q.limit == limit && 0 <= amount <= largest && Fits(q, amount)
        ensures q.used + amount <= limit
      {
        AcceptedExactly(q, amount);
      }
    } else {
      var full := QuotaState(limit, limit, 0, 0, 0, 0, 0, 0, 0);
      AcceptedExactly(full, largest);
      assert Fits(full, largest);
    }
  }

  // ---------------------------------------------------------------- how much any interval can accept

  ghost predicate Valid(q: QuotaState) {
    && 0 <= q.used <= q.limit <= MAX_INT64
    && 0 <= q.resetPeriod
    && q.windowStart <= q.windowEnd
  }

  /** Times never run backwards, and no amount can make the sum wrap. */
  ghost predicate Admissible(from: int, limit: int, steps: seq<Step>) {
    && (forall i :: 0 <= i < |steps| ==> from <= steps[i].now <= steps[i].later)
    && (forall i, j :: 0 <= i < j < |steps| ==> steps[i].later <= steps[j].now)
    && (forall i :: 0 <= i < |steps| ==> steps[i].Consume? ==> 0 <= steps[i].amount <= MAX_INT64 - limit)
  }

  function LastTime(from: int, steps: seq<Step>): int {
    if steps == [] then from else steps[|steps| - 1].later
  }

  lemma AdmissiblePrefix(from: int, limit: int, steps: seq<Step>)
    requires steps != [] && Admissible(from, limit, steps)
    ensures Admissible(from, limit, steps[..|steps| - 1])
    ensures LastTime(from, steps[..|steps| - 1]) <= steps[|steps| - 1].now <= steps[|steps| - 1].later
  {
  }

  lemma StepIsValid(q: QuotaState, step: Step)
    requires Valid(q) && (step.Consume? ==> 0 <= step.amount <= MAX_INT64 - q.limit)
    ensures var a := Next(q, step);
      && Valid(a) && a.limit == q.limit && a.resetPeriod == q.resetPeriod
      && AcceptedBy(q, step) >= 0
      && (if Resets(q, step) then a.used == AcceptedBy(q, step) && a.windowStart == step.later && a.windowEnd == step.later + q.resetPeriod
          else a.used == q.used + AcceptedBy(q, step) && a.windowStart == q.windowStart && a.windowEnd == q.windowEnd)
  {
    if step.Consume? {
      AcceptedExactly(CheckReset(q, step.now, step.later), step.amount);
    }
  }

  lemma {:induction false} RunIsValid(q: QuotaState, steps: seq<Step>, from: int)
    requires Valid(q) && q.windowStart <= from && Admissible(from, q.limit, steps)
    ensures var r := Run(q, steps);
      && Valid(r) && r.limit == q.limit && r.resetPeriod == q.resetPeriod
      && r.windowStart <= LastTime(from, steps)
  {
    if steps != [] {
      AdmissiblePrefix(from, q.limit, steps);
      RunIsValid(q, steps[..|steps| - 1], from);
      StepIsValid(Run(q, steps[..|steps| - 1]), steps[|steps| - 1]);
    }
  }

  /** n times x, one at a time. */
  function Multiple(n: nat, x: int): int {
    if n == 0 then 0 else Multiple(n - 1, x) + x
  }

  lemma {:induction false} MultipleIsProduct(n: nat, x: int)
    ensures Multiple(n, x) == n * x
  {
    if n > 0 {
      MultipleIsProduct(n - 1, x);
      assert n * x == (n - 1) * x + x;
    }
  }

  /** At most one limit's worth per window opened, and the windows are more than a period apart. */
  ghost predicate Bounded(q: QuotaState, windows: nat, accepted: int, from: int) {
    && 0 <= accepted <= Multiple(windows, q.limit) + q.used
    && (windows == 0 ==> (accepted == 0 || q.windowEnd >= from))
    && (windows > 0 ==>
      && q.windowEnd == q.windowStart + q.resetPeriod
      && q.windowStart >= from
      && (q.windowStart > from + Multiple(windows - 1, q.resetPeriod) || (windows == 1 && accepted <= q.used)))
  }

  lemma BoundedStep(q: QuotaState, windows: nat, accepted: int, from: int, step: Step)
    requires Valid(q) && Bounded(q, windows, accepted, from) && from <= step.now <= step.later
    requires step.Consume? ==> 0 <= step.amount <= MAX_INT64 - q.limit
    ensures Bounded(Next(q, step), windows + if Resets(q, step) then 1 else 0, accepted + AcceptedBy(q, step), from)
  {
    StepIsValid(q, step);
  }

  lemma {:induction false} RunIsBounded(q: QuotaState, steps: seq<Step>, from: int)
    requires Valid(q) && q.windowStart <= from && Admissible(from, q.limit, steps)
    ensures Bounded(Run(q, steps), Resettings(q, steps), Accepted(q, steps), from)
  {
    if steps != [] {
      var front, step := steps[..|steps| - 1], steps[|steps| - 1];
      AdmissiblePrefix(from, q.limit, steps);
      RunIsBounded(q, front, from);
      RunIsValid(q, front, from);
      RunSplits(q, steps);
      BoundedStep(Run(q, front), Resettings(q, front), Accepted(q, front), from, step);
    }
  }

  lemma RunSplits(q: QuotaState, steps: seq<Step>)
    requires steps != []
    ensures var front, step := steps[..|steps| - 1], steps[|steps| - 1];
      && Run(q, steps) == Next(Run(q, front), step)
      && Resettings(q, steps) == Resettings(q, front) + (if Resets(Run(q, front), step) then 1 else 0)
      && Accepted(q, steps) == Accepted(q, front) + AcceptedBy(Run(q, front), step)
  {
  }

  /** After any history, an interval no longer than m periods accepts at most m + 1 limits. */
  lemma IntervalBound(q: QuotaState, start: int, history: seq<Step>, steps: seq<Step>, from: int, m: nat)
    requires Valid(q) && q.windowStart <= start && Admissible(start, q.limit, history)
    requires LastTime(start, history) <= from && Admissible(from, q.limit, steps)
    requires LastTime(from, steps) <= from + m * q.resetPeriod
    ensures Accepted(Run(q, history), steps) <= (m + 1) * q.limit
  {
    RunIsValid(q, history, start);
    var at := Run(q, history);
    RunIsBounded(at, steps, from);
    RunIsValid(at, steps, from);
    FewWindows(Run(at, steps), Resettings(at, steps), Accepted(at, steps), from, m);
  }

  lemma FewWindows(q: QuotaState, windows: nat, accepted: int, from: int, m: nat)
    requires Valid(q) && Bounded(q, windows, accepted, from) && q.windowStart <= from + m * q.resetPeriod
    ensures accepted <= (m + 1) * q.limit
  {
    assert (m + 1) * q.limit == m * q.limit + q.limit;
    MultipleIsProduct(windows, q.limit);
    if windows > 0 {
      MultipleIsProduct(windows - 1, q.resetPeriod);
    }
    if windows <= m {
      TimesMonotone(windows, m, q.limit);
    } else {
      TimesMonotone(m, windows - 1, q.resetPeriod);
      TimesMonotone(1, m + 1, q.limit);
    }
  }

  /** The last moment of the current window, the first moment of the next, and so on window by window. */
  function SpreeTime(q: QuotaState, m: nat): int {
    if m == 0 then q.windowEnd
    else if m == 1 then q.windowEnd + 1
    else SpreeTime(q, m - 1) + q.resetPeriod + 1
  }

  /** The whole limit at each of these moments. */
  function Spree(q: QuotaState, m: nat): (steps: seq<Step>)
    ensures |steps| == m + 1
  {
    var now := Consume(SpreeTime(q, m), SpreeTime(q, m), q.limit);
    if m == 0 then [now] else Spree(q, m - 1) + [now]
  }

  lemma {:induction false} SpreeFits(q: QuotaState, m: nat)
    requires m <= q.resetPeriod
    ensures SpreeTime(q, m) <= q.windowEnd + m * q.resetPeriod
    ensures m > 0 ==> SpreeTime(q, m) <= q.windowEnd + (m - 1) * q.resetPeriod + m
  {
    if m > 0 {
      SpreeFits(q, m - 1);
      assert m * q.resetPeriod == (m - 1) * q.resetPeriod + q.resetPeriod;
      assert m > 1 ==> (m - 1) * q.resetPeriod == (m - 2) * q.resetPeriod + q.resetPeriod;
    }
  }

  lemma {:induction false} SpreeIsAdmissible(q: QuotaState, m: nat)
    requires Valid(q) && 2 * q.limit <= MAX_INT64
    ensures Admissible(q.windowEnd, q.limit, Spree(q, m))
    ensures LastTime(q.windowEnd, Spree(q, m)) == SpreeTime(q, m)
  {
    if m > 0 {
      SpreeIsAdmissible(q, m - 1);
      AdmissibleEnd(q.windowEnd, q.limit, Spree(q, m - 1));
      assert SpreeTime(q, m - 1) <= SpreeTime(q, m);
    }
  }

  lemma AdmissibleEnd(from: int, limit: int, steps: seq<Step>)
    requires Admissible(from, limit, steps)
    ensures forall i :: 0 <= i < |steps| ==> steps[i].later <= LastTime(from, steps)
    ensures from <= LastTime(from, steps)
  {
  }

  lemma WholeLimitAccepted(q: QuotaState, now: int)
    requires 0 <= q.limit <= MAX_INT64 && (now > q.windowEnd || q.used == 0)
    ensures var a := Use(q, now, now, q.limit);
      && AcceptedBy(q, Consume(now, now, q.limit)) == q.limit == a.used == a.limit && a.resetPeriod == q.resetPeriod
      && a.windowEnd == if now > q.windowEnd then now + q.resetPeriod else q.windowEnd
  {
  }

  lemma {:induction false} SpreeIsAccepted(q: QuotaState, m: nat)
    requires Valid(q) && q.used == 0
    ensures var r := Run(q, Spree(q, m));
      && r.limit == q.limit == r.used && r.resetPeriod == q.resetPeriod
      && r.windowEnd == SpreeTime(q, m) + if m == 0 then 0 else q.resetPeriod
    ensures Accepted(q, Spree(q, m)) == (m + 1) * q.limit
  {
    assert Spree(q, m)[..m] == if m == 0 then [] else Spree(q, m - 1);
    if m == 0 {
      assert Run(q, []) == q && Accepted(q, []) == 0;
      WholeLimitAccepted(q, q.windowEnd);
    } else {
      SpreeIsAccepted(q, m - 1);
      WholeLimitAccepted(Run(q, Spree(q, m - 1)), SpreeTime(q, m));
      assert (m + 1) * q.limit == m * q.limit + q.limit;
    }
  }

  /** The bound is reached, for every number of periods up to the ticks in one period. */
  lemma IntervalBoundIsReached(q: QuotaState, m: nat)
    requires Valid(q) && q.used == 0 && m <= q.resetPeriod && 2 * q.limit <= MAX_INT64
    ensures Admissible(q.windowEnd, q.limit, Spree(q, m))
    ensures LastTime(q.windowEnd, Spree(q, m)) <= q.windowEnd + m * q.resetPeriod
    ensures Accepted(q, Spree(q, m)) == (m + 1) * q.limit
  {
    SpreeFits(q, m);
    SpreeIsAdmissible(q, m);
    SpreeIsAccepted(q, m);
  }

  /** What a check promised stays true however much time passes before the use. */
  lemma CheckedThenAccepted(q: QuotaState, now: int, later: int, amount: int, useNow: int, useLater: int)
    requires Valid(q) && 0 <= amount <= MAX_INT64 - q.limit
    requires Fits(CheckReset(q, now, later), amount)
    ensures AcceptedBy(CheckReset(q, now, later), Consume(useNow, useLater, amount)) == amount
    ensures Use(CheckReset(q, now, later), useNow, useLater, amount).allowed == q.allowed + 1
  {
    AcceptedExactly(CheckReset(q, now, later), amount);
    AcceptedExactly(CheckReset(CheckReset(q, now, later), useNow, useLater), amount);
  }

  class Quota {
    var limit: int
    var used: int
    var windowStart: int
    var windowEnd: int
    var resetPeriod: int
    var totalRequests: nat
    var allowedRequests: nat
    var deniedRequests: nat
    var quotaExceeded: nat

    constructor (limit: int, resetPeriod: int, now: int)
      ensures View() == QuotaState(limit, 0, now, now + resetPeriod, resetPeriod, 0, 0, 0, 0)
    {
      this.limit, used, windowStart, windowEnd, this.resetPeriod := limit, 0, now, now + resetPeriod, resetPeriod;
      totalRequests, allowedRequests, deniedRequests, quotaExceeded := 0, 0, 0, 0;
    }

    function View(): QuotaState
      reads this
    {
      QuotaState(limit, used, windowStart, windowEnd, resetPeriod, totalRequests, allowedRequests, deniedRequests, quotaExceeded)
    }

    method ResetIfExpired(now: int, later: int)
      modifies this
      ensures View() == CheckReset(old(View()), now, later)
    {
      if now > windowEnd {
        used := 0;
        windowStart := later;
        windowEnd := later + resetPeriod;
      }
    }

    method CheckUsage(now: int, later: int, amount: int) returns (ok: bool)
      modifies this
      ensures View() == CheckReset(old(View()), now, later)
      ensures ok <==> Fits(View(), amount)
    {
      ResetIfExpired(now, later);
      return Int64(used + amount) <= limit;
    }

    method Consume(now: int, later: int, amount: int) returns (ok: bool)
      modifies this
      ensures View() == Use(old(View()), now, later, amount)
      ensures ok <==> Fits(CheckReset(old(View()), now, later), amount)
      ensures totalRequests == old(totalRequests) + 1 && allowedRequests == old(allowedRequests) + (if ok then 1 else 0)
      ensures deniedRequests == old(deniedRequests) + (if ok then 0 else 1) && quotaExceeded == old(quotaExceeded) + (if ok then 0 else 1)
    {
      ResetIfExpired(now, later);
      totalRequests := totalRequests + 1;
      if Int64(used + amount) <= limit {
        used := Int64(used + amount);
        allowedRequests := allowedRequests + 1;
        return true;
      }
      deniedRequests := deniedRequests + 1;
      quotaExceeded := quotaExceeded + 1;
      return false;
    }
  }
}
