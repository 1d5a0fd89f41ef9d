/** Health hysteresis and its history specification (transport_manager.go). */
module Health {

  datatype State = State(healthy: bool, successes: nat, failures: nat)

  datatype Thresholds = Thresholds(healthy: int, unhealthy: int)

  const INITIAL := State(true, 0, 0)

  function Next(t: Thresholds, s: State, ok: bool): State {
    if ok then State(s.healthy || s.successes + 1 >= t.healthy, s.successes + 1, 0)
    else State(s.healthy && s.failures + 1 < t.unhealthy, 0, s.failures + 1)
  }

  function Run(t: Thresholds, history: seq<bool>): State {
    if history == [] then INITIAL else Next(t, Run(t, history[..|history| - 1]), history[|history| - 1])
  }

  /** The last n outcomes before position end are all equal to ok. */
  ghost predicate Streak(history: seq<bool>, end: int, n: int, ok: bool) {
    n <= end <= |history| && forall k :: 0 <= k && end - n <= k < end ==> history[k] == ok
  }

  /** A check can only change the status after at least one outcome, whatever the threshold says. */
  function Needed(threshold: int): (n: int)
    ensures n >= 1 && n >= threshold && (n == threshold || n == 1)
  {
    if threshold < 1 then 1 else threshold
  }

  /** Some streak of failures was long enough, and no streak of successes completed later was. */
  ghost predicate Down(t: Thresholds, history: seq<bool>) {
    exists end :: Streak(history, end, Needed(t.unhealthy), false) && NoRecovery(t, history, end)
  }

  ghost predicate NoRecovery(t: Thresholds, history: seq<bool>, end: int) {
    forall later :: end < later ==> !Streak(history, later, Needed(t.healthy), true)
  }

  // ---------------------------------------------------------------- the counters are the current streaks

  lemma {:induction false} CountersAreStreaks(t: Thresholds, history: seq<bool>, n: nat)
    ensures var s := Run(t, history);
      && (s.successes >= n <==> Streak(history, |history|, n, true))
      && (s.failures >= n <==> Streak(history, |history|, n, false))
  {
    if history != [] && n > 0 {
      var last := |history| - 1;
      CountersAreStreaks(t, history[..last], n - 1);
      StreakGrows(history, n, true);
      StreakGrows(history, n, false);
    }
  }

  lemma StreakGrows(history: seq<bool>, n: nat, ok: bool)
    requires history != [] && n > 0
    ensures var last := |history| - 1;
      Streak(history, |history|, n, ok) <==> history[last] == ok && Streak(history[..last], last, n - 1, ok)
  {
    var last := |history| - 1;
    if Streak(history, |history|, n, ok) {
      assert history[last] == ok;
    }
  }

  lemma StreakInFront(history: seq<bool>, end: int, n: int, ok: bool)
    requires history != [] && end < |history|
    ensures Streak(history, end, n, ok) <==> Streak(history[..|history| - 1], end, n, ok)
  {
    var front := history[..|history| - 1];
    assert forall k :: 0 <= k < end ==> front[k] == history[k];
  }

  // ---------------------------------------------------------------- the status is what the history says

  lemma SuccessStep(t: Thresholds, history: seq<bool>)
    requires history != [] && history[|history| - 1]
    ensures Down(t, history)
      <==> Down(t, history[..|history| - 1]) && !Streak(history, |history|, Needed(t.healthy), true)
  {
    var last := |history| - 1;
    var front := history[..last];
    forall end | end <= last
      ensures Streak(history, end, Needed(t.unhealthy), false) <==> Streak(front, end, Needed(t.unhealthy), false)
      ensures Streak(history, end, Needed(t.healthy), true) <==> Streak(front, end, Needed(t.healthy), true)
    {
      StreakInFront(history, end, Needed(t.unhealthy), false);
      StreakInFront(history, end, Needed(t.healthy), true);
    }
    assert !Streak(history, |history|, Needed(t.unhealthy), false);
    if Down(t, history) {
      var end :| Streak(history, end, Needed(t.unhealthy), false) && NoRecovery(t, history, end);
      assert Streak(front, end, Needed(t.unhealthy), false) && NoRecovery(t, front, end);
    }
    if Down(t, front) && !Streak(history, |history|, Needed(t.healthy), true) {
      var end :| Streak(front, end, Needed(t.unhealthy), false) && NoRecovery(t, front, end);
      assert Streak(history, end, Needed(t.unhealthy), false) && NoRecovery(t, history, end);
    }
  }

  lemma FailureStep(t: Thresholds, history: seq<bool>)
    requires history != [] && !history[|history| - 1]
    ensures Down(t, history)
      <==> Down(t, history[..|history| - 1]) || Streak(history, |history|, Needed(t.unhealthy), false)
  {
    var last := |history| - 1;
    var front := history[..last];
    forall end | end <= last
      ensures Streak(history, end, Needed(t.unhealthy), false) <==> Streak(front, end, Needed(t.unhealthy), false)
      ensures Streak(history, end, Needed(t.healthy), true) <==> Streak(front, end, Needed(t.healthy), true)
    {
      StreakInFront(history, end, Needed(t.unhealthy), false);
      StreakInFront(history, end, Needed(t.healthy), true);
    }
    assert !Streak(history, |history|, Needed(t.healthy), true);
    if Down(t, history) {
      var end :| Streak(history, end, Needed(t.unhealthy), false) && NoRecovery(t, history, end);
      assert end <= last ==> Streak(front, end, Needed(t.unhealthy), false) && NoRecovery(t, front, end);
    }
    if Down(t, front) {
      var end :| Streak(front, end, Needed(t.unhealthy), false) && NoRecovery(t, front, end);
      assert Streak(history, end, Needed(t.unhealthy), false) && NoRecovery(t, history, end);
    }
    if Streak(history, |history|, Needed(t.unhealthy), false) {
      assert NoRecovery(t, history, |history|);
    }
  }

  /** For all thresholds and every history of outcomes. */
  lemma {:induction false} HealthFollowsHistory(t: Thresholds, history: seq<bool>)
    ensures Run(t, history).healthy <==> !Down(t, history)
  {
    if history == [] {
      assert forall end :: !Streak(history, end, Needed(t.unhealthy), false);
    } else {
      var last := |history| - 1;
      HealthFollowsHistory(t, history[..last]);
      if history[last] {
        CountersAreStreaks(t, history, Needed(t.healthy));
        SuccessStep(t, history);
      } else {
        CountersAreStreaks(t, history, Needed(t.unhealthy));
        FailureStep(t, history);
      }
    }
  }

  class TransportHealth {
    const healthyThreshold: int
    const unhealthyThreshold: int
    var healthy: bool
    var consecutiveSuccesses: nat
    var consecutiveFailures: nat

    constructor (healthyThreshold: int, unhealthyThreshold: int)
      ensures View() == INITIAL && Limits() == Thresholds(healthyThreshold, unhealthyThreshold)
    {
      this.healthyThreshold, this.unhealthyThreshold := healthyThreshold, unhealthyThreshold;
      healthy, consecutiveSuccesses, consecutiveFailures := true, 0, 0;
    }

    function View(): State
      reads this
    {
      State(healthy, consecutiveSuccesses, consecutiveFailures)
    }

    function Limits(): Thresholds {
      Thresholds(healthyThreshold, unhealthyThreshold)
    }

    method Record(ok: bool)
      modifies this
      ensures View() == Next(Limits(), old(View()), ok)
    {
      if ok {
        consecutiveSuccesses := consecutiveSuccesses + 1;
        consecutiveFailures := 0;
        if !healthy && consecutiveSuccesses >= healthyThreshold {
          healthy := true;
        }
      } else {
        consecutiveFailures := consecutiveFailures + 1;
        consecutiveSuccesses := 0;
        if healthy && consecutiveFailures >= unhealthyThreshold {
          healthy := false;
        }
      }
    }
  }

  /** A monitored transport after any sequence of checks. */
  method Monitor(t: Thresholds, outcomes: seq<bool>) returns (healthy: bool)
    ensures healthy <==> !Down(t, outcomes)
  {
    var th := new TransportHealth(t.healthy, t.unhealthy);
    for i := 0 to |outcomes|
      invariant th.View() == Run(t, outcomes[..i]) && th.Limits() == t && fresh(th)
    {
      assert outcomes[..i + 1][..i] == outcomes[..i];
      th.Record(outcomes[i]);
    }
    assert outcomes[..|outcomes|] == outcomes;
    HealthFollowsHistory(t, outcomes);
    return th.healthy;
  }
}
