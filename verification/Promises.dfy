/** Promise settlement and waiting, as the critical sections of the threads involved (promise.go). */
module Promises {
  type Payload = string

  datatype Outcome = Pending | Fulfilled(result: Payload) | Failed(err: Payload)

  /** The answer of one Await that had to wait. */
  datatype Answer = Got(outcome: Outcome) | GaveUp

  /**
   * Waiter channels are numbered in the order of registration. unregistered counts the Await calls that have read a
   * pending state and not yet registered; notifying is set between settling and swapping out the waiter list; taken is
   * what the notifier still has to close, closed what it has closed; cut is the number of channels at the swap.
   */
  datatype State = State(
    outcome: Outcome, waiters: seq<nat>, channels: nat, unregistered: nat,
    notifying: bool, swapped: bool, cut: nat, taken: seq<nat>, closed: seq<nat>, panicked: bool,
    answers: map<nat, Answer>)

  datatype Step =
    | AwaitCheck | AwaitRegister
    | Settle(outcome: Outcome) | SwapWaiters | CloseNext
    | Wake(channel: nat) | Cancel(channel: nat)

  function Initial(): State {
    State(Pending, [], 0, 0, false, false, 0, [], [], false, map[])
  }

  function Settled(s: State, outcome: Outcome): State {
    if s.outcome.Pending? && !outcome.Pending? then s.(outcome := outcome, notifying := true) else s
  }

  function Swapped(s: State): State {
    if s.notifying then s.(taken := s.taken + s.waiters, waiters := [], cut := s.channels, notifying := false, swapped := true)
    else s
  }

  /** Closing a closed channel panics. */
  function ClosedNext(s: State): State {
    if s.taken == [] then s
    else if s.taken[0] in s.closed then s.(panicked := true)
    else s.(closed := s.closed + [s.taken[0]], taken := s.taken[1..])
  }

  function Next(s: State, step: Step): State {
    match step
    case AwaitCheck => if s.outcome.Pending? then s.(unregistered := s.unregistered + 1) else s
    case AwaitRegister =>
      if s.unregistered == 0 then s
      else s.(unregistered := s.unregistered - 1, waiters := s.waiters + [s.channels], channels := s.channels + 1)
    case Settle(outcome) => Settled(s, outcome)
    case SwapWaiters => Swapped(s)
    case CloseNext => ClosedNext(s)
    case Wake(channel) =>
      if channel in s.closed && channel !in s.answers then s.(answers := s.answers[channel := Got(s.outcome)]) else s
    case Cancel(channel) =>
      if channel < s.channels && channel !in s.answers then s.(answers := s.answers[channel := GaveUp]) else s
  }

  function RunFrom(s: State, steps: seq<Step>): State {
    if steps == [] then s else Next(RunFrom(s, steps[..|steps| - 1]), steps[|steps| - 1])
  }

  function Run(steps: seq<Step>): State {
    RunFrom(Initial(), steps)
  }

  lemma {:induction false} RunFromConcat(s: State, steps: seq<Step>, more: seq<Step>)
    ensures RunFrom(s, steps + more) == RunFrom(RunFrom(s, steps), more)
  {
    if more == [] {
      assert steps + more == steps;
    } else {
      var last := |more| - 1;
      assert (steps + more)[..|steps + more| - 1] == steps + more[..last];
      RunFromConcat(s, steps, more[..last]);
    }
  }

  // ---------------------------------------------------------------- the invariant

  function UpTo(n: nat): (s: seq<nat>)
    ensures |s| == n
  {
    if n == 0 then [] else UpTo(n - 1) + [n - 1]
  }

  lemma {:induction false} UpToAt(n: nat, i: nat)
    requires i < n
    ensures UpTo(n)[i] == i
  {
    if i < n - 1 {
      UpToAt(n - 1, i);
    }
  }

  /** Every channel is in exactly one of the three lists, in the order of registration. */
  ghost predicate Accounted(s: State) {
    s.closed + s.taken + s.waiters == UpTo(s.channels)
  }

  /** Before the swap nothing is taken; afterwards exactly the channels below the cut are taken or closed. */
  ghost predicate Staged(s: State) {
    && s.cut <= s.channels
    && (s.outcome.Pending? <==> !s.notifying && !s.swapped)
    && !(s.notifying && s.swapped)
    && (if s.swapped then |s.closed| + |s.taken| == s.cut else s.closed == [] && s.taken == [])
  }

  /** Whoever was woken got the final outcome. */
  ghost predicate Answered(s: State) {
    forall channel :: channel in s.answers && s.answers[channel].Got? ==> s.answers[channel].outcome == s.outcome && !s.outcome.Pending?
  }

  ghost predicate Good(s: State) {
    Accounted(s) && Staged(s) && Answered(s) && !s.panicked
  }

  lemma AtPosition(s: State, i: nat)
    requires Accounted(s) && i < s.channels
    ensures i < |s.closed| ==> s.closed[i] == i
    ensures |s.closed| <= i < |s.closed| + |s.taken| ==> s.taken[i - |s.closed|] == i
    ensures |s.closed| + |s.taken| <= i ==> s.waiters[i - |s.closed| - |s.taken|] == i
  {
    UpToAt(s.channels, i);
    var all := s.closed + s.taken + s.waiters;
    assert all[i] == i;
  }

  /** A channel is closed exactly when its number is below the number of closed channels. */
  lemma ClosedAre(s: State, channel: nat)
    requires Accounted(s)
    ensures channel in s.closed <==> channel < |s.closed|
  {
    assert |s.closed + s.taken + s.waiters| == s.channels;
    if channel in s.closed {
      var i :| 0 <= i < |s.closed| && s.closed[i] == channel;
      AtPosition(s, i);
    }
    if channel < |s.closed| {
      AtPosition(s, channel);
    }
  }

  lemma CloseKeepsGood(s: State)
    requires Good(s)
    ensures Good(ClosedNext(s))
  {
    if s.taken != [] {
      assert |s.closed + s.taken + s.waiters| == s.channels;
      AtPosition(s, |s.closed|);
      ClosedAre(s, s.taken[0]);
      assert s.taken == [s.taken[0]] + s.taken[1..];
      assert (s.closed + [s.taken[0]]) + s.taken[1..] + s.waiters == s.closed + s.taken + s.waiters;
    }
  }

  lemma CloseMoves(s: State)
    requires Good(s) && s.taken != []
    ensures var r := ClosedNext(s); |r.taken| < |s.taken| && r.closed + r.taken == s.closed + s.taken
  {
    assert |s.closed + s.taken + s.waiters| == s.channels;
    AtPosition(s, |s.closed|);
    ClosedAre(s, s.taken[0]);
    assert s.taken == [s.taken[0]] + s.taken[1..];
  }

  lemma RegisterKeepsGood(s: State)
    requires Good(s)
    ensures Good(Next(s, AwaitRegister))
  {
    assert UpTo(s.channels + 1) == UpTo(s.channels) + [s.channels];
    assert s.closed + s.taken + (s.waiters + [s.channels]) == (s.closed + s.taken + s.waiters) + [s.channels];
  }

  lemma SwapKeepsGood(s: State)
    requires Good(s)
    ensures Good(Swapped(s))
  {
    if s.notifying {
      assert s.closed + (s.taken + s.waiters) + [] == s.closed + s.taken + s.waiters;
      assert |s.closed + s.taken + s.waiters| == s.channels;
    }
  }

  lemma StepKeepsGood(s: State, step: Step)
    requires Good(s)
    ensures Good(Next(s, step))
  {
    match step
    case AwaitRegister => RegisterKeepsGood(s);
    case SwapWaiters => SwapKeepsGood(s);
    case CloseNext => CloseKeepsGood(s);
    case Wake(channel) => ClosedAre(s, channel);
    case _ =>
  }

  /** In every interleaving: no channel closed twice, and every woken Await saw the settled outcome. */
  lemma {:induction false} RunIsGood(s: State, steps: seq<Step>)
    requires Good(s)
    ensures var r := RunFrom(s, steps); Good(r) && !r.panicked && |r.closed| <= r.channels
  {
    if steps != [] {
      RunIsGood(s, steps[..|steps| - 1]);
      StepKeepsGood(RunFrom(s, steps[..|steps| - 1]), steps[|steps| - 1]);
    }
    var r := RunFrom(s, steps);
    assert |r.closed + r.taken + r.waiters| == r.channels;
  }

  /** Only an Await whose context ended gives up; every other answer is the settled outcome. */
  lemma {:induction false} AnswersAre(steps: seq<Step>, channel: nat)
    requires channel in Run(steps).answers && Cancel(channel) !in steps
    ensures Run(steps).answers[channel] == Got(Run(steps).outcome) && !Run(steps).outcome.Pending?
  {
    RunIsGood(Initial(), steps);
    GivingUpIsCancelled(steps, channel);
  }

  lemma {:induction false} GivingUpIsCancelled(steps: seq<Step>, channel: nat)
    ensures channel in Run(steps).answers && Run(steps).answers[channel].GaveUp? ==> Cancel(channel) in steps
  {
    if steps != [] {
      var front, last := steps[..|steps| - 1], steps[|steps| - 1];
      GivingUpIsCancelled(front, channel);
      assert last in steps && forall step :: step in front ==> step in steps;
    }
  }

  /** A closed channel's Await, if it has not answered yet, answers with the outcome as soon as it runs. */
  lemma WakingAnswers(steps: seq<Step>, channel: nat)
    requires channel in Run(steps).closed && channel !in Run(steps).answers
    ensures var r := Next(Run(steps), Wake(channel));
      channel in r.answers && r.answers[channel] == Got(r.outcome) && !r.outcome.Pending?
  {
    RunIsGood(Initial(), steps);
    ClosedAre(Run(steps), channel);
  }

  // ---------------------------------------------------------------- what stays settled, who is woken

  /** The first settlement wins: neither the state nor the result changes afterwards, and nor does the cut. */
  lemma {:induction false} OutcomeIsFinal(s: State, more: seq<Step>)
    ensures !s.outcome.Pending? ==> RunFrom(s, more).outcome == s.outcome
    ensures s.swapped && !s.notifying && !s.outcome.Pending?
      ==> RunFrom(s, more).swapped && !RunFrom(s, more).notifying && RunFrom(s, more).cut == s.cut
  {
    if more != [] {
      OutcomeIsFinal(s, more[..|more| - 1]);
    }
  }

  /** Once the notifier is done, the closed channels are exactly those registered before the waiter list was swapped out. */
  lemma NotifierClosesExactly(steps: seq<Step>, channel: nat)
    requires var s := Run(steps); s.swapped && s.taken == [] && channel < s.channels
    ensures channel in Run(steps).closed <==> channel < Run(steps).cut
  {
    RunIsGood(Initial(), steps);
    ClosedAre(Run(steps), channel);
  }

  /** Settling, swapping and closing for as long as there is something to close. */
  function Notify(k: nat): seq<Step> {
    if k == 0 then [Settle(Fulfilled("")), SwapWaiters] else Notify(k - 1) + [CloseNext]
  }

  lemma NotifyUnfolds(s: State, k: nat)
    requires k > 0
    ensures RunFrom(s, Notify(k)) == ClosedNext(RunFrom(s, Notify(k - 1)))
  {
    assert Notify(k)[..|Notify(k)| - 1] == Notify(k - 1);
  }

  lemma NotifyStarts(s: State)
    requires Good(s)
    ensures var r := RunFrom(s, Notify(0));
      && Good(r) && r.swapped && r.channels == s.channels && r.closed == s.closed
      && r.cut == if s.swapped then s.cut else s.channels
  {
    var steps := Notify(0);
    assert steps[..1] == [Settle(Fulfilled(""))] && steps[..1][..0] == [];
    assert RunFrom(s, []) == s;
    assert RunFrom(s, steps[..1]) == Settled(s, Fulfilled(""));
    RunIsGood(s, steps);
  }

  /** The run went through the notifier and closed k more channels. */
  ghost predicate Notified(s: State, k: int, r: State) {
    && Good(r) && r.swapped && r.channels == s.channels
    && r.cut == (if s.swapped then s.cut else s.channels)
    && |r.closed| == |s.closed| + k
  }

  lemma CloseAdvances(s: State, k: nat, r: State)
    requires Notified(s, k, r) && |r.closed| < r.cut
    ensures Notified(s, k + 1, ClosedNext(r))
  {
    CloseKeepsGood(r);
  }

  lemma {:induction false} NotifyCloses(s: State, k: nat)
    requires Good(s)
    requires k <= (if s.swapped then s.cut else s.channels) - |s.closed|
    ensures Notified(s, k, RunFrom(s, Notify(k)))
    decreases k
  {
    if k == 0 {
      NotifyStarts(s);
    } else {
      NotifyCloses(s, k - 1);
      CloseAdvances(s, k - 1, RunFrom(s, Notify(k - 1)));
      NotifyUnfolds(s, k);
    }
  }

  /**
   * A registered waiter can still be woken if and only if it was registered before the swap: one that read a pending
   * state and registered too late waits until its context ends, however the run continues.
   */
  lemma WokenExactly(steps: seq<Step>, channel: nat)
    requires channel < Run(steps).channels
    ensures (exists more :: channel in Run(steps + more).closed)
      <==> (Run(steps).swapped ==> channel < Run(steps).cut)
  {
    var s := Run(steps);
    RunIsGood(Initial(), steps);
    forall more
      ensures Run(steps + more) == RunFrom(s, more)
    {
      RunFromConcat(Initial(), steps, more);
    }
    if s.swapped ==> channel < s.cut {
      var k := (if s.swapped then s.cut else s.channels) - |s.closed|;
      NotifyCloses(s, k);
      ClosedAre(RunFrom(s, Notify(k)), channel);
      assert channel in Run(steps + Notify(k)).closed;
    } else {
      forall more
        ensures channel !in Run(steps + more).closed
      {
        RunIsGood(s, more);
        OutcomeIsFinal(s, more);
        ClosedAre(RunFrom(s, more), channel);
      }
    }
  }

  /** Such a waiter exists: the two critical sections of Await let a whole settlement pass in between. */
  lemma WakeUpCanBeLost(outcome: Outcome, more: seq<Step>)
    requires !outcome.Pending?
    ensures var steps := [AwaitCheck, Settle(outcome), SwapWaiters, AwaitRegister];
      Run(steps).channels == 1 && Run(steps).swapped && 0 !in Run(steps + more).closed
  {
    var steps := [AwaitCheck, Settle(outcome), SwapWaiters, AwaitRegister];
    assert steps[..3] == [AwaitCheck, Settle(outcome), SwapWaiters];
    assert steps[..3][..2] == [AwaitCheck, Settle(outcome)];
    assert steps[..3][..2][..1] == [AwaitCheck] && [AwaitCheck][..0] == [];
    assert RunFrom(Initial(), []) == Initial();
    var checked := Next(Initial(), AwaitCheck);
    assert Run([AwaitCheck]) == checked;
    assert Run([AwaitCheck, Settle(outcome)]) == Settled(checked, outcome);
    assert Run(steps[..3]) == Swapped(Settled(checked, outcome));
    if 0 in Run(steps + more).closed {
      WokenExactly(steps, 0);
    }
  }

  // ---------------------------------------------------------------- the promise object

  datatype PromiseState = StatePending | StateResolved | StateRejected

  class Promise {
    var state: PromiseState
    var result: Payload
    var err: Payload
    var waiters: seq<nat>
    // the runtime's side: channels made, channels closed, and how far the threads have got
    var channels: nat
    var closed: seq<nat>
    var taken: seq<nat>
    var notifying: bool
    var panicked: bool
    ghost var unregistered: nat
    ghost var swapped: bool
    ghost var cut: nat
    ghost var answers: map<nat, Answer>

    constructor ()
      ensures View() == Initial()
    {
      state, result, err, waiters := StatePending, "", "", [];
      channels, closed, taken, notifying, panicked := 0, [], [], false, false;
      unregistered, swapped, cut, answers := 0, false, 0, map[];
    }

    function OutcomeNow(): Outcome
      reads this
    {
      match state
      case StatePending => Pending
      case StateResolved => Fulfilled(result)
      case StateRejected => Failed(err)
    }

    /** Already rejected during the shutdown, or still as it was, which must not be pending unless that is allowed. */
    ghost predicate Kept(before: Outcome, err: Payload, mayPend: bool)
      reads this
    {
      || (before.Pending? && OutcomeNow() == Failed(err))
      || (OutcomeNow() == before && (before.Pending? ==> mayPend))
    }

    ghost function View(): State
      reads this
    {
      State(OutcomeNow(), waiters, channels, unregistered, notifying, swapped, cut, taken, closed, panicked, answers)
    }

    /** The first critical section of Await. */
    method CheckState() returns (outcome: Outcome)
      modifies this
      ensures View() == Next(old(View()), AwaitCheck)
      ensures outcome == old(OutcomeNow())
    {
      if state == StatePending {
        unregistered := unregistered + 1;
      }
      return OutcomeNow();
    }

    /** The second critical section of Await. */
    method RegisterWaiter() returns (channel: nat)
      requires unregistered > 0
      modifies this
      ensures View() == Next(old(View()), AwaitRegister)
      ensures channel == old(channels)
    {
      channel := channels;
      channels, unregistered := channels + 1, unregistered - 1;
      waiters := waiters + [channel];
    }

    /** Await after its channel was closed: resolved gives the result, anything else the error. */
    method Woken(channel: nat) returns (ok: bool, value: Payload)
      requires Good(View()) && channel in closed && channel !in answers
      modifies this
      ensures View() == Next(old(View()), Wake(channel))
      ensures old(OutcomeNow()) == if ok then Fulfilled(value) else Failed(value)
      ensures answers == old(answers)[channel := Got(if ok then Fulfilled(value) else Failed(value))]
    {
      ClosedAre(View(), channel);
      answers := answers[channel := Got(OutcomeNow())];
      if state == StateResolved {
        return true, result;
      }
      return false, err;
    }

    method TrySettle(outcome: Outcome) returns (won: bool)
      requires !outcome.Pending?
      modifies this
      ensures View() == Next(old(View()), Settle(outcome))
      ensures won <==> old(state) == StatePending
    {
      if state != StatePending {
        return false;
      }
      match outcome {
        case Fulfilled(v) => state, result := StateResolved, v;
        case Failed(e) => state, err := StateRejected, e;
      }
      notifying := true;
      return true;
    }

    /** The notifier's critical section, then its loop, which closes what it took in order and nothing else. */
    method NotifyWaiters()
      requires Good(View()) && notifying
      modifies this
      ensures Good(View()) && OutcomeNow() == old(OutcomeNow())
      ensures closed == old(closed) + old(taken) + old(waiters) && taken == [] && waiters == []
      ensures swapped && !notifying && cut == channels == old(channels)
    {
      SwapKeepsGood(View());
      taken, waiters, notifying := taken + waiters, [], false;
      swapped, cut := true, channels;
      ghost var all := closed + taken;
      while taken != []
        invariant Good(View()) && OutcomeNow() == old(OutcomeNow())
        invariant closed + taken == all && waiters == []
        invariant swapped && !notifying && cut == channels == old(channels)
        decreases |taken|
      {
        CloseKeepsGood(View());
        CloseMoves(View());
        CloseOne();
      }
    }

    method CloseOne()
      requires taken != []
      modifies this
      ensures View() == Next(old(View()), CloseNext)
    {
      if taken[0] in closed {
        panicked := true;
      } else {
        closed, taken := closed + [taken[0]], taken[1..];
      }
    }

    /** resolve and reject: the first one wins and wakes everybody registered by then; later ones change nothing. */
    method SettleAndNotify(outcome: Outcome)
      requires Good(View()) && !outcome.Pending?
      modifies this
      ensures Good(View())
      ensures OutcomeNow() == if old(state) == StatePending then outcome else old(OutcomeNow())
      ensures old(state) == StatePending ==> waiters == [] && taken == [] && |closed| == channels == old(channels)
      ensures old(state) != StatePending ==> View() == old(View())
    {
      StepKeepsGood(View(), Settle(outcome));
      var won := TrySettle(outcome);
      if won {
        NotifyWaiters();
      }
    }
  }

  // ---------------------------------------------------------------- the table of promises

  /** The table only compares export ids, so it is the same for any type of them. */
  class PromiseResolver<Id(==, !new)> {
    var promises: map<Id, Promise>

    constructor ()
      ensures promises == map[]
    {
      promises := map[];
    }

    method RegisterPromise(exportID: Id, promise: Promise)
      modifies this
      ensures promises == old(promises)[exportID := promise]
    {
      promises := promises[exportID := promise];
    }

    /** ResolvePromise and RejectPromise: the entry goes away and its promise is settled, unless it already was. */
    method SettlePromise(exportID: Id, outcome: Outcome) returns (found: bool)
      requires !outcome.Pending? && (forall id :: id in promises ==> Good(promises[id].View()))
      modifies this, promises.Values
      ensures found <==> exportID in old(promises)
      ensures promises == map id | id in old(promises) && id != exportID :: old(promises)[id]
      ensures found ==> var p := old(promises)[exportID];
        && Good(p.View())
        && p.OutcomeNow() == if old(p.OutcomeNow()).Pending? then outcome else old(p.OutcomeNow())
      ensures forall p :: p in old(promises.Values) && (found ==> p != old(promises)[exportID]) ==> p.View() == old(p.View())
    {
      found := exportID in promises;
      if found {
        var promise := promises[exportID];
        promises := map id | id in promises && id != exportID :: promises[id];
        promise.SettleAndNotify(outcome);
      }
    }

    /** Shutting down empties the table and leaves no promise in it pending; those already settled keep their outcome. */
    method CleanupPromises(err: Payload)
      requires forall id :: id in promises ==> Good(promises[id].View())
      modifies this, promises.Values
      ensures promises == map[]
      ensures forall id :: id in old(promises) ==> var p := old(promises)[id];
        && Good(p.View())
        && p.OutcomeNow() == if old(p.OutcomeNow()).Pending? then Failed(err) else old(p.OutcomeNow())
    {
      var taken := promises;
      promises := map[];
      RejectAll(taken, err);
    }
  }

  method RejectAll<Id(!new)>(taken: map<Id, Promise>, err: Payload)
    requires forall id :: id in taken ==> Good(taken[id].View())
    modifies taken.Values
    ensures forall id :: id in taken ==> Good(taken[id].View()) && taken[id].Kept(old(taken[id].OutcomeNow()), err, false)
  {
    var remaining := taken.Keys;
    while remaining != {}
      invariant remaining <= taken.Keys
      invariant forall id :: id in taken ==> Good(taken[id].View())
      invariant forall id :: id in taken ==> taken[id].Kept(old(taken[id].OutcomeNow()), err, id in remaining)
      decreases remaining
    {
      var id :| id in remaining;
      remaining := remaining - {id};
      taken[id].SettleAndNotify(Failed(err));
    }
  }
}
