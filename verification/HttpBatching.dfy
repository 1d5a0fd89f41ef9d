/** The batching transport as interleaved critical sections: senders, processor, timers and Close (http_transport.go). */
module HttpBatching {
  import opened Wrappers

  type Message = string

  const QUEUE_CAPACITY: nat := 1000

  /**
   * accepted lists the messages for which Send returned nil, dispatched the batches handed to a sending goroutine.
   * checked counts senders that have seen an open transport and not yet touched the channel; inHand is the message the
   * processor has received and not yet added to the batch; fired are timers whose callback has not got the lock yet.
   */
  datatype Transport = Transport(
    batchSize: int, outbound: seq<Message>, closed: bool, closing: bool, checked: nat, panicked: bool,
    inHand: Option<Message>, exited: bool,
    batch: seq<Message>, batchTimer: Option<nat>, active: set<nat>, fired: set<nat>, nextTimer: nat,
    accepted: seq<Message>, dispatched: seq<seq<Message>>)

  datatype Step =
    | SendCheck | SendPush(data: Message) | SendAbandon
    | CloseBegin | CloseFlush
    | ProcessorReceive | ProcessorAppend | ProcessorExit
    | TimerFires(timer: nat) | TimerCallback(timer: nat)

  function Initial(batchSize: int): Transport {
    Transport(batchSize, [], false, false, 0, false, None, false, [], None, {}, {}, 0, [], [])
  }

  // ---------------------------------------------------------------- the critical sections

  function Pushed(t: Transport, data: Message): Transport {
    if t.checked == 0 then t
    else if t.closed then t.(checked := t.checked - 1, panicked := true)
    else if |t.outbound| >= QUEUE_CAPACITY then t.(checked := t.checked - 1)
    else t.(checked := t.checked - 1, outbound := t.outbound + [data], accepted := t.accepted + [data])
  }

  function BatchSent(t: Transport): Transport {
    if t.batch == [] then t
    else t.(dispatched := t.dispatched + [t.batch], batch := [], batchTimer := None,
            active := if t.batchTimer.Some? then t.active - {t.batchTimer.value} else t.active)
  }

  /** The message moves from the hand to the batch. */
  function TakenUp(t: Transport): Transport
    requires t.inHand.Some?
  {
    t.(batch := t.batch + [t.inHand.value], inHand := None)
  }

  function Appended(t: Transport): Transport {
    if t.inHand.None? then t
    else
      var a := TakenUp(t);
      if |a.batch| >= a.batchSize then BatchSent(a)
      else if |a.batch| == 1 then
        a.(batchTimer := Some(a.nextTimer), active := a.active + {a.nextTimer}, nextTimer := a.nextTimer + 1)
      else a
  }

  function Received(t: Transport): Transport {
    if t.exited || t.inHand.Some? || t.outbound == [] then t
    else t.(inHand := Some(t.outbound[0]), outbound := t.outbound[1..])
  }

  function Exited(t: Transport): Transport {
    if t.exited || t.inHand.Some? || t.outbound != [] || !t.closed then t
    else BatchSent(t).(exited := true)
  }

  function Fired(t: Transport, timer: nat): Transport {
    if timer !in t.active then t else t.(active := t.active - {timer}, fired := t.fired + {timer})
  }

  function CalledBack(t: Transport, timer: nat): Transport {
    if timer !in t.fired then t else BatchSent(t.(fired := t.fired - {timer}))
  }

  /** A step whose thread is not at that point does nothing, and nothing happens after a panic. */
  function Next(t: Transport, step: Step): Transport {
    if t.panicked then t
    else match step
      case SendCheck => if t.closed then t else t.(checked := t.checked + 1)
      case SendPush(data) => Pushed(t, data)
      case SendAbandon => if t.checked == 0 then t else t.(checked := t.checked - 1)
      case CloseBegin => if t.closed then t else t.(closed := true, closing := true)
      case CloseFlush => if t.closing then BatchSent(t).(closing := false) else t
      case ProcessorReceive => Received(t)
      case ProcessorAppend => Appended(t)
      case ProcessorExit => Exited(t)
      case TimerFires(timer) => Fired(t, timer)
      case TimerCallback(timer) => CalledBack(t, timer)
  }

  function Run(batchSize: int, steps: seq<Step>): Transport {
    if steps == [] then Initial(batchSize) else Next(Run(batchSize, steps[..|steps| - 1]), steps[|steps| - 1])
  }

  // ---------------------------------------------------------------- the invariant

  function Flatten(batches: seq<seq<Message>>): seq<Message> {
    if batches == [] then [] else Flatten(batches[..|batches| - 1]) + batches[|batches| - 1]
  }

  function InHand(t: Transport): seq<Message> {
    if t.inHand.Some? then [t.inHand.value] else []
  }

  function LargestBatch(batchSize: int): int {
    if batchSize < 1 then 1 else batchSize
  }

  /** Every accepted message is in exactly one place, in the order of acceptance. */
  ghost predicate Conserved(t: Transport) {
    Flatten(t.dispatched) + t.batch + InHand(t) + t.outbound == t.accepted
  }

  ghost predicate Sized(t: Transport) {
    && (forall i :: 0 <= i < |t.dispatched| ==> 1 <= |t.dispatched[i]| <= LargestBatch(t.batchSize))
    && |t.batch| < LargestBatch(t.batchSize)
    && |t.outbound| <= QUEUE_CAPACITY
  }

  /** An open batch always has its own timer, still armed or with its callback on the way; no other timer is armed. */
  ghost predicate Timed(t: Transport) {
    && (t.batchTimer.Some? <==> t.batch != [])
    && (t.batchTimer.Some? ==> t.batchTimer.value in t.active || t.batchTimer.value in t.fired)
    && (forall timer :: timer in t.active ==> t.batchTimer == Some(timer) && timer !in t.fired)
    && (forall timer :: timer in t.active || timer in t.fired ==> timer < t.nextTimer)
  }

  ghost predicate Drained(t: Transport) {
    && (t.closing ==> t.closed)
    && (t.exited ==> t.closed && t.outbound == [] && t.inHand.None? && t.batch == [])
  }

  ghost predicate Good(t: Transport) {
    Conserved(t) && Sized(t) && Timed(t) && Drained(t)
  }

  lemma FlattenStep(batches: seq<seq<Message>>, batch: seq<Message>)
    ensures Flatten(batches + [batch]) == Flatten(batches) + batch
  {
    assert (batches + [batch])[..|batches|] == batches;
  }

  lemma SendBatchKeepsShape(t: Transport)
    requires Sized(t) && Timed(t) && Drained(t)
    ensures Sized(BatchSent(t)) && Timed(BatchSent(t)) && Drained(BatchSent(t)) && BatchSent(t).batch == []
  {
  }

  lemma TakeUpConserves(t: Transport)
    requires Conserved(t) && t.inHand.Some?
    ensures Conserved(TakenUp(t))
  {
    var f, b, m := Flatten(t.dispatched), t.batch, [t.inHand.value];
    assert f + (b + m) + [] + t.outbound == f + b + m + t.outbound;
  }

  lemma SendConserves(t: Transport)
    requires Conserved(t)
    ensures Conserved(BatchSent(t))
  {
    FlattenStep(t.dispatched, t.batch);
  }

  lemma AppendConserves(t: Transport)
    requires Conserved(t)
    ensures Conserved(Appended(t))
  {
    if t.inHand.Some? {
      TakeUpConserves(t);
      SendConserves(TakenUp(t));
    }
  }

  lemma AppendKeepsSized(t: Transport)
    requires Sized(t)
    ensures Sized(Appended(t))
  {
  }

  lemma AppendKeepsDrained(t: Transport)
    requires Drained(t)
    ensures Drained(Appended(t))
  {
  }

  lemma AppendKeepsTimed(t: Transport)
    requires Timed(t)
    ensures Timed(Appended(t))
  {
  }

  lemma ReceiveKeepsGood(t: Transport)
    requires Good(t)
    ensures Good(Received(t))
  {
    if t.outbound != [] {
      assert t.outbound == [t.outbound[0]] + t.outbound[1..];
    }
  }

  lemma PushKeepsGood(t: Transport, data: Message)
    requires Good(t)
    ensures Good(Pushed(t, data))
  {
    var before := Flatten(t.dispatched) + t.batch + InHand(t);
    assert before + (t.outbound + [data]) == (before + t.outbound) + [data];
  }

  lemma TimersKeepGood(t: Transport, timer: nat)
    requires Good(t)
    ensures Good(Fired(t, timer)) && Good(CalledBack(t, timer))
  {
    if timer in t.fired && t.batch != [] {
      FlattenStep(t.dispatched, t.batch);
    }
  }

  lemma CheckKeepsGood(t: Transport)
    requires Good(t)
    ensures Good(Next(t, SendCheck)) && Good(Next(t, SendAbandon)) && Good(Next(t, CloseBegin))
  {
  }

  lemma FlushKeepsGood(t: Transport)
    requires Good(t)
    ensures Good(Next(t, CloseFlush)) && Good(Exited(t))
  {
    SendConserves(t);
    SendBatchKeepsShape(t);
  }

  lemma StepKeepsGood(t: Transport, step: Step)
    requires Good(t)
    ensures Good(Next(t, step))
  {
    match step
    case SendCheck => CheckKeepsGood(t);
    case SendPush(data) => PushKeepsGood(t, data);
    case SendAbandon => CheckKeepsGood(t);
    case CloseBegin => CheckKeepsGood(t);
    case CloseFlush => FlushKeepsGood(t);
    case ProcessorReceive => ReceiveKeepsGood(t);
    case ProcessorAppend => AppendConserves(t); AppendKeepsSized(t); AppendKeepsTimed(t); AppendKeepsDrained(t);
    case ProcessorExit => FlushKeepsGood(t);
    case TimerFires(timer) => TimersKeepGood(t, timer);
    case TimerCallback(timer) => TimersKeepGood(t, timer);
  }

  lemma StepKeepsBatchSize(t: Transport, step: Step)
    ensures Next(t, step).batchSize == t.batchSize
  {
    assert BatchSent(t).batchSize == t.batchSize;
  }

  /** In every interleaving, stale callbacks and racing Close calls included. */
  lemma {:induction false} RunIsGood(batchSize: int, steps: seq<Step>)
    ensures Good(Run(batchSize, steps)) && Run(batchSize, steps).batchSize == batchSize
  {
    if steps != [] {
      RunIsGood(batchSize, steps[..|steps| - 1]);
      StepKeepsGood(Run(batchSize, steps[..|steps| - 1]), steps[|steps| - 1]);
      StepKeepsBatchSize(Run(batchSize, steps[..|steps| - 1]), steps[|steps| - 1]);
    }
  }

  /** Once the processor has exited, everything ever accepted has been dispatched, each message once and in order. */
  lemma AllDispatchedOnExit(batchSize: int, steps: seq<Step>)
    ensures var t := Run(batchSize, steps); t.exited ==> Flatten(t.dispatched) == t.accepted
  {
    RunIsGood(batchSize, steps);
  }

  /** When Close returns, everything accepted has been dispatched if and only if the processor had caught up by then. */
  lemma CloseFlushesExactly(batchSize: int, steps: seq<Step>)
    requires Run(batchSize, steps).closing && !Run(batchSize, steps).panicked
    ensures var t := Run(batchSize, steps);
      var r := Next(t, CloseFlush);
      Flatten(r.dispatched) == r.accepted <==> t.outbound == [] && t.inHand.None?
  {
    RunIsGood(batchSize, steps);
    FlushedExactly(Run(batchSize, steps));
  }

  lemma FlushedExactly(t: Transport)
    requires Conserved(t)
    ensures Flatten(BatchSent(t).dispatched) == t.accepted <==> t.outbound == [] && t.inHand.None?
  {
    SendFlattens(t);
    PrefixIsAll(Flatten(t.dispatched) + t.batch, InHand(t), t.outbound);
  }

  lemma SendFlattens(t: Transport)
    ensures Flatten(BatchSent(t).dispatched) == Flatten(t.dispatched) + t.batch
  {
    FlattenStep(t.dispatched, t.batch);
  }

  lemma PrefixIsAll<T>(a: seq<T>, b: seq<T>, c: seq<T>)
    ensures a == a + b + c <==> b == [] && c == []
  {
    assert |a + b + c| == |a| + |b| + |c|;
  }

  /** No open batch is ever forgotten: running its own timer's callback dispatches all of it. */
  lemma TimerDispatchesBatch(batchSize: int, steps: seq<Step>)
    requires var t := Run(batchSize, steps); t.batch != [] && !t.panicked
    ensures var t := Run(batchSize, steps);
      && t.batchTimer.Some?
      && var r := Next(Next(t, TimerFires(t.batchTimer.value)), TimerCallback(t.batchTimer.value));
         r.dispatched == t.dispatched + [t.batch] && r.batch == [] && r.batchTimer.None?
  {
    RunIsGood(batchSize, steps);
  }

  // ---------------------------------------------------------------- how long batches are

  /** The processor dispatches exactly when the message makes the batch as long as BatchSize says, and then all of it. */
  lemma FullBatchIsDispatched(t: Transport)
    requires !t.panicked && t.inHand.Some?
    ensures var r, all := Next(t, ProcessorAppend), t.batch + [t.inHand.value];
      if |t.batch| + 1 >= t.batchSize then r.dispatched == t.dispatched + [all] && r.batch == []
      else r.dispatched == t.dispatched && r.batch == all
  {
  }

  /** In every run, what the processor dispatches on adding a message has exactly BatchSize messages, at least one. */
  lemma FullBatchHasBatchSize(batchSize: int, steps: seq<Step>)
    ensures var t := Run(batchSize, steps); var r := Next(t, ProcessorAppend);
      r.dispatched == t.dispatched
        || exists b :: r.dispatched == t.dispatched + [b] && |b| == if batchSize < 1 then 1 else batchSize
  {
    var t := Run(batchSize, steps);
    RunIsGood(batchSize, steps);
    if !t.panicked && t.inHand.Some? {
      FullBatchIsDispatched(t);
    }
  }

  predicate Flushes(step: Step) {
    step.TimerCallback? || step.CloseFlush? || step.ProcessorExit?
  }

  /** The i-th batch went out at the k-th step. */
  ghost predicate LeftAt(batchSize: int, steps: seq<Step>, i: nat, k: nat)
    requires k < |steps|
  {
    |Run(batchSize, steps[..k]).dispatched| == i < |Run(batchSize, steps[..k + 1]).dispatched|
  }

  ghost predicate LeftAtFlush(batchSize: int, steps: seq<Step>, i: nat) {
    exists k :: 0 <= k < |steps| && Flushes(steps[k]) && LeftAt(batchSize, steps, i, k)
  }

  lemma LeftEarlier(batchSize: int, steps: seq<Step>, i: nat)
    requires steps != [] && LeftAtFlush(batchSize, steps[..|steps| - 1], i)
    ensures LeftAtFlush(batchSize, steps, i)
  {
    var front := steps[..|steps| - 1];
    var k :| 0 <= k < |front| && Flushes(front[k]) && LeftAt(batchSize, front, i, k);
    assert front[..k] == steps[..k] && front[..k + 1] == steps[..k + 1];
    assert Flushes(steps[k]) && LeftAt(batchSize, steps, i, k);
  }

  /** Only a timer, Close and the processor's exit dispatch anything besides full batches; no other step dispatches at all. */
  lemma DispatchedByStep(batchSize: int, front: seq<Step>, step: Step)
    ensures var t := Run(batchSize, front); var r := Next(t, step);
      || r.dispatched == t.dispatched
      || (Flushes(step) && exists b :: r.dispatched == t.dispatched + [b])
      || (step.ProcessorAppend? && exists b :: r.dispatched == t.dispatched + [b] && |b| == LargestBatch(batchSize))
  {
    var t := Run(batchSize, front);
    if step.ProcessorAppend? {
      FullBatchHasBatchSize(batchSize, front);
    } else if Flushes(step) && Next(t, step).dispatched != t.dispatched {
      assert Next(t, step).dispatched == t.dispatched + [t.batch];
    }
  }

  /** In every run, a batch shorter than BatchSize went out at a timer's callback, at Close or at the processor's exit. */
  lemma {:induction false} ShortBatchesAreFlushed(batchSize: int, steps: seq<Step>, i: nat)
    requires i < |Run(batchSize, steps).dispatched|
    ensures |Run(batchSize, steps).dispatched[i]| == LargestBatch(batchSize) || LeftAtFlush(batchSize, steps, i)
  {
    var last := |steps| - 1;
    var front, t := steps[..last], Run(batchSize, steps[..last]);
    DispatchedByStep(batchSize, front, steps[last]);
    if i < |t.dispatched| {
      ShortBatchesAreFlushed(batchSize, front, i);
      if LeftAtFlush(batchSize, front, i) {
        LeftEarlier(batchSize, steps, i);
      }
    } else if Flushes(steps[last]) {
      assert steps[..last + 1] == steps;
      assert LeftAt(batchSize, steps, i, last);
    }
  }

  /** Without any of these, every batch has exactly BatchSize messages. */
  lemma UnflushedBatchesAreFull(batchSize: int, steps: seq<Step>, i: nat)
    requires i < |Run(batchSize, steps).dispatched| && forall k :: 0 <= k < |steps| ==> !Flushes(steps[k])
    ensures |Run(batchSize, steps).dispatched[i]| == if batchSize < 1 then 1 else batchSize
  {
    ShortBatchesAreFlushed(batchSize, steps, i);
  }

  // ---------------------------------------------------------------- Send racing Close

  /** A step can panic only by touching the closed channel with a sender past its check. */
  lemma StepPanicsExactly(t: Transport, step: Step)
    requires !t.panicked
    ensures Next(t, step).panicked <==> step.SendPush? && t.closed && t.checked > 0
  {
    assert !BatchSent(t).panicked;
  }

  lemma {:induction false} StaysQuiet(batchSize: int, steps: seq<Step>, more: seq<Step>)
    requires var t := Run(batchSize, steps); !t.panicked && t.closed && t.checked == 0
    ensures var t := Run(batchSize, steps + more); !t.panicked && t.closed && t.checked == 0
  {
    if more == [] {
      assert steps + more == steps;
    } else {
      var last := |more| - 1;
      assert steps + more == (steps + more[..last]) + [more[last]];
      StaysQuiet(batchSize, steps, more[..last]);
      RunOfOneMore(batchSize, steps + more[..last], more[last]);
      QuietStep(Run(batchSize, steps + more[..last]), more[last]);
    }
  }

  /**
   * Once closed, the program can still come down in some continuation if and only if a sender passed its check before
   * Close and has not touched the channel yet. While the transport is open it always can.
   */
  lemma PanicsExactly(batchSize: int, steps: seq<Step>)
    requires !Run(batchSize, steps).panicked
    ensures var t := Run(batchSize, steps);
      (exists more :: Run(batchSize, steps + more).panicked) <==> (t.closed ==> t.checked > 0)
  {
    var t := Run(batchSize, steps);
    if t.closed && t.checked == 0 {
      forall more
        ensures !Run(batchSize, steps + more).panicked
      {
        StaysQuiet(batchSize, steps, more);
      }
    } else if t.closed {
      RunOfOneMore(batchSize, steps, SendPush([]));
      assert Run(batchSize, steps + [SendPush([])]).panicked;
    } else {
      CanPanicFromOpen(batchSize, steps);
    }
  }

  lemma CanPanicFromOpen(batchSize: int, steps: seq<Step>)
    requires !Run(batchSize, steps).panicked && !Run(batchSize, steps).closed
    ensures Run(batchSize, steps + [SendCheck, CloseBegin, SendPush([])]).panicked
  {
    RunOfOneMore(batchSize, steps, SendCheck);
    RunOfOneMore(batchSize, steps + [SendCheck], CloseBegin);
    RunOfOneMore(batchSize, steps + [SendCheck] + [CloseBegin], SendPush([]));
    assert steps + [SendCheck, CloseBegin, SendPush([])] == steps + [SendCheck] + [CloseBegin] + [SendPush([])];
  }

  /** Such a run exists: the two halves of Send are separate critical sections. */
  lemma SendCanRaceClose(batchSize: int, data: Message)
    ensures Run(batchSize, [SendCheck, CloseBegin, SendPush(data)]).panicked
  {
    var steps := [SendCheck, CloseBegin, SendPush(data)];
    assert steps[..2] == [SendCheck, CloseBegin] && steps[..2][..1] == [SendCheck] && [SendCheck][..0] == [];
    assert Run(batchSize, []) == Initial(batchSize);
    assert Run(batchSize, [SendCheck]) == Next(Initial(batchSize), SendCheck);
    assert Run(batchSize, [SendCheck, CloseBegin]) == Next(Next(Initial(batchSize), SendCheck), CloseBegin);
  }

  /** No sender is between its check and the channel when Close begins. */
  ghost predicate Quiet(batchSize: int, steps: seq<Step>) {
    forall i :: 0 <= i < |steps| && steps[i] == CloseBegin ==> QuietAt(batchSize, steps, i)
  }

  ghost predicate QuietAt(batchSize: int, steps: seq<Step>, i: nat)
    requires i < |steps|
  {
    Run(batchSize, steps[..i]).checked == 0 || Run(batchSize, steps[..i]).closed
  }

  /** If no sender is in between whenever Close begins, no run panics. */
  lemma {:induction false} QuietRunsNeverPanic(batchSize: int, steps: seq<Step>)
    requires Quiet(batchSize, steps)
    ensures var t := Run(batchSize, steps); !t.panicked && (t.closed ==> t.checked == 0)
  {
    if steps != [] {
      var last := |steps| - 1;
      var front := steps[..last];
      forall i | 0 <= i < |front| && front[i] == CloseBegin
        ensures QuietAt(batchSize, front, i)
      {
        assert QuietAt(batchSize, steps, i);
        assert front[..i] == steps[..i];
      }
      QuietRunsNeverPanic(batchSize, front);
      QuietStep(Run(batchSize, front), steps[last]);
      if steps[last] == CloseBegin {
        assert QuietAt(batchSize, steps, last);
      }
    }
  }

  lemma QuietStep(t: Transport, step: Step)
    requires !t.panicked && (t.closed ==> t.checked == 0)
    ensures !Next(t, step).panicked && (t.closed ==> Next(t, step).closed)
    ensures Next(t, step).closed ==> Next(t, step).checked == 0 || (step == CloseBegin && !t.closed)
    ensures step == CloseBegin ==> Next(t, step).checked == t.checked
  {
    StepPanicsExactly(t, step);
    assert BatchSent(t).checked == t.checked && BatchSent(t).closed == t.closed && BatchSent(t).panicked == t.panicked;
  }

  // ---------------------------------------------------------------- stale callbacks

  /**
   * A callback that lost the race for the lock dispatches whatever batch is open by then, before that batch's own time
   * is up, and its timer is stopped.
   */
  lemma StaleCallbackCutsBatchShort(t: Transport, timer: nat)
    requires Good(t) && !t.panicked && timer in t.fired && t.batchTimer.Some? && t.batchTimer != Some(timer)
    ensures var r := Next(t, TimerCallback(timer));
      && r.dispatched == t.dispatched + [t.batch]
      && t.batchTimer.value !in r.active && r.batchTimer.None?
  {
  }

  /** One message on its way from Send to the batch, with nothing else happening. */
  function Feed(data: Message): seq<Step> {
    [SendCheck, SendPush(data), ProcessorReceive, ProcessorAppend]
  }

  ghost predicate Ready(t: Transport) {
    !t.closed && !t.panicked && !t.exited && t.outbound == [] && t.inHand.None? && t.checked == 0
  }

  function Fed(t: Transport, data: Message): Transport {
    Appended(t.(accepted := t.accepted + [data], inHand := Some(data)))
  }

  lemma RunOfOneMore(batchSize: int, steps: seq<Step>, step: Step)
    ensures Run(batchSize, steps + [step]) == Next(Run(batchSize, steps), step)
  {
    assert (steps + [step])[..|steps|] == steps;
  }

  lemma FeedSteps(t: Transport, data: Message)
    requires Ready(t)
    ensures Next(Next(Next(Next(t, SendCheck), SendPush(data)), ProcessorReceive), ProcessorAppend) == Fed(t, data)
    ensures Ready(Fed(t, data))
  {
  }

  lemma FeedRuns(batchSize: int, steps: seq<Step>, data: Message)
    requires Ready(Run(batchSize, steps))
    ensures Run(batchSize, steps + Feed(data)) == Fed(Run(batchSize, steps), data)
    ensures Ready(Run(batchSize, steps + Feed(data)))
  {
    RunOfOneMore(batchSize, steps, SendCheck);
    RunOfOneMore(batchSize, steps + [SendCheck], SendPush(data));
    RunOfOneMore(batchSize, steps + [SendCheck] + [SendPush(data)], ProcessorReceive);
    RunOfOneMore(batchSize, steps + [SendCheck] + [SendPush(data)] + [ProcessorReceive], ProcessorAppend);
    assert steps + Feed(data) == steps + [SendCheck] + [SendPush(data)] + [ProcessorReceive] + [ProcessorAppend];
    FeedSteps(Run(batchSize, steps), data);
  }

  /** The timer of a first message fires just before a second one fills the batch; the callback meets a third message. */
  lemma StaleCallbackHappens(a: Message, b: Message, c: Message)
    ensures var t := Run(2, Feed(a) + [TimerFires(0)] + Feed(b) + Feed(c));
      && Good(t) && !t.panicked && 0 in t.fired && t.batchTimer == Some(1)
      && t.dispatched == [[a, b]] && t.batch == [c]
  {
    assert Run(2, []) == Initial(2);
    assert [] + Feed(a) == Feed(a);
    FeedRuns(2, [], a);
    var first := Run(2, Feed(a));
    assert first.batch == [a] && first.batchTimer == Some(0) && first.active == {0};
    RunOfOneMore(2, Feed(a), TimerFires(0));
    FeedRuns(2, Feed(a) + [TimerFires(0)], b);
    var second := Run(2, Feed(a) + [TimerFires(0)] + Feed(b));
    assert [a] + [b] == [a, b];
    assert second.dispatched == [[a, b]] && second.batch == [] && second.batchTimer.None?;
    FeedRuns(2, Feed(a) + [TimerFires(0)] + Feed(b), c);
    RunIsGood(2, Feed(a) + [TimerFires(0)] + Feed(b) + Feed(c));
  }

  // ---------------------------------------------------------------- the transport object

  class HTTPBatchTransport {
    const batchSize: int
    var outbound: seq<Message>
    var closed: bool
    var batch: seq<Message>
    var batchTimer: Option<nat>
    // the runtime's side: armed timers, callbacks waiting for the lock, and the goroutines' positions
    var active: set<nat>
    var fired: set<nat>
    var nextTimer: nat
    var closing: bool
    var checked: nat
    var panicked: bool
    var inHand: Option<Message>
    var exited: bool
    var dispatched: seq<seq<Message>>
    ghost var accepted: seq<Message>

    constructor (batchSize: int)
      ensures View() == Initial(batchSize)
    {
      this.batchSize, outbound, closed, batch, batchTimer := batchSize, [], false, [], None;
      active, fired, nextTimer, closing, checked, panicked := {}, {}, 0, false, 0, false;
      inHand, exited, dispatched, accepted := None, false, [], [];
    }

    ghost function View(): Transport
      reads this
    {
      Transport(batchSize, outbound, closed, closing, checked, panicked, inHand, exited, batch, batchTimer, active, fired,
                nextTimer, accepted, dispatched)
    }

    /** The first half of Send. */
    method CheckOpen() returns (open: bool)
      requires !panicked
      modifies this
      ensures View() == Next(old(View()), SendCheck)
      ensures open <==> !old(closed)
    {
      if closed {
        return false;
      }
      checked := checked + 1;
      return true;
    }

    /** The second half: sending on the closed channel panics, and a full queue refuses the message. */
    method Enqueue(data: Message) returns (ok: bool)
      requires !panicked && checked > 0
      modifies this
      ensures View() == Next(old(View()), SendPush(data))
      ensures ok <==> !closed && |old(outbound)| < QUEUE_CAPACITY
      ensures accepted == old(accepted) + if ok then [data] else []
      ensures panicked <==> closed
    {
      checked := checked - 1;
      if closed {
        panicked := true;
        return false;
      }
      if |outbound| >= QUEUE_CAPACITY {
        return false;
      }
      outbound := outbound + [data];
      accepted := accepted + [data];
      return true;
    }

    method BeginClose()
      requires !panicked
      modifies this
      ensures View() == Next(old(View()), CloseBegin)
      ensures closed && (!old(closed) ==> closing)
    {
      if closed {
        return;
      }
      closed := true;
      closing := true;
    }

    method EndClose()
      requires !panicked && closing
      modifies this
      ensures View() == Next(old(View()), CloseFlush)
      ensures batch == [] && !closing && dispatched == old(dispatched) + if old(batch) == [] then [] else [old(batch)]
    {
      SendBatch();
      closing := false;
    }

    /** One round of the processor loop up to the lock; false when the channel is closed and empty, after the last flush. */
    method ReceiveNext() returns (more: bool)
      requires !panicked && !exited && inHand.None? && (outbound != [] || closed)
      modifies this
      ensures more <==> old(outbound) != []
      ensures View() == Next(old(View()), if more then ProcessorReceive else ProcessorExit)
      ensures if more then !exited && inHand == Some(old(outbound)[0]) else exited && batch == []
    {
      if outbound == [] {
        SendBatch();
        exited := true;
        return false;
      }
      inHand, outbound := Some(outbound[0]), outbound[1..];
      return true;
    }

    method AppendToBatch()
      requires !panicked && inHand.Some?
      modifies this
      ensures View() == Next(old(View()), ProcessorAppend)
      ensures var all := old(batch) + [old(inHand).value];
        && dispatched == old(dispatched) + (if |all| >= batchSize then [all] else [])
        && batch == if |all| >= batchSize then [] else all
    {
      batch, inHand := batch + [inHand.value], None;
      if |batch| >= batchSize {
        SendBatch();
      } else if |batch| == 1 {
        batchTimer := Some(nextTimer);
        active := active + {nextTimer};
        nextTimer := nextTimer + 1;
      }
    }

    method OnTimer(timer: nat)
      requires !panicked && timer in fired
      modifies this
      ensures View() == Next(old(View()), TimerCallback(timer))
      ensures batch == [] && dispatched == old(dispatched) + if old(batch) == [] then [] else [old(batch)]
    {
      fired := fired - {timer};
      if |batch| > 0 {
        SendBatch();
      }
    }

    method SendBatch()
      modifies this
      ensures View() == BatchSent(old(View()))
    {
      if |batch| == 0 {
        return;
      }
      var sent := batch;
      batch := [];
      if batchTimer.Some? {
        active := active - {batchTimer.value};
        batchTimer := None;
      }
      dispatched := dispatched + [sent];
    }
  }
}
