/** One direction of the in-process pair: sender, forwarder and receiver (custom_transports.go). */
module InProcess {
  import opened Wrappers

  type Payload = string

  const CAPACITY: nat := 1000

  /** A message with its position among those the sender's Send accepted. */
  datatype Item = Item(index: nat, data: Payload)

  /**
   * hand is the message the forwarder has taken and not yet passed on; senderClosed and receiverClosed are the two
   * close flags, and forwarding says whether the forwarder is still running.
   */
  datatype Direction = Direction(
    accepted: seq<Payload>, sendCh: seq<Item>, hand: Option<Item>, receiveCh: seq<Item>, received: seq<Item>,
    senderClosed: bool, receiverClosed: bool, forwarding: bool)

  datatype Step =
    | Send(data: Payload) | Receive
    | Take | PassOn | Drop | Leave
    | CloseSender | CloseReceiver

  const INITIAL := Direction([], [], None, [], [], false, false, true)

  function Sent(d: Direction, data: Payload): Direction {
    if d.senderClosed || |d.sendCh| >= CAPACITY then d
    else d.(accepted := d.accepted + [data], sendCh := d.sendCh + [Item(|d.accepted|, data)])
  }

  function Received(d: Direction): Direction {
    if d.receiveCh == [] then d else d.(received := d.received + [d.receiveCh[0]], receiveCh := d.receiveCh[1..])
  }

  function Took(d: Direction): Direction {
    if !d.forwarding || d.hand.Some? || d.sendCh == [] then d
    else d.(hand := Some(d.sendCh[0]), sendCh := d.sendCh[1..])
  }

  /** Possible with room in the channel, even if the receiver has closed since the forwarder looked. */
  function PassedOn(d: Direction): Direction {
    if d.hand.None? || |d.receiveCh| >= CAPACITY then d
    else d.(hand := None, receiveCh := d.receiveCh + [d.hand.value])
  }

  /** The message is lost when the channel is full or the receiver closed. */
  function Dropped(d: Direction): Direction {
    if d.hand.None? || (|d.receiveCh| < CAPACITY && !d.receiverClosed) then d else d.(hand := None)
  }

  /** The forwarder stops for good: at its own side's close, or at the receiver's while passing a message on. */
  function Left(d: Direction): Direction {
    if (d.hand.None? && d.senderClosed) || (d.hand.Some? && d.receiverClosed) then d.(hand := None, forwarding := false) else d
  }

  function Next(d: Direction, step: Step): Direction {
    match step
    case Send(data) => Sent(d, data)
    case Receive => Received(d)
    case Take => Took(d)
    case PassOn => PassedOn(d)
    case Drop => Dropped(d)
    case Leave => Left(d)
    case CloseSender => d.(senderClosed := true)
    case CloseReceiver => d.(receiverClosed := true)
  }

  function Run(steps: seq<Step>): Direction {
    if steps == [] then INITIAL else Next(Run(steps[..|steps| - 1]), steps[|steps| - 1])
  }

  function Hand(d: Direction): seq<Item> {
    if d.hand.Some? then [d.hand.value] else []
  }

  /** Everything accepted that has not been dropped, oldest first. */
  function Pipeline(d: Direction): seq<Item> {
    d.received + d.receiveCh + Hand(d) + d.sendCh
  }

  // ---------------------------------------------------------------- an in-order subsequence, without duplicates

  /** Positions strictly increase, and each item carries the message accepted at its position. */
  ghost predicate InOrder(accepted: seq<Payload>, items: seq<Item>) {
    && (forall i, j :: 0 <= i < j < |items| ==> items[i].index < items[j].index)
    && (forall i :: 0 <= i < |items| ==> items[i].index < |accepted| && items[i].data == accepted[items[i].index])
  }

  lemma InOrderExtended(accepted: seq<Payload>, items: seq<Item>, data: Payload)
    requires InOrder(accepted, items)
    ensures InOrder(accepted + [data], items + [Item(|accepted|, data)])
  {
  }

  lemma InOrderWithout(accepted: seq<Payload>, front: seq<Item>, item: Item, back: seq<Item>)
    requires InOrder(accepted, front + [item] + back)
    ensures InOrder(accepted, front + back)
  {
    var all := front + [item] + back;
    assert forall i :: 0 <= i < |front| ==> all[i] == front[i];
    assert forall i :: 0 <= i < |back| ==> all[i + |front| + 1] == back[i];
    forall i, j | 0 <= i < j < |front + back|
      ensures (front + back)[i].index < (front + back)[j].index
    {
      var k, l := if i < |front| then i else i + 1, if j < |front| then j else j + 1;
      assert all[k] == (front + back)[i] && all[l] == (front + back)[j];
    }
    forall i | 0 <= i < |front + back|
      ensures (front + back)[i].index < |accepted| && (front + back)[i].data == accepted[(front + back)[i].index]
    {
      var k := if i < |front| then i else i + 1;
      assert all[k] == (front + back)[i];
    }
  }

  lemma InOrderPrefix(accepted: seq<Payload>, front: seq<Item>, back: seq<Item>)
    requires InOrder(accepted, front + back)
    ensures InOrder(accepted, front)
  {
    assert forall i :: 0 <= i < |front| ==> (front + back)[i] == front[i];
  }

  /** What each kind of step does to the pipeline: extend it, lose the message in hand, or nothing. */
  lemma StepOnPipeline(d: Direction, step: Step)
    ensures var n := Next(d, step);
      || (n.accepted == d.accepted && Pipeline(n) == Pipeline(d))
      || (step.Send? && n.accepted == d.accepted + [step.data] && Pipeline(n) == Pipeline(d) + [Item(|d.accepted|, step.data)])
      || (Loses(d, step) && n.accepted == d.accepted && Pipeline(n) == d.received + d.receiveCh + d.sendCh)
  {
    match step
    case Send(data) => SendOnPipeline(d, data);
    case Receive => ReceiveOnPipeline(d);
    case Take => TakeOnPipeline(d);
    case PassOn => PassOnPipeline(d);
    case Drop =>
    case Leave =>
    case _ =>
  }

  /** The two ways to lose the message in hand. */
  predicate Loses(d: Direction, step: Step) {
    d.hand.Some? && ((step.Drop? && (|d.receiveCh| >= CAPACITY || d.receiverClosed)) || (step.Leave? && d.receiverClosed))
  }

  lemma SendOnPipeline(d: Direction, data: Payload)
    ensures Sent(d, data) != d ==> Pipeline(Sent(d, data)) == Pipeline(d) + [Item(|d.accepted|, data)]
  {
  }

  lemma ReceiveOnPipeline(d: Direction)
    ensures Pipeline(Received(d)) == Pipeline(d)
  {
    if d.receiveCh != [] {
      assert d.receiveCh == [d.receiveCh[0]] + d.receiveCh[1..];
      assert d.received + [d.receiveCh[0]] + d.receiveCh[1..] == d.received + d.receiveCh;
    }
  }

  lemma TakeOnPipeline(d: Direction)
    ensures Pipeline(Took(d)) == Pipeline(d)
  {
    if d.sendCh != [] {
      assert d.sendCh == [d.sendCh[0]] + d.sendCh[1..];
      var front := d.received + d.receiveCh;
      assert front + [] + d.sendCh == front + [d.sendCh[0]] + d.sendCh[1..];
    }
  }

  lemma PassOnPipeline(d: Direction)
    ensures Pipeline(PassedOn(d)) == Pipeline(d)
  {
    if d.hand.Some? {
      var h := [d.hand.value];
      assert d.received + (d.receiveCh + h) + [] + d.sendCh == d.received + d.receiveCh + h + d.sendCh;
    }
  }

  lemma StepKeepsOrder(d: Direction, step: Step)
    requires InOrder(d.accepted, Pipeline(d))
    ensures InOrder(Next(d, step).accepted, Pipeline(Next(d, step)))
  {
    StepOnPipeline(d, step);
    if step.Send? {
      InOrderExtended(d.accepted, Pipeline(d), step.data);
    }
    if Loses(d, step) {
      InOrderWithout(d.accepted, d.received + d.receiveCh, d.hand.value, d.sendCh);
    }
  }

  lemma {:induction false} RunKeepsOrder(steps: seq<Step>)
    ensures InOrder(Run(steps).accepted, Pipeline(Run(steps)))
  {
    if steps != [] {
      RunKeepsOrder(steps[..|steps| - 1]);
      StepKeepsOrder(Run(steps[..|steps| - 1]), steps[|steps| - 1]);
    }
  }

  /** In every run, close races and drops included. */
  lemma ReceivedIsSubsequence(steps: seq<Step>)
    ensures InOrder(Run(steps).accepted, Run(steps).received)
  {
    var d := Run(steps);
    RunKeepsOrder(steps);
    assert Pipeline(d) == d.received + (d.receiveCh + Hand(d) + d.sendCh);
    InOrderPrefix(d.accepted, d.received, d.receiveCh + Hand(d) + d.sendCh);
  }

  // ---------------------------------------------------------------- when nothing is lost

  /** Nobody closes and at most the channel's capacity of accepted messages is ever unreceived. */
  ghost predicate Calm(steps: seq<Step>) {
    && (forall i :: 0 <= i < |steps| ==> steps[i] != CloseSender && steps[i] != CloseReceiver)
    && (forall k :: 0 <= k <= |steps| ==> Backlog(steps[..k]) <= CAPACITY)
  }

  ghost function Backlog(steps: seq<Step>): int {
    |Run(steps).accepted| - |Run(steps).received|
  }

  /** Nothing accepted is missing from the pipeline. */
  ghost predicate Complete(d: Direction) {
    |Pipeline(d)| == |d.accepted|
  }

  lemma {:induction false} CalmRunsAreComplete(steps: seq<Step>)
    requires Calm(steps)
    ensures Complete(Run(steps)) && !Run(steps).receiverClosed
  {
    if steps != [] {
      var last := |steps| - 1;
      var front := steps[..last];
      forall k | 0 <= k <= |front|
        ensures Backlog(front[..k]) <= CAPACITY
      {
        assert front[..k] == steps[..k];
      }
      CalmRunsAreComplete(front);
      assert Backlog(steps[..last]) <= CAPACITY;
      NothingLost(Run(front), steps[last]);
    }
  }

  lemma NothingLost(d: Direction, step: Step)
    requires Complete(d) && !d.receiverClosed && |d.accepted| - |d.received| <= CAPACITY && step != CloseReceiver
    ensures Complete(Next(d, step)) && !Next(d, step).receiverClosed
  {
    StepOnPipeline(d, step);
  }

  /** Positions that strictly increase and skip none are 0, 1, 2, … */
  lemma {:induction false} CompleteOrderIsExact(accepted: seq<Payload>, items: seq<Item>, i: nat)
    requires InOrder(accepted, items) && |items| == |accepted| && i < |items|
    ensures items[i] == Item(i, accepted[i])
  {
    AtLeast(accepted, items, i);
    AtMost(accepted, items, i);
  }

  lemma {:induction false} AtLeast(accepted: seq<Payload>, items: seq<Item>, i: nat)
    requires InOrder(accepted, items) && i < |items|
    ensures items[i].index >= i
  {
    if i > 0 {
      AtLeast(accepted, items, i - 1);
    }
  }

  lemma {:induction false} AtMost(accepted: seq<Payload>, items: seq<Item>, i: nat)
    requires InOrder(accepted, items) && i < |items|
    ensures items[i].index <= |accepted| - |items| + i
    decreases |items| - i
  {
    if i + 1 < |items| {
      AtMost(accepted, items, i + 1);
    }
  }

  /** In a calm run what has been received is exactly the first messages accepted. */
  lemma ReceivedIsPrefix(steps: seq<Step>, i: nat)
    requires Calm(steps) && i < |Run(steps).received|
    ensures |Run(steps).received| <= |Run(steps).accepted|
    ensures Run(steps).received[i] == Item(i, Run(steps).accepted[i])
  {
    var d := Run(steps);
    RunKeepsOrder(steps);
    CalmRunsAreComplete(steps);
    assert Pipeline(d)[i] == d.received[i];
    CompleteOrderIsExact(d.accepted, Pipeline(d), i);
  }

  // ---------------------------------------------------------------- the backlog bound is exact

  /** n messages sent and passed on, none received. */
  function Flood(n: nat): seq<Step> {
    if n == 0 then [] else Flood(n - 1) + [Send(""), Take, PassOn]
  }

  lemma RunOfOneMore(steps: seq<Step>, a: Step)
    ensures Run(steps + [a]) == Next(Run(steps), a)
  {
    assert (steps + [a])[..|steps|] == steps;
  }

  lemma RunOfThree(steps: seq<Step>, a: Step, b: Step, c: Step)
    ensures Run(steps + [a, b, c]) == Next(Next(Next(Run(steps), a), b), c)
  {
    RunOfOneMore(steps, a);
    RunOfOneMore(steps + [a], b);
    RunOfOneMore(steps + [a] + [b], c);
    assert steps + [a, b, c] == steps + [a] + [b] + [c];
  }

  ghost predicate Flooded(d: Direction, n: nat) {
    && |d.accepted| == n == |d.receiveCh| && d.sendCh == [] && d.received == [] && d.hand.None?
    && !d.senderClosed && !d.receiverClosed && d.forwarding
  }

  lemma FloodStep(d: Direction, n: nat)
    requires Flooded(d, n) && n < CAPACITY
    ensures Flooded(PassedOn(Took(Sent(d, ""))), n + 1)
  {
  }

  lemma {:induction false} FloodFills(n: nat)
    requires n <= CAPACITY
    ensures Flooded(Run(Flood(n)), n)
  {
    if n > 0 {
      FloodFills(n - 1);
      RunOfThree(Flood(n - 1), Send(""), Take, PassOn);
      FloodStep(Run(Flood(n - 1)), n - 1);
    }
  }

  function Drain(n: nat): seq<Step> {
    if n == 0 then [] else Drain(n - 1) + [Receive]
  }

  lemma {:induction false} DrainReceives(steps: seq<Step>, n: nat)
    requires n <= |Run(steps).receiveCh|
    ensures var d, r := Run(steps), Run(steps + Drain(n));
      r == d.(received := d.received + d.receiveCh[..n], receiveCh := d.receiveCh[n..])
  {
    var d := Run(steps);
    if n == 0 {
      assert steps + Drain(0) == steps;
      assert d.received + d.receiveCh[..0] == d.received && d.receiveCh[0..] == d.receiveCh;
    } else {
      DrainReceives(steps, n - 1);
      RunOfOneMore(steps + Drain(n - 1), Receive);
      assert steps + Drain(n) == steps + Drain(n - 1) + [Receive];
      MoveOneOver(d.received, d.receiveCh, n);
    }
  }

  lemma MoveOneOver(received: seq<Item>, waiting: seq<Item>, n: nat)
    requires 0 < n <= |waiting|
    ensures received + waiting[..n - 1] + [waiting[n - 1..][0]] == received + waiting[..n]
    ensures waiting[n - 1..][1..] == waiting[n..]
  {
    assert waiting[..n] == waiting[..n - 1] + [waiting[n - 1]];
  }

  lemma LastAfter(first: Item, middle: seq<Item>, last: Item)
    ensures var all := [first] + (middle + [last]); |all| == |middle| + 2 && all[|middle| + 1] == last
  {
  }

  /** One message too many, one receive to make room, one more message, and then everything is received. */
  function Overrun(lost: Payload, next: Payload): seq<Step> {
    Flood(CAPACITY) + [Send(lost), Take, Drop] + [Receive] + [Send(next), Take, PassOn]
  }

  lemma OverrunLoses(lost: Payload, next: Payload)
    ensures var full, d := Run(Flood(CAPACITY)), Run(Overrun(lost, next));
      && |full.receiveCh| == CAPACITY == |full.accepted|
      && d.accepted == full.accepted + [lost] + [next] && !d.senderClosed && !d.receiverClosed
      && d.received == [full.receiveCh[0]]
      && d.receiveCh == full.receiveCh[1..] + [Item(CAPACITY + 1, next)]
  {
    var flood := Flood(CAPACITY);
    FloodFills(CAPACITY);
    RunOfThree(flood, Send(lost), Take, Drop);
    RunOfOneMore(flood + [Send(lost), Take, Drop], Receive);
    RunOfThree(flood + [Send(lost), Take, Drop] + [Receive], Send(next), Take, PassOn);
    var full := Run(flood);
    var dropped := Run(flood + [Send(lost), Take, Drop]);
    assert dropped == full.(accepted := full.accepted + [lost]);
    var room := Run(flood + [Send(lost), Take, Drop] + [Receive]);
    assert room.received == [full.receiveCh[0]] && room.receiveCh == full.receiveCh[1..];
  }

  /**
   * One message more than the capacity unreceived, and without any close a message can be lost for good: the receiver
   * gets the message at position 1001 right after that at position 999, so what it gets is no prefix any more.
   */
  lemma OneMoreCanBeLost(lost: Payload, next: Payload)
    ensures var d := Run(Overrun(lost, next) + Drain(CAPACITY));
      && |d.accepted| == CAPACITY + 2 && d.accepted[CAPACITY] == lost
      && |d.received| == CAPACITY + 1 && d.received[CAPACITY] == Item(CAPACITY + 1, next)
      && !d.senderClosed && !d.receiverClosed
  {
    OverrunLoses(lost, next);
    var d := Run(Overrun(lost, next));
    DrainReceives(Overrun(lost, next), CAPACITY);
    assert d.receiveCh[..CAPACITY] == d.receiveCh;
    var full := Run(Flood(CAPACITY));
    LastAfter(full.receiveCh[0], full.receiveCh[1..], Item(CAPACITY + 1, next));
  }

  /** At the moment of the loss 1001 accepted messages are unreceived: the bound of a calm run cannot be raised by one. */
  lemma LossNeedsOnlyOneMore(lost: Payload)
    ensures Backlog(Flood(CAPACITY) + [Send(lost), Take, Drop]) == CAPACITY + 1
    ensures !Complete(Run(Flood(CAPACITY) + [Send(lost), Take, Drop]))
  {
    FloodFills(CAPACITY);
    RunOfThree(Flood(CAPACITY), Send(lost), Take, Drop);
  }

  // ---------------------------------------------------------------- the transport object

  class InProcessTransport {
    var peer: InProcessTransport?
    var sendCh: seq<Item>
    var receiveCh: seq<Item>
    var closed: bool
    var hand: Option<Item>      // what this side's forwarder holds
    var forwarding: bool
    var messagesSent: nat
    var messagesReceived: nat
    // what this side's Send accepted and its Receive returned
    var accepted: seq<Payload>
    var received: seq<Item>

    constructor ()
      ensures peer == null && sendCh == [] && receiveCh == [] && !closed && hand.None? && forwarding
      ensures messagesSent == 0 && messagesReceived == 0 && accepted == [] && received == []
    {
      peer, sendCh, receiveCh, closed, hand, forwarding := null, [], [], false, None, true;
      messagesSent, messagesReceived, accepted, received := 0, 0, [], [];
    }

    /** The direction from this side to its peer. */
    ghost function Outward(other: InProcessTransport): Direction
      reads this, other
    {
      Direction(accepted, sendCh, hand, other.receiveCh, other.received, closed, other.closed, forwarding)
    }

    /** Refused at once when closed; only an open side waits for room in the channel, which the caller rules out. */
    method SendData(data: Payload) returns (ok: bool)
      requires peer != null && (!closed ==> |sendCh| < CAPACITY)
      modifies this
      ensures peer == old(peer) && ok == !old(closed)
      ensures sendCh == old(sendCh) + (if ok then [Item(|old(accepted)|, data)] else []) && accepted == old(accepted) + if ok then [data] else []
      ensures Outward(peer) == Next(old(Outward(peer)), Send(data))
      ensures received == old(received) && receiveCh == old(receiveCh)
      ensures messagesSent == old(messagesSent) + if ok then 1 else 0
    {
      if closed {
        return false;
      }
      sendCh := sendCh + [Item(|accepted|, data)];
      accepted := accepted + [data];
      messagesSent := messagesSent + 1;
      return true;
    }

    /** A closed side may still get a message that is there, or the error: the select decides, and closeWins says how. */
    method ReceiveData(closeWins: bool) returns (data: Option<Payload>)
      requires peer != null && peer != this && (receiveCh != [] || closed)
      modifies this
      ensures peer == old(peer)
      ensures data.None? <==> closed && (closeWins || old(receiveCh) == [])
      ensures data.Some? ==> old(receiveCh) != [] && data.value == old(receiveCh)[0].data
      ensures peer.Outward(this) == if data.Some? then Next(old(peer.Outward(this)), Receive) else old(peer.Outward(this))
      ensures Outward(peer) == old(Outward(peer))
      ensures messagesReceived == old(messagesReceived) + if data.Some? then 1 else 0
    {
      if closed && (closeWins || receiveCh == []) {
        return None;
      }
      data := Some(receiveCh[0].data);
      received := received + [receiveCh[0]];
      receiveCh := receiveCh[1..];
      messagesReceived := messagesReceived + 1;
    }

    method Close()
      requires peer != null && peer != this
      modifies this
      ensures peer == old(peer)
      ensures closed
      ensures Outward(peer) == Next(old(Outward(peer)), CloseSender)
      ensures peer.Outward(this) == Next(old(peer.Outward(this)), CloseReceiver)
    {
      if closed {
        return;
      }
      closed := true;
    }

    /**
     * One round of the forwarder with a message waiting. sawClosed is what its first look at the peer's flag found; if
     * the peer is closed by the time of the select, both arms may be ready, and closeWins says which one is taken.
     */
    method ForwardOne(sawClosed: bool, closeWins: bool)
      requires peer != null && peer != this && forwarding && hand.None? && sendCh != []
      requires sawClosed ==> peer.closed
      modifies this, peer
      ensures peer == old(peer) && peer.peer == old(peer.peer) && sendCh == old(sendCh)[1..] && hand.None?
      ensures Outward(peer) == Next(Next(old(Outward(peer)), Take), ForwardChoice(old(Outward(peer)), sawClosed, closeWins))
      ensures peer.Outward(this) == old(peer.Outward(this))
      ensures var room := |old(peer.receiveCh)| < CAPACITY;
        && peer.receiveCh
          == old(peer.receiveCh) + (if !sawClosed && room && !(peer.closed && closeWins) then [old(sendCh)[0]] else [])
        && (forwarding <==> sawClosed || !peer.closed || (room && !closeWins))
    {
      var message := sendCh[0];
      sendCh := sendCh[1..];
      if !sawClosed {
        if peer.closed && (closeWins || |peer.receiveCh| >= CAPACITY) {
          forwarding := false;
        } else if |peer.receiveCh| < CAPACITY {
          peer.receiveCh := peer.receiveCh + [message];
        }
      }
    }
  }

  /** A closed peer seen at once drops the message; seen in the select it ends the forwarder, unless delivery is chosen. */
  function ForwardChoice(d: Direction, sawClosed: bool, closeWins: bool): Step {
    if sawClosed then Drop
    else if d.receiverClosed && (closeWins || |d.receiveCh| >= CAPACITY) then Leave
    else if |d.receiveCh| < CAPACITY then PassOn
    else Drop
  }
}
