/** The in-memory transport pair: one FIFO channel a direction, and a close that only the first caller wins (transport_memory.go). */
module MemoryTransports {
  import opened TextCodecs
  import opened Wrappers

  const CHANNEL_CAPACITY: nat := 16

  const MESSAGE_SIZE_LIMIT: nat := 64 * 1024 * 1024

  type Message = seq<byte>

  /** io.EOF from Close; the abort reason, if one was given, from Abort; NotYetKnown is the generic "transport closed". */
  datatype Reason = EndOfFile | Aborted(reason: Option<string>) | NotYetKnown

  /**
   * Closing is two critical sections: the winner of the compare-and-swap claims the close, and then records its reason
   * and closes the channel that wakes blocked callers. signals counts how often that channel has been closed.
   */
  datatype Gate = Gate(claim: Option<Reason>, reason: Option<Reason>, signals: nat)

  /**
   * What one end has counted. A channel operation and the two counter updates after it are three steps of a thread:
   * uncounted lists the sizes of the messages past the first step, halfCounted how many are past the second.
   */
  datatype Counters = Counters(messages: nat, bytes: nat, uncounted: seq<nat>, halfCounted: nat)

  /** One direction: what Send accepted, what is buffered, what Receive returned, and the counters at both ends. */
  datatype Wire = Wire(accepted: seq<Message>, channel: seq<Message>, received: seq<Message>,
                       sent: Counters, taken: Counters, errors: nat)

  datatype State = State(wire: Wire, sender: Gate, receiver: Gate)

  datatype Step =
    | Send(message: Message) | Receive
    | CountBytes(atSender: bool, thread: nat)    // the thread-th of those that have not counted yet
    | CountMessage(atSender: bool)
    | Claim(bySender: bool, reason: Reason)
    | Announce(bySender: bool)

  const OPEN := Gate(None, None, 0)

  const NOTHING_COUNTED := Counters(0, 0, [], 0)

  const INITIAL := State(Wire([], [], [], NOTHING_COUNTED, NOTHING_COUNTED, 0), OPEN, OPEN)

  function Sent(w: Wire, m: Message): Wire {
    if |m| > MESSAGE_SIZE_LIMIT then w.(errors := w.errors + 1)
    else if |w.channel| >= CHANNEL_CAPACITY then w
    else w.(accepted := w.accepted + [m], channel := w.channel + [m], sent := Due(w.sent, |m|))
  }

  function Received(w: Wire): Wire {
    if w.channel == [] then w
    else w.(channel := w.channel[1..], received := w.received + [w.channel[0]], taken := Due(w.taken, |w.channel[0]|))
  }

  function Due(c: Counters, size: nat): Counters {
    c.(uncounted := c.uncounted + [size])
  }

  function BytesCounted(c: Counters, i: nat): Counters {
    if i >= |c.uncounted| then c
    else c.(bytes := c.bytes + c.uncounted[i], uncounted := c.uncounted[..i] + c.uncounted[i + 1..],
            halfCounted := c.halfCounted + 1)
  }

  function MessageCounted(c: Counters): Counters {
    if c.halfCounted == 0 then c else c.(messages := c.messages + 1, halfCounted := c.halfCounted - 1)
  }

  function Claimed(g: Gate, reason: Reason): Gate {
    if g.claim.None? && reason != NotYetKnown then g.(claim := Some(reason)) else g
  }

  function Announced(g: Gate): Gate {
    if g.claim.Some? && g.reason.None? then g.(reason := g.claim, signals := g.signals + 1) else g
  }

  /** A send or receive that has passed the closed test may still go through while its own side is closing. */
  function Next(s: State, step: Step): State {
    match step
    case Send(message) => s.(wire := Sent(s.wire, message))
    case Receive => s.(wire := Received(s.wire))
    case CountBytes(atSender, i) =>
      if atSender then s.(wire := s.wire.(sent := BytesCounted(s.wire.sent, i)))
      else s.(wire := s.wire.(taken := BytesCounted(s.wire.taken, i)))
    case CountMessage(atSender) =>
      if atSender then s.(wire := s.wire.(sent := MessageCounted(s.wire.sent)))
      else s.(wire := s.wire.(taken := MessageCounted(s.wire.taken)))
    case Claim(bySender, reason) =>
      if bySender then s.(sender := Claimed(s.sender, reason)) else s.(receiver := Claimed(s.receiver, reason))
    case Announce(bySender) =>
      if bySender then s.(sender := Announced(s.sender)) else s.(receiver := Announced(s.receiver))
  }

  function RunFrom(s: State, steps: seq<Step>): State {
    if steps == [] then s else Next(RunFrom(s, steps[..|steps| - 1]), steps[|steps| - 1])
  }

  // ---------------------------------------------------------------- first in, first out, nothing lost

  function Size(messages: seq<Message>): nat {
    if messages == [] then 0 else Size(messages[..|messages| - 1]) + |messages[|messages| - 1]|
  }

  lemma {:induction false} SizeOfConcat(a: seq<Message>, b: seq<Message>)
    ensures Size(a + b) == Size(a) + Size(b)
  {
    if b == [] {
      assert a + b == a;
    } else {
      assert (a + b)[..|a + b| - 1] == a + b[..|b| - 1];
      SizeOfConcat(a, b[..|b| - 1]);
    }
  }

  function Sum(sizes: seq<nat>): nat {
    if sizes == [] then 0 else Sum(sizes[..|sizes| - 1]) + sizes[|sizes| - 1]
  }

  lemma {:induction false} SumWithout(sizes: seq<nat>, i: nat)
    requires i < |sizes|
    ensures Sum(sizes) == Sum(sizes[..i] + sizes[i + 1..]) + sizes[i]
  {
    var last := |sizes| - 1;
    if i == last {
      assert sizes[..i] + sizes[i + 1..] == sizes[..last];
    } else {
      var rest := sizes[..i] + sizes[i + 1..];
      assert rest[..last - 1] == sizes[..last][..i] + sizes[..last][i + 1..] && rest[last - 1] == sizes[last];
      SumWithout(sizes[..last], i);
    }
  }

  /** How many messages, and how many bytes, have passed this end without being counted yet. */
  function MessagesDue(c: Counters): nat {
    |c.uncounted| + c.halfCounted
  }

  function BytesDue(c: Counters): nat {
    Sum(c.uncounted)
  }

  ghost predicate Counts(c: Counters, messages: seq<Message>) {
    && c.messages + MessagesDue(c) == |messages|
    && c.bytes + BytesDue(c) == Size(messages)
  }

  lemma DueCounts(c: Counters, messages: seq<Message>, m: Message)
    requires Counts(c, messages)
    ensures Counts(Due(c, |m|), messages + [m])
  {
    assert (messages + [m])[..|messages|] == messages;
    assert (c.uncounted + [|m|])[..|c.uncounted|] == c.uncounted;
  }

  lemma CountingCounts(c: Counters, messages: seq<Message>, i: nat)
    requires Counts(c, messages)
    ensures Counts(BytesCounted(c, i), messages) && Counts(MessageCounted(c), messages)
  {
    if i < |c.uncounted| {
      SumWithout(c.uncounted, i);
    }
  }

  ghost predicate Fifo(w: Wire) {
    && w.received + w.channel == w.accepted
    && |w.channel| <= CHANNEL_CAPACITY
    && Counts(w.sent, w.accepted) && Counts(w.taken, w.received)
  }

  lemma SendKeepsFifo(w: Wire, m: Message)
    requires Fifo(w)
    ensures Fifo(Sent(w, m))
  {
    assert w.received + (w.channel + [m]) == w.accepted + [m];
    DueCounts(w.sent, w.accepted, m);
  }

  lemma ReceiveKeepsOrder(w: Wire)
    requires w.received + w.channel == w.accepted && w.channel != []
    ensures Received(w).received + Received(w).channel == Received(w).accepted
  {
    assert w.channel == [w.channel[0]] + w.channel[1..];
    assert w.received + [w.channel[0]] + w.channel[1..] == w.accepted;
  }

  lemma ReceiveKeepsCounts(w: Wire)
    requires Counts(w.sent, w.accepted) && Counts(w.taken, w.received) && w.channel != []
    ensures Counts(Received(w).sent, Received(w).accepted) && Counts(Received(w).taken, Received(w).received)
  {
    DueCounts(w.taken, w.received, w.channel[0]);
  }

  /** The first claim decides the reason, and the wake-up channel is closed at most once, exactly when the reason is known. */
  ghost predicate ClosedOnce(g: Gate) {
    && (g.reason.Some? ==> g.reason == g.claim)
    && (g.claim.Some? ==> g.claim.value != NotYetKnown)
    && g.signals == if g.reason.Some? then 1 else 0
  }

  ghost predicate Good(s: State) {
    Fifo(s.wire) && ClosedOnce(s.sender) && ClosedOnce(s.receiver)
  }

  lemma StepKeepsGood(s: State, step: Step)
    requires Good(s)
    ensures Good(Next(s, step))
  {
    match step
    case Send(message) => SendKeepsFifo(s.wire, message);
    case Receive => if s.wire.channel != [] { ReceiveKeepsOrder(s.wire); ReceiveKeepsCounts(s.wire); }
    case CountBytes(_, i) => CountingCounts(s.wire.sent, s.wire.accepted, i); CountingCounts(s.wire.taken, s.wire.received, i);
    case CountMessage(_) => CountingCounts(s.wire.sent, s.wire.accepted, 0); CountingCounts(s.wire.taken, s.wire.received, 0);
    case _ =>
  }

  /** In every run, closes and aborts included, what has been received is a prefix of what was accepted. */
  lemma {:induction false} RunIsGood(s: State, steps: seq<Step>)
    requires Good(s)
    ensures Good(RunFrom(s, steps))
  {
    if steps != [] {
      RunIsGood(s, steps[..|steps| - 1]);
      StepKeepsGood(RunFrom(s, steps[..|steps| - 1]), steps[|steps| - 1]);
    }
  }

  ghost predicate Balanced(w: Wire) {
    && w.received <= w.accepted
    && w.sent.messages + MessagesDue(w.sent) - (w.taken.messages + MessagesDue(w.taken)) == |w.channel| <= CHANNEL_CAPACITY
    && w.sent.bytes + BytesDue(w.sent) - (w.taken.bytes + BytesDue(w.taken)) == Size(w.channel)
  }

  lemma FifoBalances(w: Wire)
    requires Fifo(w)
    ensures Balanced(w)
  {
    SizeOfConcat(w.received, w.channel);
  }

  /** What the two ends have counted and have yet to count differs by exactly what is buffered. */
  lemma CountersBalance(steps: seq<Step>)
    ensures Balanced(RunFrom(INITIAL, steps).wire)
  {
    InitialIsGood();
    RunIsGood(INITIAL, steps);
    FifoBalances(RunFrom(INITIAL, steps).wire);
  }

  lemma InitialIsGood()
    ensures Good(INITIAL)
  {
    assert [] + [] == INITIAL.wire.accepted;
  }

  /** So a reader of the statistics sees the backlog if and only if both ends have equally much left to count. */
  lemma CountersShowBacklogExactly(steps: seq<Step>)
    ensures var w := RunFrom(INITIAL, steps).wire;
      && (w.sent.messages - w.taken.messages == |w.channel| <==> MessagesDue(w.sent) == MessagesDue(w.taken))
      && (w.sent.bytes - w.taken.bytes == Size(w.channel) <==> BytesDue(w.sent) == BytesDue(w.taken))
  {
    CountersBalance(steps);
  }

  lemma RunOfOneMore(steps: seq<Step>, step: Step)
    ensures RunFrom(INITIAL, steps + [step]) == Next(RunFrom(INITIAL, steps), step)
  {
    assert (steps + [step])[..|steps|] == steps;
  }

  /** A quick receiver can be ahead of the sender's counters: one message received and none sent, by the statistics. */
  lemma ReceiverCanCountFirst(m: Message)
    requires 0 < |m| <= MESSAGE_SIZE_LIMIT
    ensures var w := RunFrom(INITIAL, [Send(m), Receive] + [CountBytes(false, 0)] + [CountMessage(false)]).wire;
      w.sent.messages - w.taken.messages == -1 && w.sent.bytes - w.taken.bytes == -|m| && w.channel == []
  {
    assert RunFrom(INITIAL, []) == INITIAL;
    assert [] + [Send(m)] == [Send(m)] && [Send(m)] + [Receive] == [Send(m), Receive];
    RunOfOneMore([], Send(m));
    RunOfOneMore([Send(m)], Receive);
    RunOfOneMore([Send(m), Receive], CountBytes(false, 0));
    RunOfOneMore([Send(m), Receive] + [CountBytes(false, 0)], CountMessage(false));
  }

  // ---------------------------------------------------------------- what a closed side reports

  function Report(g: Gate): Reason {
    if g.reason.Some? then g.reason.value else NotYetKnown
  }

  lemma {:induction false} ClaimIsFinal(s: State, more: seq<Step>, bySender: bool)
    requires Good(s)
    ensures var (g, h) := if bySender then (s.sender, RunFrom(s, more).sender) else (s.receiver, RunFrom(s, more).receiver);
      && (g.claim.Some? ==> h.claim == g.claim)
      && (g.reason.Some? ==> h.reason == g.reason)
  {
    if more != [] {
      ClaimIsFinal(s, more[..|more| - 1], bySender);
    }
  }

  /** Whatever happens later, a closed side reports the first closer's reason, or that it is not yet known before the announcement. */
  lemma FirstReasonWins(s: State, more: seq<Step>, bySender: bool)
    requires Good(s) && (if bySender then s.sender else s.receiver).claim.Some?
    ensures var (g, h) := if bySender then (s.sender, RunFrom(s, more).sender) else (s.receiver, RunFrom(s, more).receiver);
      && (Report(h) == g.claim.value <==> h.signals == 1)
      && (Report(h) == NotYetKnown <==> h.signals == 0)
  {
    ClaimIsFinal(s, more, bySender);
    RunIsGood(s, more);
  }

  // ---------------------------------------------------------------- the transport objects

  class Channel {
    var buffer: seq<Message>

    constructor ()
      ensures buffer == []
    {
      buffer := [];
    }
  }

  /** The channel one side sends on is the one the other side receives on. */
  class MemoryTransport {
    const sendCh: Channel
    const recvCh: Channel
    var gate: Gate
    var sent: Counters
    var taken: Counters
    var errors: nat
    ghost var accepted: seq<Message>
    ghost var received: seq<Message>

    constructor (sendCh: Channel, recvCh: Channel)
      ensures this.sendCh == sendCh && this.recvCh == recvCh && gate == OPEN
      ensures sent == taken == NOTHING_COUNTED && errors == 0 && accepted == received == []
    {
      this.sendCh, this.recvCh, gate := sendCh, recvCh, OPEN;
      sent, taken, errors := NOTHING_COUNTED, NOTHING_COUNTED, 0;
      accepted, received := [], [];
    }

    /** The direction towards the peer. */
    ghost function Outward(peer: MemoryTransport): Wire
      reads this, peer, sendCh
    {
      Wire(accepted, sendCh.buffer, peer.received, sent, peer.taken, errors)
    }

    ghost predicate Paired(peer: MemoryTransport) {
      peer != this && peer.recvCh == sendCh && peer.sendCh == recvCh && sendCh != recvCh
    }

    /** Up to the channel operation. Only an open side with a message of legal size waits for room in the channel. */
    method SendMessage(peer: MemoryTransport, m: Message) returns (ok: bool)
      requires Paired(peer)
      requires gate.claim.None? && |m| <= MESSAGE_SIZE_LIMIT ==> |sendCh.buffer| < CHANNEL_CAPACITY
      modifies this`accepted, this`sent, this`errors, sendCh
      ensures Outward(peer) == if gate.claim.Some? then old(Outward(peer)) else Sent(old(Outward(peer)), m)
      ensures peer.Outward(this) == old(peer.Outward(this))
      ensures ok <==> gate.claim.None? && |m| <= MESSAGE_SIZE_LIMIT
      ensures accepted == old(accepted) + (if ok then [m] else []) && sendCh.buffer == old(sendCh.buffer) + if ok then [m] else []
      ensures errors == old(errors) + if gate.claim.None? && |m| > MESSAGE_SIZE_LIMIT then 1 else 0
    {
      if gate.claim.Some? {
        return false;
      }
      if |m| > MESSAGE_SIZE_LIMIT {
        errors := errors + 1;
        return false;
      }
      sendCh.buffer := sendCh.buffer + [m];
      accepted := accepted + [m];
      sent := sent.(uncounted := sent.uncounted + [|m|]);
      return true;
    }

    /** Up to the channel operation. A closed side reports at once, whether or not anything is buffered. */
    method ReceiveMessage(peer: MemoryTransport) returns (m: Option<Message>, error: Reason)
      requires Paired(peer)
      requires gate.claim.None? ==> recvCh.buffer != []
      modifies this`received, this`taken, recvCh
      ensures gate.claim.Some? ==> m.None? && error == Report(gate) && peer.Outward(this) == old(peer.Outward(this))
      ensures gate.claim.None? ==> m == Some(old(recvCh.buffer)[0]) && peer.Outward(this) == Received(old(peer.Outward(this)))
      ensures Outward(peer) == old(Outward(peer))
    {
      error := NotYetKnown;
      if gate.claim.Some? {
        return None, Report(gate);
      }
      m := Some(recvCh.buffer[0]);
      recvCh.buffer := recvCh.buffer[1..];
      received := received + [m.value];
      taken := taken.(uncounted := taken.uncounted + [|m.value|]);
    }

    /** The first counter update after a send or a receive, by any of the threads that have it before them. */
    method CountBytesOf(peer: MemoryTransport, sending: bool, i: nat)
      requires Paired(peer) && i < |(if sending then sent else taken).uncounted|
      modifies this`sent, this`taken
      ensures Outward(peer) == if sending then old(Outward(peer)).(sent := BytesCounted(old(sent), i)) else old(Outward(peer))
      ensures peer.Outward(this)
        == if sending then old(peer.Outward(this)) else old(peer.Outward(this)).(taken := BytesCounted(old(taken), i))
    {
      if sending {
        sent := sent.(bytes := sent.bytes + sent.uncounted[i], uncounted := sent.uncounted[..i] + sent.uncounted[i + 1..],
                      halfCounted := sent.halfCounted + 1);
      } else {
        taken := taken.(bytes := taken.bytes + taken.uncounted[i], uncounted := taken.uncounted[..i] + taken.uncounted[i + 1..],
                        halfCounted := taken.halfCounted + 1);
      }
    }

    /** The second counter update. */
    method CountMessageOf(peer: MemoryTransport, sending: bool)
      requires Paired(peer) && (if sending then sent else taken).halfCounted > 0
      modifies this`sent, this`taken
      ensures Outward(peer) == if sending then old(Outward(peer)).(sent := MessageCounted(old(sent))) else old(Outward(peer))
      ensures peer.Outward(this)
        == if sending then old(peer.Outward(this)) else old(peer.Outward(this)).(taken := MessageCounted(old(taken)))
    {
      if sending {
        sent := sent.(messages := sent.messages + 1, halfCounted := sent.halfCounted - 1);
      } else {
        taken := taken.(messages := taken.messages + 1, halfCounted := taken.halfCounted - 1);
      }
    }

    /** The compare-and-swap of Close and Abort. */
    method TryClaim(reason: Reason) returns (won: bool)
      requires reason != NotYetKnown
      modifies this`gate
      ensures gate == Claimed(old(gate), reason) && (won <==> old(gate).claim.None?)
    {
      if gate.claim.Some? {
        return false;
      }
      gate := gate.(claim := Some(reason));
      return true;
    }

    /** The rest of it, which only the winner reaches. */
    method AnnounceClose()
      requires gate.claim.Some? && gate.reason.None?
      modifies this`gate
      ensures gate == Announced(old(gate))
    {
      gate := gate.(reason := gate.claim, signals := gate.signals + 1);
    }
  }
}
