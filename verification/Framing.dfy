/** Length-prefixed frames on a byte stream (custom_transports.go). */
module Framing {
  import opened Wrappers
  import opened TextCodecs

  type Bytes = seq<byte>

  /** What a frame size can express. */
  function Range(frameSize: nat): int {
    if frameSize == 2 then 0x1_0000 else 0x1_0000_0000
  }

  predicate Supported(frameSize: nat) {
    frameSize == 2 || frameSize == 4
  }

  /** Big-endian; only the low bytes of the length survive. */
  function Header(frameSize: nat, length: nat): (h: Bytes)
    requires Supported(frameSize)
    ensures |h| == frameSize
  {
    if frameSize == 2 then [Low(length / 0x100), Low(length)]
    else [Low(length / 0x100_0000), Low(length / 0x1_0000), Low(length / 0x100), Low(length)]
  }

  function Low(n: nat): byte {
    (n % 0x100) as byte
  }

  function HeaderValue(h: Bytes): nat
    requires |h| == 2 || |h| == 4
  {
    if |h| == 2 then h[0] as int * 0x100 + h[1] as int
    else h[0] as int * 0x100_0000 + h[1] as int * 0x1_0000 + h[2] as int * 0x100 + h[3] as int
  }

  /** Most significant byte first. */
  lemma HeaderIsBigEndian(frameSize: nat, length: nat)
    requires Supported(frameSize)
    ensures var h := Header(frameSize, length);
      if frameSize == 2 then h[0] as int * 0x100 + h[1] as int == length % 0x1_0000
      else h[0] as int * 0x100_0000 + h[1] as int * 0x1_0000 + h[2] as int * 0x100 + h[3] as int == length % 0x1_0000_0000
  {
    HeaderRoundTrip(frameSize, length);
  }

  lemma ShiftTwice(n: nat)
    ensures n / 0x1_0000 == n / 0x100 / 0x100
  {
  }

  lemma ShiftThrice(n: nat)
    ensures n / 0x100_0000 == n / 0x1_0000 / 0x100
  {
  }

  lemma Digits(n: nat, q1: nat, q2: nat, q3: nat)
    requires q1 == n / 0x100 && q2 == q1 / 0x100 && q3 == q2 / 0x100
    ensures q3 % 0x100 * 0x100_0000 + q2 % 0x100 * 0x1_0000 + q1 % 0x100 * 0x100 + n % 0x100 == n % 0x1_0000_0000
  {
  }

  lemma TwoDigits(n: nat)
    ensures n / 0x100 % 0x100 * 0x100 + n % 0x100 == n % 0x1_0000
  {
  }

  lemma LongHeader(length: nat)
    ensures HeaderValue(Header(4, length)) == length % 0x1_0000_0000
  {
    ShiftTwice(length);
    ShiftThrice(length);
    Digits(length, length / 0x100, length / 0x1_0000, length / 0x100_0000);
  }

  lemma HeaderRoundTrip(frameSize: nat, length: nat)
    requires Supported(frameSize)
    ensures HeaderValue(Header(frameSize, length)) == length % Range(frameSize)
  {
    if frameSize == 4 {
      LongHeader(length);
    } else {
      TwoDigits(length);
    }
  }

  /** The bytes written for a message; None where writing refuses, and then nothing is written. */
  function Frame(frameSize: nat, message: Bytes): Option<Bytes> {
    if !Supported(frameSize) || (frameSize == 2 && |message| > 65535) then None
    else Some(Header(frameSize, |message|) + message)
  }

  /** Writing refuses exactly unsupported frame sizes and, with two bytes, messages over 65535 bytes. */
  lemma FramesWritten(frameSize: nat, message: Bytes)
    ensures Frame(frameSize, message).Some? <==> frameSize == 4 || (frameSize == 2 && |message| <= 65535)
    ensures Frame(frameSize, message).Some? ==>
      && |Frame(frameSize, message).value| == frameSize + |message| && Frame(frameSize, message).value[frameSize..] == message
  {
  }

  function Frames(frameSize: nat, messages: seq<Bytes>): Option<Bytes> {
    if messages == [] then Some([])
    else
      var first, others := Frame(frameSize, messages[0]), Frames(frameSize, messages[1..]);
      if first.None? || others.None? then None else Some(first.value + others.value)
  }

  /** A read takes exactly what it asks for, or fails at the end of the stream; other errors use up the header. */
  datatype Read = Message(message: Bytes, rest: Bytes) | BadLength(rest: Bytes) | UnsupportedSize(rest: Bytes) | EndOfStream

  function ReadOne(frameSize: nat, maxSize: int, stream: Bytes): Read {
    if |stream| < frameSize then EndOfStream
    else if !Supported(frameSize) then UnsupportedSize(stream[frameSize..])
    else ReadBody(HeaderValue(stream[..frameSize]), maxSize, stream[frameSize..])
  }

  function ReadBody(length: nat, maxSize: int, body: Bytes): Read {
    if length > maxSize || length <= 0 then BadLength(body)
    else if |body| < length then EndOfStream
    else Message(body[..length], body[length..])
  }

  /** Reads n frames; None if one of them fails. */
  function ReadMany(frameSize: nat, maxSize: int, stream: Bytes, n: nat): Option<(seq<Bytes>, Bytes)> {
    if n == 0 then Some(([], stream))
    else
      match ReadOne(frameSize, maxSize, stream)
      case Message(message, rest) =>
        var others := ReadMany(frameSize, maxSize, rest, n - 1);
        if others.None? then None else Some(([message] + others.value.0, others.value.1))
      case _ => None
  }

  // ---------------------------------------------------------------- printing and parsing

  predicate Fits(frameSize: nat, maxSize: int, message: Bytes) {
    1 <= |message| <= maxSize && |message| < Range(frameSize)
  }

  /** The length read is the length written if the prefix can express it, and a smaller one otherwise. */
  lemma ReadFrame(frameSize: nat, maxSize: int, message: Bytes, rest: Bytes) returns (length: nat)
    requires Frame(frameSize, message).Some?
    ensures ReadOne(frameSize, maxSize, Frame(frameSize, message).value + rest) == ReadBody(length, maxSize, message + rest)
    ensures length == |message| % Range(frameSize)
    ensures if |message| < Range(frameSize) then length == |message| else length < |message|
  {
    var header := Header(frameSize, |message|);
    var stream := header + message + rest;
    assert stream[..frameSize] == header && stream[frameSize..] == message + rest;
    HeaderRoundTrip(frameSize, |message|);
    length := HeaderValue(header);
  }

  lemma SplitBody(message: Bytes, n: nat, rest: Bytes)
    requires n <= |message|
    ensures (message + rest)[..n] == message[..n] && (message + rest)[n..] == message[n..] + rest
    ensures n == |message| ==> message[..n] == message && message[n..] + rest == rest
  {
  }

  lemma BodyRoundTrip(frameSize: nat, maxSize: int, message: Bytes, rest: Bytes, length: nat)
    requires if |message| < Range(frameSize) then length == |message| else length < |message|
    ensures ReadBody(length, maxSize, message + rest) == Message(message, rest) <==> Fits(frameSize, maxSize, message)
    ensures !Fits(frameSize, maxSize, message) ==>
      var r := ReadBody(length, maxSize, message + rest);
      r.Message? ==> r.message != message
  {
    SplitBody(message, |message|, rest);
  }

  /** A frame reads back, whatever follows it, if and only if its message is nonempty and within both limits. */
  lemma FrameRoundTrip(frameSize: nat, maxSize: int, message: Bytes, rest: Bytes)
    requires Frame(frameSize, message).Some?
    ensures ReadOne(frameSize, maxSize, Frame(frameSize, message).value + rest) == Message(message, rest)
      <==> Fits(frameSize, maxSize, message)
  {
    var length := ReadFrame(frameSize, maxSize, message, rest);
    BodyRoundTrip(frameSize, maxSize, message, rest, length);
  }

  /** A message that does not fit is never read back as it was. */
  lemma MisfitIsNotRead(frameSize: nat, maxSize: int, message: Bytes, rest: Bytes)
    requires Frame(frameSize, message).Some? && !Fits(frameSize, maxSize, message)
    ensures var r := ReadOne(frameSize, maxSize, Frame(frameSize, message).value + rest);
      r.Message? ==> r.message != message
  {
    var length := ReadFrame(frameSize, maxSize, message, rest);
    BodyRoundTrip(frameSize, maxSize, message, rest, length);
  }

  /** Any number of frames, back to back: they read back as written if and only if every message fits. */
  lemma {:induction false} FramesRoundTrip(frameSize: nat, maxSize: int, messages: seq<Bytes>, rest: Bytes)
    requires Frames(frameSize, messages).Some?
    ensures ReadMany(frameSize, maxSize, Frames(frameSize, messages).value + rest, |messages|) == Some((messages, rest))
      <==> forall i :: 0 <= i < |messages| ==> Fits(frameSize, maxSize, messages[i])
    decreases |messages|
  {
    if messages != [] {
      var first, others := FirstFrame(frameSize, messages);
      assert first + others + rest == first + (others + rest);
      FramesRoundTrip(frameSize, maxSize, messages[1..], rest);
      FirstReads(frameSize, maxSize, messages[0], first, others + rest);
      OneMoreFrame(frameSize, maxSize, messages, first + (others + rest), others + rest, rest);
    } else {
      assert [] + rest == rest;
    }
  }

  lemma FirstFrame(frameSize: nat, messages: seq<Bytes>) returns (first: Bytes, others: Bytes)
    requires messages != [] && Frames(frameSize, messages).Some?
    ensures Frame(frameSize, messages[0]) == Some(first) && Frames(frameSize, messages[1..]) == Some(others)
    ensures Frames(frameSize, messages) == Some(first + others)
  {
    first, others := Frame(frameSize, messages[0]).value, Frames(frameSize, messages[1..]).value;
  }

  lemma FirstReads(frameSize: nat, maxSize: int, message: Bytes, first: Bytes, tail: Bytes)
    requires Frame(frameSize, message) == Some(first)
    ensures Fits(frameSize, maxSize, message) ==> ReadOne(frameSize, maxSize, first + tail) == Message(message, tail)
    ensures !Fits(frameSize, maxSize, message) ==>
      var r := ReadOne(frameSize, maxSize, first + tail);
      r.Message? ==> r.message != message
  {
    if Fits(frameSize, maxSize, message) {
      FrameRoundTrip(frameSize, maxSize, message, tail);
    } else {
      MisfitIsNotRead(frameSize, maxSize, message, tail);
    }
  }

  lemma OneMoreFrame(frameSize: nat, maxSize: int, messages: seq<Bytes>, stream: Bytes, tail: Bytes, rest: Bytes)
    requires messages != []
    requires Fits(frameSize, maxSize, messages[0]) ==> ReadOne(frameSize, maxSize, stream) == Message(messages[0], tail)
    requires !Fits(frameSize, maxSize, messages[0]) ==>
      var r := ReadOne(frameSize, maxSize, stream);
      r.Message? ==> r.message != messages[0]
    requires ReadMany(frameSize, maxSize, tail, |messages| - 1) == Some((messages[1..], rest))
      <==> forall i :: 0 <= i < |messages[1..]| ==> Fits(frameSize, maxSize, messages[1..][i])
    ensures ReadMany(frameSize, maxSize, stream, |messages|) == Some((messages, rest))
      <==> forall i :: 0 <= i < |messages| ==> Fits(frameSize, maxSize, messages[i])
  {
    HeadAndTail(frameSize, maxSize, messages);
    if Fits(frameSize, maxSize, messages[0]) {
      ReadsOn(frameSize, maxSize, messages, tail, stream, rest);
    } else {
      NotReadFirst(frameSize, maxSize, messages, stream, rest);
    }
  }

  lemma HeadAndTail(frameSize: nat, maxSize: int, messages: seq<Bytes>)
    requires messages != []
    ensures (forall i :: 0 <= i < |messages| ==> Fits(frameSize, maxSize, messages[i]))
      <==> && Fits(frameSize, maxSize, messages[0])
           && forall i :: 0 <= i < |messages[1..]| ==> Fits(frameSize, maxSize, messages[1..][i])
  {
    if Fits(frameSize, maxSize, messages[0]) && forall i :: 0 <= i < |messages[1..]| ==> Fits(frameSize, maxSize, messages[1..][i]) {
      forall i | 0 <= i < |messages|
        ensures Fits(frameSize, maxSize, messages[i])
      {
        if i > 0 {
          assert messages[1..][i - 1] == messages[i];
        }
      }
    }
  }

  lemma ReadsOn(frameSize: nat, maxSize: int, messages: seq<Bytes>, tail: Bytes, stream: Bytes, rest: Bytes)
    requires messages != []
    requires ReadOne(frameSize, maxSize, stream) == Message(messages[0], tail)
    ensures ReadMany(frameSize, maxSize, stream, |messages|) == Some((messages, rest))
      <==> ReadMany(frameSize, maxSize, tail, |messages| - 1) == Some((messages[1..], rest))
  {
    var others := ReadMany(frameSize, maxSize, tail, |messages| - 1);
    if others.Some? {
      assert ([messages[0]] + others.value.0)[1..] == others.value.0;
      assert messages == [messages[0]] + messages[1..];
    }
  }

  lemma NotReadFirst(frameSize: nat, maxSize: int, messages: seq<Bytes>, stream: Bytes, rest: Bytes)
    requires messages != []
    requires var r := ReadOne(frameSize, maxSize, stream); r.Message? ==> r.message != messages[0]
    ensures ReadMany(frameSize, maxSize, stream, |messages|) != Some((messages, rest))
  {
    var r := ReadMany(frameSize, maxSize, stream, |messages|);
    if r.Some? {
      assert r.value.0[0] == ReadOne(frameSize, maxSize, stream).message;
    }
  }

  lemma WrapsOnce(n: nat)
    requires 0x1_0000_0000 <= n < 0x2_0000_0000
    ensures n % Range(4) == n - 0x1_0000_0000
  {
  }

  /** Four bytes cannot tell a message from its first part once the length wraps around, and writing does not refuse it. */
  lemma LengthWraps(maxSize: int, message: Bytes, rest: Bytes)
    requires 0x1_0000_0000 < |message| <= 0x1_0000_0000 + maxSize && |message| < 0x2_0000_0000
    ensures Frame(4, message).Some?
    ensures var n := |message| - 0x1_0000_0000;
      ReadOne(4, maxSize, Frame(4, message).value + rest) == Message(message[..n], message[n..] + rest)
  {
    var length := ReadFrame(4, maxSize, message, rest);
    WrapsOnce(|message|);
    SplitBody(message, |message| - 0x1_0000_0000, rest);
  }

  // ---------------------------------------------------------------- the transport

  class Connection {
    var incoming: Bytes
    var outgoing: Bytes

    constructor (incoming: Bytes)
      ensures this.incoming == incoming && outgoing == []
    {
      this.incoming, outgoing := incoming, [];
    }

    method Write(data: Bytes)
      modifies this`outgoing
      ensures outgoing == old(outgoing) + data
    {
      outgoing := outgoing + data;
    }

    method Fill(n: nat) returns (data: Option<Bytes>)
      modifies this`incoming
      ensures data == if n <= |old(incoming)| then Some(old(incoming)[..n]) else None
      ensures incoming == if n <= |old(incoming)| then old(incoming)[n..] else []
    {
      if |incoming| < n {
        incoming := [];
        return None;
      }
      data, incoming := Some(incoming[..n]), incoming[n..];
    }
  }

  class TCPTransport {
    const frameSize: nat
    const maxMessageSize: int
    const conn: Connection
    var framingErrors: nat

    constructor (frameSize: nat, maxMessageSize: int, conn: Connection)
      ensures this.frameSize == frameSize && this.maxMessageSize == maxMessageSize && this.conn == conn && framingErrors == 0
    {
      this.frameSize, this.maxMessageSize, this.conn, framingErrors := frameSize, maxMessageSize, conn, 0;
    }

    method WriteFrame(message: Bytes) returns (ok: bool)
      modifies conn`outgoing
      ensures ok <==> Frame(frameSize, message).Some?
      ensures ok <==> frameSize == 4 || (frameSize == 2 && |message| <= 65535)
      ensures conn.outgoing == old(conn.outgoing) + if ok then Frame(frameSize, message).value else []
    {
      var messageLength := |message|;
      var lengthBytes: Bytes;
      if frameSize == 2 {
        if messageLength > 65535 {
          return false;
        }
        lengthBytes := [Low(messageLength / 0x100), Low(messageLength)];
      } else if frameSize == 4 {
        lengthBytes := [Low(messageLength / 0x100_0000), Low(messageLength / 0x1_0000), Low(messageLength / 0x100), Low(messageLength)];
      } else {
        return false;
      }
      conn.Write(lengthBytes);
      conn.Write(message);
      return true;
    }

    method ReadFrame() returns (message: Option<Bytes>)
      modifies this`framingErrors, conn`incoming
      ensures var r := ReadOne(frameSize, maxMessageSize, old(conn.incoming));
        && message == (if r.Message? then Some(r.message) else None)
        && conn.incoming == (if r.EndOfStream? then [] else r.rest)
        && framingErrors == old(framingErrors) + if r.BadLength? then 1 else 0
    {
      var lengthBytes := conn.Fill(frameSize);
      if lengthBytes.None? {
        return None;
      }
      if !Supported(frameSize) {
        return None;
      }
      var messageLength := HeaderValue(lengthBytes.value);
      if messageLength > maxMessageSize {
        framingErrors := framingErrors + 1;
        return None;
      }
      if messageLength <= 0 {
        framingErrors := framingErrors + 1;
        return None;
      }
      message := conn.Fill(messageLength);
    }
  }
}
