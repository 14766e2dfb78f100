/** appPDU.c: length-framed messages on a byte stream. */
module AppPdu {
  import opened Bytes

  /** The bytes one connection has carried and the reader has not taken yet. */
  class Stream {
    var bytes: seq<byte>

    constructor ()
      ensures bytes == []
    {
      bytes := [];
    }

    /** recv with MSG_WAITALL on a stream whose writer is done: fewer bytes only at the end. */
    method Recv(dst: array<byte>, n: nat) returns (got: nat)
      requires n <= dst.Length
      modifies this, dst
      ensures got == Min(n, |old(bytes)|) && bytes == old(bytes)[got..]
      ensures dst[..got] == old(bytes)[..got] && dst[got..] == old(dst[got..])
    {
      got := Min(n, |bytes|);
      Memcpy(dst, 0, bytes[..got]);
      assert dst[..got] == bytes[..got];
      bytes := bytes[got..];
    }
  }

  /** The largest message whose 16-bit length field does not overflow. */
  const MAX_MESSAGE := 0xFFFD

  function Framed(data: seq<byte>): (f: seq<byte>)
    requires |data| <= MAX_MESSAGE
    ensures |f| == 2 + |data|
  {
    BE16(|data| + 2) + data
  }

  /** What a reader gets: the connection's end, a length it refuses, or a message. */
  datatype Received = Closed | TooBig | Message(data: seq<byte>, rest: seq<byte>)

  /** The first bytes are a length field that counts itself. */
  predicate Headed(stream: seq<byte>) {
    |stream| >= 2 && FromBE16(stream[..2]) >= 2
  }

  function ReceiveOne(stream: seq<byte>, bufferLen: nat): Received
    requires stream == [] || Headed(stream)
  {
    if stream == [] then Closed
    else
      var len := FromBE16(stream[..2]);
      if len > bufferLen then TooBig
      else
        var n := Min(len - 2, |stream| - 2);
        Message(stream[2..2 + n], stream[2 + n..])
  }

  /** Write header and data; the reported length is cut to 8 bits before it is tested for zero. */
  method SendPdu(stream: Stream, dataBuffer: array<byte>, lengthOfData: nat) returns (result: nat)
    requires lengthOfData <= dataBuffer.Length && lengthOfData <= MAX_MESSAGE
    modifies stream
    ensures stream.bytes == old(stream.bytes) + Framed(dataBuffer[..lengthOfData])
    ensures result == if (lengthOfData + 2) % 0x100 == 0 then 0 else lengthOfData
  {
    var headerLen := lengthOfData + 2;
    var pduBuffer := new byte[headerLen];
    Memcpy(pduBuffer, 0, BE16(headerLen));
    Memcpy(pduBuffer, 2, dataBuffer[..lengthOfData]);
    assert pduBuffer[0 + 0] == BE16(headerLen)[0] && pduBuffer[0 + 1] == BE16(headerLen)[1];
    assert pduBuffer[2..] == dataBuffer[..lengthOfData];
    assert pduBuffer[..] == [pduBuffer[0], pduBuffer[1]] + pduBuffer[2..];
    stream.bytes := stream.bytes + pduBuffer[..];
    var nbytes: byte := headerLen % 0x100;
    result := if nbytes == 0 then 0 else lengthOfData;
  }

  /** Read one message into dataBuffer; a length over bufferLen ends the program. */
  method RecvPdu(stream: Stream, dataBuffer: array<byte>, bufferLen: nat) returns (nbytes: nat, exited: bool)
    requires 2 <= bufferLen <= dataBuffer.Length
    requires stream.bytes == [] || Headed(stream.bytes)
    modifies stream, dataBuffer
    ensures match ReceiveOne(old(stream.bytes), bufferLen)
      case Closed => nbytes == 0 && !exited && stream.bytes == []
      case TooBig => exited
      case Message(data, rest) => !exited && nbytes == |data| && dataBuffer[..nbytes] == data && stream.bytes == rest
  {
    exited := false;
    ghost var all := stream.bytes;
    nbytes := stream.Recv(dataBuffer, 2);
    if nbytes == 0 {
      return;
    }
    assert dataBuffer[..2] == all[..2];
    var headerLen := FromBE16(dataBuffer[..2]);
    if headerLen > bufferLen {
      exited := true;
      return;
    }
    nbytes := stream.Recv(dataBuffer, headerLen - 2);
    assert all[2..][..nbytes] == all[2..2 + nbytes];
    assert all[2..][nbytes..] == all[2 + nbytes..];
  }

  // ----- many messages

  predicate Sendable(msgs: seq<seq<byte>>) {
    forall i :: 0 <= i < |msgs| ==> |msgs[i]| <= MAX_MESSAGE
  }

  /** What a writer of these messages, in order, leaves on the stream. */
  function Written(msgs: seq<seq<byte>>): seq<byte>
    requires Sendable(msgs)
  {
    if msgs == [] then [] else Framed(msgs[0]) + Written(msgs[1..])
  }

  /** How a reading loop ends: on a return value of 0, on a length it refuses, or before a broken length field. */
  datatype Ending = Finished | Refused | Broken

  /** What was read, how it ended, and what is left on the stream. */
  datatype Reading = Reading(msgs: seq<seq<byte>>, ending: Ending, rest: seq<byte>)

  /** A reader that takes a return value of 0 for the end of the connection. */
  function ReadStream(stream: seq<byte>, bufferLen: nat): Reading
    decreases |stream|
  {
    if stream != [] && !Headed(stream) then Reading([], Broken, stream)
    else
      match ReceiveOne(stream, bufferLen)
      case Closed => Reading([], Finished, [])
      case TooBig => Reading([], Refused, stream)
      case Message(data, rest) =>
        if data == [] then Reading([], Finished, rest)
        else
          var more := ReadStream(rest, bufferLen);
          Reading([data] + more.msgs, more.ending, more.rest)
  }

  /** The next message comes off exactly as it was framed and leaves the rest, or is refused for its length. */
  lemma ReadsFramed(data: seq<byte>, rest: seq<byte>, bufferLen: nat)
    requires |data| <= MAX_MESSAGE
    ensures ReadStream(Framed(data) + rest, bufferLen) ==
            if |data| + 2 > bufferLen then Reading([], Refused, Framed(data) + rest)
            else if data == [] then Reading([], Finished, rest)
            else var more := ReadStream(rest, bufferLen); Reading([data] + more.msgs, more.ending, more.rest)
  {
  }

  predicate Readable(msgs: seq<seq<byte>>, bufferLen: nat) {
    forall i :: 0 <= i < |msgs| ==> 1 <= |msgs[i]| <= bufferLen - 2
  }

  /** The number of messages in front of the first one that is empty or too long for the reader. */
  function GoodPrefix(msgs: seq<seq<byte>>, bufferLen: nat): (k: nat)
    ensures k <= |msgs|
    ensures forall i :: 0 <= i < k ==> 1 <= |msgs[i]| <= bufferLen - 2
    ensures k < |msgs| ==> !(1 <= |msgs[k]| <= bufferLen - 2)
  {
    if msgs == [] || !(1 <= |msgs[0]| <= bufferLen - 2) then 0 else 1 + GoodPrefix(msgs[1..], bufferLen)
  }

  /** The messages in front of the first bad one; an oversized one stays on the stream, an empty one is taken off. */
  function GoodReading(msgs: seq<seq<byte>>, bufferLen: nat): Reading
    requires Sendable(msgs)
  {
    var k := GoodPrefix(msgs, bufferLen);
    if k == |msgs| then Reading(msgs, Finished, [])
    else if |msgs[k]| + 2 > bufferLen then Reading(msgs[..k], Refused, Written(msgs[k..]))
    else Reading(msgs[..k], Finished, Written(msgs[k + 1..]))
  }

  lemma GoodReadingCons(msgs: seq<seq<byte>>, bufferLen: nat)
    requires Sendable(msgs) && msgs != [] && 1 <= |msgs[0]| <= bufferLen - 2
    ensures var more := GoodReading(msgs[1..], bufferLen);
      GoodReading(msgs, bufferLen) == Reading([msgs[0]] + more.msgs, more.ending, more.rest)
  {
    hide Written;
    var m, rest := msgs[0], msgs[1..];
    var k := GoodPrefix(rest, bufferLen);
    assert GoodPrefix(msgs, bufferLen) == k + 1;
    hide GoodPrefix;
    assert msgs == [m] + rest && msgs[..k + 1] == [m] + rest[..k] && msgs[k + 1..] == rest[k..];
    if k < |rest| {
      assert msgs[k + 2..] == rest[k + 1..];
    }
  }

  /** What is read of any list of messages that was written. */
  lemma {:induction false} ReadsWritten(msgs: seq<seq<byte>>, bufferLen: nat)
    requires Sendable(msgs)
    ensures ReadStream(Written(msgs), bufferLen) == GoodReading(msgs, bufferLen)
    decreases |msgs|
  {
    if msgs != [] {
      ReadsFramed(msgs[0], Written(msgs[1..]), bufferLen);
      assert Written(msgs) == Framed(msgs[0]) + Written(msgs[1..]);
      if 1 <= |msgs[0]| <= bufferLen - 2 {
        hide ReadStream, Framed, Written, GoodReading;
        ReadsWritten(msgs[1..], bufferLen);
        GoodReadingCons(msgs, bufferLen);
      } else {
        hide ReadStream, Framed;
        assert msgs[0..] == msgs;
      }
    }
  }

  /**
   * Stream framing with its exact condition: reading the written bytes until 0 gives back exactly the messages
   * written, with nothing left over, if and only if no message is empty and each fits the reader's buffer.
   */
  lemma FramingRoundTrip(msgs: seq<seq<byte>>, bufferLen: nat)
    requires Sendable(msgs)
    ensures ReadStream(Written(msgs), bufferLen) == Reading(msgs, Finished, []) <==> Readable(msgs, bufferLen)
    ensures ReadStream(Written(msgs), bufferLen).ending != Broken
  {
    hide ReadStream, Written;
    ReadsWritten(msgs, bufferLen);
  }

  lemma CutParts(data: seq<byte>, c: nat)
    requires |data| <= MAX_MESSAGE && c <= |data|
    ensures var s := Framed(data)[..2 + c];
      |s| == 2 + c && FromBE16(s[..2]) == |data| + 2 && s[2..] == data[..c]
  {
    assert Framed(data)[..2 + c][..2] == BE16(|data| + 2);
  }

  /** The last bytes of a stream, with fewer behind the length field than it announces. */
  lemma ReadsPart(s: seq<byte>, bufferLen: nat)
    requires 2 <= |s| <= FromBE16(s[..2]) <= bufferLen
    ensures ReadStream(s, bufferLen) == Reading(if |s| == 2 then [] else [s[2..]], Finished, [])
  {
    hide FromBE16;
    assert s[2..2 + (|s| - 2)] == s[2..] && s[2 + (|s| - 2)..] == [];
    assert ReceiveOne(s, bufferLen) == Message(s[2..], []);
  }

  lemma WrittenUnfolds(msgs: seq<seq<byte>>)
    requires Sendable(msgs)
    ensures Written(msgs) == if msgs == [] then [] else Framed(msgs[0]) + Written(msgs[1..])
  {
  }

  /** A stream that ends within a message: that message is returned as far as it came, behind all complete ones. */
  lemma {:induction false} ReadsCut(msgs: seq<seq<byte>>, last: seq<byte>, c: nat, bufferLen: nat)
    requires Sendable(msgs) && Readable(msgs, bufferLen)
    requires |last| <= MAX_MESSAGE && |last| + 2 <= bufferLen && c <= |last|
    ensures ReadStream(Written(msgs) + Framed(last)[..2 + c], bufferLen)
         == Reading(msgs + (if c == 0 then [] else [last[..c]]), Finished, [])
    decreases |msgs|
  {
    hide ReadStream, Framed, Written;
    var tail, cut := Framed(last)[..2 + c], if c == 0 then [] else [last[..c]];
    WrittenUnfolds(msgs);
    CutParts(last, c);
    if msgs == [] {
      assert [] + tail == tail && msgs + cut == cut;
      ReadsPart(tail, bufferLen);
    } else {
      var m, rest := msgs[0], msgs[1..];
      assert Framed(m) + Written(rest) + tail == Framed(m) + (Written(rest) + tail);
      ReadsCut(rest, last, c, bufferLen);
      ReadsFramed(m, Written(rest) + tail, bufferLen);
      assert [m] + (rest + cut) == msgs + cut;
    }
  }

  /** The receiving loop of a server: it stops at the first return value of 0, or when the program exits. */
  method ReadMessages(stream: Stream, buf: array<byte>, bufferLen: nat) returns (msgs: seq<seq<byte>>, exited: bool)
    requires 2 <= bufferLen <= buf.Length
    requires ReadStream(stream.bytes, bufferLen).ending != Broken
    modifies stream, buf
    ensures var r := ReadStream(old(stream.bytes), bufferLen);
      msgs == r.msgs && exited == (r.ending == Refused) && (!exited ==> stream.bytes == r.rest)
  {
    msgs, exited := [], false;
    ghost var goal := ReadStream(stream.bytes, bufferLen);
    while true
      invariant !exited
      invariant var more := ReadStream(stream.bytes, bufferLen);
        goal == Reading(msgs + more.msgs, more.ending, more.rest)
      decreases |stream.bytes|
    {
      ghost var before := stream.bytes;
      var nbytes;
      nbytes, exited := RecvPdu(stream, buf, bufferLen);
      if exited || nbytes == 0 {
        assert msgs + [] == msgs;
        return;
      }
      ghost var more := ReadStream(stream.bytes, bufferLen);
      assert msgs + ([buf[..nbytes]] + more.msgs) == msgs + [buf[..nbytes]] + more.msgs;
      msgs := msgs + [buf[..nbytes]];
    }
  }
}
