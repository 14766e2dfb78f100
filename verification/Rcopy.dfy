/** rcopy.c: the receiving client, as a state machine on received datagrams. */
module Rcopy {
  import opened Bytes
  import opened Codec
  import opened Srej
  import opened Windowing

  type Slots = s: seq<Slot<seq<byte>>> | |s| > 0 witness [Null]

  /**
   * The states of processFile. Its DONE is split by the branch that led there: END_OF_FILE received,
   * or anything else (timeout, bad file name).
   */
  datatype Phase = StartState | Filename | FileOk | RecvData | DoneEof | DoneOther

  datatype State = State(
    phase: Phase,
    expected: int,
    clientSeqNum: uint32,
    retryCount: nat,
    lower: int,
    slots: Slots,
    output: seq<byte>)

  /** What one select/recvfrom yields. */
  datatype Event = Silence | Datagram(bytes: seq<byte>)

  /** Every datagram comes from send_buf: it has a header and fits a packet. */
  predicate Sized(bytes: seq<byte>) {
    HEADER_LEN <= |bytes| <= MAX_LEN
  }

  predicate EventOk(e: Event) {
    e.Datagram? ==> Sized(e.bytes)
  }

  datatype Reaction = Reaction(after: State, reply: Option<seq<byte>>)

  const NO_RR: seq<byte> := [0, 0, 0, 0]

  // ----- the functional specification

  /** filename(): wait for the server's answer; any sound frame but FNAME_BAD is taken for a yes. */
  function HearAnswer(c: State, e: Event): State
    requires EventOk(e)
  {
    if c.retryCount >= MAX_TRIES then c.(phase := DoneOther, retryCount := c.retryCount + 1)
    else match e
      case Silence => c.(phase := StartState, retryCount := c.retryCount + 1)
      case Datagram(p) =>
        var r := c.(retryCount := 0);
        match Decode(p)
        case CrcError => r.(phase := StartState)
        case Frame(flag, _, _) => if flag == FNAME_BAD then r.(phase := DoneOther) else r.(phase := FileOk)
  }

  /** file_ok(): create (and empty) the output file. */
  function OpenOutput(c: State, canOpen: bool): State {
    if canOpen then c.(phase := RecvData, output := []) else c.(phase := DoneOther)
  }

  /** The loop that delivers buffered entries below seqNum. */
  function Deliver(slots: seq<Slot<seq<byte>>>, seqNum: uint32, expected: int, output: seq<byte>): (int, seq<byte>) {
    if slots == [] then (expected, output) else
      var n := |slots| - 1;
      var (e, o) := Deliver(slots[..n], seqNum, expected, output);
      if slots[n].Entry? && slots[n].seqNum < seqNum then (e + 1, o + slots[n].pdu) else (e, o)
  }

  /** What recv_data() does to the client on a sound frame. */
  function Advance(c: State, flag: byte, seqNum: uint32, payload: seq<byte>): State
  {
    if flag == END_OF_FILE then
      c.(phase := DoneEof, clientSeqNum := (c.clientSeqNum + 1) % 0x1_0000_0000)
    else if seqNum == c.expected && AllNull(c.slots) then
      c.(expected := c.expected + 1, output := c.output + payload)
    else if seqNum == c.expected then
      var (e, o) := Deliver(c.slots, seqNum, c.expected, c.output);
      c.(expected := e, output := o, slots := DropBelow(c.slots, 0), lower := if c.lower < 0 then 0 else c.lower)
    else if seqNum < c.expected then c
    else c.(slots := Place(c.slots, Entry(seqNum, |payload|, seqNum % |c.slots|, payload)))
  }

  /** What recv_data() sends back on a sound frame. */
  function Answer(c: State, flag: byte, seqNum: uint32, pad: byte): Option<seq<byte>> {
    if flag == END_OF_FILE then Some(Build(c.clientSeqNum, EOF_ACK, [pad]))
    else if seqNum == c.expected && !AllNull(c.slots) then None
    else if seqNum <= c.expected then Some(Build(c.clientSeqNum, RR, NO_RR))
    else Some(Build(c.clientSeqNum, SREJ, LE32(seqNum)))
  }

  /** recv_data(); `pad` is the byte of the reply buffer that an EOF_ACK happens to carry. */
  function Receive(c: State, e: Event, pad: byte): Reaction
    requires EventOk(e)
  {
    match e
    case Silence => Reaction(c.(phase := DoneOther), None)
    case Datagram(p) =>
      match Decode(p)
      case CrcError => Reaction(c, None)
      case Frame(flag, seqNum, payload) =>
        Reaction(Advance(c, flag, seqNum, payload), Answer(c, flag, seqNum, pad))
  }

  /** What the outside does in one turn of processFile's loop. */
  datatype Input = Input(event: Event, canOpen: bool, pad: byte)

  /** One turn of the loop, from FILENAME on. */
  function Turn(c: State, i: Input): Reaction
    requires EventOk(i.event)
  {
    match c.phase
    case Filename => Reaction(HearAnswer(c, i.event), None)
    case FileOk => Reaction(OpenOutput(c, i.canOpen), None)
    case RecvData => Receive(c, i.event, i.pad)
    case _ => Reaction(c, None)
  }

  // ----- receiver safety, with no assumption about the channel

  function Concat(chunks: seq<seq<byte>>): seq<byte> {
    if chunks == [] then [] else Concat(chunks[..|chunks| - 1]) + chunks[|chunks| - 1]
  }

  /** A frame is genuine when its payload is the chunk that its number names; 0 numbers the handshake. */
  predicate Genuine(chunks: seq<seq<byte>>, e: Event)
    requires EventOk(e)
  {
    e.Silence? || match Decode(e.bytes)
      case CrcError => true
      case Frame(flag, seqNum, payload) =>
        flag == END_OF_FILE || seqNum == 0 || (seqNum <= |chunks| && payload == chunks[seqNum - 1])
  }

  /** The output is the chunks below `expected`, and whatever is buffered lies above it. */
  predicate PrefixInv(chunks: seq<seq<byte>>, c: State) {
    && 1 <= c.expected <= |chunks| + 1
    && c.output == Concat(chunks[..c.expected - 1])
    && (forall i :: 0 <= i < |c.slots| ==> !c.slots[i].Unset?)
    && (forall i :: 0 <= i < |c.slots| && c.slots[i].Entry? ==> c.expected < c.slots[i].seqNum)
  }

  lemma {:induction false} NothingToDeliver(slots: seq<Slot<seq<byte>>>, seqNum: uint32, expected: int,
                                            output: seq<byte>)
    requires forall i :: 0 <= i < |slots| && slots[i].Entry? ==> seqNum < slots[i].seqNum
    ensures Deliver(slots, seqNum, expected, output) == (expected, output)
  {
    if slots == [] {
    } else {
      NothingToDeliver(slots[..|slots| - 1], seqNum, expected, output);
    }
  }

  /** The contents of the entries below seqNum, in slot order. */
  function Below(slots: seq<Slot<seq<byte>>>, seqNum: uint32): seq<seq<byte>> {
    if slots == [] then [] else
      (if slots[0].Entry? && slots[0].seqNum < seqNum then [slots[0].pdu] else []) + Below(slots[1..], seqNum)
  }

  lemma {:induction false} BelowSnoc(slots: seq<Slot<seq<byte>>>, seqNum: uint32)
    requires slots != []
    ensures var n := |slots| - 1;
      Below(slots, seqNum) == Below(slots[..n], seqNum)
                              + (if slots[n].Entry? && slots[n].seqNum < seqNum then [slots[n].pdu] else [])
    decreases |slots|
  {
    var n := |slots| - 1;
    if n > 0 {
      BelowSnoc(slots[1..], seqNum);
      assert slots[..n][1..] == slots[1..][..n - 1];
    }
  }

  /** What the delivery loop writes: every entry below the number, in slot order, each counted once. */
  lemma {:induction false} DeliversBelow(slots: seq<Slot<seq<byte>>>, seqNum: uint32, expected: int, output: seq<byte>)
    ensures Deliver(slots, seqNum, expected, output)
         == (expected + |Below(slots, seqNum)|, output + Concat(Below(slots, seqNum)))
    decreases |slots|
  {
    if slots == [] {
      assert output + [] == output;
    } else {
      var n := |slots| - 1;
      DeliversBelow(slots[..n], seqNum, expected, output);
      BelowSnoc(slots, seqNum);
      var front := Below(slots[..n], seqNum);
      if slots[n].Entry? && slots[n].seqNum < seqNum {
        assert (front + [slots[n].pdu])[..|front|] == front;
        assert output + Concat(front) + slots[n].pdu == output + (Concat(front) + slots[n].pdu);
      } else {
        assert front + [] == front;
      }
    }
  }

  lemma ConcatNext(chunks: seq<seq<byte>>, k: nat)
    requires k < |chunks|
    ensures Concat(chunks[..k + 1]) == Concat(chunks[..k]) + chunks[k]
  {
    assert chunks[..k + 1][..k] == chunks[..k];
  }

  lemma FrameKeepsPrefix(chunks: seq<seq<byte>>, c: State, flag: byte, seqNum: uint32, payload: seq<byte>)
    requires PrefixInv(chunks, c)
    requires flag == END_OF_FILE || seqNum == 0 || (seqNum <= |chunks| && payload == chunks[seqNum - 1])
    ensures PrefixInv(chunks, Advance(c, flag, seqNum, payload))
  {
    var d := Advance(c, flag, seqNum, payload);
    if flag == END_OF_FILE || seqNum < c.expected {
      assert d.slots == c.slots && d.output == c.output && d.expected == c.expected;
    } else if seqNum > c.expected {
    } else {
      ConcatNext(chunks, c.expected - 1);
      NothingToDeliver(c.slots, seqNum, c.expected, c.output);
      assert DropBelow(c.slots, 0) == c.slots;
    }
  }

  lemma FrameNeverRetracts(chunks: seq<seq<byte>>, c: State, flag: byte, seqNum: uint32, payload: seq<byte>)
    requires PrefixInv(chunks, c)
    ensures var d := Advance(c, flag, seqNum, payload);
      && c.output <= d.output
      && (!AllNull(c.slots) ==> d.output == c.output && d.expected == c.expected && !AllNull(d.slots))
  {
    var d := Advance(c, flag, seqNum, payload);
    if flag != END_OF_FILE {
      if seqNum == c.expected {
        NothingToDeliver(c.slots, seqNum, c.expected, c.output);
        assert DropBelow(c.slots, 0) == c.slots;
      } else if seqNum > c.expected {
        assert !d.slots[seqNum % |c.slots|].Null?;
      }
    }
  }

  lemma ReceiveKeepsPrefix(chunks: seq<seq<byte>>, c: State, e: Event, pad: byte)
    requires EventOk(e) && PrefixInv(chunks, c) && Genuine(chunks, e)
    ensures PrefixInv(chunks, Receive(c, e, pad).after)
    ensures c.output <= Receive(c, e, pad).after.output
    ensures !AllNull(c.slots) ==>
              Receive(c, e, pad).after.output == c.output && !AllNull(Receive(c, e, pad).after.slots)
  {
    if e.Datagram? && Decode(e.bytes).Frame? {
      var f := Decode(e.bytes);
      FrameKeepsPrefix(chunks, c, f.flag, f.seqNum, f.payload);
      FrameNeverRetracts(chunks, c, f.flag, f.seqNum, f.payload);
    }
  }

  predicate EventsOk(chunks: seq<seq<byte>>, events: seq<Event>) {
    forall i :: 0 <= i < |events| ==> EventOk(events[i]) && Genuine(chunks, events[i])
  }

  /** The RECV_DATA loop: it stops at the first event that leaves the state. */
  function ReceiveAll(c: State, events: seq<Event>, pads: seq<byte>): State
    requires |pads| == |events| && forall i :: 0 <= i < |events| ==> EventOk(events[i])
    decreases |events|
  {
    if events == [] then c else
      var n := |events| - 1;
      var d := ReceiveAll(c, events[..n], pads[..n]);
      if d.phase != RecvData then d else
        Receive(d, events[n], pads[n]).after
  }

  /**
   * For any order, duplication, loss and corruption of genuine frames the output is a prefix of the chunks, and
   * never changes while something is buffered. Receiver.GapFreezes says when that is.
   */
  lemma {:induction false} ReceiverSafety(chunks: seq<seq<byte>>, c: State, events: seq<Event>, pads: seq<byte>)
    requires PrefixInv(chunks, c) && EventsOk(chunks, events) && |pads| == |events|
    ensures PrefixInv(chunks, ReceiveAll(c, events, pads))
    ensures c.output <= ReceiveAll(c, events, pads).output
    ensures !AllNull(c.slots) ==>
              ReceiveAll(c, events, pads).output == c.output && !AllNull(ReceiveAll(c, events, pads).slots)
    decreases |events|
  {
    if events == [] {
    } else {
      var n := |events| - 1;
      ReceiverSafety(chunks, c, events[..n], pads[..n]);
      var d := ReceiveAll(c, events[..n], pads[..n]);
      ReceiveKeepsPrefix(chunks, d, events[n], pads[n]);
    }
  }

  lemma {:induction false} ConcatPrefix(chunks: seq<seq<byte>>, k: nat)
    requires k <= |chunks|
    ensures Concat(chunks[..k]) <= Concat(chunks)
    decreases |chunks| - k
  {
    if k == |chunks| {
      assert chunks[..k] == chunks;
    } else {
      ConcatPrefix(chunks, k + 1);
      ConcatNext(chunks, k);
    }
  }

  // ----- the program

  class Client {
    var phase: Phase
    var expectedSeqNum: int
    var clientSeqNum: uint32
    var retryCount: nat
    var output: seq<byte>
    const window: Window<seq<byte>>

    ghost predicate Valid()
      reads this, window, window.pduArray
    {
      window.Valid() && NoneUnset(window.pduArray[..])
    }

    ghost function Abs(): State
      requires Valid()
      reads this, window, window.pduArray
    {
      State(phase, expectedSeqNum, clientSeqNum, retryCount, window.lower, window.pduArray[..], output)
    }

    /** A client that has sent its file name; the slot array is taken to start out NULL. */
    constructor (windowsize: nat)
      requires windowsize > 0
      ensures Valid() && fresh(window) && fresh(window.pduArray)
      ensures Abs() == State(Filename, START_SEQ_NUM, 1, 0, 0, seq(windowsize, _ => Null), [])
    {
      var w: Window<seq<byte>> := new Window(windowsize, Null);
      window := w;
      phase, expectedSeqNum, clientSeqNum, retryCount, output := Filename, START_SEQ_NUM, 1, 0, [];
    }

    method HearFilenameAnswer(e: Event)
      requires Valid() && EventOk(e)
      modifies this
      ensures Valid() && Abs() == HearAnswer(old(Abs()), e)
    {
      var s := ProcessSelect(e.Datagram?, retryCount, StartState, FileOk, DoneOther);
      retryCount := s.retryCount;
      phase := s.state;
      if phase == FileOk {
        var packet := new byte[MAX_LEN];
        assert Clipped(e.bytes, MAX_LEN) == e.bytes;
        var recvCheck, flag, seqNum := RecvBuf(packet, MAX_LEN, e.bytes, 0, 0);
        if recvCheck == CRC_ERROR {
          phase := StartState;
        } else if flag == FNAME_BAD {
          phase := DoneOther;
        } else if flag == DATA {
          phase := FileOk;
        }
      }
    }

    method OpenOutputFile(canOpen: bool)
      requires Valid()
      modifies this
      ensures Valid() && Abs() == OpenOutput(old(Abs()), canOpen)
    {
      if canOpen {
        output := [];
        phase := RecvData;
      } else {
        phase := DoneOther;
      }
    }

    /** One call of recv_data; returns the packet it hands to the network, if any. */
    method RecvDataStep(e: Event, pad: byte) returns (reply: Option<seq<byte>>)
      requires Valid() && EventOk(e) && phase == RecvData
      modifies this, window, window.pduArray
      ensures Valid() && Reaction(Abs(), reply) == Receive(old(Abs()), e, pad)
    {
      reply := None;
      if e.Silence? {
        phase := DoneOther;
        return;
      }
      var dataBuf := new byte[MAX_LEN];
      assert Clipped(e.bytes, MAX_LEN) == e.bytes;
      var dataLen, flag, seqNum := RecvBuf(dataBuf, MAX_LEN, e.bytes, 0, 0);
      if dataLen != CRC_ERROR {
        var data := dataBuf[..dataLen];
        assert Decode(e.bytes) == Frame(flag, seqNum, data);
        reply := HandleFrame(flag, seqNum, data, pad);
      }
    }

    method HandleFrame(flag: byte, seqNum: uint32, data: seq<byte>, pad: byte) returns (reply: Option<seq<byte>>)
      requires Valid() && phase == RecvData
      modifies this, window, window.pduArray
      ensures Valid() && Abs() == Advance(old(Abs()), flag, seqNum, data)
      ensures reply == Answer(old(Abs()), flag, seqNum, pad)
    {
      hide Build;
      reply := None;
      var packet;
      if flag == END_OF_FILE {
        packet := Pack([pad], EOF_ACK);
        clientSeqNum := (clientSeqNum + 1) % 0x1_0000_0000;
        phase := DoneEof;
        return Some(packet);
      }
      var empty := window.IsWindowEmpty();
      if seqNum == expectedSeqNum && empty {
        expectedSeqNum := expectedSeqNum + 1;
        packet := Pack(NO_RR, RR);
        reply := Some(packet);
        output := output + data;
      } else if seqNum == expectedSeqNum {
        DeliverBuffered(seqNum);
        window.ProcessRRGuarded(0);
      } else if seqNum < expectedSeqNum {
        packet := Pack(NO_RR, RR);
        reply := Some(packet);
      } else {
        packet := Pack(LE32(seqNum), SREJ);
        reply := Some(packet);
        window.AddPdu(data, |data|, seqNum);
      }
    }

    /** send_buf up to the network: a packet with the client's own sequence number. */
    method Pack(payload: seq<byte>, flag: byte) returns (bytes: seq<byte>)
      requires |payload| <= MAX_LEN - HEADER_LEN
      ensures bytes == Build(clientSeqNum, flag, payload)
    {
      var packet := new byte[MAX_LEN];
      var len := FillPacket(payload, flag, clientSeqNum, packet);
      bytes := packet[..len];
    }

    /** One turn of the switch in processFile. */
    method TurnStep(i: Input) returns (reply: Option<seq<byte>>)
      requires Valid() && EventOk(i.event)
      modifies this, window, window.pduArray
      ensures Valid() && Reaction(Abs(), reply) == Turn(old(Abs()), i)
    {
      reply := None;
      match phase {
        case Filename => HearFilenameAnswer(i.event);
        case FileOk => OpenOutputFile(i.canOpen);
        case RecvData => reply := RecvDataStep(i.event, i.pad);
        case _ =>
      }
    }

    method DeliverBuffered(seqNum: uint32)
      requires Valid()
      modifies this`expectedSeqNum, this`output
      ensures (expectedSeqNum, output) == Deliver(window.pduArray[..], seqNum, old(expectedSeqNum), old(output))
    {
      ghost var slots := window.pduArray[..];
      for i := 0 to window.pduArray.Length
        invariant (expectedSeqNum, output) == Deliver(slots[..i], seqNum, old(expectedSeqNum), old(output))
      {
        assert slots[..i + 1][..i] == slots[..i];
        var slot := window.pduArray[i];
        if !slot.Null? && slot.seqNum < seqNum {
          expectedSeqNum := expectedSeqNum + 1;
          output := output + slot.pdu;
        }
      }
      assert slots[..|slots|] == slots;
    }
  }
}
