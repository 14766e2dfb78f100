/** server.c: the sending process for one client, as a state machine on select outcomes. */
module Server {
  import opened Bytes
  import opened Codec
  import opened Srej

  /** The largest payload that fits the packet buffer behind a header. */
  const MAX_PAYLOAD := MAX_LEN - HEADER_LEN

  /**
   * The states of process_client from FILENAME on. BlockedInRecv is not in the source's enum: it is control
   * inside the recvfrom of wait_on_eof_ack, entered when the retries are used up.
   */
  datatype Phase =
    | Filename | SendData | WaitOnAck | TimeoutOnAck | WaitOnEofAck | TimeoutOnEofAck | BlockedInRecv | Done

  datatype State = State(
    phase: Phase,
    unread: seq<byte>,
    bufSize: nat,
    seqNum: uint32,
    packet: seq<byte>,
    ackRetry: nat,
    eofRetry: nat)

  /**
   * What one wait yields. A datagram that turns out to be an SREJ makes the server resend whatever the
   * window returns for it; `stored` stands for those bytes.
   */
  datatype Event = Silence | Datagram(bytes: seq<byte>, stored: seq<byte>)

  predicate EventOk(e: Event) {
    e.Datagram? ==> HEADER_LEN <= |e.bytes| <= MAX_LEN
  }

  /** A packet handed to the error-injecting send: a new one, the last one again, or one out of the window. */
  datatype Offer = Nothing | Fresh(packet: seq<byte>) | Again(packet: seq<byte>) | FromWindow(packet: seq<byte>)

  datatype Reaction = Reaction(after: State, offer: Offer)

  // ----- the functional specification

  /** filename(): answer whether the file could be opened. The answer is built in another buffer. */
  function AnswerFilename(s: State, canOpen: bool): Reaction {
    if canOpen then Reaction(s.(phase := SendData), Fresh(Build(0, FNAME_OK, [])))
    else Reaction(s.(phase := Done), Fresh(Build(0, FNAME_BAD, [])))
  }

  /** send_data(): read one chunk and send it, or say that the file has ended; `pad` is END_OF_FILE's stray byte. */
  function SendNext(s: State, readFails: bool, pad: byte): Reaction {
    var len := Min(s.bufSize, |s.unread|);
    if readFails then Reaction(s.(phase := Done), Nothing)
    else if len == 0 then
      var p := Build(s.seqNum, END_OF_FILE, [pad]);
      Reaction(s.(phase := WaitOnEofAck, packet := p), Fresh(p))
    else
      var p := Build(s.seqNum, DATA, s.unread[..len]);
      Reaction(s.(phase := WaitOnAck, packet := p, unread := s.unread[len..],
                  seqNum := (s.seqNum + 1) % 0x1_0000_0000), Fresh(p))
  }

  /** wait_on_ack(): the RR number is not looked at. */
  function AwaitAck(s: State, e: Event): Reaction
    requires EventOk(e)
  {
    if s.ackRetry >= MAX_TRIES then Reaction(s.(phase := Done, ackRetry := s.ackRetry + 1), Nothing)
    else match e
      case Silence => Reaction(s.(phase := TimeoutOnAck, ackRetry := s.ackRetry + 1), Nothing)
      case Datagram(p, stored) =>
        var r := s.(ackRetry := 0);
        match Decode(p)
        case CrcError => Reaction(r.(phase := WaitOnAck), Nothing)
        case Frame(flag, _, _) =>
          if flag == RR then Reaction(r.(phase := SendData), Nothing)
          else if flag == SREJ then Reaction(r.(phase := SendData), FromWindow(stored))
          else Reaction(r.(phase := Done), Nothing)
  }

  /** wait_on_eof_ack(): both outcomes of its select are DONE, so exhausted retries fall into recvfrom. */
  function AwaitEofAck(s: State, e: Event): State
    requires EventOk(e)
  {
    if s.eofRetry >= MAX_TRIES then s.(phase := BlockedInRecv, eofRetry := s.eofRetry + 1)
    else match e
      case Silence => s.(phase := TimeoutOnEofAck, eofRetry := s.eofRetry + 1)
      case Datagram(p, _) =>
        s.(eofRetry := 0, phase := if Decode(p).CrcError? then WaitOnEofAck else Done)
  }

  /** Inside the blocking recvfrom. */
  function StayBlocked(s: State, e: Event): State
    requires EventOk(e)
  {
    match e
    case Silence => s
    case Datagram(p, _) => s.(phase := if Decode(p).CrcError? then WaitOnEofAck else Done)
  }

  /** Does this state wait for the outside before it moves on? */
  predicate Waits(s: State) {
    match s.phase
    case WaitOnAck => s.ackRetry < MAX_TRIES
    case WaitOnEofAck => s.eofRetry < MAX_TRIES
    case BlockedInRecv => true
    case _ => false
  }

  /** One turn of process_client's loop; e is only looked at when Waits(s). */
  function Turn(s: State, e: Event, canOpen: bool, readFails: bool, pad: byte): Reaction
    requires EventOk(e)
  {
    match s.phase
    case Filename => AnswerFilename(s, canOpen)
    case SendData => SendNext(s, readFails, pad)
    case WaitOnAck => AwaitAck(s, e)
    case TimeoutOnAck => Reaction(s.(phase := WaitOnAck), Again(s.packet))
    case WaitOnEofAck => Reaction(AwaitEofAck(s, e), Nothing)
    case TimeoutOnEofAck => Reaction(s.(phase := WaitOnEofAck), Again(s.packet))
    case BlockedInRecv => Reaction(StayBlocked(s, e), Nothing)
    case Done => Reaction(s, Nothing)
  }

  // ----- the program

  class Process {
    var phase: Phase
    var unread: seq<byte>
    const bufSize: nat
    var seqNum: uint32
    const packet: array<byte>
    var packetLen: nat
    var ackRetry: nat
    var eofRetry: nat

    ghost predicate Valid()
      reads this
    {
      packet.Length == MAX_LEN && packetLen <= MAX_LEN && bufSize <= MAX_PAYLOAD
    }

    ghost function Abs(): State
      requires Valid()
      reads this, packet
    {
      State(phase, unread, bufSize, seqNum, packet[..packetLen], ackRetry, eofRetry)
    }

    /** A process serving `file` in chunks of bufSize bytes. */
    constructor (file: seq<byte>, bufSize: nat)
      requires bufSize <= MAX_PAYLOAD
      ensures Valid() && fresh(packet)
      ensures Abs() == State(Filename, file, bufSize, START_SEQ_NUM, [], 0, 0)
    {
      phase, unread, seqNum, packetLen, ackRetry, eofRetry := Filename, file, START_SEQ_NUM, 0, 0, 0;
      this.bufSize := bufSize;
      packet := new byte[MAX_LEN];
    }

    method FilenameStep(canOpen: bool) returns (offer: Offer)
      requires Valid()
      modifies this`phase
      ensures Valid() && Reaction(Abs(), offer) == AnswerFilename(old(Abs()), canOpen)
    {
      var buf := new byte[MAX_LEN];
      var len;
      if !canOpen {
        len := FillPacket([], FNAME_BAD, 0, buf);
        phase := Done;
      } else {
        len := FillPacket([], FNAME_OK, 0, buf);
        phase := SendData;
      }
      offer := Fresh(buf[..len]);
    }

    method SendDataStep(readFails: bool, pad: byte) returns (offer: Offer)
      requires Valid()
      modifies this, packet
      ensures Valid() && Reaction(Abs(), offer) == SendNext(old(Abs()), readFails, pad)
    {
      hide Build;
      var lenRead := Min(bufSize, |unread|);
      if readFails {
        phase := Done;
        offer := Nothing;
      } else if lenRead == 0 {
        packetLen := FillPacket([pad], END_OF_FILE, seqNum, packet);
        phase := WaitOnEofAck;
        offer := Fresh(packet[..packetLen]);
      } else {
        packetLen := FillPacket(unread[..lenRead], DATA, seqNum, packet);
        unread := unread[lenRead..];
        seqNum := (seqNum + 1) % 0x1_0000_0000;
        phase := WaitOnAck;
        offer := Fresh(packet[..packetLen]);
      }
    }

    method WaitOnAckStep(e: Event) returns (offer: Offer)
      requires Valid() && EventOk(e)
      modifies this`phase, this`ackRetry
      ensures Valid() && Reaction(Abs(), offer) == AwaitAck(old(Abs()), e)
    {
      offer := Nothing;
      var r := ProcessSelect(e.Datagram?, ackRetry, TimeoutOnAck, SendData, Done);
      ackRetry := r.retryCount;
      phase := r.state;
      if phase == SendData {
        var buf := new byte[MAX_LEN];
        assert Clipped(e.bytes, MAX_LEN) == e.bytes;
        var crcCheck, flag, num := RecvBuf(buf, MAX_LEN, e.bytes, 0, 0);
        if crcCheck == CRC_ERROR {
          phase := WaitOnAck;
        } else if flag == RR {
        } else if flag == SREJ {
          offer := FromWindow(e.stored);
        } else {
          phase := Done;
        }
      }
    }

    method WaitOnEofAckStep(e: Event)
      requires Valid() && EventOk(e)
      modifies this`phase, this`eofRetry
      ensures Valid() && Abs() == AwaitEofAck(old(Abs()), e)
    {
      var exhausted := eofRetry >= MAX_TRIES;
      var r := ProcessSelect(e.Datagram?, eofRetry, TimeoutOnEofAck, Done, Done);
      eofRetry := r.retryCount;
      phase := r.state;
      if phase == Done {
        if exhausted {
          phase := BlockedInRecv;
        } else {
          RecvEofAck(e);
        }
      }
    }

    /** The recv_buf of wait_on_eof_ack and what follows it. */
    method RecvEofAck(e: Event)
      requires Valid() && EventOk(e) && e.Datagram?
      modifies this`phase
      ensures Valid()
      ensures Abs() == old(Abs()).(phase := if Decode(e.bytes).CrcError? then WaitOnEofAck else Done)
    {
      var buf := new byte[MAX_LEN];
      assert Clipped(e.bytes, MAX_LEN) == e.bytes;
      var crcCheck, flag, num := RecvBuf(buf, MAX_LEN, e.bytes, 0, 0);
      if crcCheck == CRC_ERROR {
        phase := WaitOnEofAck;
      } else {
        phase := Done;
      }
    }

    method TimeoutStep(next: Phase) returns (offer: Offer)
      requires Valid()
      modifies this`phase
      ensures Valid() && Abs() == old(Abs()).(phase := next) && offer == Again(old(Abs()).packet)
    {
      offer := Again(packet[..packetLen]);
      phase := next;
    }

    /** One turn of the switch. */
    method TurnStep(e: Event, canOpen: bool, readFails: bool, pad: byte) returns (offer: Offer)
      requires Valid() && EventOk(e)
      modifies this, packet
      ensures Valid() && Reaction(Abs(), offer) == Turn(old(Abs()), e, canOpen, readFails, pad)
    {
      offer := Nothing;
      match phase {
        case Filename => offer := FilenameStep(canOpen);
        case SendData => offer := SendDataStep(readFails, pad);
        case WaitOnAck => offer := WaitOnAckStep(e);
        case TimeoutOnAck => offer := TimeoutStep(WaitOnAck);
        case WaitOnEofAck => WaitOnEofAckStep(e);
        case TimeoutOnEofAck => offer := TimeoutStep(WaitOnEofAck);
        case BlockedInRecv =>
          if e.Datagram? {
            RecvEofAck(e);
          }
        case Done =>
      }
    }
  }
}
