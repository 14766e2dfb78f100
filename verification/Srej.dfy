/** srej.c: stamping a header on a packet, sending it, receiving it, and the retry counter. */
module Srej {
  import opened Bytes
  import opened Checksum
  import opened Codec
  import opened PacketManager

  const MAX_TRIES := 10
  const START_SEQ_NUM := 1

  /** Write sequence number, flag and checksum in front of the payload already at packet[7..7 + len]. */
  method CreateHeader(len: nat, flag: byte, seqNum: uint32, packet: array<byte>) returns (total: nat)
    requires HEADER_LEN + len <= packet.Length && len <= 0xFFF0
    modifies packet
    ensures total == HEADER_LEN + len
    ensures packet[..total] == Build(seqNum, flag, old(packet[HEADER_LEN..HEADER_LEN + len]))
    ensures packet[total..] == old(packet[total..])
  {
    hide BE32, Cksum, Build, Unstamped;
    ghost var payload := packet[HEADER_LEN..HEADER_LEN + len];
    total := HEADER_LEN + len;
    Memcpy(packet, 0, BE32(seqNum));
    packet[6] := flag;
    packet[4], packet[5] := 0, 0;
    ghost var unstamped := Unstamped(seqNum, flag, payload);
    FieldsInPlace(packet[..total], seqNum, flag, payload);
    AccumulatorFits(unstamped);
    var checksum := InCksum(packet, total);
    packet[4], packet[5] := checksum % 0x100, checksum / 0x100;
    StampInPlace(packet[..total], seqNum, flag, payload);
    assert packet[..total] == Build(seqNum, flag, payload);
  }

  lemma FieldsInPlace(b: seq<byte>, seqNum: uint32, flag: byte, payload: seq<byte>)
    requires |b| == HEADER_LEN + |payload|
    requires forall i :: 0 <= i < 4 ==> b[i] == BE32(seqNum)[i]
    requires b[4] == 0 && b[5] == 0 && b[6] == flag
    requires b[HEADER_LEN..] == payload
    ensures b == Unstamped(seqNum, flag, payload)
  {
    assert b[..4] == BE32(seqNum);
    assert b == b[..4] + [b[4], b[5]] + [b[6]] + b[HEADER_LEN..];
  }

  lemma StampInPlace(b: seq<byte>, seqNum: uint32, flag: byte, payload: seq<byte>)
    requires |b| == HEADER_LEN + |payload|
    requires var u := Unstamped(seqNum, flag, payload);
      && b[4] == Cksum(u) % 0x100 && b[5] == Cksum(u) / 0x100
      && forall i :: 0 <= i < |b| && i != 4 && i != 5 ==> b[i] == u[i]
    ensures b == Build(seqNum, flag, payload)
  {
    BuildIsStamp(seqNum, flag, payload);
    assert b == Stamp(Unstamped(seqNum, flag, payload), 4);
  }

  /**
   * Check the checksum of the first recvLen bytes; on success deliver flag and sequence number.
   * Returns the payload length, or CRC_ERROR with flag and sequence number untouched.
   */
  method RetrieveHeader(dataBuf: array<byte>, recvLen: nat, flagBefore: byte, seqNumBefore: uint32)
    returns (result: int, flag: byte, seqNum: uint32)
    requires HEADER_LEN <= dataBuf.Length && recvLen <= dataBuf.Length && recvLen <= 0x1_0000
    ensures !Accepts(dataBuf[..recvLen]) ==> result == CRC_ERROR && flag == flagBefore && seqNum == seqNumBefore
    ensures Accepts(dataBuf[..recvLen]) ==> result == recvLen - HEADER_LEN
    ensures recvLen >= HEADER_LEN && Accepts(dataBuf[..recvLen]) ==>
              Decode(dataBuf[..recvLen]) == Frame(flag, seqNum, dataBuf[HEADER_LEN..recvLen])
  {
    flag, seqNum := flagBefore, seqNumBefore;
    AccumulatorFits(dataBuf[..recvLen]);
    var checksum := InCksum(dataBuf, recvLen);
    if checksum != 0 {
      result := CRC_ERROR;
    } else {
      flag := dataBuf[6];
      seqNum := FromBE32(dataBuf[..4]);
      result := recvLen - HEADER_LEN;
      assert recvLen >= 4 ==> dataBuf[..recvLen][..4] == dataBuf[..4];
      assert recvLen >= HEADER_LEN ==> dataBuf[..recvLen][HEADER_LEN..] == dataBuf[HEADER_LEN..recvLen];
    }
  }

  /** Put payload and header together in the packet buffer. */
  method FillPacket(buf: seq<byte>, flag: byte, seqNum: uint32, packet: array<byte>) returns (total: nat)
    requires HEADER_LEN + |buf| <= packet.Length && |buf| <= 0xFFF0
    modifies packet
    ensures total == HEADER_LEN + |buf|
    ensures packet[..total] == Build(seqNum, flag, buf)
  {
    if |buf| > 0 {
      Memcpy(packet, HEADER_LEN, buf);
    }
    assert packet[HEADER_LEN..HEADER_LEN + |buf|] == buf;
    total := CreateHeader(|buf|, flag, seqNum, packet);
  }

  /** Fill the packet and hand it to the error-injecting send. */
  method SendBuf(buf: seq<byte>, flag: byte, seqNum: uint32, packet: array<byte>, pm: PacketManager, dice: Dice,
                 netSent: int)
    returns (sentLen: int, wire: Option<seq<byte>>)
    requires HEADER_LEN + |buf| <= packet.Length && |buf| <= 0xFFF0
    requires pm.Valid() && packet !in Objects(pm.standard) && packet !in Objects(pm.random)
    requires DiceOk(dice, |pm.standard|, |pm.random|, HEADER_LEN + |buf|)
    modifies packet, pm`msgNo, Objects(pm.standard), Objects(pm.random)
    ensures sentLen == if wire.None? then HEADER_LEN + |buf| else netSent
    ensures packet[..HEADER_LEN + |buf|] == Build(seqNum, flag, buf)
    ensures Sent(States(pm.standard), States(pm.random), wire)
         == Process(old(States(pm.standard)), old(States(pm.random)), Build(seqNum, flag, buf), pm.msgNo, dice)
  {
    ghost var s, r, p := States(pm.standard), States(pm.random), Build(seqNum, flag, buf);
    var sendingLen := FillPacket(buf, flag, seqNum, packet);
    assert States(pm.standard) == s && States(pm.random) == r;
    sentLen, wire := pm.SendtoErr(packet, sendingLen, dice, netSent);
    assert Sent(States(pm.standard), States(pm.random), wire) == Process(s, r, p, pm.msgNo, dice);
  }

  /** What recvfrom keeps of a datagram that does not fit. */
  function Clipped(datagram: seq<byte>, len: nat): seq<byte> {
    datagram[..Min(|datagram|, len)]
  }

  /** Receive one datagram and, if it is sound and carries data, copy its payload to buf. */
  method RecvBuf(buf: array<byte>, len: nat, datagram: seq<byte>, flagBefore: byte, seqNumBefore: uint32)
    returns (dataLen: int, flag: byte, seqNum: uint32)
    requires len <= MAX_LEN && len - HEADER_LEN <= buf.Length
    modifies buf
    ensures !Accepts(Clipped(datagram, len)) ==>
              dataLen == CRC_ERROR && flag == flagBefore && seqNum == seqNumBefore && buf[..] == old(buf[..])
    ensures Accepts(Clipped(datagram, len)) ==> dataLen == |Clipped(datagram, len)| - HEADER_LEN
    ensures Accepts(Clipped(datagram, len)) && dataLen >= 0 ==>
              && dataLen <= buf.Length
              && Decode(Clipped(datagram, len)) == Frame(flag, seqNum, buf[..dataLen])
              && buf[dataLen..] == old(buf[dataLen..])
  {
    hide Decode, Accepts;
    var dataBuf := new byte[MAX_LEN];
    var recvLen := Min(|datagram|, len);
    Memcpy(dataBuf, 0, datagram[..recvLen]);
    assert dataBuf[..recvLen] == Clipped(datagram, len);
    dataLen, flag, seqNum := RetrieveHeader(dataBuf, recvLen, flagBefore, seqNumBefore);
    if dataLen > 0 {
      Memcpy(buf, 0, dataBuf[HEADER_LEN..HEADER_LEN + dataLen]);
      assert buf[..dataLen] == dataBuf[HEADER_LEN..recvLen];
    } else if dataLen == 0 {
      assert buf[..0] == dataBuf[HEADER_LEN..recvLen];
    }
  }

  // ----- the channel, end to end

  /** What the other end reports about what came off the wire, if anything did. */
  function Reported(wire: Option<seq<byte>>): Option<Arrival>
    requires wire.Some? ==> |wire.value| >= HEADER_LEN
  {
    if wire.None? then None else Some(Decode(wire.value))
  }

  /**
   * Channel trichotomy: a packet made by send_buf and sent through the error library is lost, or is
   * reported as a checksum error, or is reported with exactly its payload, flag and sequence number.
   */
  lemma ChannelTrichotomy(standard: seq<EventState>, random: seq<EventState>, msgNo: uint32, dice: Dice,
                          seqNum: uint32, flag: byte, payload: seq<byte>)
    requires DiceOk(dice, |standard|, |random|, HEADER_LEN + |payload|) && NoFlips(standard)
    ensures var wire := Process(standard, random, Build(seqNum, flag, payload), msgNo, dice).wire;
            && (wire.Some? ==> |wire.value| == HEADER_LEN + |payload|)
            && Reported(wire) in {None, Some(CrcError), Some(Frame(flag, seqNum, payload))}
  {
    var p := Build(seqNum, flag, payload);
    AtMostOneFlip(standard, random, p, msgNo, dice);
    RoundTrip(seqNum, flag, payload);
    BuildAccepted(seqNum, flag, payload);
    SingleFlipDetected(p, dice.pick);
  }

  /**
   * With two bit flips the promise is lost in exactly the cases of FlipsCancel: here is when a sound packet
   * with two complemented bytes is still taken for sound, and what is then delivered.
   */
  lemma TwoFlipsAcceptedIff(p: seq<byte>, i: nat, j: nat)
    requires HEADER_LEN <= |p| && i < |p| && j < |p| && i != j && Decode(p).Frame?
    ensures Decode(FlipAt(FlipAt(p, i), j)) != CrcError <==> FlipsCancel(p, i, j) && !AllZero(FlipAt(FlipAt(p, i), j))
  {
    DoubleFlipEscapes(p, i, j);
  }

  /** Two complemented payload bytes that escape detection deliver a payload that was never sent. */
  lemma FlippedDecode(p: seq<byte>, i: nat, j: nat)
    requires HEADER_LEN + i < |p| && HEADER_LEN + j < |p| && Decode(p).Frame?
    ensures var q := FlipAt(FlipAt(p, HEADER_LEN + i), HEADER_LEN + j);
      Decode(q) == if Accepts(q) then Decode(p).(payload := FlipAt(FlipAt(Decode(p).payload, i), j)) else CrcError
  {
  }

  lemma TwoStandardFlips(data: seq<byte>, msgNo: uint32, i: nat, j: nat)
    requires |data| >= 4 && i < |data| && j < |data|
    ensures Process([FlipState, FlipState], [], data, msgNo, Dice(false, 0, 0, [i, j])).wire
         == Some(FlipAt(FlipAt(data, i), j))
  {
    assert [FlipState, FlipState][1..] == [FlipState] && [i, j][1..] == [j];
    assert RunAll([FlipState], FlipAt(data, i), msgNo, [j]).data == FlipAt(FlipAt(data, i), j);
  }

  /** NoFlips is needed: with two standard bit flips the payload [0, 0, 0xFF] can arrive as [0xFF, 0, 0]. */
  lemma TwoFlipsDeliverWrongData(seqNum: uint32, msgNo: uint32)
    ensures exists dice, wire ::
              && DiceOk(dice, 2, 0, 10) && |wire| == 10
              && Process([FlipState, FlipState], [], Build(seqNum, DATA, [0, 0, 0xFF]), msgNo, dice).wire == Some(wire)
              && Decode(wire) == Frame(DATA, seqNum, [0xFF, 0, 0])
  {
    var p := Build(seqNum, DATA, [0, 0, 0xFF]);
    RoundTrip(seqNum, DATA, [0, 0, 0xFF]);
    var q := FlipAt(FlipAt(p, 7), 9);
    FlippedDecode(p, 0, 2);
    TwoStandardFlips(p, msgNo, 7, 9);
    assert q[6] == DATA;
    TwoFlipsAcceptedIff(p, 7, 9);
    assert FlipAt(FlipAt([0, 0, 0xFF], 0), 2) == [0xFF, 0, 0];
    assert DiceOk(Dice(false, 0, 0, [7, 9]), 2, 0, 10);
  }

  // ----- the retry counter

  datatype Selected<S> = Selected(state: S, retryCount: nat)

  /**
   * Count this try; past MAX_TRIES give up without waiting, otherwise wait for data. Data clears the counter.
   */
  method ProcessSelect<S>(ready: bool, retryCount: nat, timeoutState: S, readyState: S, doneState: S)
    returns (result: Selected<S>)
    ensures retryCount >= MAX_TRIES ==> result == Selected(doneState, retryCount + 1)
    ensures retryCount < MAX_TRIES && ready ==> result == Selected(readyState, 0)
    ensures retryCount < MAX_TRIES && !ready ==> result == Selected(timeoutState, retryCount + 1)
  {
    var count := retryCount + 1;
    if count > MAX_TRIES {
      result := Selected(doneState, count);
    } else if ready {
      result := Selected(readyState, 0);
    } else {
      result := Selected(timeoutState, count);
    }
  }
}
