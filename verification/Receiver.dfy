/**
 * What recv_data comes to over every run, for any frames at all: it refines a plain receiver that takes chunks
 * in order until one comes early, and from then on only keeps what comes early.
 */
module Receiver {
  import opened Bytes
  import opened Codec
  import opened Windowing
  import opened Rcopy

  // ----- the plain receiver

  datatype Early = Early(number: uint32, payload: seq<byte>)

  /** `aside` holds the early frames, the newest for each number modulo the window size; none is ever taken. */
  datatype Plain = Plain(running: bool, expected: int, output: seq<byte>, aside: map<int, Early>)

  /** What a wait yields: silence, or what the checksum says about the datagram. */
  function Heard(e: Event): Option<Arrival>
    requires EventOk(e)
  {
    if e.Silence? then None else Some(Decode(e.bytes))
  }

  function Take(s: Plain, a: Option<Arrival>, width: nat): Plain
    requires width > 0
  {
    match a
    case None => s.(running := false)
    case Some(CrcError) => s
    case Some(Frame(flag, n, payload)) =>
      if flag == END_OF_FILE then s.(running := false)
      else if n > s.expected then s.(aside := s.aside[n % width := Early(n, payload)])
      else if n == s.expected && s.aside == map[] then s.(expected := n + 1, output := s.output + payload)
      else s
  }

  datatype Answered = Nothing | Says(flag: byte, payload: seq<byte>)

  /** The answer; an SREJ carries the early frame's number, least significant byte first. */
  function Say(s: Plain, a: Option<Arrival>, pad: byte): Answered {
    match a
    case None => Nothing
    case Some(CrcError) => Nothing
    case Some(Frame(flag, n, _)) =>
      if flag == END_OF_FILE then Says(EOF_ACK, [pad])
      else if n > s.expected then Says(SREJ, [BE32(n)[3], BE32(n)[2], BE32(n)[1], BE32(n)[0]])
      else if n == s.expected && s.aside != map[] then Nothing
      else Says(RR, [0, 0, 0, 0])
  }

  /** The client's state is that of the plain receiver, and its slots hold exactly what was put aside. */
  predicate Refines(c: State, s: Plain) {
    && (c.phase == RecvData <==> s.running)
    && c.expected == s.expected && c.output == s.output
    && (forall i :: i in s.aside ==> 0 <= i < |c.slots|)
    && (forall i :: 0 <= i < |c.slots| ==>
          if i in s.aside
          then c.slots[i] == Entry(s.aside[i].number, |s.aside[i].payload|, i, s.aside[i].payload)
               && s.aside[i].number > s.expected
          else c.slots[i].Null?)
  }

  lemma SlotsTell(c: State, s: Plain)
    requires Refines(c, s)
    ensures AllNull(c.slots) <==> s.aside == map[]
  {
    assert forall i :: i in s.aside ==> c.slots[i].Entry?;
    assert (forall i :: i !in s.aside) ==> s.aside == map[];
  }

  function Fresh(c: State): Plain {
    Plain(c.phase == RecvData, c.expected, c.output, map[])
  }

  lemma FreshRefines(c: State)
    requires AllNull(c.slots)
    ensures Refines(c, Fresh(c))
  {
  }

  lemma RefinesTells(c: State, s: Plain)
    requires Refines(c, s)
    ensures (c.phase == RecvData <==> s.running) && c.expected == s.expected && c.output == s.output
  {
  }

  /** A client that has just opened its output file starts from nothing, whatever the file held before. */
  lemma OpenedRefines(c: State)
    requires AllNull(c.slots)
    ensures Refines(OpenOutput(c, true), Plain(true, c.expected, [], map[]))
  {
  }

  /** A frame that comes early is kept in its slot, and changes nothing else. */
  lemma EarlyFrameKept(c: State, e: Event, pad: byte)
    requires EventOk(e) && e.Datagram? && Decode(e.bytes).Frame?
    requires Decode(e.bytes).flag != END_OF_FILE && Decode(e.bytes).seqNum > c.expected
    ensures var f, d := Decode(e.bytes), Receive(c, e, pad).after;
      && |d.slots| == |c.slots| && d == c.(slots := d.slots)
      && forall i :: 0 <= i < |c.slots| ==>
           d.slots[i] == if i == f.seqNum % |c.slots| then Entry(f.seqNum, |f.payload|, i, f.payload) else c.slots[i]
  {
    hide Decode, Build;
  }

  /** Nothing is ever taken out of the window: a slot keeps what it holds, unless an early frame comes for it. */
  lemma WindowOnlyFills(c: State, e: Event, pad: byte)
    requires EventOk(e)
    ensures var d := Receive(c, e, pad).after;
      && |d.slots| == |c.slots|
      && forall i :: 0 <= i < |c.slots| && d.slots[i] != c.slots[i] ==>
           && e.Datagram? && Decode(e.bytes).Frame?
           && Decode(e.bytes).seqNum > c.expected && Decode(e.bytes).seqNum % |c.slots| == i
  {
    hide Decode, Build, Deliver;
  }

  lemma AnswerSays(seqNum: uint32, flag: byte, payload: seq<byte>)
    requires |payload| <= MAX_LEN - HEADER_LEN
    ensures Sized(Build(seqNum, flag, payload)) && Decode(Build(seqNum, flag, payload)) == Frame(flag, seqNum, payload)
  {
    hide Decode, Build;
    RoundTrip(seqNum, flag, payload);
  }

  lemma AdvanceRefines(c: State, s: Plain, f: Arrival)
    requires Refines(c, s) && c.phase == RecvData && f.Frame?
    ensures var d := Advance(c, f.flag, f.seqNum, f.payload);
      && Refines(d, Take(s, Some(f), |c.slots|)) && |d.slots| == |c.slots|
      && d.clientSeqNum == (c.clientSeqNum + (if f.flag == END_OF_FILE then 1 else 0)) % 0x1_0000_0000
      && (c.lower >= 0 ==> d.lower == c.lower)
  {
    SlotsTell(c, s);
    if f.seqNum == c.expected {
      NothingToDeliver(c.slots, f.seqNum, c.expected, c.output);
    }
  }

  lemma AnswerRefines(c: State, s: Plain, f: Arrival, pad: byte)
    requires Refines(c, s) && f.Frame?
    ensures var reply := Answer(c, f.flag, f.seqNum, pad);
      match Say(s, Some(f), pad)
      case Nothing => reply == None
      case Says(flag, payload) =>
        reply.Some? && Sized(reply.value) && Decode(reply.value) == Frame(flag, c.clientSeqNum, payload)
  {
    hide Decode, Build, LE32, BE32;
    SlotsTell(c, s);
    HostOrder(f.seqNum);
    AnswerSays(c.clientSeqNum, EOF_ACK, [pad]);
    AnswerSays(c.clientSeqNum, RR, NO_RR);
    AnswerSays(c.clientSeqNum, SREJ, LE32(f.seqNum));
  }

  /** One call of recv_data is one step of the plain receiver, and its answer carries the client's number. */
  lemma ReceiveRefines(c: State, s: Plain, e: Event, pad: byte)
    requires EventOk(e) && Refines(c, s) && c.phase == RecvData
    ensures var r := Receive(c, e, pad);
      && Refines(r.after, Take(s, Heard(e), |c.slots|)) && |r.after.slots| == |c.slots|
      && match Say(s, Heard(e), pad)
         case Nothing => r.reply == None
         case Says(flag, payload) =>
           r.reply.Some? && Sized(r.reply.value) && Decode(r.reply.value) == Frame(flag, c.clientSeqNum, payload)
  {
    hide Decode, Build, Advance, Answer, Refines, Take, Say;
    if e.Silence? || Decode(e.bytes) == CrcError {
      RefinesUnheard(c, s, |c.slots|, pad);
    } else {
      AdvanceRefines(c, s, Decode(e.bytes));
      AnswerRefines(c, s, Decode(e.bytes), pad);
    }
  }

  lemma RefinesUnheard(c: State, s: Plain, width: nat, pad: byte)
    requires Refines(c, s) && width > 0
    ensures Refines(c.(phase := DoneOther), Take(s, None, width)) && Say(s, None, pad) == Nothing
    ensures Take(s, Some(CrcError), width) == s && Say(s, Some(CrcError), pad) == Nothing
  {
  }

  // ----- over whole runs

  function TakeAll(s: Plain, events: seq<Event>, width: nat): Plain
    requires width > 0 && forall i :: 0 <= i < |events| ==> EventOk(events[i])
  {
    if events == [] then s else
      var n := |events| - 1;
      var t := TakeAll(s, events[..n], width);
      if t.running then Take(t, Heard(events[n]), width) else t
  }

  /** Every run of the RECV_DATA loop is the plain receiver's, whatever the frames carry. */
  lemma {:induction false} RunRefines(c: State, s: Plain, events: seq<Event>, pads: seq<byte>)
    requires Refines(c, s) && |pads| == |events| && forall i :: 0 <= i < |events| ==> EventOk(events[i])
    ensures Refines(ReceiveAll(c, events, pads), TakeAll(s, events, |c.slots|))
    ensures |ReceiveAll(c, events, pads).slots| == |c.slots|
    decreases |events|
  {
    hide Receive, Take, Heard;
    if events != [] {
      var n := |events| - 1;
      RunRefines(c, s, events[..n], pads[..n]);
      var d := ReceiveAll(c, events[..n], pads[..n]);
      var t := TakeAll(s, events[..n], |c.slots|);
      if d.phase == RecvData {
        ReceiveRefines(d, t, events[n], pads[n]);
      }
    }
  }

  lemma {:induction false} AsideStays(s: Plain, events: seq<Event>, width: nat, k: nat)
    requires width > 0 && forall i :: 0 <= i < |events| ==> EventOk(events[i])
    requires k <= |events| && TakeAll(s, events[..k], width).aside != map[]
    ensures var t, u := TakeAll(s, events[..k], width), TakeAll(s, events, width);
      u.aside != map[] && u.output == t.output && u.expected == t.expected
    decreases |events|
  {
    if k == |events| {
      assert events[..k] == events;
    } else {
      var n := |events| - 1;
      assert events[..n][..k] == events[..k];
      AsideStays(s, events[..n], width, k);
    }
  }

  lemma PutsAside(s: Plain, events: seq<Event>, width: nat)
    requires width > 0 && events != [] && forall i :: 0 <= i < |events| ==> EventOk(events[i])
    requires var e := events[|events| - 1]; EventOk(e) && e.Datagram? && Decode(e.bytes).Frame?
    requires var t, f := TakeAll(s, events[..|events| - 1], width), Decode(events[|events| - 1].bytes);
      t.running && f.flag != END_OF_FILE && f.seqNum > t.expected
    ensures var t, u := TakeAll(s, events[..|events| - 1], width), TakeAll(s, events, width);
      u.aside != map[] && u.output == t.output && u.expected == t.expected
  {
    hide Decode;
    var f := Decode(events[|events| - 1].bytes);
    assert f.seqNum % width in TakeAll(s, events, width).aside;
  }

  /**
   * A gap is final: once some frame comes whose number lies above the expected one, the output is what it was
   * before that frame for ever, whatever follows.
   */
  lemma GapFreezes(c: State, events: seq<Event>, pads: seq<byte>, k: nat)
    requires AllNull(c.slots) && |pads| == |events| && forall i :: 0 <= i < |events| ==> EventOk(events[i])
    requires k < |events| && EventOk(events[k]) && events[k].Datagram? && Decode(events[k].bytes).Frame?
    requires var before, f := ReceiveAll(c, events[..k], pads[..k]), Decode(events[k].bytes);
      before.phase == RecvData && f.flag != END_OF_FILE && f.seqNum > before.expected
    ensures var before, after := ReceiveAll(c, events[..k], pads[..k]), ReceiveAll(c, events, pads);
      after.output == before.output && after.expected == before.expected
  {
    hide Decode, ReceiveAll, TakeAll, Refines, AllNull;
    var s, width := Fresh(c), |c.slots|;
    FreshRefines(c);
    RunRefines(c, s, events[..k], pads[..k]);
    RefinesTells(ReceiveAll(c, events[..k], pads[..k]), TakeAll(s, events[..k], width));
    RunRefines(c, s, events, pads);
    RefinesTells(ReceiveAll(c, events, pads), TakeAll(s, events, width));
    assert events[..k + 1][..k] == events[..k];
    PutsAside(s, events[..k + 1], width);
    AsideStays(s, events, width, k + 1);
  }
}
