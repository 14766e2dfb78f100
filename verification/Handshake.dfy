/** The answer to the file name, from the server's send to what the client makes of it. */
module Handshake {
  import opened Bytes
  import opened Checksum
  import opened Codec
  import opened Srej
  import opened Windowing
  import opened Session
  import opened Receiver
  import S = Server
  import C = Rcopy

  /**
   * What the wait for the answer comes to: a yes exactly for a sound frame that is not FNAME_BAD, an end exactly
   * for a sound FNAME_BAD or when the tries are used up, and another request exactly for silence and damage.
   */
  lemma AnswerIff(c: C.State, e: C.Event)
    requires C.EventOk(e)
    ensures var d, tries := C.HearAnswer(c, e), c.retryCount < MAX_TRIES;
      var sound := e.Datagram? && Decode(e.bytes).Frame?;
      && (d.phase == C.FileOk <==> tries && sound && Decode(e.bytes).flag != FNAME_BAD)
      && (d.phase == C.DoneOther <==> !tries || (sound && Decode(e.bytes).flag == FNAME_BAD))
      && (d.phase == C.StartState <==> tries && !sound)
      && d == c.(phase := d.phase, retryCount := if tries && e.Datagram? then 0 else c.retryCount + 1)
  {
    hide Accepts;
  }

  /** The server's answer: FNAME_OK or FNAME_BAD. */
  function AnswerPacket(s: S.State, canOpen: bool): seq<byte> {
    var offer := S.AnswerFilename(s, canOpen).offer;
    if offer.Fresh? then offer.packet else []
  }

  /** The client's event for what the network leaves of a packet. */
  function Arrived(p: seq<byte>, fate: Fate): C.Event {
    match Arriving(p, fate)
    case None => C.Silence
    case Some(q) => C.Datagram(q)
  }

  lemma AnswerCarries(s: S.State, canOpen: bool)
    ensures S.AnswerFilename(s, canOpen).offer.Fresh?
    ensures Carries(AnswerPacket(s, canOpen), if canOpen then FNAME_OK else FNAME_BAD, 0, [])
  {
    hide Decode, Build;
    BuiltCarries(0, FNAME_OK, []);
    BuiltCarries(0, FNAME_BAD, []);
  }

  /**
   * Both programs together, over the network: the client learns whether the server could open the file exactly
   * when the answer arrives undamaged, and asks again otherwise. Its output file is not touched yet, and the
   * server goes on exactly if it could open its own.
   */
  lemma BothLearn(s: S.State, c: C.State, canOpen: bool, fate: Fate)
    requires c.phase == C.Filename && c.retryCount < MAX_TRIES
    ensures var p := AnswerPacket(s, canOpen);
      && C.EventOk(Arrived(p, fate))
      && var d := C.Turn(c, C.Input(Arrived(p, fate), true, 0)).after;
         && d.output == c.output
         && d.phase == if Arriving(p, fate) != Some(p) then C.StartState else if canOpen then C.FileOk else C.DoneOther
    ensures S.AnswerFilename(s, canOpen).after == s.(phase := if canOpen then S.SendData else S.Done)
  {
    hide Decode, Build, FlipAt;
    var p := AnswerPacket(s, canOpen);
    AnswerCarries(s, canOpen);
    var q := TransmitCases([], p, fate);
    assert Arriving(p, fate).Some? ==> Transmit([], p, fate)[0] == Arriving(p, fate).value;
    AnswerIff(c, Arrived(p, fate));
  }

  // ----- whole runs of the client

  predicate InputsOk(inputs: seq<C.Input>) {
    forall i :: 0 <= i < |inputs| ==> C.EventOk(inputs[i].event)
  }

  function TurnAll(c: C.State, inputs: seq<C.Input>): C.State
    requires InputsOk(inputs)
    decreases |inputs|
  {
    if inputs == [] then c else
      var n := |inputs| - 1;
      C.Turn(TurnAll(c, inputs[..n]), inputs[n]).after
  }

  /** A client that hears of a missing file is done for good, and never opens its output file. */
  lemma {:induction false} RefusedNeverOpens(s: S.State, c: C.State, inputs: seq<C.Input>)
    requires c.phase == C.Filename && c.retryCount < MAX_TRIES && InputsOk(inputs) && inputs != []
    requires inputs[0].event == C.Datagram(AnswerPacket(s, false))
    ensures TurnAll(c, inputs) == c.(phase := C.DoneOther, retryCount := 0)
    decreases |inputs|
  {
    hide Decode, Build;
    var n := |inputs| - 1;
    if n > 0 {
      RefusedNeverOpens(s, c, inputs[..n]);
    } else {
      AnswerCarries(s, false);
      AnswerIff(c, inputs[0].event);
      assert TurnAll(c, inputs[..0]) == c;
    }
  }

  /** A client that hears FNAME_OK starts to receive into an empty file, or is done if it cannot open its output. */
  lemma AcceptedReceives(s: S.State, c: C.State, inputs: seq<C.Input>)
    requires c.phase == C.Filename && c.retryCount < MAX_TRIES && AllNull(c.slots) && InputsOk(inputs) && |inputs| == 2
    requires inputs[0].event == C.Datagram(AnswerPacket(s, true))
    ensures inputs[1].canOpen ==> Refines(TurnAll(c, inputs), Plain(true, c.expected, [], map[]))
    ensures !inputs[1].canOpen ==> TurnAll(c, inputs) == c.(phase := C.DoneOther, retryCount := 0)
  {
    hide Decode, Build, Refines;
    AnswerCarries(s, true);
    AnswerIff(c, inputs[0].event);
    assert TurnAll(c, inputs[..1][..0]) == c;
    assert inputs[..1] == [inputs[0]];
    var d := TurnAll(c, inputs[..1]);
    assert d == c.(phase := C.FileOk, retryCount := 0);
    OpenedRefines(d);
  }
}
