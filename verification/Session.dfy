/**
 * One server process, one client and the two directions of the network between them, from the moment the
 * server has answered the file name. Packets travel as bytes, through the checksum.
 */
module Session {
  import opened Bytes
  import opened Checksum
  import opened Codec
  import opened PacketManager
  import opened Srej
  import opened Windowing
  import S = Server
  import C = Rcopy

  type Positive = n: nat | n > 0 witness 1

  // ----- the network

  /** What becomes of one packet handed to the error library. */
  datatype Fate = Lost | Intact | Flipped(k: nat)

  type Net = seq<seq<byte>>

  function Arriving(p: seq<byte>, fate: Fate): Option<seq<byte>> {
    match fate
    case Lost => None
    case Intact => Some(p)
    case Flipped(k) => Some(if k < |p| then FlipAt(p, k) else p)
  }

  function Added(net: Net, wire: Option<seq<byte>>): Net {
    match wire
    case None => net
    case Some(q) => net + [q]
  }

  function Transmit(net: Net, p: seq<byte>, fate: Fate): Net {
    Added(net, Arriving(p, fate))
  }

  /** The fates cover whatever the library does to a send, when it installs no standard bit flip. */
  lemma LibraryHasFate(standard: seq<EventState>, random: seq<EventState>, msgNo: uint32, dice: Dice, p: seq<byte>)
    requires |p| >= 4 && DiceOk(dice, |standard|, |random|, |p|) && NoFlips(standard)
    ensures exists fate :: Arriving(p, fate) == Process(standard, random, p, msgNo, dice).wire
  {
    AtMostOneFlip(standard, random, p, msgNo, dice);
    var wire := Process(standard, random, p, msgNo, dice).wire;
    var fate := if wire == None then Lost else if wire == Some(p) then Intact else Flipped(dice.pick);
    assert Arriving(p, fate) == wire;
  }

  /** Conversely, the library as sendErr_init sets it up, with drop and flip on, can cause every fate. */
  lemma FateHasDice(log: EventState, msgNo: uint32, p: seq<byte>, fate: Fate) returns (dice: Dice)
    requires |p| >= 4 && log.InfoState?
    ensures DiceOk(dice, 1, 2, |p|)
    ensures Process([log], [DropState(true, []), FlipState], p, msgNo, dice).wire == Arriving(p, fate)
  {
    var flips := fate.Flipped? && fate.k < |p|;
    dice := Dice(fate.Lost? || flips, if flips then 1 else 0, if flips then fate.k else 0, [0]);
    var random := [DropState(true, []), FlipState];
    LostIff([log], random, p, msgNo, dice);
    assert Chosen(random, dice, random[dice.which]) <==> dice.fires;
    assert NoFlips([log]);
    RunAllKeepsData([log], p, msgNo, dice.picks);
  }

  /** A sound packet arrives as itself, as a checksum error, or not at all. */
  lemma TransmitCases(net: Net, p: seq<byte>, fate: Fate) returns (q: seq<byte>)
    requires C.Sized(p) && Decode(p).Frame?
    ensures Transmit(net, p, fate) == net || Transmit(net, p, fate) == net + [q]
    ensures C.Sized(q) && (q == p || Decode(q) == CrcError)
  {
    q := p;
    if fate.Flipped? && fate.k < |p| {
      q := FlipAt(p, fate.k);
      SingleFlipDetected(p, fate.k);
    }
  }

  function Remove(net: Net, i: nat): Net
    requires i < |net|
  {
    net[..i] + net[i + 1..]
  }

  /** The copy comes right behind the original. */
  function Twice(net: Net, i: nat): Net
    requires i < |net|
  {
    net[..i + 1] + net[i..]
  }

  // ----- the system and its steps

  /**
   * hello is the FNAME_OK packet while it is in flight; it was sent before everything in toClient. sent is
   * every packet the server has handed to the network since.
   */
  datatype System = System(
    server: S.State,
    client: C.State,
    hello: Option<seq<byte>>,
    toClient: Net,
    toServer: Net,
    sent: Net)

  /**
   * A step of one program or of the network. When the server hears an SREJ, `resend` is the packet that its
   * window hands out, or [] if it hands out none.
   */
  datatype Step =
    | ServerSends(readFails: bool, pad: byte, fate: Fate)
    | ServerHears(i: nat, resend: seq<byte>, fate: Fate)
    | ServerTimer
    | ServerGivesUp
    | ClientHearsHello(pad: byte, fate: Fate)
    | ClientHears(i: nat, pad: byte, fate: Fate)
    | ClientTimer
    | ClientOpens(canOpen: bool)
    | LoseHello
    | LoseToClient(i: nat)
    | LoseToServer(i: nat)
    | DuplicateHello
    | DuplicateToClient(i: nat)
    | DuplicateToServer(i: nat)

  predicate Listening(c: C.State) {
    (c.phase == C.Filename && c.retryCount < MAX_TRIES) || c.phase == C.RecvData
  }

  predicate Waiting(s: S.State) {
    s.phase == S.WaitOnAck || s.phase == S.WaitOnEofAck
  }

  /** What the programs can do at all. */
  predicate Possible(sys: System, step: Step) {
    match step
    case ServerSends(_, _, _) => sys.server.phase in {S.SendData, S.TimeoutOnAck, S.TimeoutOnEofAck}
    case ServerHears(i, resend, _) =>
      S.Waits(sys.server) && i < |sys.toServer| && C.Sized(sys.toServer[i]) && (resend == [] || resend in sys.sent)
    case ServerTimer => Waiting(sys.server) && S.Waits(sys.server)
    case ServerGivesUp => Waiting(sys.server) && !S.Waits(sys.server)
    case ClientHearsHello(_, _) => Listening(sys.client) && sys.hello.Some? && C.Sized(sys.hello.value)
    case ClientHears(i, _, _) => Listening(sys.client) && i < |sys.toClient| && C.Sized(sys.toClient[i])
    case ClientTimer => sys.client.phase == C.Filename || sys.client.phase == C.RecvData
    case ClientOpens(_) => sys.client.phase == C.FileOk
    case LoseHello => sys.hello.Some?
    case LoseToClient(i) => i < |sys.toClient|
    case LoseToServer(i) => i < |sys.toServer|
    case DuplicateHello => sys.hello.Some?
    case DuplicateToClient(i) => i < |sys.toClient|
    case DuplicateToServer(i) => i < |sys.toServer|
  }

  /**
   * Assumptions about the outside. quietTimer: the server's one-second timer fires only when nothing is in
   * flight either way. fifo: packets to the client arrive in the order they were sent. once: no packet is
   * duplicated.
   */
  datatype Policy = Policy(quietTimer: bool, fifo: bool, once: bool)

  const ORDERLY := Policy(true, true, true)

  predicate Duplicates(step: Step) {
    step.DuplicateHello? || step.DuplicateToClient? || step.DuplicateToServer?
  }

  predicate Quiet(sys: System) {
    sys.hello == None && sys.toClient == [] && sys.toServer == []
  }

  predicate Allowed(pol: Policy, sys: System, step: Step) {
    && (pol.quietTimer && step.ServerTimer? ==> Quiet(sys))
    && (pol.fifo && step.ClientHears? ==> sys.hello == None && step.i == 0)
    && (pol.once ==> !Duplicates(step))
  }

  function Offered(net: Net, offer: S.Offer, fate: Fate): Net {
    match offer
    case Nothing => net
    case Fresh(p) => Transmit(net, p, fate)
    case Again(p) => Transmit(net, p, fate)
    case FromWindow(p) => if p == [] then net else Transmit(net, p, fate)
  }

  function Logged(sent: Net, offer: S.Offer): Net {
    if offer.Fresh? || offer.Again? then sent + [offer.packet] else sent
  }

  function Hear(sys: System, p: seq<byte>, pad: byte, fate: Fate): System
    requires C.Sized(p)
  {
    if sys.client.phase == C.Filename then sys.(client := C.HearAnswer(sys.client, C.Datagram(p)))
    else
      var r := C.Receive(sys.client, C.Datagram(p), pad);
      sys.(client := r.after,
           toServer := match r.reply { case None => sys.toServer case Some(q) => Transmit(sys.toServer, q, fate) })
  }

  function Apply(sys: System, step: Step): System
    requires Possible(sys, step)
  {
    match step
    case ServerSends(readFails, pad, fate) =>
      var r := S.Turn(sys.server, S.Silence, true, readFails, pad);
      sys.(server := r.after, toClient := Offered(sys.toClient, r.offer, fate), sent := Logged(sys.sent, r.offer))
    case ServerHears(i, resend, fate) =>
      var r := S.Turn(sys.server, S.Datagram(sys.toServer[i], resend), true, false, 0);
      sys.(server := r.after, toClient := Offered(sys.toClient, r.offer, fate), toServer := Remove(sys.toServer, i))
    case ServerTimer => sys.(server := S.Turn(sys.server, S.Silence, true, false, 0).after)
    case ServerGivesUp => sys.(server := S.Turn(sys.server, S.Silence, true, false, 0).after)
    case ClientHearsHello(pad, fate) => Hear(sys.(hello := None), sys.hello.value, pad, fate)
    case ClientHears(i, pad, fate) => Hear(sys.(toClient := Remove(sys.toClient, i)), sys.toClient[i], pad, fate)
    case ClientTimer =>
      sys.(client := if sys.client.phase == C.Filename then C.HearAnswer(sys.client, C.Silence)
                     else C.Receive(sys.client, C.Silence, 0).after)
    case ClientOpens(canOpen) => sys.(client := C.OpenOutput(sys.client, canOpen))
    case LoseHello => sys.(hello := None)
    case LoseToClient(i) => sys.(toClient := Remove(sys.toClient, i))
    case LoseToServer(i) => sys.(toServer := Remove(sys.toServer, i))
    case DuplicateHello => sys.(toClient := [sys.hello.value] + sys.toClient)
    case DuplicateToClient(i) => sys.(toClient := Twice(sys.toClient, i))
    case DuplicateToServer(i) => sys.(toServer := Twice(sys.toServer, i))
  }

  /** A run from sys, if every step is possible and allowed where it is taken. */
  function Exec(pol: Policy, sys: System, steps: seq<Step>): Option<System> {
    if steps == [] then Some(sys) else
      var n := |steps| - 1;
      var before := Exec(pol, sys, steps[..n]);
      if before.Some? && Possible(before.value, steps[n]) && Allowed(pol, before.value, steps[n])
      then Some(Apply(before.value, steps[n])) else None
  }

  ghost predicate Reaches(pol: Policy, s: System, t: System) {
    exists steps :: Exec(pol, s, steps) == Some(t)
  }

  /** What a session starts from: the file, the client's parameters, and what its requests so far have left. */
  datatype Transfer = Transfer(file: seq<byte>, b: nat, windowsize: Positive, retryCount: nat, clientSeqNum: uint32)

  /** The server has just answered FNAME_OK to a client that waits for the answer. */
  function Init(x: Transfer, fate: Fate): System {
    System(S.AnswerFilename(S.State(S.Filename, x.file, x.b, START_SEQ_NUM, [], 0, 0), true).after,
           C.State(C.Filename, START_SEQ_NUM, x.clientSeqNum, x.retryCount, 0, seq(x.windowsize, _ => Null), []),
           Arriving(Build(0, FNAME_OK, []), fate), [], [], [])
  }

  // ----- chunks

  /** The file as successive reads of at most b bytes return it. */
  function Chunks(file: seq<byte>, b: nat): (cs: seq<seq<byte>>)
    requires b > 0
    decreases |file|
  {
    if file == [] then [] else
      var n := Min(b, |file|);
      [file[..n]] + Chunks(file[n..], b)
  }

  lemma {:induction false} ConcatCons(c: seq<byte>, cs: seq<seq<byte>>)
    ensures C.Concat([c] + cs) == c + C.Concat(cs)
    decreases |cs|
  {
    if cs == [] {
      assert ([c] + cs)[..0] == [];
    } else {
      var n := |cs| - 1;
      ConcatCons(c, cs[..n]);
      assert ([c] + cs)[..n + 1] == [c] + cs[..n];
      assert c + (C.Concat(cs[..n]) + cs[n]) == c + C.Concat(cs[..n]) + cs[n];
    }
  }

  lemma {:induction false} ChunksMakeFile(file: seq<byte>, b: nat)
    requires b > 0
    ensures C.Concat(Chunks(file, b)) == file
    decreases |file|
  {
    if file != [] {
      var n := Min(b, |file|);
      ConcatCons(file[..n], Chunks(file[n..], b));
      ChunksMakeFile(file[n..], b);
    }
  }

  // ----- what every step keeps, whatever the outside does

  predicate InDataWait(s: S.State) {
    s.phase == S.WaitOnAck || s.phase == S.TimeoutOnAck
  }

  predicate InEofWait(s: S.State) {
    s.phase == S.WaitOnEofAck || s.phase == S.TimeoutOnEofAck || s.phase == S.BlockedInRecv
  }

  /** A packet that arrives as this frame. */
  predicate Carries(p: seq<byte>, flag: byte, seqNum: int, payload: seq<byte>) {
    C.Sized(p) && var a := Decode(p); a.Frame? && a.flag == flag && a.seqNum == seqNum && a.payload == payload
  }

  predicate CarriesEof(p: seq<byte>, seqNum: int) {
    C.Sized(p) && var a := Decode(p); a.Frame? && a.flag == END_OF_FILE && a.seqNum == seqNum
  }

  /** The packet that holds chunk n, counted from 1. */
  predicate CarriesChunk(cs: seq<seq<byte>>, p: seq<byte>, n: int) {
    1 <= n <= |cs| && Carries(p, DATA, n, cs[n - 1])
  }

  /** The server has sent the chunks below seqNum and holds the rest; its packet is the last one it sent. */
  predicate SenderOk(cs: seq<seq<byte>>, b: nat, s: S.State) {
    && 0 < b <= S.MAX_PAYLOAD && s.bufSize == b
    && |cs| < 0x7FFF_FFFF
    && 1 <= s.seqNum <= |cs| + 1
    && Chunks(s.unread, b) == cs[s.seqNum - 1..]
    && s.phase != S.Filename
    && (InDataWait(s) ==> CarriesChunk(cs, s.packet, s.seqNum - 1))
    && (InEofWait(s) ==> s.seqNum == |cs| + 1 && CarriesEof(s.packet, s.seqNum))
  }

  lemma ReadsChunk(cs: seq<seq<byte>>, b: nat, unread: seq<byte>, k: nat)
    requires b > 0 && k <= |cs| && Chunks(unread, b) == cs[k..]
    ensures unread == [] <==> k == |cs|
    ensures k < |cs| ==>
              cs[k] == unread[..Min(b, |unread|)] && Chunks(unread[Min(b, |unread|)..], b) == cs[k + 1..]
  {
    if unread != [] {
      assert cs[k..][0] == cs[k];
      assert cs[k..][1..] == cs[k + 1..];
      var n := Min(b, |unread|);
      assert ([unread[..n]] + Chunks(unread[n..], b))[1..] == Chunks(unread[n..], b);
    }
  }

  lemma BuiltCarries(seqNum: uint32, flag: byte, payload: seq<byte>)
    requires |payload| <= S.MAX_PAYLOAD
    ensures Carries(Build(seqNum, flag, payload), flag, seqNum, payload)
  {
    RoundTrip(seqNum, flag, payload);
  }

  lemma BuiltCarriesEof(seqNum: uint32, pad: byte)
    ensures CarriesEof(Build(seqNum, END_OF_FILE, [pad]), seqNum)
  {
    hide Decode, Build;
    BuiltCarries(seqNum, END_OF_FILE, [pad]);
  }

  lemma SendNextOk(cs: seq<seq<byte>>, b: nat, s: S.State, pad: byte)
    requires SenderOk(cs, b, s) && s.phase == S.SendData
    ensures var r := S.SendNext(s, false, pad);
      && SenderOk(cs, b, r.after)
      && r.offer == S.Fresh(r.after.packet)
      && r.after.seqNum == s.seqNum + (if s.seqNum <= |cs| then 1 else 0)
      && r.after.phase == if s.seqNum <= |cs| then S.WaitOnAck else S.WaitOnEofAck
  {
    hide Decode, Build, Chunks, Carries, CarriesEof;
    var len := Min(b, |s.unread|);
    ReadsChunk(cs, b, s.unread, s.seqNum - 1);
    SendNextIs(s, pad);
    hide S.SendNext, Min;
    if s.unread == [] {
      BuiltCarriesEof(s.seqNum, pad);
    } else {
      BuiltCarries(s.seqNum, DATA, s.unread[..len]);
    }
  }

  lemma SendNextIs(s: S.State, pad: byte)
    requires 0 < s.bufSize && s.seqNum < 0xFFFF_FFFF
    ensures var len := Min(s.bufSize, |s.unread|);
      && len <= s.bufSize && len <= |s.unread|
      && S.SendNext(s, false, pad) ==
         if s.unread == [] then
           var p := Build(s.seqNum, END_OF_FILE, [pad]);
           S.Reaction(s.(phase := S.WaitOnEofAck, packet := p), S.Fresh(p))
         else
           var p := Build(s.seqNum, DATA, s.unread[..len]);
           var t := s.(phase := S.WaitOnAck, packet := p, unread := s.unread[len..], seqNum := s.seqNum + 1);
           S.Reaction(t, S.Fresh(p))
  {
    hide Build;
  }

  lemma TurnOk(cs: seq<seq<byte>>, b: nat, s: S.State, e: S.Event, readFails: bool, pad: byte)
    requires SenderOk(cs, b, s) && S.EventOk(e)
    ensures SenderOk(cs, b, S.Turn(s, e, true, readFails, pad).after)
  {
    hide Decode, Build, Chunks;
    if s.phase == S.SendData && !readFails {
      SendNextOk(cs, b, s, pad);
    }
  }

  // ----- packets in flight

  predicate Corrupt(p: seq<byte>) {
    C.Sized(p) && Decode(p) == CrcError
  }

  predicate IsHello(p: seq<byte>) {
    Corrupt(p) || Carries(p, FNAME_OK, 0, [])
  }

  predicate IsData(cs: seq<seq<byte>>, p: seq<byte>, n: int) {
    Corrupt(p) || CarriesChunk(cs, p, n)
  }

  predicate IsEof(p: seq<byte>, n: int) {
    Corrupt(p) || CarriesEof(p, n)
  }

  predicate IsRR(p: seq<byte>) {
    Corrupt(p) || (C.Sized(p) && Decode(p).Frame? && Decode(p).flag == RR)
  }

  predicate FromServer(cs: seq<seq<byte>>, p: seq<byte>) {
    IsHello(p) || CarriesEof(p, |cs| + 1) || (C.Sized(p) && Decode(p).Frame? && CarriesChunk(cs, p, Decode(p).seqNum))
  }

  /** A packet as the server made it, fit for another send. */
  predicate Resendable(cs: seq<seq<byte>>, p: seq<byte>) {
    FromServer(cs, p) && C.Sized(p) && Decode(p).Frame?
  }

  predicate Starting(c: C.State) {
    c.phase == C.Filename || c.phase == C.FileOk
  }

  /** What holds in every reachable state under every policy. */
  predicate Base(cs: seq<seq<byte>>, b: nat, sys: System) {
    && SenderOk(cs, b, sys.server)
    && C.PrefixInv(cs, sys.client)
    && (Starting(sys.client) ==> sys.client.expected == 1)
    && (sys.hello.Some? ==> IsHello(sys.hello.value))
    && (forall p :: p in sys.toClient ==> FromServer(cs, p))
    && (forall p :: p in sys.toServer ==> C.Sized(p))
    && (forall p :: p in sys.sent ==> Resendable(cs, p))
  }

  lemma OfferFromServer(cs: seq<seq<byte>>, b: nat, s: S.State, readFails: bool, pad: byte)
    requires SenderOk(cs, b, s) && s.phase in {S.SendData, S.TimeoutOnAck, S.TimeoutOnEofAck}
    ensures var r := S.Turn(s, S.Silence, true, readFails, pad);
      && SenderOk(cs, b, r.after)
      && (r.offer == S.Nothing || ((r.offer.Fresh? || r.offer.Again?) && r.offer.packet == r.after.packet
          && (InDataWait(r.after) || InEofWait(r.after))))
  {
    hide Decode, Build, Chunks;
    TurnOk(cs, b, s, S.Silence, readFails, pad);
    if s.phase == S.SendData && !readFails {
      SendNextOk(cs, b, s, pad);
    }
  }

  lemma CurrentSound(cs: seq<seq<byte>>, b: nat, s: S.State)
    requires SenderOk(cs, b, s) && (InDataWait(s) || InEofWait(s))
    ensures Resendable(cs, s.packet)
  {
    hide Decode, Chunks;
  }

  lemma FromServerGenuine(cs: seq<seq<byte>>, p: seq<byte>)
    requires FromServer(cs, p)
    ensures C.Sized(p) && C.Genuine(cs, C.Datagram(p))
  {
    hide Decode;
  }

  lemma HelloGenuine(cs: seq<seq<byte>>, p: seq<byte>)
    requires IsHello(p)
    ensures C.Sized(p) && C.Genuine(cs, C.Datagram(p))
  {
    hide Decode;
  }

  lemma ServerSendsBase(cs: seq<seq<byte>>, b: nat, sys: System, step: Step)
    requires Base(cs, b, sys) && Possible(sys, step) && step.ServerSends?
    ensures Base(cs, b, Apply(sys, step))
  {
    hide Decode, Build, Chunks, C.PrefixInv, FlipAt;
    var r := S.Turn(sys.server, S.Silence, true, step.readFails, step.pad);
    OfferFromServer(cs, b, sys.server, step.readFails, step.pad);
    if r.offer != S.Nothing {
      CurrentSound(cs, b, r.after);
      var q := TransmitCases(sys.toClient, r.offer.packet, step.fate);
    }
  }

  lemma HearBase(cs: seq<seq<byte>>, b: nat, sys: System, p: seq<byte>, pad: byte, fate: Fate)
    requires Base(cs, b, sys) && Listening(sys.client) && C.Sized(p) && C.Genuine(cs, C.Datagram(p))
    ensures Base(cs, b, Hear(sys, p, pad, fate))
  {
    hide Decode, Build, Chunks, FlipAt, SenderOk, FromServer, IsHello, C.Genuine;
    if sys.client.phase == C.RecvData {
      C.ReceiveKeepsPrefix(cs, sys.client, C.Datagram(p), pad);
      var r := C.Receive(sys.client, C.Datagram(p), pad);
    }
  }

  lemma HelloFromServer(cs: seq<seq<byte>>, p: seq<byte>)
    requires IsHello(p)
    ensures FromServer(cs, p)
  {
  }

  /** What the window hands out for an SREJ is as good as any packet on its way to the client. */
  lemma ResendBase(cs: seq<seq<byte>>, sys: System, p: seq<byte>, resend: seq<byte>, fate: Fate)
    requires S.Waits(sys.server) && C.Sized(p) && (resend == [] || Resendable(cs, resend))
    requires forall q :: q in sys.toClient ==> FromServer(cs, q)
    ensures var r := S.Turn(sys.server, S.Datagram(p, resend), true, false, 0);
      forall q :: q in Offered(sys.toClient, r.offer, fate) ==> FromServer(cs, q)
  {
    hide Decode, Build, FlipAt, Transmit;
    if resend != [] {
      var q := TransmitCases(sys.toClient, resend, fate);
    }
  }

  lemma BaseKept(cs: seq<seq<byte>>, b: nat, sys: System, step: Step)
    requires Base(cs, b, sys) && Possible(sys, step)
    ensures Base(cs, b, Apply(sys, step))
  {
    hide Decode, Build, Chunks, FlipAt, SenderOk, FromServer, IsHello, C.Genuine;
    match step {
      case ServerSends(_, _, _) =>
        ServerSendsBase(cs, b, sys, step);
      case ServerHears(i, resend, fate) =>
        TurnOk(cs, b, sys.server, S.Datagram(sys.toServer[i], resend), false, 0);
        ResendBase(cs, sys, sys.toServer[i], resend, fate);
      case ServerTimer =>
        TurnOk(cs, b, sys.server, S.Silence, false, 0);
      case ServerGivesUp =>
        TurnOk(cs, b, sys.server, S.Silence, false, 0);
      case ClientHearsHello(pad, fate) =>
        HelloGenuine(cs, sys.hello.value);
        HearBase(cs, b, sys.(hello := None), sys.hello.value, pad, fate);
      case ClientHears(i, pad, fate) =>
        assert sys.toClient[i] in sys.toClient;
        FromServerGenuine(cs, sys.toClient[i]);
        HearBase(cs, b, sys.(toClient := Remove(sys.toClient, i)), sys.toClient[i], pad, fate);
      case ClientTimer =>
      case ClientOpens(_) =>
        assert cs[..0] == [];
      case LoseHello =>
      case LoseToClient(i) =>
      case LoseToServer(i) =>
      case DuplicateHello =>
        HelloFromServer(cs, sys.hello.value);
      case DuplicateToClient(i) =>
      case DuplicateToServer(i) =>
    }
  }
}
