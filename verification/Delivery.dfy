/** When a finished transfer holds the whole file: the invariants of whole runs, and the runs that break it. */
module Delivery {
  import opened Bytes
  import opened Checksum
  import opened Codec
  import opened Srej
  import opened Windowing
  import opened Session
  import S = Server
  import C = Rcopy

  predicate Active(c: C.State) {
    Starting(c) || c.phase == C.RecvData
  }

  // ----- one received packet

  lemma ReplyIsRR(net: Net, seqNum: uint32, fate: Fate)
    ensures var r := Transmit(net, Build(seqNum, RR, C.NO_RR), fate);
      |r| <= |net| + 1 && forall q :: q in r ==> q in net || IsRR(q)
  {
    hide Decode, Build, FlipAt;
    BuiltCarries(seqNum, RR, C.NO_RR);
    var q := TransmitCases(net, Build(seqNum, RR, C.NO_RR), fate);
  }

  /** A receiver that is not behind takes chunk `expected`, and answers an old chunk again. */
  lemma HearData(cs: seq<seq<byte>>, sys: System, p: seq<byte>, n: int, pad: byte, fate: Fate)
    requires AllNull(sys.client.slots) && sys.client.phase == C.RecvData
    requires IsData(cs, p, n) && (n == sys.client.expected || n == sys.client.expected - 1)
    ensures C.Sized(p)
    ensures var h := Hear(sys, p, pad, fate);
      && h.client.phase == C.RecvData && h.client.slots == sys.client.slots
      && h.server == sys.server && h.hello == sys.hello && h.toClient == sys.toClient
      && (h.client.expected == sys.client.expected || h.client.expected == n + 1)
      && |h.toServer| <= |sys.toServer| + 1
      && (forall q :: q in h.toServer ==> q in sys.toServer || IsRR(q))
      && (h.toServer != sys.toServer ==> h.client.expected == n + 1)
  {
    hide Build, FlipAt, Accepts;
    if Decode(p) != CrcError {
      ReplyIsRR(sys.toServer, sys.client.clientSeqNum, fate);
    }
  }

  lemma HearEof(sys: System, p: seq<byte>, n: int, pad: byte, fate: Fate)
    requires sys.client.phase == C.RecvData && IsEof(p, n)
    ensures C.Sized(p)
    ensures var h := Hear(sys, p, pad, fate);
      && h.client.slots == sys.client.slots && h.client.expected == sys.client.expected
      && (h.client.phase == C.DoneEof || h == sys)
  {
    hide Build, FlipAt, Accepts;
  }

  lemma HearInFilename(sys: System, p: seq<byte>, pad: byte, fate: Fate)
    requires sys.client.phase == C.Filename && C.Sized(p)
    ensures var h := Hear(sys, p, pad, fate);
      && h == sys.(client := h.client)
      && h.client.slots == sys.client.slots && h.client.expected == sys.client.expected
      && h.client.phase in {C.FileOk, C.StartState, C.DoneOther}
  {
    hide Decode;
  }

  /** What the wait for an acknowledgement does with a packet that is an RR, or damaged. */
  lemma HearAck(s: S.State, p: seq<byte>, resend: seq<byte>)
    requires IsRR(p) && S.Waits(s)
    ensures C.Sized(p) && S.Turn(s, S.Datagram(p, resend), true, false, 0).offer == S.Nothing
    ensures var t := S.Turn(s, S.Datagram(p, resend), true, false, 0).after;
      && t.seqNum == s.seqNum
      && (s.phase == S.WaitOnAck ==> t.phase == S.WaitOnAck || t.phase == S.SendData)
      && (s.phase != S.WaitOnAck ==> t.phase == S.WaitOnEofAck || t.phase == S.Done)
  {
    hide Accepts;
  }

  /** What silence does to a waiting server. */
  lemma HearSilence(s: S.State)
    requires Waiting(s)
    ensures var r := S.Turn(s, S.Silence, true, false, 0);
      && r.offer == S.Nothing
      && r.after == if s.phase == S.WaitOnAck
                    then s.(ackRetry := s.ackRetry + 1, phase := if S.Waits(s) then S.TimeoutOnAck else S.Done)
                    else s.(eofRetry := s.eofRetry + 1,
                            phase := if S.Waits(s) then S.TimeoutOnEofAck else S.BlockedInRecv)
  {
  }

  /** What transmitting the server's current packet adds to the network. */
  lemma SentKind(cs: seq<seq<byte>>, b: nat, s: S.State, net: Net, fate: Fate) returns (q: seq<byte>)
    requires SenderOk(cs, b, s) && (InDataWait(s) || InEofWait(s))
    ensures Transmit(net, s.packet, fate) == net || Transmit(net, s.packet, fate) == net + [q]
    ensures InDataWait(s) ==> IsData(cs, q, s.seqNum - 1)
    ensures InEofWait(s) ==> IsEof(q, s.seqNum)
  {
    hide Decode, Chunks, FlipAt, Transmit;
    CurrentSound(cs, b, s);
    q := TransmitCases(net, s.packet, fate);
  }

  /** The server's side of a sending step. */
  lemma TurnSends(cs: seq<seq<byte>>, b: nat, s: S.State, readFails: bool, pad: byte)
    requires SenderOk(cs, b, s) && s.phase in {S.SendData, S.TimeoutOnAck, S.TimeoutOnEofAck}
    ensures var r := S.Turn(s, S.Silence, true, readFails, pad);
      && (s.phase == S.TimeoutOnAck ==> r.after == s.(phase := S.WaitOnAck))
      && (s.phase == S.TimeoutOnEofAck ==> r.after == s.(phase := S.WaitOnEofAck))
      && (s.phase == S.SendData && readFails ==> r.after == s.(phase := S.Done) && r.offer == S.Nothing)
      && (s.phase == S.SendData && !readFails ==>
            && r.after.phase == (if s.seqNum <= |cs| then S.WaitOnAck else S.WaitOnEofAck)
            && r.after.seqNum == s.seqNum + (if s.seqNum <= |cs| then 1 else 0))
  {
    hide Decode, Build, Chunks, FlipAt, Carries, CarriesEof;
    if s.phase == S.SendData && !readFails {
      SendNextOk(cs, b, s, pad);
    }
  }

  lemma SenderBounds(cs: seq<seq<byte>>, b: nat, s: S.State)
    requires SenderOk(cs, b, s)
    ensures s.seqNum <= |cs| + 1
    ensures InDataWait(s) ==> s.seqNum >= 2
    ensures InEofWait(s) ==> s.seqNum == |cs| + 1
  {
    hide Decode, Chunks;
  }

  // ----- quiet timer, packets in order: any file

  predicate DataLink(cs: seq<seq<byte>>, sys: System) {
    var e, s := sys.client.expected, sys.server.seqNum;
    && (e == s - 1 || e == s)
    && (forall p :: p in sys.toClient ==> IsData(cs, p, s - 1))
    && (forall p :: p in sys.toServer ==> IsRR(p))
    && (sys.toServer != [] ==> e == s)
  }

  predicate EofLink(cs: seq<seq<byte>>, sys: System) {
    && sys.client.expected == sys.server.seqNum == |cs| + 1
    && (forall p :: p in sys.toClient ==> IsEof(p, sys.server.seqNum))
    && sys.toServer == []
  }

  /**
   * With s the server's next number and e the client's expected one: e is s - 1 or s while an
   * acknowledgement is awaited, s whenever an RR is in flight or the server is about to send; at most one
   * packet is in flight beside FNAME_OK; nothing is ever buffered.
   */
  predicate QuietLink(cs: seq<seq<byte>>, sys: System) {
    && AllNull(sys.client.slots)
    && (sys.client.phase == C.DoneEof ==> sys.client.expected == |cs| + 1)
    && (Active(sys.client) ==>
          && (sys.hello.Some? ==> sys.client.phase == C.Filename)
          && (Starting(sys.client) ==> sys.toServer == [])
          && |sys.toClient| + |sys.toServer| <= 1
          && match sys.server.phase
             case Filename => false
             case SendData => sys.toClient == [] && sys.toServer == [] && sys.client.expected == sys.server.seqNum
             case WaitOnAck => DataLink(cs, sys)
             case TimeoutOnAck => DataLink(cs, sys) && sys.toClient == [] && sys.toServer == []
             case WaitOnEofAck => EofLink(cs, sys)
             case TimeoutOnEofAck => EofLink(cs, sys) && sys.toClient == []
             case BlockedInRecv => EofLink(cs, sys)
             case Done => DataLink(cs, sys) || EofLink(cs, sys))
  }

  lemma QuietSends(cs: seq<seq<byte>>, b: nat, sys: System, step: Step)
    requires Base(cs, b, sys) && QuietLink(cs, sys) && Possible(sys, step) && step.ServerSends?
    ensures QuietLink(cs, Apply(sys, step))
  {
    hide Decode, Build, Chunks, FlipAt, C.PrefixInv, FromServer, IsData, IsEof, IsRR, SenderOk, S.Turn, Transmit;
    var r := S.Turn(sys.server, S.Silence, true, step.readFails, step.pad);
    OfferFromServer(cs, b, sys.server, step.readFails, step.pad);
    TurnSends(cs, b, sys.server, step.readFails, step.pad);
    SenderBounds(cs, b, r.after);
    if r.offer != S.Nothing {
      var q := SentKind(cs, b, r.after, sys.toClient, step.fate);
    }
  }

  lemma QuietServerHears(cs: seq<seq<byte>>, b: nat, sys: System, i: nat, resend: seq<byte>, fate: Fate)
    requires Base(cs, b, sys) && QuietLink(cs, sys) && Possible(sys, ServerHears(i, resend, fate))
    ensures QuietLink(cs, Apply(sys, ServerHears(i, resend, fate)))
  {
    hide Decode, Build, Chunks, FlipAt, C.PrefixInv, FromServer, IsData, IsEof, IsRR, SenderOk, S.Turn;
    if Active(sys.client) {
      var p := sys.toServer[i];
      assert p in sys.toServer;
      HearAck(sys.server, p, resend);
    }
  }

  lemma QuietClientHears(cs: seq<seq<byte>>, b: nat, sys: System, i: nat, pad: byte, fate: Fate)
    requires Base(cs, b, sys) && QuietLink(cs, sys) && sys.hello == None && Possible(sys, ClientHears(i, pad, fate))
    ensures QuietLink(cs, Apply(sys, ClientHears(i, pad, fate)))
  {
    hide Decode, Build, Chunks, FlipAt, C.PrefixInv, FromServer, IsData, IsEof, IsRR, Hear, SenderOk;
    var p := sys.toClient[i];
    var mid := sys.(toClient := Remove(sys.toClient, i));
    assert p in sys.toClient;
    if sys.client.phase == C.Filename {
      HearInFilename(mid, p, pad, fate);
    } else if EofLink(cs, sys) {
      HearEof(mid, p, sys.server.seqNum, pad, fate);
    } else {
      HearData(cs, mid, p, sys.server.seqNum - 1, pad, fate);
    }
  }

  lemma QuietSilence(cs: seq<seq<byte>>, b: nat, sys: System, step: Step)
    requires Base(cs, b, sys) && QuietLink(cs, sys) && Possible(sys, step)
    requires step.ServerGivesUp? || (step.ServerTimer? && Quiet(sys))
    ensures QuietLink(cs, Apply(sys, step))
  {
    hide Decode, Build, Chunks, FlipAt, SenderOk, C.PrefixInv, FromServer, IsData, IsEof, IsRR, S.Turn;
    HearSilence(sys.server);
  }

  /** FNAME_OK arrives, the client's timer fires, it opens its file, or the network loses something. */
  lemma QuietOther(cs: seq<seq<byte>>, sys: System, step: Step)
    requires QuietLink(cs, sys) && Possible(sys, step) && Allowed(ORDERLY, sys, step)
    requires step.ClientHearsHello? || step.ClientTimer? || step.ClientOpens?
          || step.LoseHello? || step.LoseToClient? || step.LoseToServer?
    ensures QuietLink(cs, Apply(sys, step))
  {
    hide Decode, Build, Chunks, FlipAt, IsData, IsEof, IsRR, Hear, S.Turn, Transmit;
    if step.ClientHearsHello? && sys.client.phase == C.Filename {
      HearInFilename(sys.(hello := None), sys.hello.value, step.pad, step.fate);
    }
  }

  /** Every step taken with a quiet timer and in order keeps the link. */
  lemma QuietLinkKept(cs: seq<seq<byte>>, b: nat, sys: System, step: Step)
    requires Base(cs, b, sys) && QuietLink(cs, sys) && Possible(sys, step) && Allowed(ORDERLY, sys, step)
    ensures QuietLink(cs, Apply(sys, step))
  {
    hide Decode, Build, Chunks, FlipAt, SenderOk, C.PrefixInv, FromServer, IsData, IsEof, IsRR, Hear, S.Turn;
    match step {
      case ServerSends(_, _, _) =>
        QuietSends(cs, b, sys, step);
      case ServerHears(i, resend, fate) =>
        QuietServerHears(cs, b, sys, i, resend, fate);
      case ServerTimer =>
        QuietSilence(cs, b, sys, step);
      case ServerGivesUp =>
        QuietSilence(cs, b, sys, step);
      case ClientHears(i, pad, fate) =>
        QuietClientHears(cs, b, sys, i, pad, fate);
      case _ =>
        QuietOther(cs, sys, step);
    }
  }

  // ----- any timer, packets in order: a file of one chunk

  /** With a single chunk, an RR or an END_OF_FILE can only follow its delivery. */
  predicate OneLink(cs: seq<seq<byte>>, sys: System) {
    var e := sys.client.expected;
    && |cs| == 1
    && AllNull(sys.client.slots)
    && (sys.client.phase == C.DoneEof ==> e == 2)
    && (Active(sys.client) ==>
          && (sys.hello.Some? ==> sys.client.phase == C.Filename)
          && (Starting(sys.client) ==> sys.toServer == [])
          && (forall p :: p in sys.toClient ==> IsData(cs, p, 1) || (e == 2 && IsEof(p, 2)))
          && (forall p :: p in sys.toServer ==> IsRR(p))
          && (sys.toServer != [] ==> e == 2)
          && (sys.server.seqNum == 2 && !InDataWait(sys.server) && sys.server.phase != S.Done ==> e == 2))
  }

  lemma OneSends(cs: seq<seq<byte>>, b: nat, sys: System, step: Step)
    requires Base(cs, b, sys) && OneLink(cs, sys) && Possible(sys, step) && step.ServerSends?
    ensures OneLink(cs, Apply(sys, step))
  {
    hide Decode, Build, Chunks, FlipAt, C.PrefixInv, FromServer, IsData, IsEof, IsRR, SenderOk, S.Turn, Transmit;
    var r := S.Turn(sys.server, S.Silence, true, step.readFails, step.pad);
    OfferFromServer(cs, b, sys.server, step.readFails, step.pad);
    TurnSends(cs, b, sys.server, step.readFails, step.pad);
    SenderBounds(cs, b, r.after);
    if r.offer != S.Nothing {
      var q := SentKind(cs, b, r.after, sys.toClient, step.fate);
    }
  }

  lemma OneServerHears(cs: seq<seq<byte>>, b: nat, sys: System, i: nat, resend: seq<byte>, fate: Fate)
    requires Base(cs, b, sys) && OneLink(cs, sys) && Possible(sys, ServerHears(i, resend, fate))
    ensures OneLink(cs, Apply(sys, ServerHears(i, resend, fate)))
  {
    hide Decode, Build, Chunks, FlipAt, C.PrefixInv, FromServer, IsData, IsEof, IsRR, SenderOk, S.Turn;
    if Active(sys.client) {
      var p := sys.toServer[i];
      assert p in sys.toServer;
      HearAck(sys.server, p, resend);
    }
  }

  lemma OneSilence(cs: seq<seq<byte>>, b: nat, sys: System, step: Step)
    requires Base(cs, b, sys) && OneLink(cs, sys) && Possible(sys, step)
    requires step.ServerTimer? || step.ServerGivesUp?
    ensures OneLink(cs, Apply(sys, step))
  {
    hide Decode, Build, Chunks, FlipAt, C.PrefixInv, FromServer, IsData, IsEof, IsRR, SenderOk, S.Turn;
    HearSilence(sys.server);
    SenderBounds(cs, b, sys.server);
  }

  lemma OneClientHears(cs: seq<seq<byte>>, b: nat, sys: System, i: nat, pad: byte, fate: Fate)
    requires Base(cs, b, sys) && OneLink(cs, sys) && sys.hello == None && Possible(sys, ClientHears(i, pad, fate))
    ensures OneLink(cs, Apply(sys, ClientHears(i, pad, fate)))
  {
    hide Decode, Build, Chunks, FlipAt, FromServer, IsData, IsEof, IsRR, Hear, SenderOk;
    var p := sys.toClient[i];
    var mid := sys.(toClient := Remove(sys.toClient, i));
    assert p in sys.toClient;
    if sys.client.phase == C.Filename {
      HearInFilename(mid, p, pad, fate);
    } else if IsData(cs, p, 1) {
      HearData(cs, mid, p, 1, pad, fate);
    } else {
      HearEof(mid, p, 2, pad, fate);
    }
  }

  /** FNAME_OK arrives, the client's timer fires, it opens its file, or the network loses something. */
  lemma OneOther(cs: seq<seq<byte>>, sys: System, step: Step)
    requires OneLink(cs, sys) && Possible(sys, step) && Allowed(Policy(false, true, true), sys, step)
    requires step.ClientHearsHello? || step.ClientTimer? || step.ClientOpens?
          || step.LoseHello? || step.LoseToClient? || step.LoseToServer?
    ensures OneLink(cs, Apply(sys, step))
  {
    hide Decode, Build, Chunks, FlipAt, IsData, IsEof, IsRR, Hear, S.Turn, Transmit;
    if step.ClientHearsHello? && sys.client.phase == C.Filename {
      HearInFilename(sys.(hello := None), sys.hello.value, step.pad, step.fate);
    }
  }

  lemma OneLinkKept(cs: seq<seq<byte>>, b: nat, sys: System, step: Step)
    requires Base(cs, b, sys) && OneLink(cs, sys)
    requires Possible(sys, step) && Allowed(Policy(false, true, true), sys, step)
    ensures OneLink(cs, Apply(sys, step))
  {
    hide Decode, Build, Chunks, FlipAt, SenderOk, C.PrefixInv, FromServer, IsData, IsEof, IsRR, Hear, S.Turn;
    match step {
      case ServerSends(_, _, _) =>
        OneSends(cs, b, sys, step);
      case ServerHears(i, resend, fate) =>
        OneServerHears(cs, b, sys, i, resend, fate);
      case ServerTimer =>
        OneSilence(cs, b, sys, step);
      case ServerGivesUp =>
        OneSilence(cs, b, sys, step);
      case ClientHears(i, pad, fate) =>
        OneClientHears(cs, b, sys, i, pad, fate);
      case _ =>
        OneOther(cs, sys, step);
    }
  }

  // ----- every reachable state

  predicate SetUp(x: Transfer) {
    0 < x.b <= S.MAX_PAYLOAD && |Chunks(x.file, x.b)| < 0x7FFF_FFFF && x.retryCount < MAX_TRIES
  }

  lemma InitBase(x: Transfer, fate: Fate)
    requires SetUp(x)
    ensures Base(Chunks(x.file, x.b), x.b, Init(x, fate))
    ensures QuietLink(Chunks(x.file, x.b), Init(x, fate))
    ensures |Chunks(x.file, x.b)| == 1 ==> OneLink(Chunks(x.file, x.b), Init(x, fate))
  {
    hide Decode, Build, Chunks, FlipAt;
    var cs := Chunks(x.file, x.b);
    assert cs[0..] == cs && cs[..0] == [];
    BuiltCarries(0, FNAME_OK, []);
    var q := TransmitCases([], Build(0, FNAME_OK, []), fate);
    assert Transmit([], Build(0, FNAME_OK, []), fate) != [] ==> Transmit([], Build(0, FNAME_OK, []), fate)[0] == q;
  }

  /** The invariants that hold under a policy. */
  predicate Kept(cs: seq<seq<byte>>, b: nat, pol: Policy, sys: System) {
    && Base(cs, b, sys)
    && (pol == ORDERLY ==> QuietLink(cs, sys))
    && (pol.fifo && pol.once && |cs| == 1 ==> OneLink(cs, sys))
  }

  lemma {:induction false} ExecKept(cs: seq<seq<byte>>, b: nat, pol: Policy, sys: System, steps: seq<Step>)
    requires Kept(cs, b, pol, sys) && Exec(pol, sys, steps).Some?
    ensures Kept(cs, b, pol, Exec(pol, sys, steps).value)
    decreases |steps|
  {
    hide Base, QuietLink, OneLink, Apply, Possible;
    if steps != [] {
      var n := |steps| - 1;
      ExecKept(cs, b, pol, sys, steps[..n]);
      var before := Exec(pol, sys, steps[..n]).value;
      BaseKept(cs, b, before, steps[n]);
      if pol == ORDERLY {
        QuietLinkKept(cs, b, before, steps[n]);
      }
      if pol.fifo && pol.once && |cs| == 1 {
        OneLinkKept(cs, b, before, steps[n]);
      }
    }
  }

  lemma ReachableKept(pol: Policy, x: Transfer, fate: Fate, sys: System)
    requires SetUp(x) && Reaches(pol, Init(x, fate), sys)
    ensures Kept(Chunks(x.file, x.b), x.b, pol, sys)
  {
    hide Exec, Init, Chunks, Base, QuietLink, OneLink;
    var init := Init(x, fate);
    InitBase(x, fate);
    var steps :| Exec(pol, init, steps) == Some(sys);
    ExecKept(Chunks(x.file, x.b), x.b, pol, init, steps);
  }

  /**
   * In every reachable state, whatever the timer and the network do, the output is exactly the chunks below
   * the expected number, and so a prefix of the file; the server's numbers never pass the chunk count by more
   * than one, so none of the 32-bit counters wraps.
   */
  lemma OutputIsPrefix(pol: Policy, x: Transfer, fate: Fate, sys: System)
    requires SetUp(x) && Reaches(pol, Init(x, fate), sys)
    ensures 1 <= sys.client.expected <= |Chunks(x.file, x.b)| + 1
    ensures 1 <= sys.server.seqNum <= |Chunks(x.file, x.b)| + 1
    ensures sys.client.output == C.Concat(Chunks(x.file, x.b)[..sys.client.expected - 1])
    ensures sys.client.output <= x.file
  {
    hide Chunks, Decode, Reaches, Init, QuietLink, OneLink;
    ReachableKept(pol, x, fate, sys);
    C.ConcatPrefix(Chunks(x.file, x.b), sys.client.expected - 1);
    ChunksMakeFile(x.file, x.b);
  }

  /**
   * With a quiet timer and an orderly network, in every reachable state nothing is buffered at the client and
   * every packet on its way to a live server is an RR or damaged: the SREJ branches are never taken.
   */
  lemma NeverBuffers(x: Transfer, fate: Fate, sys: System)
    requires SetUp(x) && Reaches(ORDERLY, Init(x, fate), sys)
    ensures AllNull(sys.client.slots)
    ensures Active(sys.client) ==> forall p :: p in sys.toServer ==> IsRR(p)
  {
    hide Chunks, Reaches, Init, Base, OneLink, IsRR, IsData, IsEof;
    ReachableKept(ORDERLY, x, fate, sys);
  }

  // ----- runs that go through, and runs that lose data

  lemma ReachesSelf(pol: Policy, s: System)
    ensures Reaches(pol, s, s)
  {
    assert Exec(pol, s, []) == Some(s);
  }

  lemma ReachesStep(pol: Policy, s: System, t: System, step: Step)
    requires Reaches(pol, s, t) && Possible(t, step) && Allowed(pol, t, step)
    ensures Reaches(pol, s, Apply(t, step))
  {
    hide Possible, Allowed, Apply;
    var steps :| Exec(pol, s, steps) == Some(t);
    assert (steps + [step])[..|steps|] == steps;
    assert Exec(pol, s, steps + [step]) == Some(Apply(t, step));
  }

  predicate SoundRR(p: seq<byte>) {
    C.Sized(p) && Decode(p).Frame? && Decode(p).flag == RR
  }

  lemma BuiltRR(seqNum: uint32)
    ensures SoundRR(Build(seqNum, RR, C.NO_RR))
  {
    hide Decode, Build;
    BuiltCarries(seqNum, RR, C.NO_RR);
  }

  function RRFor(c: C.State): seq<byte> {
    Build(c.clientSeqNum, RR, C.NO_RR)
  }

  /** The expected chunk is taken and acknowledged. */
  lemma TakesChunk(cs: seq<seq<byte>>, sys: System, p: seq<byte>)
    requires AllNull(sys.client.slots) && sys.client.phase == C.RecvData
    requires CarriesChunk(cs, p, sys.client.expected)
    ensures C.Sized(p)
    ensures var h := Hear(sys, p, 0, Intact);
      && h.toServer == sys.toServer + [RRFor(sys.client)]
      && h == sys.(client := h.client, toServer := h.toServer)
      && h.client == sys.client.(expected := sys.client.expected + 1, output := h.client.output)
  {
    hide Accepts, Build;
  }

  /** A chunk or answer below the expected one is acknowledged again. */
  lemma AnswersOld(sys: System, p: seq<byte>, flag: byte, n: int, payload: seq<byte>)
    requires sys.client.phase == C.RecvData
    requires Carries(p, flag, n, payload) && flag != END_OF_FILE && n < sys.client.expected
    ensures C.Sized(p)
    ensures Hear(sys, p, 0, Intact) == sys.(toServer := sys.toServer + [RRFor(sys.client)])
  {
    hide Accepts, Build;
  }

  lemma FinishesOnEof(sys: System, p: seq<byte>, n: int)
    requires sys.client.phase == C.RecvData && CarriesEof(p, n)
    ensures C.Sized(p)
    ensures var h := Hear(sys, p, 0, Intact);
      && h.client.phase == C.DoneEof && h.client.expected == sys.client.expected && h.client.output == sys.client.output
      && h.server == sys.server && h.toServer == sys.toServer + [Build(sys.client.clientSeqNum, EOF_ACK, [0])]
  {
    hide Accepts, Build;
  }

  lemma RRMovesOn(s: S.State, p: seq<byte>)
    requires s.phase == S.WaitOnAck && S.Waits(s) && SoundRR(p)
    ensures S.Turn(s, S.Datagram(p, []), true, false, 0)
         == S.Reaction(s.(ackRetry := 0, phase := S.SendData), S.Nothing)
  {
    hide Accepts;
  }

  /** Server and client agree that chunk k is next, and nothing is in flight. */
  predicate Synced(cs: seq<seq<byte>>, b: nat, sys: System, k: int) {
    && Base(cs, b, sys)
    && sys.server.phase == S.SendData && sys.server.seqNum == k && sys.server.ackRetry == 0 && sys.server.eofRetry == 0
    && sys.client.phase == C.RecvData && sys.client.expected == k && AllNull(sys.client.slots)
    && sys.hello == None && sys.toClient == [] && sys.toServer == []
  }

  lemma SendsChunk(cs: seq<seq<byte>>, b: nat, sys: System, fate: Fate) returns (t: System)
    requires Base(cs, b, sys) && sys.server.phase == S.SendData && sys.server.seqNum <= |cs|
    requires fate == Intact || fate == Lost
    ensures t == Apply(sys, ServerSends(false, 0, fate)) && Base(cs, b, t)
    ensures t == sys.(server := t.server, toClient := t.toClient, sent := t.sent)
    ensures t.toClient == if fate == Intact then sys.toClient + [t.server.packet] else sys.toClient
    ensures t.server.phase == S.WaitOnAck && t.server.seqNum == sys.server.seqNum + 1
    ensures t.server.ackRetry == sys.server.ackRetry && t.server.eofRetry == sys.server.eofRetry
    ensures CarriesChunk(cs, t.server.packet, sys.server.seqNum)
  {
    hide Decode, Build, Chunks, C.PrefixInv, Carries;
    t := Apply(sys, ServerSends(false, 0, fate));
    SendNextOk(cs, b, sys.server, 0);
    BaseKept(cs, b, sys, ServerSends(false, 0, fate));
  }

  lemma SendsEof(cs: seq<seq<byte>>, b: nat, sys: System) returns (t: System)
    requires Base(cs, b, sys) && sys.server.phase == S.SendData && sys.server.seqNum == |cs| + 1
    ensures t == Apply(sys, ServerSends(false, 0, Intact)) && Base(cs, b, t)
    ensures t == sys.(server := t.server, toClient := sys.toClient + [t.server.packet], sent := t.sent)
    ensures t.server.phase == S.WaitOnEofAck && t.server.eofRetry == sys.server.eofRetry
    ensures CarriesEof(t.server.packet, |cs| + 1)
  {
    hide Decode, Build, Chunks, C.PrefixInv, CarriesEof;
    t := Apply(sys, ServerSends(false, 0, Intact));
    SendNextOk(cs, b, sys.server, 0);
    BaseKept(cs, b, sys, ServerSends(false, 0, Intact));
  }

  /** One undisturbed round delivers chunk k. */
  lemma GoodRound(pol: Policy, from: System, cs: seq<seq<byte>>, b: nat, sys: System, k: int) returns (t: System)
    requires Reaches(pol, from, sys) && Synced(cs, b, sys, k) && k <= |cs|
    ensures Reaches(pol, from, t) && Synced(cs, b, t, k + 1)
  {
    hide Decode, Build, Chunks, C.PrefixInv, SenderOk, CarriesChunk, FromServer, Hear, S.Turn, Exec, Reaches, SoundRR;
    var t1 := SendsChunk(cs, b, sys, Intact);
    ReachesStep(pol, from, sys, ServerSends(false, 0, Intact));
    var p := t1.server.packet;
    assert Remove(t1.toClient, 0) == [];
    TakesChunk(cs, t1.(toClient := []), p);
    var t2 := Apply(t1, ClientHears(0, 0, Intact));
    ReachesStep(pol, from, t1, ClientHears(0, 0, Intact));
    BaseKept(cs, b, t1, ClientHears(0, 0, Intact));
    BuiltRR(sys.client.clientSeqNum);
    assert Remove(t2.toServer, 0) == [];
    RRMovesOn(t2.server, t2.toServer[0]);
    t := Apply(t2, ServerHears(0, [], Lost));
    ReachesStep(pol, from, t2, ServerHears(0, [], Lost));
    BaseKept(cs, b, t2, ServerHears(0, [], Lost));
  }

  lemma {:induction false} GoodRounds(pol: Policy, from: System, cs: seq<seq<byte>>, b: nat, sys: System, k: int,
                                           n: int)
    returns (t: System)
    requires Reaches(pol, from, sys) && Synced(cs, b, sys, k) && k <= n <= |cs| + 1
    ensures Reaches(pol, from, t) && Synced(cs, b, t, n)
    decreases n - k
  {
    hide Synced, Reaches;
    if k == n {
      t := sys;
    } else {
      t := GoodRound(pol, from, cs, b, sys, k);
      t := GoodRounds(pol, from, cs, b, t, k + 1, n);
    }
  }

  /** Any sound frame but FNAME_BAD is taken for a yes. */
  lemma SoundOpens(sys: System, p: seq<byte>, flag: byte, n: int, payload: seq<byte>)
    requires sys.client.phase == C.Filename && sys.client.retryCount < MAX_TRIES
    requires Carries(p, flag, n, payload) && flag != FNAME_BAD
    ensures C.Sized(p)
    ensures Hear(sys, p, 0, Intact) == sys.(client := sys.client.(phase := C.FileOk, retryCount := 0))
  {
    hide Accepts;
  }

  /** The answer arrives, the output file is opened, and chunk 1 is next on both sides. */
  lemma Handshake(pol: Policy, x: Transfer) returns (t: System)
    requires SetUp(x)
    ensures Reaches(pol, Init(x, Intact), t) && Synced(Chunks(x.file, x.b), x.b, t, 1)
  {
    hide Decode, Build, Chunks, C.PrefixInv, SenderOk, FromServer, Hear, Exec, Reaches, Carries;
    var cs, sys := Chunks(x.file, x.b), Init(x, Intact);
    InitBase(x, Intact);
    ReachesSelf(pol, sys);
    var hello := Build(0, FNAME_OK, []);
    BuiltCarries(0, FNAME_OK, []);
    SoundOpens(sys.(hello := None), hello, FNAME_OK, 0, []);
    var t1 := Apply(sys, ClientHearsHello(0, Intact));
    ReachesStep(pol, sys, sys, ClientHearsHello(0, Intact));
    BaseKept(cs, x.b, sys, ClientHearsHello(0, Intact));
    t := Apply(t1, ClientOpens(true));
    ReachesStep(pol, sys, t1, ClientOpens(true));
    BaseKept(cs, x.b, t1, ClientOpens(true));
  }

  /** END_OF_FILE is sent and received; the client is done with what it has. */
  lemma EofEnds(pol: Policy, from: System, cs: seq<seq<byte>>, b: nat, sys: System) returns (t: System)
    requires Reaches(pol, from, sys) && Base(cs, b, sys)
    requires sys.server.phase == S.SendData && sys.server.seqNum == |cs| + 1
    requires sys.client.phase == C.RecvData && sys.hello == None && sys.toClient == []
    ensures Reaches(pol, from, t) && Base(cs, b, t)
    ensures t.client.phase == C.DoneEof
    ensures t.client.output == sys.client.output && t.client.expected == sys.client.expected
    ensures t.server.phase == S.WaitOnEofAck && t.server.eofRetry == sys.server.eofRetry
    ensures t.toServer == sys.toServer + [Build(sys.client.clientSeqNum, EOF_ACK, [0])]
  {
    hide Decode, Build, Chunks, C.PrefixInv, SenderOk, CarriesEof, FromServer, Hear, S.Turn, Exec, Reaches;
    var t1 := SendsEof(cs, b, sys);
    ReachesStep(pol, from, sys, ServerSends(false, 0, Intact));
    assert Remove(t1.toClient, 0) == [];
    FinishesOnEof(t1.(toClient := []), t1.server.packet, |cs| + 1);
    t := Apply(t1, ClientHears(0, 0, Intact));
    ReachesStep(pol, from, t1, ClientHears(0, 0, Intact));
    BaseKept(cs, b, t1, ClientHears(0, 0, Intact));
  }

  lemma EofAckEnds(s: S.State, seqNum: uint32)
    requires s.phase == S.WaitOnEofAck && S.Waits(s)
    ensures var p := Build(seqNum, EOF_ACK, [0]);
      C.Sized(p) && S.Turn(s, S.Datagram(p, []), true, false, 0).after.phase == S.Done
  {
    hide Accepts, Build;
    BuiltCarries(seqNum, EOF_ACK, [0]);
  }

  /** Under every policy some run delivers the whole file and leaves both sides done. */
  lemma CanDeliver(pol: Policy, x: Transfer)
    requires SetUp(x)
    ensures exists t :: Reaches(pol, Init(x, Intact), t)
                     && t.client.phase == C.DoneEof && t.server.phase == S.Done && t.client.output == x.file
  {
    hide Decode, Build, Chunks, FromServer, Hear, S.Turn, Reaches;
    var cs, sys := Chunks(x.file, x.b), Init(x, Intact);
    var t := Handshake(pol, x);
    t := GoodRounds(pol, sys, cs, x.b, t, 1, |cs| + 1);
    var ack := Build(t.client.clientSeqNum, EOF_ACK, [0]);
    t := EofEnds(pol, sys, cs, x.b, t);
    assert t.toServer == [ack];
    t := FinalAck(pol, sys, t, ack);
    assert cs[..|cs|] == cs;
    ChunksMakeFile(x.file, x.b);
  }

  lemma FinalAck(pol: Policy, from: System, sys: System, ack: seq<byte>) returns (t: System)
    requires Reaches(pol, from, sys) && sys.server.phase == S.WaitOnEofAck && S.Waits(sys.server)
    requires sys.toServer == [ack] && exists seqNum: uint32 :: ack == Build(seqNum, EOF_ACK, [0])
    ensures Reaches(pol, from, t) && t.client == sys.client && t.server.phase == S.Done
  {
    hide Decode, Build, S.Turn, Exec, Reaches;
    var seqNum: uint32 :| ack == Build(seqNum, EOF_ACK, [0]);
    EofAckEnds(sys.server, seqNum);
    t := Apply(sys, ServerHears(0, [], Lost));
    ReachesStep(pol, from, sys, ServerHears(0, [], Lost));
  }

  lemma ShortPrefix(file: seq<byte>, b: nat, k: nat)
    requires b > 0 && k < |Chunks(file, b)|
    ensures C.Concat(Chunks(file, b)[..k]) != file
  {
    var cs := Chunks(file, b);
    ChunkNonempty(file, b, k);
    C.ConcatPrefix(cs, k + 1);
    C.ConcatNext(cs, k);
    ChunksMakeFile(file, b);
  }

  lemma {:induction false} ChunkNonempty(file: seq<byte>, b: nat, k: nat)
    requires b > 0 && k < |Chunks(file, b)|
    ensures Chunks(file, b)[k] != []
    decreases k
  {
    if k > 0 {
      ChunkNonempty(file[Min(b, |file|)..], b, k - 1);
    }
  }

  lemma TimerFires(s: S.State)
    requires s.phase == S.WaitOnAck && S.Waits(s)
    ensures S.Turn(s, S.Silence, true, false, 0).after == s.(phase := S.TimeoutOnAck, ackRetry := s.ackRetry + 1)
  {
  }

  lemma TimeoutResends(s: S.State)
    requires s.phase == S.TimeoutOnAck
    ensures S.Turn(s, S.Silence, true, false, 0) == S.Reaction(s.(phase := S.WaitOnAck), S.Again(s.packet))
  {
  }

  /** The server is about to send chunk k + 1 while a second RR for chunk k is still on its way. */
  predicate SpareRR(cs: seq<seq<byte>>, b: nat, sys: System, k: int) {
    && Base(cs, b, sys)
    && sys.server.phase == S.SendData && sys.server.seqNum == k + 1 && sys.server.ackRetry == 0
    && sys.client.phase == C.RecvData && sys.client.expected == k + 1
    && sys.hello == None && sys.toClient == [] && |sys.toServer| == 1 && SoundRR(sys.toServer[0])
  }

  /** Chunk k is sent, the timer fires at once, and chunk k is sent again. */
  lemma SendTwice(pol: Policy, from: System, cs: seq<seq<byte>>, b: nat, sys: System, k: int) returns (t: System)
    requires !pol.quietTimer && Reaches(pol, from, sys) && Synced(cs, b, sys, k) && k <= |cs|
    ensures Reaches(pol, from, t) && Base(cs, b, t)
    ensures t.server.phase == S.WaitOnAck && t.server.seqNum == k + 1 && t.server.ackRetry == 1
    ensures t == sys.(server := t.server, toClient := t.toClient, sent := t.sent)
    ensures CarriesChunk(cs, t.server.packet, k) && t.toClient == [t.server.packet, t.server.packet]
  {
    hide Decode, Build, Chunks, C.PrefixInv, SenderOk, FromServer, S.Turn, Exec, Reaches, CarriesChunk;
    var send := ServerSends(false, 0, Intact);
    var t1 := SendsChunk(cs, b, sys, Intact);
    ReachesStep(pol, from, sys, send);
    TimerFires(t1.server);
    var t2 := Apply(t1, ServerTimer);
    ReachesStep(pol, from, t1, ServerTimer);
    BaseKept(cs, b, t1, ServerTimer);
    TimeoutResends(t2.server);
    t := Apply(t2, send);
    ReachesStep(pol, from, t2, send);
    BaseKept(cs, b, t2, send);
  }

  /** The client takes the first copy and acknowledges both. */
  lemma HearTwice(pol: Policy, from: System, cs: seq<seq<byte>>, b: nat, sys: System, k: int) returns (t: System)
    requires Reaches(pol, from, sys) && Base(cs, b, sys)
    requires CarriesChunk(cs, sys.server.packet, k) && sys.toClient == [sys.server.packet, sys.server.packet]
    requires sys.client.phase == C.RecvData && sys.client.expected == k && AllNull(sys.client.slots)
    requires sys.hello == None && sys.toServer == []
    ensures Reaches(pol, from, t) && Base(cs, b, t)
    ensures t == sys.(client := t.client, toClient := [], toServer := [RRFor(sys.client), RRFor(sys.client)])
    ensures t.client.phase == C.RecvData && t.client.expected == k + 1
  {
    hide Decode, Build, Chunks, C.PrefixInv, SenderOk, FromServer, Hear, Exec, Reaches, Carries;
    var hear, p := ClientHears(0, 0, Intact), sys.server.packet;
    assert Remove([p, p], 0) == [p] && Remove([p], 0) == [];
    TakesChunk(cs, sys.(toClient := [p]), p);
    var t1 := Apply(sys, hear);
    ReachesStep(pol, from, sys, hear);
    BaseKept(cs, b, sys, hear);
    AnswersOld(t1.(toClient := []), p, DATA, k, cs[k - 1]);
    t := Apply(t1, hear);
    ReachesStep(pol, from, t1, hear);
    BaseKept(cs, b, t1, hear);
  }

  lemma MakeSpareRR(pol: Policy, from: System, cs: seq<seq<byte>>, b: nat, sys: System, k: int) returns (t: System)
    requires !pol.quietTimer && Reaches(pol, from, sys) && Synced(cs, b, sys, k) && k <= |cs|
    ensures Reaches(pol, from, t) && SpareRR(cs, b, t, k)
  {
    hide Decode, Build, Chunks, C.PrefixInv, SenderOk, FromServer, Hear, S.Turn, Exec, Reaches, SoundRR, CarriesChunk;
    t := SendTwice(pol, from, cs, b, sys, k);
    t := HearTwice(pol, from, cs, b, t, k);
    BuiltRR(sys.client.clientSeqNum);
    var rr := RRFor(sys.client);
    assert Remove([rr, rr], 0) == [rr];
    t := HearsRR(pol, from, cs, b, t);
  }

  lemma HearsRR(pol: Policy, from: System, cs: seq<seq<byte>>, b: nat, sys: System) returns (t: System)
    requires Reaches(pol, from, sys) && Base(cs, b, sys)
    requires sys.server.phase == S.WaitOnAck && S.Waits(sys.server) && sys.toServer != [] && SoundRR(sys.toServer[0])
    ensures Reaches(pol, from, t) && Base(cs, b, t)
    ensures t == sys.(server := sys.server.(ackRetry := 0, phase := S.SendData), toServer := Remove(sys.toServer, 0))
  {
    hide Decode, Build, Chunks, C.PrefixInv, SenderOk, FromServer, S.Turn, Exec, Reaches, SoundRR;
    RRMovesOn(sys.server, sys.toServer[0]);
    t := Apply(sys, ServerHears(0, [], Lost));
    ReachesStep(pol, from, sys, ServerHears(0, [], Lost));
    BaseKept(cs, b, sys, ServerHears(0, [], Lost));
  }

  /** The spare RR acknowledges a chunk that was lost. */
  lemma SpuriousAck(pol: Policy, from: System, cs: seq<seq<byte>>, b: nat, sys: System, n: int) returns (t: System)
    requires Reaches(pol, from, sys) && SpareRR(cs, b, sys, n - 1) && n <= |cs|
    ensures Reaches(pol, from, t) && Base(cs, b, t)
    ensures t.server.phase == S.SendData && t.server.seqNum == n + 1
    ensures t.client == sys.client && t.hello == None && t.toClient == []
  {
    hide Decode, Build, Chunks, C.PrefixInv, SenderOk, FromServer, S.Turn, Exec, Reaches, SoundRR, CarriesChunk;
    var t1 := SendsChunk(cs, b, sys, Lost);
    ReachesStep(pol, from, sys, ServerSends(false, 0, Lost));
    t := HearsRR(pol, from, cs, b, t1);
  }

  /**
   * A timer that fires while the packet is still on its way makes the server send chunk n - 1 twice; the
   * second RR is then taken for chunk n, which was lost, and the client finishes without it.
   */
  lemma HastyTimerLosesChunk(pol: Policy, x: Transfer) returns (t: System)
    requires SetUp(x) && !pol.quietTimer && |Chunks(x.file, x.b)| >= 2
    ensures Reaches(pol, Init(x, Intact), t)
    ensures t.client.phase == C.DoneEof && t.client.output != x.file
  {
    hide Decode, Build, Chunks, C.PrefixInv, SenderOk, CarriesChunk, FromServer, Hear, Exec, Reaches, SoundRR;
    var cs, sys := Chunks(x.file, x.b), Init(x, Intact);
    var n := |cs|;
    t := Handshake(pol, x);
    t := GoodRounds(pol, sys, cs, x.b, t, 1, n - 1);
    t := MakeSpareRR(pol, sys, cs, x.b, t, n - 1);
    t := SpuriousAck(pol, sys, cs, x.b, t, n);
    t := EofEnds(pol, sys, cs, x.b, t);
    PrefixAt(cs, t.client);
    ShortPrefix(x.file, x.b, n - 1);
  }

  lemma PrefixAt(cs: seq<seq<byte>>, c: C.State)
    requires C.PrefixInv(cs, c)
    ensures 1 <= c.expected <= |cs| + 1 && c.output == C.Concat(cs[..c.expected - 1])
  {
  }

  /** A chunk beyond the expected one is buffered and answered with SREJ. */
  lemma BuffersAhead(sys: System, p: seq<byte>, n: int, payload: seq<byte>)
    requires sys.client.phase == C.RecvData
    requires Carries(p, DATA, n, payload) && sys.client.expected < n
    ensures C.Sized(p)
    ensures var h := Hear(sys, p, 0, Intact);
      && h.client == sys.client.(slots := h.client.slots)
      && h.toServer == sys.toServer + [Build(sys.client.clientSeqNum, SREJ, LE32(n))]
      && h == sys.(client := h.client, toServer := h.toServer)
  {
    hide Accepts, Build;
  }

  lemma SrejMovesOn(s: S.State, seqNum: uint32, payload: seq<byte>)
    requires s.phase == S.WaitOnAck && S.Waits(s) && |payload| == 4
    ensures var p := Build(seqNum, SREJ, payload);
      C.Sized(p) && S.Turn(s, S.Datagram(p, []), true, false, 0)
                    == S.Reaction(s.(ackRetry := 0, phase := S.SendData), S.FromWindow([]))
  {
    hide Accepts, Build;
    BuiltCarries(seqNum, SREJ, payload);
  }

  /** The client still waits for chunk 1, the server is about to send chunk k, and nothing is in flight. */
  predicate LeftBehind(cs: seq<seq<byte>>, b: nat, sys: System, k: int) {
    && Base(cs, b, sys)
    && sys.server.phase == S.SendData && sys.server.seqNum == k && sys.server.ackRetry == 0
    && sys.client.phase == C.RecvData && sys.client.expected == 1
    && sys.hello == None && sys.toClient == [] && sys.toServer == []
  }

  lemma LeftBehindRound(pol: Policy, from: System, cs: seq<seq<byte>>, b: nat, sys: System, k: int) returns (t: System)
    requires Reaches(pol, from, sys) && LeftBehind(cs, b, sys, k) && 2 <= k <= |cs|
    ensures Reaches(pol, from, t) && LeftBehind(cs, b, t, k + 1)
  {
    hide Decode, Build, Chunks, C.PrefixInv, SenderOk, FromServer, Hear, S.Turn, Exec, Reaches, Carries;
    var hear := ClientHears(0, 0, Intact);
    var t1 := SendsChunk(cs, b, sys, Intact);
    ReachesStep(pol, from, sys, ServerSends(false, 0, Intact));
    var p := t1.server.packet;
    assert Remove([p], 0) == [];
    BuffersAhead(t1.(toClient := []), p, k, cs[k - 1]);
    var t2 := Apply(t1, hear);
    ReachesStep(pol, from, t1, hear);
    BaseKept(cs, b, t1, hear);
    SrejMovesOn(t2.server, sys.client.clientSeqNum, LE32(k));
    assert Remove(t2.toServer, 0) == [];
    t := Apply(t2, ServerHears(0, [], Lost));
    ReachesStep(pol, from, t2, ServerHears(0, [], Lost));
    BaseKept(cs, b, t2, ServerHears(0, [], Lost));
  }

  lemma {:induction false} LeftBehindRounds(pol: Policy, from: System, cs: seq<seq<byte>>, b: nat, sys: System, k: int)
    returns (t: System)
    requires Reaches(pol, from, sys) && LeftBehind(cs, b, sys, k) && 2 <= k <= |cs| + 1
    ensures Reaches(pol, from, t) && LeftBehind(cs, b, t, |cs| + 1)
    decreases |cs| + 1 - k
  {
    hide LeftBehind, Reaches;
    if k == |cs| + 1 {
      t := sys;
    } else {
      t := LeftBehindRound(pol, from, cs, b, sys, k);
      t := LeftBehindRounds(pol, from, cs, b, t, k + 1);
    }
  }

  /** Chunk 1 overtakes FNAME_OK and is swallowed as the answer; FNAME_OK is then acknowledged as chunk 1. */
  lemma HelloOvertaken(pol: Policy, x: Transfer) returns (t: System)
    requires SetUp(x) && !pol.fifo && |Chunks(x.file, x.b)| >= 1
    ensures Reaches(pol, Init(x, Intact), t) && LeftBehind(Chunks(x.file, x.b), x.b, t, 2)
  {
    hide Decode, Build, Chunks, C.PrefixInv, SenderOk, FromServer, Hear, S.Turn, Exec, Reaches, Carries, SoundRR;
    var cs, sys := Chunks(x.file, x.b), Init(x, Intact);
    InitBase(x, Intact);
    ReachesSelf(pol, sys);
    var t1 := ChunkOvertakes(pol, cs, x.b, sys);
    BuiltCarries(0, FNAME_OK, []);
    AnswersOld(t1.(hello := None), sys.hello.value, FNAME_OK, 0, []);
    var t2 := Apply(t1, ClientHearsHello(0, Intact));
    ReachesStep(pol, sys, t1, ClientHearsHello(0, Intact));
    BaseKept(cs, x.b, t1, ClientHearsHello(0, Intact));
    BuiltRR(t1.client.clientSeqNum);
    assert Remove(t2.toServer, 0) == [];
    t := HearsRR(pol, sys, cs, x.b, t2);
  }

  lemma ChunkOvertakes(pol: Policy, cs: seq<seq<byte>>, b: nat, sys: System) returns (t: System)
    requires !pol.fifo && Base(cs, b, sys) && |cs| >= 1
    requires sys.server.phase == S.SendData && sys.server.seqNum == 1 && sys.toClient == []
    requires sys.client.phase == C.Filename && sys.client.retryCount < MAX_TRIES
    ensures Reaches(pol, sys, t) && Base(cs, b, t)
    ensures t.server.phase == S.WaitOnAck && t.server.seqNum == 2 && t.server.ackRetry == sys.server.ackRetry
    ensures t == sys.(server := t.server, client := t.client, sent := t.sent)
    ensures t.client.phase == C.RecvData && t.client.expected == 1 && t.client.clientSeqNum == sys.client.clientSeqNum
  {
    hide Decode, Build, Chunks, C.PrefixInv, SenderOk, FromServer, Hear, Exec, Reaches, Carries;
    ReachesSelf(pol, sys);
    var hear := ClientHears(0, 0, Intact);
    var t1 := SendsChunk(cs, b, sys, Intact);
    ReachesStep(pol, sys, sys, ServerSends(false, 0, Intact));
    var p := t1.server.packet;
    assert Remove([p], 0) == [];
    SoundOpens(t1.(toClient := []), p, DATA, 1, cs[0]);
    var t2 := Apply(t1, hear);
    ReachesStep(pol, sys, t1, hear);
    BaseKept(cs, b, t1, hear);
    t := Apply(t2, ClientOpens(true));
    ReachesStep(pol, sys, t2, ClientOpens(true));
    BaseKept(cs, b, t2, ClientOpens(true));
  }

  lemma OvertakingLosesChunk(pol: Policy, x: Transfer) returns (t: System)
    requires SetUp(x) && !pol.fifo && |Chunks(x.file, x.b)| >= 1
    ensures Reaches(pol, Init(x, Intact), t)
    ensures t.client.phase == C.DoneEof && t.client.output != x.file
  {
    hide Decode, Build, Chunks, C.PrefixInv, SenderOk, FromServer, Exec, Reaches;
    var cs, sys := Chunks(x.file, x.b), Init(x, Intact);
    t := HelloOvertaken(pol, x);
    t := LeftBehindRounds(pol, sys, cs, x.b, t, 2);
    t := EofEnds(pol, sys, cs, x.b, t);
    PrefixAt(cs, t.client);
    ShortPrefix(x.file, x.b, 0);
  }

  /**
   * The server is about to send chunk k, the client still waits for chunk 1, and a copy of FNAME_OK is on its
   * way to it.
   */
  predicate Echoing(cs: seq<seq<byte>>, b: nat, sys: System, k: int) {
    && Base(cs, b, sys)
    && sys.server.phase == S.SendData && sys.server.seqNum == k && sys.server.ackRetry == 0
    && sys.client.phase == C.RecvData && sys.client.expected == 1
    && sys.hello == None && sys.toServer == []
    && |sys.toClient| == 1 && Carries(sys.toClient[0], FNAME_OK, 0, [])
  }

  /** FNAME_OK is duplicated and heard; the client opens its file with the copy still to come. */
  lemma HelloEchoes(pol: Policy, x: Transfer) returns (t: System)
    requires SetUp(x) && !pol.once
    ensures Reaches(pol, Init(x, Intact), t) && Echoing(Chunks(x.file, x.b), x.b, t, 1)
  {
    hide Decode, Build, Chunks, C.PrefixInv, SenderOk, FromServer, Hear, Exec, Reaches, Carries;
    var cs, sys := Chunks(x.file, x.b), Init(x, Intact);
    InitBase(x, Intact);
    ReachesSelf(pol, sys);
    var hello := Build(0, FNAME_OK, []);
    BuiltCarries(0, FNAME_OK, []);
    var t1 := Apply(sys, DuplicateHello);
    ReachesStep(pol, sys, sys, DuplicateHello);
    BaseKept(cs, x.b, sys, DuplicateHello);
    SoundOpens(t1.(hello := None), hello, FNAME_OK, 0, []);
    var t2 := Apply(t1, ClientHearsHello(0, Intact));
    ReachesStep(pol, sys, t1, ClientHearsHello(0, Intact));
    BaseKept(cs, x.b, t1, ClientHearsHello(0, Intact));
    t := Apply(t2, ClientOpens(true));
    ReachesStep(pol, sys, t2, ClientOpens(true));
    BaseKept(cs, x.b, t2, ClientOpens(true));
  }

  /** One more copy of FNAME_OK is acknowledged as an old chunk, and the RR is taken for chunk k, which was lost. */
  lemma EchoRound(pol: Policy, from: System, cs: seq<seq<byte>>, b: nat, sys: System, k: int) returns (t: System)
    requires !pol.once && Reaches(pol, from, sys) && Echoing(cs, b, sys, k) && k <= |cs|
    ensures Reaches(pol, from, t) && Echoing(cs, b, t, k + 1)
  {
    hide Decode, Build, Chunks, C.PrefixInv, SenderOk, FromServer, Hear, S.Turn, Exec, Reaches, Carries, SoundRR;
    var p, hear := sys.toClient[0], ClientHears(0, 0, Intact);
    var t1 := Apply(sys, DuplicateToClient(0));
    ReachesStep(pol, from, sys, DuplicateToClient(0));
    BaseKept(cs, b, sys, DuplicateToClient(0));
    var t2 := SendsChunk(cs, b, t1, Lost);
    ReachesStep(pol, from, t1, ServerSends(false, 0, Lost));
    assert Remove(t2.toClient, 0) == [p];
    AnswersOld(t2.(toClient := [p]), p, FNAME_OK, 0, []);
    var t3 := Apply(t2, hear);
    ReachesStep(pol, from, t2, hear);
    BaseKept(cs, b, t2, hear);
    BuiltRR(sys.client.clientSeqNum);
    assert Remove(t3.toServer, 0) == [];
    t := HearsRR(pol, from, cs, b, t3);
  }

  lemma {:induction false} EchoRounds(pol: Policy, from: System, cs: seq<seq<byte>>, b: nat, sys: System, k: int)
    returns (t: System)
    requires !pol.once && Reaches(pol, from, sys) && Echoing(cs, b, sys, k) && k <= |cs| + 1
    ensures Reaches(pol, from, t) && Echoing(cs, b, t, |cs| + 1)
    decreases |cs| + 1 - k
  {
    hide Echoing, Reaches;
    if k == |cs| + 1 {
      t := sys;
    } else {
      t := EchoRound(pol, from, cs, b, sys, k);
      t := EchoRounds(pol, from, cs, b, t, k + 1);
    }
  }

  /** Copies of FNAME_OK stand in for every chunk: the client finishes with an empty file. */
  lemma EchoLosesFile(pol: Policy, x: Transfer) returns (t: System)
    requires SetUp(x) && !pol.once && |Chunks(x.file, x.b)| >= 1
    ensures Reaches(pol, Init(x, Intact), t)
    ensures t.client.phase == C.DoneEof && t.client.output == [] != x.file
  {
    hide Decode, Build, Chunks, C.PrefixInv, SenderOk, FromServer, Exec, Reaches, Carries;
    var cs, sys := Chunks(x.file, x.b), Init(x, Intact);
    t := HelloEchoes(pol, x);
    t := EchoRounds(pol, sys, cs, x.b, t, 1);
    ReachesStep(pol, sys, t, LoseToClient(0));
    BaseKept(cs, x.b, t, LoseToClient(0));
    assert Remove(t.toClient, 0) == [];
    t := EofEnds(pol, sys, cs, x.b, Apply(t, LoseToClient(0)));
    PrefixAt(cs, t.client);
    ShortPrefix(x.file, x.b, 0);
  }

  // ----- the exact condition

  /** Every run that ends with END_OF_FILE at the client leaves the whole file there. */
  ghost predicate AlwaysDelivers(pol: Policy, x: Transfer) {
    forall fate, sys :: Reaches(pol, Init(x, fate), sys) && sys.client.phase == C.DoneEof ==>
      sys.client.output == x.file
  }

  /** Nothing to lose, or orderly delivery with either a quiet timer or a single chunk. */
  predicate Dependable(pol: Policy, chunks: nat) {
    chunks == 0 || (pol.fifo && pol.once && (pol.quietTimer || chunks == 1))
  }

  lemma DependableDelivers(pol: Policy, x: Transfer, fate: Fate, sys: System)
    requires SetUp(x) && Dependable(pol, |Chunks(x.file, x.b)|)
    requires Reaches(pol, Init(x, fate), sys) && sys.client.phase == C.DoneEof
    ensures sys.client.output == x.file
  {
    hide Chunks, Decode, SenderOk, FromServer, Reaches, Init;
    var cs := Chunks(x.file, x.b);
    ReachableKept(pol, x, fate, sys);
    assert cs[..sys.client.expected - 1] == cs;
    ChunksMakeFile(x.file, x.b);
  }

  /**
   * The end-to-end theorem, with its exact condition: a finished transfer always holds the whole file if and
   * only if the file is empty, or packets stay in order, none is duplicated, and either the timer is quiet or
   * there is one chunk.
   */
  lemma DeliversIff(pol: Policy, x: Transfer)
    requires SetUp(x)
    ensures AlwaysDelivers(pol, x) <==> Dependable(pol, |Chunks(x.file, x.b)|)
  {
    hide Chunks, Init, Reaches;
    if Dependable(pol, |Chunks(x.file, x.b)|) {
      forall fate, sys | Reaches(pol, Init(x, fate), sys) && sys.client.phase == C.DoneEof
        ensures sys.client.output == x.file
      {
        DependableDelivers(pol, x, fate, sys);
      }
    } else if !pol.fifo {
      var t := OvertakingLosesChunk(pol, x);
    } else if !pol.once {
      var t := EchoLosesFile(pol, x);
    } else {
      var t := HastyTimerLosesChunk(pol, x);
    }
  }
}
