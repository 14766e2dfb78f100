/** No loss is final while tries are left: every reachable state can still be completed. */
module Recovery {
  import opened Bytes
  import opened Checksum
  import opened Codec
  import opened Srej
  import opened Session
  import opened Delivery
  import S = Server
  import C = Rcopy

  /** Retry counters start a wait at zero, and a timeout is counted within MAX_TRIES. */
  predicate RetryOk(sys: System) {
    var s := sys.server;
    && (s.phase == S.SendData ==> s.ackRetry == 0 && s.eofRetry == 0)
    && (InDataWait(s) ==> s.eofRetry == 0)
    && (s.phase == S.TimeoutOnEofAck ==> s.eofRetry <= MAX_TRIES)
    && (sys.client.phase == C.Filename ==> sys.client.retryCount < MAX_TRIES)
  }

  lemma TurnRetry(sys: System, e: S.Event, readFails: bool, pad: byte)
    requires S.EventOk(e) && RetryOk(sys) && sys.server.phase != S.Filename
    ensures RetryOk(sys.(server := S.Turn(sys.server, e, true, readFails, pad).after))
  {
    hide Decode, Build;
  }

  lemma HearRetry(sys: System, p: seq<byte>, pad: byte, fate: Fate)
    requires C.Sized(p) && Listening(sys.client) && RetryOk(sys)
    ensures RetryOk(Hear(sys, p, pad, fate))
  {
    hide Decode, Build;
    if sys.client.phase == C.Filename {
      HearInFilename(sys, p, pad, fate);
    } else {
    }
  }

  lemma ApplyRetry(cs: seq<seq<byte>>, b: nat, sys: System, step: Step)
    requires Base(cs, b, sys) && RetryOk(sys) && Possible(sys, step)
    ensures RetryOk(Apply(sys, step))
  {
    hide Decode, Build, Chunks, C.PrefixInv, CarriesChunk, CarriesEof, FromServer, Hear, S.Turn;
    match step {
      case ServerSends(readFails, pad, _) =>
        TurnRetry(sys, S.Silence, readFails, pad);
      case ServerHears(i, resend, _) =>
        TurnRetry(sys, S.Datagram(sys.toServer[i], resend), false, 0);
      case ServerTimer =>
        TurnRetry(sys, S.Silence, false, 0);
      case ServerGivesUp =>
        TurnRetry(sys, S.Silence, false, 0);
      case ClientHearsHello(pad, fate) =>
        HearRetry(sys.(hello := None), sys.hello.value, pad, fate);
      case ClientHears(i, pad, fate) =>
        HearRetry(sys.(toClient := Remove(sys.toClient, i)), sys.toClient[i], pad, fate);
      case _ =>
    }
  }

  lemma {:induction false} ExecRetry(cs: seq<seq<byte>>, b: nat, pol: Policy, sys: System, steps: seq<Step>)
    requires Kept(cs, b, pol, sys) && RetryOk(sys) && Exec(pol, sys, steps).Some?
    ensures RetryOk(Exec(pol, sys, steps).value)
    decreases |steps|
  {
    hide Base, QuietLink, OneLink, RetryOk, Apply, Possible, Allowed;
    if steps != [] {
      var n := |steps| - 1;
      ExecRetry(cs, b, pol, sys, steps[..n]);
      ExecKept(cs, b, pol, sys, steps[..n]);
      ApplyRetry(cs, b, Exec(pol, sys, steps[..n]).value, steps[n]);
    }
  }

  // ----- forgetting what is in flight

  /** Reachable states keep the invariants. */
  ghost predicate Tracked(cs: seq<seq<byte>>, b: nat, from: System, sys: System) {
    Reaches(ORDERLY, from, sys) && Base(cs, b, sys) && QuietLink(cs, sys) && RetryOk(sys)
  }

  lemma Advance(cs: seq<seq<byte>>, b: nat, from: System, sys: System, step: Step) returns (t: System)
    requires Tracked(cs, b, from, sys) && Possible(sys, step) && Allowed(ORDERLY, sys, step)
    ensures t == Apply(sys, step) && Tracked(cs, b, from, t)
  {
    hide Base, QuietLink, RetryOk, Apply, Reaches;
    t := Apply(sys, step);
    ReachesStep(ORDERLY, from, sys, step);
    BaseKept(cs, b, sys, step);
    QuietLinkKept(cs, b, sys, step);
    ApplyRetry(cs, b, sys, step);
  }

  /** The network may lose everything. */
  lemma Drain(cs: seq<seq<byte>>, b: nat, from: System, sys: System) returns (t: System)
    requires Tracked(cs, b, from, sys)
    ensures Tracked(cs, b, from, t) && t == sys.(hello := None, toClient := [], toServer := [])
    decreases (if sys.hello.Some? then 1 else 0) + |sys.toClient| + |sys.toServer|
  {
    hide Tracked;
    if sys.hello.Some? {
      t := Advance(cs, b, from, sys, LoseHello);
      t := Drain(cs, b, from, t);
    } else if sys.toClient != [] {
      t := Advance(cs, b, from, sys, LoseToClient(0));
      t := Drain(cs, b, from, t);
    } else if sys.toServer != [] {
      t := Advance(cs, b, from, sys, LoseToServer(0));
      t := Drain(cs, b, from, t);
    } else {
      t := sys;
    }
  }

  // ----- one retransmission that gets through

  /** The tries that the server has used up when its next packet goes out, if nothing is in flight. */
  function TriesAtSend(s: S.State): nat {
    (if InEofWait(s) then s.eofRetry else s.ackRetry) + (if Waiting(s) then 1 else 0)
  }

  predicate Sending(s: S.State) {
    s.phase in {S.SendData, S.WaitOnAck, S.TimeoutOnAck, S.WaitOnEofAck, S.TimeoutOnEofAck}
  }

  /**
   * Tries enough to finish: the next packet has to go out, one more if that one is needed to let the client open
   * its file, and for a chunk there has to be a wait in which its RR is heard.
   */
  predicate TriesLeft(sys: System) {
    && Sending(sys.server)
    && TriesAtSend(sys.server) + (if sys.client.phase == C.Filename then 1 else 0)
         + (if InEofWait(sys.server) then 0 else 1) <= MAX_TRIES
  }

  /** On the empty network the server gets as far as its next packet, which is not lost. */
  lemma NextSend(cs: seq<seq<byte>>, b: nat, from: System, sys: System) returns (t: System)
    requires Tracked(cs, b, from, sys) && Quiet(sys)
    requires Sending(sys.server) && TriesAtSend(sys.server) <= MAX_TRIES
    ensures Tracked(cs, b, from, t)
    ensures t == sys.(server := t.server, toClient := [t.server.packet], sent := t.sent)
    ensures Waiting(t.server) && TriesAtSend(t.server) == TriesAtSend(sys.server) + 1
    ensures sys.server.phase != S.SendData ==> InEofWait(t.server) == InEofWait(sys.server)
  {
    hide Tracked, Decode, Build, Base, QuietLink;
    TrackedRetry(cs, b, from, sys);
    t := sys;
    if Waiting(sys.server) {
      t := Advance(cs, b, from, sys, ServerTimer);
    }
    var u := t;
    t := Advance(cs, b, from, u, ServerSends(false, 0, Intact));
    TrackedRetry(cs, b, from, u);
    TurnSends(cs, b, u.server, false, 0);
    OfferFromServer(cs, b, u.server, false, 0);
  }

  lemma SwallowedAsAnswer(sys: System, p: seq<byte>)
    requires sys.client.phase == C.Filename && sys.client.retryCount < MAX_TRIES
    requires C.Sized(p) && Decode(p).Frame? && Decode(p).flag != FNAME_BAD
    ensures Hear(sys, p, 0, Intact) == sys.(client := sys.client.(phase := C.FileOk, retryCount := 0))
  {
    hide Accepts;
  }

  lemma PacketKind(cs: seq<seq<byte>>, b: nat, s: S.State)
    requires SenderOk(cs, b, s) && (InDataWait(s) || InEofWait(s))
    ensures C.Sized(s.packet) && Decode(s.packet).Frame?
    ensures Decode(s.packet).flag == if InDataWait(s) then DATA else END_OF_FILE
  {
    hide Accepts, Chunks;
  }

  /** A client that still waits for the answer takes the packet in flight for it, and opens its file. */
  lemma OpensOn(cs: seq<seq<byte>>, b: nat, from: System, sys: System) returns (t: System)
    requires Tracked(cs, b, from, sys) && Base(cs, b, sys)
    requires sys.client.phase == C.Filename && sys.client.retryCount < MAX_TRIES
    requires InDataWait(sys.server) || InEofWait(sys.server)
    requires sys.hello == None && sys.toClient == [sys.server.packet]
    ensures Tracked(cs, b, from, t)
    ensures t == sys.(client := t.client, toClient := [])
    ensures t.client.phase == C.RecvData && t.client.slots == sys.client.slots
  {
    hide Tracked, Decode, Build, Chunks, C.PrefixInv, FromServer, SenderOk, Hear;
    PacketKind(cs, b, sys.server);
    assert Remove(sys.toClient, 0) == [];
    SwallowedAsAnswer(sys.(toClient := []), sys.server.packet);
    t := Advance(cs, b, from, sys, ClientHears(0, 0, Intact));
    t := Advance(cs, b, from, t, ClientOpens(true));
  }

  // ----- completing the transfer

  /** The chunk in flight is taken or answered again, the RR comes back, and both sides agree. */
  lemma DataRound(cs: seq<seq<byte>>, b: nat, from: System, sys: System) returns (t: System)
    requires Tracked(cs, b, from, sys)
    requires sys.client.phase == C.RecvData && sys.server.phase == S.WaitOnAck && S.Waits(sys.server)
    requires sys.hello == None && sys.toClient == [sys.server.packet] && sys.toServer == []
    ensures Reaches(ORDERLY, from, t) && Synced(cs, b, t, sys.server.seqNum)
  {
    hide Decode, Build, Chunks, C.PrefixInv, FromServer, Hear, S.Turn, Exec, Reaches, SoundRR, Carries;
    var p, n := sys.server.packet, sys.server.seqNum - 1;
    assert Remove(sys.toClient, 0) == [];
    var mid := sys.(toClient := []);
    if sys.client.expected == n {
      TakesChunk(cs, mid, p);
    } else {
      AnswersOld(mid, p, DATA, n, cs[n - 1]);
    }
    var t1 := Apply(sys, ClientHears(0, 0, Intact));
    ReachesStep(ORDERLY, from, sys, ClientHears(0, 0, Intact));
    BaseKept(cs, b, sys, ClientHears(0, 0, Intact));
    BuiltRR(sys.client.clientSeqNum);
    assert t1.toServer == [RRFor(sys.client)] && Remove(t1.toServer, 0) == [];
    t := HearsRR(ORDERLY, from, cs, b, t1);
  }

  /** END_OF_FILE gets through. */
  lemma EofRound(cs: seq<seq<byte>>, b: nat, from: System, sys: System) returns (t: System)
    requires Tracked(cs, b, from, sys)
    requires sys.client.phase == C.RecvData && sys.server.phase == S.WaitOnEofAck
    requires sys.hello == None && sys.toClient == [sys.server.packet] && sys.toServer == []
    ensures Reaches(ORDERLY, from, t) && Base(cs, b, t)
    ensures t.client.phase == C.DoneEof && t.client.expected == |cs| + 1
  {
    hide Decode, Build, Chunks, C.PrefixInv, FromServer, Hear, S.Turn, Exec, Reaches, CarriesEof;
    assert Remove(sys.toClient, 0) == [];
    FinishesOnEof(sys.(toClient := []), sys.server.packet, sys.server.seqNum);
    t := Apply(sys, ClientHears(0, 0, Intact));
    ReachesStep(ORDERLY, from, sys, ClientHears(0, 0, Intact));
    BaseKept(cs, b, sys, ClientHears(0, 0, Intact));
  }

  lemma TrackedRetry(cs: seq<seq<byte>>, b: nat, from: System, sys: System)
    requires Tracked(cs, b, from, sys)
    ensures RetryOk(sys) && Base(cs, b, sys) && SenderOk(cs, b, sys.server)
  {
  }

  /** Whatever is in flight is lost, and the client has its file open or still waits for the answer. */
  lemma Settle(cs: seq<seq<byte>>, b: nat, from: System, sys: System) returns (t: System)
    requires Tracked(cs, b, from, sys) && Active(sys.client)
    ensures Tracked(cs, b, from, t) && Quiet(t) && t.server == sys.server
    ensures t.client.phase == if sys.client.phase == C.Filename then C.Filename else C.RecvData
  {
    hide Tracked;
    t := Drain(cs, b, from, sys);
    if t.client.phase == C.FileOk {
      t := Advance(cs, b, from, t, ClientOpens(true));
    }
  }

  lemma Complete(cs: seq<seq<byte>>, b: nat, from: System, sys: System) returns (t: System)
    requires Tracked(cs, b, from, sys) && Quiet(sys) && TriesLeft(sys)
    requires sys.client.phase == C.Filename || sys.client.phase == C.RecvData
    ensures Reaches(ORDERLY, from, t) && Base(cs, b, t)
    ensures t.client.phase == C.DoneEof && t.client.expected == |cs| + 1
  {
    hide Tracked, Hear, S.Turn, Decode, Build, Reaches, Base;
    t := NextSend(cs, b, from, sys);
    if t.client.phase == C.Filename {
      TrackedRetry(cs, b, from, t);
      t := OpensOn(cs, b, from, t);
      t := NextSend(cs, b, from, t);
    }
    if t.server.phase == S.WaitOnAck {
      TrackedRetry(cs, b, from, t);
      SenderBounds(cs, b, t.server);
      var k := t.server.seqNum;
      t := DataRound(cs, b, from, t);
      t := SyncedEnds(cs, b, from, t, k);
    } else {
      t := EofRound(cs, b, from, t);
    }
  }

  lemma SyncedEnds(cs: seq<seq<byte>>, b: nat, from: System, sys: System, k: int) returns (t: System)
    requires Reaches(ORDERLY, from, sys) && Synced(cs, b, sys, k) && k <= |cs| + 1
    ensures Reaches(ORDERLY, from, t) && Base(cs, b, t)
    ensures t.client.phase == C.DoneEof && t.client.expected == |cs| + 1
  {
    hide Reaches, Base;
    t := GoodRounds(ORDERLY, from, cs, b, sys, k, |cs| + 1);
    t := EofEnds(ORDERLY, from, cs, b, t);
  }

  /** The transfer can still be completed from here, with the whole file at the client. */
  ghost predicate CanFinish(x: Transfer, sys: System) {
    exists t :: Reaches(ORDERLY, sys, t) && t.client.phase == C.DoneEof && t.client.output == x.file
  }

  /**
   * Nothing lost so far is final: with a quiet timer and packets in order, from every reachable state in which
   * the client is still in the session and the server has tries enough, the transfer can be completed.
   */
  lemma CanStillFinish(x: Transfer, fate: Fate, sys: System)
    requires SetUp(x) && Reaches(ORDERLY, Init(x, fate), sys)
    requires Active(sys.client) && TriesLeft(sys)
    ensures CanFinish(x, sys)
  {
    hide Chunks, Init, Exec, Decode, Build, QuietLink, OneLink, Reaches;
    var cs := Chunks(x.file, x.b);
    ReachableKept(ORDERLY, x, fate, sys);
    ReachableRetry(x, fate, sys);
    ReachesSelf(ORDERLY, sys);
    var t := Settle(cs, x.b, sys, sys);
    t := Complete(cs, x.b, sys, t);
    PrefixAt(cs, t.client);
    assert cs[..|cs|] == cs;
    ChunksMakeFile(x.file, x.b);
  }

  lemma ReachableRetry(x: Transfer, fate: Fate, sys: System)
    requires SetUp(x) && Reaches(ORDERLY, Init(x, fate), sys)
    ensures RetryOk(sys)
  {
    hide Chunks, Exec, Base, QuietLink, OneLink;
    var init := Init(x, fate);
    InitBase(x, fate);
    var steps :| Exec(ORDERLY, init, steps) == Some(sys);
    ExecRetry(Chunks(x.file, x.b), x.b, ORDERLY, init, steps);
  }

  // ----- when it is too late

  /** With too few tries left, whatever is still in flight. */
  predicate Doomed(cs: seq<seq<byte>>, sys: System) {
    var opening, busy := sys.client.phase == C.Filename, sys.toClient != [] || sys.toServer != [];
    var extra := if opening then 1 else 0;
    && sys.client.phase != C.DoneEof
    && (Active(sys.client) ==>
          && sys.hello == None
          && match sys.server.phase
             case Filename => false
             case SendData => false
             case WaitOnAck => MAX_TRIES <= sys.server.ackRetry + extra + (if busy then 0 else 1)
             case TimeoutOnAck => MAX_TRIES <= sys.server.ackRetry + extra
             case WaitOnEofAck => if busy then opening && MAX_TRIES <= sys.server.eofRetry
                                  else MAX_TRIES <= sys.server.eofRetry + extra
             case TimeoutOnEofAck => opening && MAX_TRIES <= sys.server.eofRetry
             case BlockedInRecv => sys.toClient == [] || opening
             case Done => forall p :: p in sys.toClient ==> IsData(cs, p, sys.server.seqNum - 1))
  }

  lemma DoomedServer(cs: seq<seq<byte>>, b: nat, sys: System, step: Step)
    requires Base(cs, b, sys) && QuietLink(cs, sys) && Doomed(cs, sys) && Active(sys.client)
    requires Possible(sys, step) && Allowed(ORDERLY, sys, step)
    requires step.ServerSends? || step.ServerHears? || step.ServerTimer? || step.ServerGivesUp?
    ensures Doomed(cs, Apply(sys, step))
  {
    hide Decode, Build, Chunks, FlipAt, C.PrefixInv, FromServer, IsData, IsEof, IsRR, SenderOk, S.Turn, Transmit;
    match step {
      case ServerSends(readFails, pad, fate) =>
        OfferFromServer(cs, b, sys.server, readFails, pad);
        TurnSends(cs, b, sys.server, readFails, pad);
        var t := S.Turn(sys.server, S.Silence, true, readFails, pad).after;
        var q := SentKind(cs, b, t, sys.toClient, fate);
      case ServerTimer =>
        HearSilence(sys.server);
      case ServerGivesUp =>
        HearSilence(sys.server);
      case _ =>
    }
  }

  lemma DoomedHears(cs: seq<seq<byte>>, b: nat, sys: System, i: nat, pad: byte, fate: Fate)
    requires Base(cs, b, sys) && QuietLink(cs, sys) && Doomed(cs, sys) && Active(sys.client)
    requires Possible(sys, ClientHears(i, pad, fate))
    ensures Doomed(cs, Apply(sys, ClientHears(i, pad, fate)))
  {
    hide Decode, Build, Chunks, FlipAt, C.PrefixInv, FromServer, IsData, IsEof, IsRR, Hear, SenderOk;
    var p := sys.toClient[i];
    var mid := sys.(toClient := Remove(sys.toClient, i));
    assert p in sys.toClient;
    if sys.client.phase == C.Filename {
      HearInFilename(mid, p, pad, fate);
    } else {
      HearData(cs, mid, p, sys.server.seqNum - 1, pad, fate);
    }
  }

  lemma DoomedKept(cs: seq<seq<byte>>, b: nat, sys: System, step: Step)
    requires Base(cs, b, sys) && QuietLink(cs, sys) && Doomed(cs, sys)
    requires Possible(sys, step) && Allowed(ORDERLY, sys, step)
    ensures Doomed(cs, Apply(sys, step))
  {
    hide Decode, Build, Chunks, FlipAt, C.PrefixInv, FromServer, IsData, IsEof, IsRR, Hear, SenderOk, S.Turn;
    if Active(sys.client) {
      match step {
        case ServerSends(_, _, _) =>
          DoomedServer(cs, b, sys, step);
        case ServerHears(_, _, _) =>
          DoomedServer(cs, b, sys, step);
        case ServerTimer =>
          DoomedServer(cs, b, sys, step);
        case ServerGivesUp =>
          DoomedServer(cs, b, sys, step);
        case ClientHears(i, pad, fate) =>
          DoomedHears(cs, b, sys, i, pad, fate);
        case _ =>
      }
    }
  }

  lemma {:induction false} ExecDoomed(cs: seq<seq<byte>>, b: nat, sys: System, steps: seq<Step>)
    requires Kept(cs, b, ORDERLY, sys) && Doomed(cs, sys) && Exec(ORDERLY, sys, steps).Some?
    ensures Doomed(cs, Exec(ORDERLY, sys, steps).value)
    decreases |steps|
  {
    hide Base, QuietLink, OneLink, Doomed, Apply, Possible, Allowed;
    if steps != [] {
      var n := |steps| - 1;
      ExecDoomed(cs, b, sys, steps[..n]);
      ExecKept(cs, b, ORDERLY, sys, steps[..n]);
      DoomedKept(cs, b, Exec(ORDERLY, sys, steps[..n]).value, steps[n]);
    }
  }

  lemma TooLate(cs: seq<seq<byte>>, b: nat, sys: System)
    requires Base(cs, b, sys) && RetryOk(sys) && Quiet(sys) && Active(sys.client) && !TriesLeft(sys)
    ensures Doomed(cs, sys)
  {
    hide Decode, Chunks, C.PrefixInv, CarriesChunk, CarriesEof, IsData;
  }

  /**
   * With nothing in flight the condition is exact: a transfer whose client is still in the session can be
   * completed if and only if the server has tries enough.
   */
  lemma CanFinishIff(x: Transfer, fate: Fate, sys: System)
    requires SetUp(x) && Reaches(ORDERLY, Init(x, fate), sys)
    requires Quiet(sys) && Active(sys.client)
    ensures CanFinish(x, sys) <==> TriesLeft(sys)
  {
    hide Chunks, Init, Exec, Base, QuietLink, OneLink, RetryOk;
    if TriesLeft(sys) {
      CanStillFinish(x, fate, sys);
    } else {
      var cs := Chunks(x.file, x.b);
      ReachableKept(ORDERLY, x, fate, sys);
      ReachableRetry(x, fate, sys);
      TooLate(cs, x.b, sys);
      forall t | Reaches(ORDERLY, sys, t)
        ensures t.client.phase != C.DoneEof
      {
        var steps :| Exec(ORDERLY, sys, steps) == Some(t);
        ExecDoomed(cs, x.b, sys, steps);
      }
    }
  }

  /** A session that has just begun is one of those that can be completed. */
  lemma FreshCanFinish(x: Transfer, fate: Fate)
    requires SetUp(x)
    ensures Reaches(ORDERLY, Init(x, fate), Init(x, fate)) && CanFinish(x, Init(x, fate))
  {
    ReachesSelf(ORDERLY, Init(x, fate));
    CanStillFinish(x, fate, Init(x, fate));
  }
}
