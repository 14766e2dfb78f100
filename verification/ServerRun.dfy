/** Whole runs of process_client against a peer from which finitely many datagrams arrive. */
module ServerRun {
  import opened Bytes
  import opened Checksum
  import opened Codec
  import opened Srej
  import opened Server

  /** How far a run has come: the server's state, the events used so far, and everything sent. */
  datatype Progress = Progress(state: State, used: nat, log: seq<Offer>)

  /** The parts of the environment that are fixed for a run. */
  datatype World = World(events: seq<Event>, canOpen: bool, readErrorAt: Option<uint32>, pad: byte)

  predicate WorldOk(w: World) {
    forall i :: 0 <= i < |w.events| ==> EventOk(w.events[i])
  }

  /** After the listed events, silence for ever. */
  function Next(w: World, used: nat): (e: Event)
    requires WorldOk(w)
    ensures EventOk(e)
  {
    if used < |w.events| then w.events[used] else Silence
  }

  function Logged(log: seq<Offer>, o: Offer): seq<Offer> {
    if o == Nothing then log else log + [o]
  }

  predicate IsEofPhase(phase: Phase) {
    phase == WaitOnEofAck || phase == TimeoutOnEofAck || phase == BlockedInRecv
  }

  function Go(w: World, p: Progress): Progress
    requires WorldOk(w)
  {
    var s := p.state;
    var r := Turn(s, Next(w, p.used), w.canOpen, w.readErrorAt == Some(s.seqNum), w.pad);
    Progress(r.after,
             if Waits(s) && p.used < |w.events| then p.used + 1 else p.used,
             Logged(p.log, r.offer))
  }

  /** The run is over, or hangs in recvfrom with nothing left to arrive. */
  predicate Stopped(w: World, p: Progress) {
    p.state.phase == Done || (p.state.phase == BlockedInRecv && p.used >= |w.events|)
  }

  // ----- termination

  function Left(w: World, p: Progress): nat {
    if p.used < |w.events| then |w.events| - p.used else 0
  }

  function Stage(s: State): nat {
    match s.phase
    case Filename => 4
    case SendData => 3
    case WaitOnAck => 2
    case TimeoutOnAck => 2
    case WaitOnEofAck => 2
    case TimeoutOnEofAck => 2
    case BlockedInRecv => 1
    case Done => 0
  }

  function Tries(s: State): nat {
    var retry := if IsEofPhase(s.phase) then s.eofRetry else s.ackRetry;
    if retry <= MAX_TRIES then MAX_TRIES + 1 - retry else 0
  }

  function Rank(s: State): nat {
    if s.phase == TimeoutOnAck || s.phase == TimeoutOnEofAck then 1 else 0
  }

  lemma GoDecreases(w: World, p: Progress)
    requires WorldOk(w) && !Stopped(w, p)
    ensures var q := Go(w, p);
      || Left(w, q) < Left(w, p)
      || (Left(w, q) == Left(w, p) && Stage(q.state) < Stage(p.state))
      || (Left(w, q) == Left(w, p) && Stage(q.state) == Stage(p.state) && Tries(q.state) < Tries(p.state))
      || (Left(w, q) == Left(w, p) && Stage(q.state) == Stage(p.state) && Tries(q.state) == Tries(p.state)
          && Rank(q.state) < Rank(p.state))
  {
    hide Build;
  }

  /** Every run stops: frames still to come, then stage, then tries left, then wait before timeout. */
  function Finish(w: World, p: Progress): (q: Progress)
    requires WorldOk(w)
    ensures Stopped(w, q)
    decreases Left(w, p), Stage(p.state), Tries(p.state), Rank(p.state)
  {
    if Stopped(w, p) then p else
      GoDecreases(w, p);
      Finish(w, Go(w, p))
  }

  function Begin(file: seq<byte>, bufSize: nat): Progress {
    Progress(State(Filename, file, bufSize, START_SEQ_NUM, [], 0, 0), 0, [])
  }

  // ----- counting

  function Datagrams(events: seq<Event>): nat {
    if events == [] then 0 else
      Datagrams(events[..|events| - 1]) + (if events[|events| - 1].Datagram? then 1 else 0)
  }

  function Retransmissions(log: seq<Offer>): nat {
    if log == [] then 0 else
      Retransmissions(log[..|log| - 1]) + (if log[|log| - 1].Again? then 1 else 0)
  }

  lemma LogCount(log: seq<Offer>, o: Offer)
    ensures Retransmissions(Logged(log, o)) == Retransmissions(log) + (if o.Again? then 1 else 0)
  {
    assert (log + [o])[..|log|] == log;
  }

  lemma {:induction false} DatagramsMonotone(events: seq<Event>, k: nat)
    requires k <= |events|
    ensures Datagrams(events[..k]) <= Datagrams(events)
    decreases |events| - k
  {
    if k == |events| {
      assert events[..k] == events;
    } else {
      DatagramsMonotone(events, k + 1);
      assert events[..k + 1][..k] == events[..k];
    }
  }

  /** Every retransmission repeats the bytes of the packet sent just before it. */
  predicate RepeatsLast(log: seq<Offer>) {
    forall i :: 0 <= i < |log| && log[i].Again? ==>
      i > 0 && (log[i - 1].Fresh? || log[i - 1].Again?) && log[i - 1].packet == log[i].packet
  }

  // ----- the run invariant

  /** n retransmissions so far are within budget, plus the tries of the current wait. */
  predicate Within(s: State, n: nat, budget: nat) {
    match s.phase
    case Filename => n <= budget && s.ackRetry == 0 && s.eofRetry == 0
    case SendData => n <= budget && s.ackRetry == 0 && s.eofRetry == 0
    case WaitOnAck => n <= budget + s.ackRetry && s.ackRetry <= MAX_TRIES && s.eofRetry == 0
    case TimeoutOnAck => n < budget + s.ackRetry && s.ackRetry <= MAX_TRIES && s.eofRetry == 0
    case WaitOnEofAck => n <= budget + Min(s.eofRetry, MAX_TRIES)
    case TimeoutOnEofAck => n < budget + s.eofRetry && s.eofRetry <= MAX_TRIES
    case BlockedInRecv => n <= budget + MAX_TRIES
    case Done => n <= budget + MAX_TRIES
  }

  /** The budget grows by MAX_TRIES with every datagram that was waited for. */
  predicate Bounded(w: World, p: Progress) {
    p.used <= |w.events| && Within(p.state, Retransmissions(p.log), MAX_TRIES * Datagrams(w.events[..p.used]))
  }

  predicate HoldsPacket(phase: Phase) {
    phase != Filename && phase != SendData && phase != Done
  }

  /** While waiting, the packet buffer holds what was sent last. */
  predicate LastSent(log: seq<Offer>, s: State) {
    HoldsPacket(s.phase) ==>
      log != [] && (var o := log[|log| - 1]; (o.Fresh? || o.Again?) && o.packet == s.packet)
  }

  /** A frame that gets through the checksum. */
  predicate Sound(e: Event)
    requires EventOk(e)
  {
    e.Datagram? && Decode(e.bytes).Frame?
  }

  lemma DatagramStep(events: seq<Event>, k: nat)
    requires k < |events|
    ensures Datagrams(events[..k + 1]) == Datagrams(events[..k]) + (if events[k].Datagram? then 1 else 0)
  {
    assert events[..k + 1][..k] == events[..k];
  }

  lemma TurnWithin(s: State, e: Event, canOpen: bool, readFails: bool, pad: byte, n: nat, budget: nat)
    requires EventOk(e) && Within(s, n, budget)
    ensures var r := Turn(s, e, canOpen, readFails, pad);
      Within(r.after, n + (if r.offer.Again? then 1 else 0),
             budget + (if Waits(s) && e.Datagram? then MAX_TRIES else 0))
  {
    hide Build;
  }

  lemma BudgetStep(events: seq<Event>, k: nat)
    requires k < |events|
    ensures MAX_TRIES * Datagrams(events[..k + 1])
         == MAX_TRIES * Datagrams(events[..k]) + (if events[k].Datagram? then MAX_TRIES else 0)
  {
    DatagramStep(events, k);
  }

  lemma GoBounded(w: World, p: Progress)
    requires WorldOk(w) && Bounded(w, p)
    ensures Bounded(w, Go(w, p))
  {
    hide Turn, Waits, Within, Retransmissions, Datagrams;
    var e, fails := Next(w, p.used), w.readErrorAt == Some(p.state.seqNum);
    LogCount(p.log, Turn(p.state, e, w.canOpen, fails, w.pad).offer);
    TurnWithin(p.state, e, w.canOpen, fails, w.pad, Retransmissions(p.log), MAX_TRIES * Datagrams(w.events[..p.used]));
    if p.used < |w.events| {
      BudgetStep(w.events, p.used);
    }
  }

  lemma TurnOffers(s: State, e: Event, canOpen: bool, readFails: bool, pad: byte)
    requires EventOk(e)
    ensures var r := Turn(s, e, canOpen, readFails, pad);
      match r.offer
      case Nothing => HoldsPacket(r.after.phase) ==> HoldsPacket(s.phase) && r.after.packet == s.packet
      case Fresh(p) => HoldsPacket(r.after.phase) ==> r.after.packet == p
      case Again(p) => HoldsPacket(s.phase) && p == s.packet == r.after.packet
      case FromWindow(_) => !HoldsPacket(r.after.phase)
  {
    hide Build;
  }

  lemma GoRepeats(w: World, p: Progress)
    requires WorldOk(w) && RepeatsLast(p.log) && LastSent(p.log, p.state)
    ensures RepeatsLast(Go(w, p).log) && LastSent(Go(w, p).log, Go(w, p).state)
  {
    hide Turn, RepeatsLast, LastSent;
    var e, fails := Next(w, p.used), w.readErrorAt == Some(p.state.seqNum);
    TurnOffers(p.state, e, w.canOpen, fails, w.pad);
    LogRepeats(p.log, p.state, Turn(p.state, e, w.canOpen, fails, w.pad));
  }

  lemma LogRepeats(log: seq<Offer>, s: State, r: Reaction)
    requires RepeatsLast(log) && LastSent(log, s)
    requires match r.offer
      case Nothing => HoldsPacket(r.after.phase) ==> HoldsPacket(s.phase) && r.after.packet == s.packet
      case Fresh(p) => HoldsPacket(r.after.phase) ==> r.after.packet == p
      case Again(p) => HoldsPacket(s.phase) && p == s.packet == r.after.packet
      case FromWindow(_) => !HoldsPacket(r.after.phase)
    ensures RepeatsLast(Logged(log, r.offer)) && LastSent(Logged(log, r.offer), r.after)
  {
  }

  lemma {:induction false} FinishKeeps(w: World, p: Progress)
    requires WorldOk(w) && Bounded(w, p) && RepeatsLast(p.log) && LastSent(p.log, p.state)
    ensures var q := Finish(w, p);
      Bounded(w, q) && RepeatsLast(q.log)
    decreases Left(w, p), Stage(p.state), Tries(p.state), Rank(p.state)
  {
    hide Build, Decode, Go;
    if !Stopped(w, p) {
      GoDecreases(w, p);
      GoBounded(w, p);
      GoRepeats(w, p);
      FinishKeeps(w, Go(w, p));
    }
  }

  // ----- the results

  // ----- when a run hangs

  /** How many reads return data. */
  function Reads(len: nat, b: nat): nat {
    if b == 0 || len == 0 then 0 else 1 + Reads(len - Min(b, len), b)
  }

  /** A sound RR or SREJ. */
  predicate Acks(e: Event)
    requires EventOk(e)
  {
    Sound(e) && Decode(e.bytes).flag in {RR, SREJ}
  }

  /** How many sound frames arrive from event i on. */
  function SoundFrames(w: World, i: nat): nat
    requires WorldOk(w) && i <= |w.events|
    decreases |w.events| - i
  {
    if i == |w.events| then 0 else (if Sound(w.events[i]) then 1 else 0) + SoundFrames(w, i + 1)
  }

  /** The k-th read and the n after it succeed. */
  predicate ReadsSucceed(w: World, k: nat, n: nat) {
    forall i: nat :: k <= i <= k + n ==> w.readErrorAt != Some(i % 0x1_0000_0000)
  }

  predicate SilentFor(w: World, i: nat, tries: nat) {
    i + tries <= |w.events| && forall j :: i <= j < i + tries ==> w.events[j].Silence?
  }

  predicate NoneSound(w: World, from: nat)
    requires WorldOk(w)
  {
    forall i :: from <= i < |w.events| ==> !Sound(w.events[i])
  }

  lemma {:induction false} SoundFrom(w: World, i: nat)
    requires WorldOk(w) && i <= |w.events|
    ensures SoundFrames(w, i) == 0 <==> NoneSound(w, i)
    decreases |w.events| - i
  {
    if i < |w.events| {
      SoundFrom(w, i + 1);
    }
  }

  /** No sound frame comes later than MAX_TRIES silences in a row, once `from` events have been seen. */
  predicate NoneTooLate(w: World, from: nat)
    requires WorldOk(w)
  {
    forall i: nat :: from <= i <= |w.events| && SilentFor(w, i, MAX_TRIES) ==> NoneSound(w, i + MAX_TRIES)
  }

  predicate OnlyAcks(w: World, from: nat)
    requires WorldOk(w)
  {
    forall i :: from <= i < |w.events| && Sound(w.events[i]) ==> Acks(w.events[i])
  }

  /**
   * The file can be opened and read to its end; exactly as many sound frames arrive as the file has chunks,
   * all of them RR or SREJ, and none after MAX_TRIES silences in a row.
   */
  predicate Hangs(w: World, file: seq<byte>, bufSize: nat)
    requires WorldOk(w)
  {
    var n := Reads(|file|, bufSize);
    w.canOpen && ReadsSucceed(w, START_SEQ_NUM, n) && SoundFrames(w, 0) == n && OnlyAcks(w, 0) && NoneTooLate(w, 0)
  }

  /** From event i on, with `tries` silences just behind it, n acknowledgements come in time and then nothing sound. */
  predicate Endures(w: World, i: nat, tries: nat, n: nat)
    requires WorldOk(w) && i <= |w.events|
    decreases |w.events| - i
  {
    if n == 0 then NoneSound(w, i)
    else if tries >= MAX_TRIES || i == |w.events| then false
    else if w.events[i].Silence? then Endures(w, i + 1, tries + 1, n)
    else if Acks(w.events[i]) then Endures(w, i + 1, 0, n - 1)
    else !Sound(w.events[i]) && Endures(w, i + 1, 0, n)
  }

  /** What is left of a run will end in recvfrom. */
  predicate WillHang(w: World, p: Progress)
    requires WorldOk(w) && p.used <= |w.events|
  {
    var s := p.state;
    var n := Reads(|s.unread|, s.bufSize);
    match s.phase
    case Filename => w.canOpen && ReadsSucceed(w, s.seqNum, n) && Endures(w, p.used, s.ackRetry, n)
    case SendData => ReadsSucceed(w, s.seqNum, n) && Endures(w, p.used, s.ackRetry, n)
    case WaitOnAck => ReadsSucceed(w, s.seqNum, n) && Endures(w, p.used, s.ackRetry, n + 1)
    case TimeoutOnAck => ReadsSucceed(w, s.seqNum, n) && Endures(w, p.used, s.ackRetry, n + 1)
    case WaitOnEofAck => NoneSound(w, p.used)
    case TimeoutOnEofAck => NoneSound(w, p.used)
    case BlockedInRecv => NoneSound(w, p.used)
    case Done => false
  }

  lemma ReadsSucceedStep(w: World, k: uint32, n: nat)
    requires w.readErrorAt != Some(k)
    ensures ReadsSucceed(w, k, n + 1) <==> ReadsSucceed(w, (k + 1) % 0x1_0000_0000, n)
  {
    var m: nat := 0x1_0000_0000;
    var next: nat := (k + 1) % m;
    if ReadsSucceed(w, k, n + 1) {
      forall i: nat | next <= i <= next + n
        ensures w.readErrorAt != Some(i % m)
      {
        var j: nat := i - next + k + 1;
        assert j % m == i % m;
      }
    }
    if ReadsSucceed(w, next, n) {
      forall i: nat | k <= i <= k + n + 1
        ensures w.readErrorAt != Some(i % m)
      {
        if i > k {
          var j: nat := i - k - 1 + next;
          assert j % m == i % m;
        }
      }
    }
  }

  lemma GoHangs(w: World, p: Progress)
    requires WorldOk(w) && p.used <= |w.events| && !Stopped(w, p)
    ensures Go(w, p).used <= |w.events|
    ensures WillHang(w, Go(w, p)) <==> WillHang(w, p)
  {
    hide Build, Accepts, ReadsSucceed;
    if p.state.phase == SendData {
      SendHangs(w, p);
    }
  }

  lemma SendHangs(w: World, p: Progress)
    requires WorldOk(w) && p.used <= |w.events| && p.state.phase == SendData
    ensures WillHang(w, Go(w, p)) <==> WillHang(w, p)
  {
    hide Build, NoneSound, ReadsSucceed;
    var s := p.state;
    var n := Reads(|s.unread|, s.bufSize);
    FirstRead(w, s.seqNum, n);
    if w.readErrorAt != Some(s.seqNum) && n > 0 {
      ReadsSucceedStep(w, s.seqNum, n - 1);
    }
  }

  lemma FirstRead(w: World, k: uint32, n: nat)
    ensures ReadsSucceed(w, k, n) ==> w.readErrorAt != Some(k)
    ensures w.readErrorAt != Some(k) ==> ReadsSucceed(w, k, 0)
  {
    assert k % 0x1_0000_0000 == k;
  }

  lemma {:induction false} FinishHangs(w: World, p: Progress)
    requires WorldOk(w) && p.used <= |w.events|
    ensures var q := Finish(w, p).state.phase;
      (q == Done || q == BlockedInRecv) && (q == BlockedInRecv <==> WillHang(w, p))
    decreases Left(w, p), Stage(p.state), Tries(p.state), Rank(p.state)
  {
    hide Go, Endures, ReadsSucceed;
    if !Stopped(w, p) {
      GoDecreases(w, p);
      GoHangs(w, p);
      FinishHangs(w, Go(w, p));
    }
  }

  lemma {:induction false} EnduresIff(w: World, i: nat, tries: nat, n: nat)
    requires WorldOk(w) && i <= |w.events| && tries <= MAX_TRIES
    ensures Endures(w, i, tries, n) <==>
              && SoundFrames(w, i) == n && OnlyAcks(w, i) && NoneTooLate(w, i)
              && (SilentFor(w, i, MAX_TRIES - tries) ==> NoneSound(w, i + MAX_TRIES - tries))
    decreases |w.events| - i
  {
    hide Decode;
    if i < |w.events| {
      var e := w.events[i];
      SoundFrom(w, i);
      if n > 0 && tries < MAX_TRIES {
        if e.Silence? {
          EnduresIff(w, i + 1, tries + 1, n);
          assert SilentFor(w, i, MAX_TRIES - tries) <==> SilentFor(w, i + 1, MAX_TRIES - tries - 1);
          assert SilentFor(w, i, MAX_TRIES) ==> SilentFor(w, i, MAX_TRIES - tries);
          assert OnlyAcks(w, i) <==> OnlyAcks(w, i + 1);
        } else {
          EnduresIff(w, i + 1, 0, if Sound(e) then n - 1 else n);
        }
      }
    }
  }

  /**
   * Every run stops after finitely many turns (Finish). It reaches DONE except in exactly the cases of Hangs:
   * then END_OF_FILE stays unanswered, the retries run out and the process hangs in recvfrom.
   */
  lemma HangsIff(w: World, file: seq<byte>, bufSize: nat)
    requires WorldOk(w)
    ensures var q := Finish(w, Begin(file, bufSize)).state.phase;
      (q == Done || q == BlockedInRecv) && (q == BlockedInRecv <==> Hangs(w, file, bufSize))
  {
    FinishHangs(w, Begin(file, bufSize));
    EnduresIff(w, 0, 0, Reads(|file|, bufSize));
  }

  /** At most MAX_TRIES retransmissions for every datagram that arrives, plus MAX_TRIES, each of identical bytes. */
  lemma RetransmissionBound(w: World, file: seq<byte>, bufSize: nat)
    requires WorldOk(w)
    ensures var q := Finish(w, Begin(file, bufSize));
      Retransmissions(q.log) <= MAX_TRIES * (Datagrams(w.events) + 1) && RepeatsLast(q.log)
  {
    FinishKeeps(w, Begin(file, bufSize));
    var q := Finish(w, Begin(file, bufSize));
    DatagramsMonotone(w.events, q.used);
    assert Retransmissions(q.log) <= MAX_TRIES * Datagrams(w.events[..q.used]) + MAX_TRIES;
  }

  // ----- how often packets are repeated

  /** While END_OF_FILE waits: one repetition for every silence, until a sound frame or MAX_TRIES silences in a row. */
  function EofRepeats(w: World, i: nat, tries: nat): nat
    requires WorldOk(w) && i <= |w.events|
    decreases |w.events| - i
  {
    if tries >= MAX_TRIES then 0
    else if i == |w.events| then MAX_TRIES - tries
    else if w.events[i].Silence? then 1 + EofRepeats(w, i + 1, tries + 1)
    else if Sound(w.events[i]) then 0
    else EofRepeats(w, i + 1, 0)
  }

  /** The same while n chunks still have to be acknowledged, and read number k comes next. */
  function DataRepeats(w: World, i: nat, tries: nat, n: nat, k: uint32): nat
    requires WorldOk(w) && i <= |w.events| && n > 0
    decreases |w.events| - i
  {
    if tries >= MAX_TRIES then 0
    else if i == |w.events| then MAX_TRIES - tries
    else if w.events[i].Silence? then 1 + DataRepeats(w, i + 1, tries + 1, n, k)
    else if !Sound(w.events[i]) then DataRepeats(w, i + 1, 0, n, k)
    else if !Acks(w.events[i]) || w.readErrorAt == Some(k) then 0
    else if n == 1 then EofRepeats(w, i + 1, 0)
    else DataRepeats(w, i + 1, 0, n - 1, (k + 1) % 0x1_0000_0000)
  }

  /** Repetitions from a read on, of which n return data. */
  function RepeatsFrom(w: World, i: nat, n: nat, k: uint32): nat
    requires WorldOk(w) && i <= |w.events|
  {
    if w.readErrorAt == Some(k) then 0
    else if n == 0 then EofRepeats(w, i, 0)
    else DataRepeats(w, i, 0, n, (k + 1) % 0x1_0000_0000)
  }

  function ToCome(w: World, p: Progress): nat
    requires WorldOk(w) && p.used <= |w.events|
  {
    var s := p.state;
    var n := Reads(|s.unread|, s.bufSize);
    match s.phase
    case Filename => if w.canOpen then RepeatsFrom(w, p.used, n, s.seqNum) else 0
    case SendData => RepeatsFrom(w, p.used, n, s.seqNum)
    case WaitOnAck => DataRepeats(w, p.used, s.ackRetry, n + 1, s.seqNum)
    case TimeoutOnAck => 1 + DataRepeats(w, p.used, s.ackRetry, n + 1, s.seqNum)
    case WaitOnEofAck => EofRepeats(w, p.used, s.eofRetry)
    case TimeoutOnEofAck => 1 + EofRepeats(w, p.used, s.eofRetry)
    case BlockedInRecv => 0
    case Done => 0
  }

  /** Retry counters start at zero where a wait has not begun. */
  predicate CountersFresh(s: State) {
    && (s.phase == Filename || s.phase == SendData ==> s.ackRetry == 0)
    && (!IsEofPhase(s.phase) ==> s.eofRetry == 0 || s.phase == Done)
    && (s.phase == BlockedInRecv ==> s.eofRetry > MAX_TRIES)
  }

  function Step(w: World, p: Progress): Reaction
    requires WorldOk(w)
  {
    Turn(p.state, Next(w, p.used), w.canOpen, w.readErrorAt == Some(p.state.seqNum), w.pad)
  }

  /** One turn, before END_OF_FILE: a repetition fewer is to come for each that is made. */
  lemma DataToCome(w: World, p: Progress)
    requires WorldOk(w) && p.used <= |w.events| && CountersFresh(p.state) && !IsEofPhase(p.state.phase)
    ensures ToCome(w, p) == ToCome(w, Go(w, p)) + (if Step(w, p).offer.Again? then 1 else 0)
  {
    hide Build, Decode, EofRepeats;
  }

  lemma EofToCome(w: World, p: Progress)
    requires WorldOk(w) && p.used <= |w.events| && CountersFresh(p.state) && IsEofPhase(p.state.phase)
    ensures ToCome(w, p) == ToCome(w, Go(w, p)) + (if Step(w, p).offer.Again? then 1 else 0)
  {
    hide Build, Decode, DataRepeats, RepeatsFrom, Reads;
  }

  lemma CountersStayFresh(w: World, p: Progress)
    requires WorldOk(w) && p.used <= |w.events| && CountersFresh(p.state)
    ensures Go(w, p).used <= |w.events| && CountersFresh(Go(w, p).state)
  {
    hide Build, Decode;
  }

  lemma GoRepeatsOnce(w: World, p: Progress)
    requires WorldOk(w) && p.used <= |w.events| && CountersFresh(p.state)
    ensures Go(w, p).used <= |w.events| && CountersFresh(Go(w, p).state)
    ensures ToCome(w, p) == ToCome(w, Go(w, p)) + Retransmissions(Go(w, p).log) - Retransmissions(p.log)
  {
    hide ToCome, Retransmissions, Turn, CountersFresh;
    CountersStayFresh(w, p);
    LogCount(p.log, Step(w, p).offer);
    if IsEofPhase(p.state.phase) {
      EofToCome(w, p);
    } else {
      DataToCome(w, p);
    }
  }

  lemma {:induction false} FinishRepeats(w: World, p: Progress)
    requires WorldOk(w) && p.used <= |w.events| && CountersFresh(p.state)
    ensures Retransmissions(Finish(w, p).log) == Retransmissions(p.log) + ToCome(w, p)
    decreases Left(w, p), Stage(p.state), Tries(p.state), Rank(p.state)
  {
    hide Go, Retransmissions, DataRepeats, EofRepeats, RepeatsFrom;
    if !Stopped(w, p) {
      GoDecreases(w, p);
      GoRepeatsOnce(w, p);
      FinishRepeats(w, Go(w, p));
    }
  }

  /** Exactly how many retransmissions a run makes, from the inputs alone. */
  lemma RetransmissionsExactly(w: World, file: seq<byte>, bufSize: nat)
    requires WorldOk(w)
    ensures Retransmissions(Finish(w, Begin(file, bufSize)).log)
         == if w.canOpen then RepeatsFrom(w, 0, Reads(|file|, bufSize), START_SEQ_NUM) else 0
  {
    FinishRepeats(w, Begin(file, bufSize));
  }

  // ----- a silent peer

  function Repeat(o: Offer, n: nat): (os: seq<Offer>)
    ensures |os| == n
  {
    seq(n, _ => o)
  }

  predicate Silent(w: World) {
    forall i :: 0 <= i < |w.events| ==> w.events[i].Silence?
  }

  lemma {:induction false} SilentWait(w: World, p: Progress)
    requires WorldOk(w) && Silent(w)
    requires (p.state.phase == WaitOnAck && p.state.ackRetry <= MAX_TRIES)
          || (p.state.phase == WaitOnEofAck && p.state.eofRetry <= MAX_TRIES)
    ensures var q := Finish(w, p);
      var tries := if p.state.phase == WaitOnAck then p.state.ackRetry else p.state.eofRetry;
      && q.log == p.log + Repeat(Again(p.state.packet), MAX_TRIES - tries)
      && q.state.phase == if p.state.phase == WaitOnAck then Done else BlockedInRecv
    decreases Left(w, p), Stage(p.state), Tries(p.state), Rank(p.state)
  {
    hide Build, Decode;
    var k := if p.state.phase == WaitOnAck then p.state.ackRetry else p.state.eofRetry;
    var p1 := Go(w, p);
    if k == MAX_TRIES {
      assert Finish(w, p) == Finish(w, p1);
      if p1.state.phase == BlockedInRecv {
        SilentBlocked(w, p1);
      }
    } else {
      var p2 := Go(w, p1);
      SilentWait(w, p2);
      assert Finish(w, p) == Finish(w, p1) == Finish(w, p2);
      var o := Again(p.state.packet);
      assert p.log + [o] + Repeat(o, MAX_TRIES - k - 1) == p.log + Repeat(o, MAX_TRIES - k);
    }
  }

  lemma {:induction false} SilentBlocked(w: World, p: Progress)
    requires WorldOk(w) && Silent(w) && p.state.phase == BlockedInRecv
    ensures Finish(w, p).log == p.log && Finish(w, p).state.phase == BlockedInRecv
    decreases Left(w, p)
  {
    if !Stopped(w, p) {
      SilentBlocked(w, Go(w, p));
    }
  }

  /**
   * A silent peer, when the file can be opened and read: the answer, the first packet, and exactly MAX_TRIES
   * repetitions of it; then DONE if the first read returned data, and a hang in recvfrom if it returned none.
   */
  lemma SilentPeer(w: World, file: seq<byte>, bufSize: nat)
    requires WorldOk(w) && Silent(w)
    ensures var q := Finish(w, Begin(file, bufSize));
      if !w.canOpen then q.log == [Fresh(Build(0, FNAME_BAD, []))] && q.state.phase == Done
      else if w.readErrorAt == Some(START_SEQ_NUM) then
        q.log == [Fresh(Build(0, FNAME_OK, []))] && q.state.phase == Done
      else
        var first := SendNext(Begin(file, bufSize).state.(phase := SendData), false, w.pad).offer;
        && first.Fresh?
        && q.log == [Fresh(Build(0, FNAME_OK, [])), first] + Repeat(Again(first.packet), MAX_TRIES)
        && q.state.phase == if bufSize == 0 || file == [] then BlockedInRecv else Done
  {
    hide Build, Decode;
    var p := Begin(file, bufSize);
    var p1 := Go(w, p);
    var p2 := Go(w, p1);
    assert Finish(w, p) == Finish(w, p1) == Finish(w, p2);
    if w.canOpen && w.readErrorAt != Some(START_SEQ_NUM) {
      SilentWait(w, p2);
    }
  }

  // ----- the loop of the program

  /** process_client: turn the switch until DONE, or until nothing more can arrive. */
  method ProcessClient(server: Process, w: World) returns (log: seq<Offer>, used: nat)
    requires server.Valid() && WorldOk(w)
    requires server.phase == Filename
    modifies server, server.packet
    ensures server.Valid()
    ensures var q := Finish(w, Progress(old(server.Abs()), 0, []));
      server.Abs() == q.state && log == q.log && used == q.used
  {
    hide Build, Decode;
    ghost var p := Progress(server.Abs(), 0, []);
    ghost var goal := Finish(w, p);
    log, used := [], 0;
    while server.phase != Done && !(server.phase == BlockedInRecv && used >= |w.events|)
      invariant server.Valid()
      invariant p.state == server.Abs() && p.used == used && p.log == log && goal == Finish(w, p)
      decreases Left(w, p), Stage(p.state), Tries(p.state), Rank(p.state)
    {
      var e := if used < |w.events| then w.events[used] else Silence;
      var waits := match server.phase
        case WaitOnAck => server.ackRetry < MAX_TRIES
        case WaitOnEofAck => server.eofRetry < MAX_TRIES
        case BlockedInRecv => true
        case _ => false;
      assert waits == Waits(p.state) && e == Next(w, used);
      var offer := server.TurnStep(e, w.canOpen, w.readErrorAt == Some(server.seqNum), w.pad);
      if waits && used < |w.events| {
        used := used + 1;
      }
      if offer != Nothing {
        log := log + [offer];
      }
      ghost var r := Turn(p.state, e, w.canOpen, w.readErrorAt == Some(p.state.seqNum), w.pad);
      assert offer == r.offer && server.Abs() == r.after;
      GoDecreases(w, p);
      p := Go(w, p);
    }
  }
}
