/**
 * The error-injecting library between the programs and the network: every send is logged, and may be
 * dropped or have one byte complemented, on a private copy of the caller's buffer.
 */
module PacketManager {
  import opened Bytes
  import opened Checksum

  const NO_CHANGE := 0
  const CHANGED := 1
  const DROPPED := 2

  // ----- what one event does, on values

  datatype EventState =
    | DropState(dropAll: bool, dropList: seq<uint32>)
    | FlipState
    | InfoState(history: seq<uint32>, count: map<uint32, uint32>)

  function Increment(n: uint32): uint32 {
    (n + 1) % 0x1_0000_0000
  }

  function CountUp(count: map<uint32, uint32>, s: uint32): map<uint32, uint32> {
    count[s := Increment(if s in count then count[s] else 0)]
  }

  function SeqNoOf(data: seq<byte>): uint32
    requires |data| >= 4
  {
    FromBE32(data[..4])
  }

  predicate Drops(e: EventState, msgNo: uint32)
    requires e.DropState?
  {
    e.dropAll || msgNo in e.dropList
  }

  /** The result of running events: the return code, the events afterwards, and the buffer afterwards. */
  datatype Ran<S> = Ran(code: int, after: S, data: seq<byte>)

  function RunOne(e: EventState, data: seq<byte>, msgNo: uint32, pick: nat): (r: Ran<EventState>)
    requires |data| >= 4 && pick < |data|
    ensures |r.data| == |data|
  {
    match e
    case DropState(_, _) => Ran(if Drops(e, msgNo) then DROPPED else NO_CHANGE, e, data)
    case FlipState => Ran(CHANGED, e, FlipAt(data, pick))
    case InfoState(history, count) =>
      Ran(NO_CHANGE, InfoState(history + [SeqNoOf(data)], CountUp(count, SeqNoOf(data))), data)
  }

  predicate PicksOk(picks: seq<nat>, n: nat, len: nat) {
    |picks| == n && forall i :: 0 <= i < n ==> picks[i] < len
  }

  /** Run the events in order; a drop stops the list. */
  function RunAll(es: seq<EventState>, data: seq<byte>, msgNo: uint32, picks: seq<nat>): (r: Ran<seq<EventState>>)
    requires |data| >= 4 && PicksOk(picks, |es|, |data|)
    ensures |r.data| == |data| && |r.after| == |es|
    ensures NO_CHANGE <= r.code <= DROPPED
  {
    if es == [] then Ran(NO_CHANGE, [], data)
    else
      var first := RunOne(es[0], data, msgNo, picks[0]);
      if first.code == DROPPED then Ran(DROPPED, [first.after] + es[1..], first.data)
      else
        var rest := RunAll(es[1..], first.data, msgNo, picks[1..]);
        Ran(if rest.code == NO_CHANGE then first.code else rest.code, [first.after] + rest.after, rest.data)
  }

  /**
   * The random choices of one send: does a random event fire, which one, and the byte index that each
   * bit flip would pick.
   */
  datatype Dice = Dice(fires: bool, which: nat, pick: nat, picks: seq<nat>)

  predicate DiceOk(dice: Dice, standard: nat, random: nat, len: nat) {
    && (random > 0 ==> dice.which < random)
    && dice.pick < len
    && PicksOk(dice.picks, standard, len)
  }

  datatype Sent = Sent(standard: seq<EventState>, random: seq<EventState>, wire: Option<seq<byte>>)

  /** One send: the standard events, then at most one random event, which runs even after a drop. */
  function Process(standard: seq<EventState>, random: seq<EventState>, data: seq<byte>, msgNo: uint32, dice: Dice): Sent
    requires |data| >= 4 && DiceOk(dice, |standard|, |random|, |data|)
  {
    var s := RunAll(standard, data, msgNo, dice.picks);
    if |random| > 0 && dice.fires then
      var r := RunOne(random[dice.which], s.data, msgNo, dice.pick);
      Sent(s.after, random[dice.which := r.after],
           if s.code == DROPPED || r.code == DROPPED then None else Some(r.data))
    else Sent(s.after, random, if s.code == DROPPED then None else Some(s.data))
  }

  // ----- what reaches the wire

  predicate NoFlips(es: seq<EventState>) {
    forall e :: e in es ==> !e.FlipState?
  }

  lemma {:induction false} RunAllKeepsData(es: seq<EventState>, data: seq<byte>, msgNo: uint32, picks: seq<nat>)
    requires |data| >= 4 && PicksOk(picks, |es|, |data|) && NoFlips(es)
    ensures RunAll(es, data, msgNo, picks).data == data
  {
    if es == [] {
    } else {
      assert es[0] in es;
      RunAllKeepsData(es[1..], data, msgNo, picks[1..]);
    }
  }

  /** With no standard bit flip (the library installs none), a send is lost, intact, or has one byte complemented. */
  lemma AtMostOneFlip(standard: seq<EventState>, random: seq<EventState>, data: seq<byte>, msgNo: uint32, dice: Dice)
    requires |data| >= 4 && DiceOk(dice, |standard|, |random|, |data|) && NoFlips(standard)
    ensures Process(standard, random, data, msgNo, dice).wire in {None, Some(data), Some(FlipAt(data, dice.pick))}
  {
    RunAllKeepsData(standard, data, msgNo, dice.picks);
  }

  // ----- exactly what becomes of a send

  /** A drop event that drops everything, or has this message number on its list. */
  predicate Hits(e: EventState, msgNo: uint32) {
    match e
    case DropState(dropAll, dropList) => dropAll || exists i :: 0 <= i < |dropList| && dropList[i] == msgNo
    case _ => false
  }

  /** The dice pick this random event. */
  predicate Chosen(random: seq<EventState>, dice: Dice, e: EventState) {
    dice.fires && dice.which < |random| && random[dice.which] == e
  }

  lemma RunOneCode(e: EventState, data: seq<byte>, msgNo: uint32, pick: nat)
    requires |data| >= 4 && pick < |data|
    ensures RunOne(e, data, msgNo, pick).code
         == if Hits(e, msgNo) then DROPPED else if e == FlipState then CHANGED else NO_CHANGE
  {
    assert e.DropState? ==> (Hits(e, msgNo) <==> Drops(e, msgNo));
  }

  lemma {:induction false} RunAllCode(es: seq<EventState>, data: seq<byte>, msgNo: uint32, picks: seq<nat>)
    requires |data| >= 4 && PicksOk(picks, |es|, |data|)
    ensures var code := RunAll(es, data, msgNo, picks).code;
      && (code == DROPPED <==> exists e :: e in es && Hits(e, msgNo))
      && (code != DROPPED ==> (code == CHANGED <==> FlipState in es))
  {
    if es != [] {
      RunAllCode(es[1..], RunOne(es[0], data, msgNo, picks[0]).data, msgNo, picks[1..]);
      assert forall e :: e in es <==> e == es[0] || e in es[1..] by {
        assert es == [es[0]] + es[1..];
      }
      RunOneCode(es[0], data, msgNo, picks[0]);
    }
  }

  /** Nothing arrives exactly when a standard drop event hits the message number, or the dice pick one that does. */
  lemma LostIff(standard: seq<EventState>, random: seq<EventState>, data: seq<byte>, msgNo: uint32, dice: Dice)
    requires |data| >= 4 && DiceOk(dice, |standard|, |random|, |data|)
    ensures Process(standard, random, data, msgNo, dice).wire == None
       <==> (exists e :: e in standard && Hits(e, msgNo)) || (exists e :: Chosen(random, dice, e) && Hits(e, msgNo))
  {
    RunAllCode(standard, data, msgNo, dice.picks);
    if |random| > 0 && dice.fires {
      assert Chosen(random, dice, random[dice.which]);
    }
  }

  /** How many of these events are bit flips that pick byte k. */
  function FlipCount(es: seq<EventState>, picks: seq<nat>, k: nat): nat
    requires |picks| == |es|
  {
    if es == [] then 0 else (if es[0].FlipState? && picks[0] == k then 1 else 0) + FlipCount(es[1..], picks[1..], k)
  }

  lemma {:induction false} RunAllFlips(es: seq<EventState>, data: seq<byte>, msgNo: uint32, picks: seq<nat>, k: nat)
    requires |data| >= 4 && PicksOk(picks, |es|, |data|) && k < |data|
    requires RunAll(es, data, msgNo, picks).code != DROPPED
    ensures RunAll(es, data, msgNo, picks).data[k]
         == if FlipCount(es, picks, k) % 2 == 1 then Complement(data[k]) else data[k]
    decreases |es|
  {
    if es != [] {
      RunAllFlips(es[1..], RunOne(es[0], data, msgNo, picks[0]).data, msgNo, picks[1..], k);
    }
  }

  /**
   * What arrives, byte by byte, whatever events are installed: a byte is complemented exactly when an odd number
   * of the flips that ran picked it, the standard ones and the one the dice pick.
   */
  lemma FlippedIff(standard: seq<EventState>, random: seq<EventState>, data: seq<byte>, msgNo: uint32, dice: Dice,
                   k: nat)
    requires |data| >= 4 && DiceOk(dice, |standard|, |random|, |data|) && k < |data|
    requires Process(standard, random, data, msgNo, dice).wire.Some?
    ensures var wire := Process(standard, random, data, msgNo, dice).wire.value;
      var flips := FlipCount(standard, dice.picks, k)
                   + (if Chosen(random, dice, FlipState) && dice.pick == k then 1 else 0);
      |wire| == |data| && wire[k] == if flips % 2 == 1 then Complement(data[k]) else data[k]
  {
    hide RunAll;
    RunAllFlips(standard, data, msgNo, dice.picks, k);
  }

  /** What one event is afterwards: a logger has logged the packet's number. */
  function Logged(e: EventState, n: uint32): EventState {
    if e.InfoState? then InfoState(e.history + [n], CountUp(e.count, n)) else e
  }

  predicate NoneHits(es: seq<EventState>, msgNo: uint32) {
    forall e :: e in es ==> !Hits(e, msgNo)
  }

  lemma NoneHitsCons(es: seq<EventState>, i: nat, msgNo: uint32)
    requires i < |es|
    ensures NoneHits(es[..i], msgNo) <==> i == 0 || (!Hits(es[0], msgNo) && NoneHits(es[1..][..i - 1], msgNo))
  {
    if i > 0 {
      assert es[..i] == [es[0]] + es[1..][..i - 1];
    }
  }

  lemma RunAllStep(es: seq<EventState>, data: seq<byte>, msgNo: uint32, picks: seq<nat>)
    requires |data| >= 4 && PicksOk(picks, |es|, |data|) && es != [] && !es[0].FlipState?
    ensures RunAll(es, data, msgNo, picks).after ==
            if Hits(es[0], msgNo) then es
            else [Logged(es[0], FromBE32(data[..4]))] + RunAll(es[1..], data, msgNo, picks[1..]).after
  {
    assert es == [es[0]] + es[1..];
  }

  lemma {:induction false} RunAllLogs(es: seq<EventState>, data: seq<byte>, msgNo: uint32, picks: seq<nat>, i: nat)
    requires |data| >= 4 && PicksOk(picks, |es|, |data|) && NoFlips(es) && i < |es|
    ensures RunAll(es, data, msgNo, picks).after[i] ==
            if NoneHits(es[..i], msgNo) then Logged(es[i], FromBE32(data[..4])) else es[i]
  {
    hide RunAll, RunOne, Logged, FromBE32, Hits, NoneHits, Increment;
    assert es[0] in es;
    NoneHitsCons(es, i, msgNo);
    RunAllStep(es, data, msgNo, picks);
    DropsUnlogged(es[0], msgNo, FromBE32(data[..4]));
    if i > 0 {
      RunAllLogs(es[1..], data, msgNo, picks[1..], i - 1);
    }
  }

  lemma DropsUnlogged(e: EventState, msgNo: uint32, n: uint32)
    ensures Hits(e, msgNo) ==> Logged(e, n) == e
  {
  }

  /** A standard logger logs the packet's number unless a drop event in front of it hits; no other event changes. */
  lemma LoggedIff(standard: seq<EventState>, random: seq<EventState>, data: seq<byte>, msgNo: uint32, dice: Dice,
                  i: nat)
    requires |data| >= 4 && DiceOk(dice, |standard|, |random|, |data|) && NoFlips(standard) && i < |standard|
    ensures Process(standard, random, data, msgNo, dice).standard[i] ==
            if NoneHits(standard[..i], msgNo) then Logged(standard[i], FromBE32(data[..4])) else standard[i]
  {
    RunAllLogs(standard, data, msgNo, dice.picks, i);
  }

  /** Among the random events only a logger changes, and only when the dice pick it. */
  lemma RandomLoggedIff(standard: seq<EventState>, random: seq<EventState>, data: seq<byte>, msgNo: uint32, dice: Dice)
    requires |data| >= 4 && DiceOk(dice, |standard|, |random|, |data|) && NoFlips(standard)
    ensures var after, n := Process(standard, random, data, msgNo, dice).random, FromBE32(data[..4]);
      && |after| == |random|
      && forall j :: 0 <= j < |random| ==>
           after[j] == if dice.fires && j == dice.which then Logged(random[j], n) else random[j]
  {
    RunAllKeepsData(standard, data, msgNo, dice.picks);
  }

  /** The return code knows of the random event alone, if one ran. */
  predicate Changes(standard: seq<EventState>, random: seq<EventState>, dice: Dice)
    requires |random| > 0 ==> dice.which < |random|
  {
    if |random| > 0 && dice.fires then random[dice.which] == FlipState else FlipState in standard
  }

  // ----- the send log

  predicate Listed(dropList: seq<uint32>, n: nat) {
    n % 0x1_0000_0000 in dropList
  }

  predicate AllHeaded(sends: seq<seq<byte>>) {
    forall i :: 0 <= i < |sends| ==> |sends[i]| >= 4
  }

  /** The sequence numbers of those sends whose message number is not in the drop list. */
  function Surviving(dropList: seq<uint32>, sends: seq<seq<byte>>): seq<uint32>
    requires AllHeaded(sends)
  {
    if sends == [] then [] else
      var n := |sends| - 1;
      Surviving(dropList, sends[..n]) + (if Listed(dropList, n + 1) then [] else [SeqNoOf(sends[n])])
  }

  function ListedCount(dropList: seq<uint32>, n: nat): nat {
    if n == 0 then 0 else ListedCount(dropList, n - 1) + (if Listed(dropList, n) then 1 else 0)
  }

  datatype Sender = Sender(
    msgNo: uint32,
    standard: seq<EventState>,
    random: seq<EventState>,
    wires: seq<Option<seq<byte>>>)

  predicate SendsOk(sends: seq<seq<byte>>, dice: seq<Dice>, standard: nat, random: nat) {
    && |sends| == |dice|
    && forall i :: 0 <= i < |sends| ==> |sends[i]| >= 4 && DiceOk(dice[i], standard, random, |sends[i]|)
  }

  function SendOne(s: Sender, data: seq<byte>, dice: Dice): Sender
    requires |data| >= 4 && DiceOk(dice, |s.standard|, |s.random|, |data|)
  {
    var r := Process(s.standard, s.random, data, Increment(s.msgNo), dice);
    Sender(Increment(s.msgNo), r.standard, r.random, s.wires + [r.wire])
  }

  /** Any number of sends through one packet manager, oldest first. */
  function SendAll(standard: seq<EventState>, random: seq<EventState>, sends: seq<seq<byte>>,
                   dice: seq<Dice>): (s: Sender)
    requires SendsOk(sends, dice, |standard|, |random|)
    ensures |s.standard| == |standard| && |s.random| == |random| && |s.wires| == |sends|
    decreases |sends|
  {
    if sends == [] then Sender(0, standard, random, []) else
      var n := |sends| - 1;
      SendOne(SendAll(standard, random, sends[..n], dice[..n]), sends[n], dice[n])
  }

  function DropThenLog(dropList: seq<uint32>): seq<EventState> {
    [DropState(false, dropList), InfoState([], map[])]
  }

  predicate LogOk(dropList: seq<uint32>, sends: seq<seq<byte>>, s: Sender)
    requires AllHeaded(sends)
  {
    && |s.standard| == 2 && s.standard[0] == DropState(false, dropList) && s.standard[1].InfoState?
    && s.standard[1].history == Surviving(dropList, sends)
    && |s.standard[1].history| + ListedCount(dropList, |sends|) == |sends|
    && CountsHistory(s.standard[1].history, s.standard[1].count)
    && s.msgNo == |sends| % 0x1_0000_0000
    && |s.wires| == |sends|
    && forall i :: 0 <= i < |sends| && Listed(dropList, i + 1) ==> s.wires[i] == None
  }

  /**
   * Conservation of the send log with a drop list installed before the logger: the history is exactly the
   * sequence numbers of the sends that are not listed, listed sends reach no wire, nothing is unaccounted
   * for, and the count map holds each number's multiplicity in the history (32-bit counters wrap).
   */
  lemma {:induction false} SendLogConserved(dropList: seq<uint32>, random: seq<EventState>,
                                            sends: seq<seq<byte>>, dice: seq<Dice>)
    requires SendsOk(sends, dice, 2, |random|)
    ensures LogOk(dropList, sends, SendAll(DropThenLog(dropList), random, sends, dice))
    decreases |sends|
  {
    if sends == [] {
      assert SendAll(DropThenLog(dropList), random, sends, dice).standard == DropThenLog(dropList);
    } else {
      var n := |sends| - 1;
      SendLogConserved(dropList, random, sends[..n], dice[..n]);
      var s := SendAll(DropThenLog(dropList), random, sends[..n], dice[..n]);
      LogSend(dropList, sends, s, dice[n]);
    }
  }

  /** One more send keeps the log in order. */
  lemma LogSend(dropList: seq<uint32>, sends: seq<seq<byte>>, s: Sender, dice: Dice)
    requires sends != [] && AllHeaded(sends)
    requires LogOk(dropList, sends[..|sends| - 1], s)
    requires DiceOk(dice, 2, |s.random|, |sends[|sends| - 1]|)
    ensures LogOk(dropList, sends, SendOne(s, sends[|sends| - 1], dice))
  {
    hide RunAll, RunOne, Surviving, ListedCount, CountsHistory;
    var n := |sends| - 1;
    var msgNo := Increment(s.msgNo);
    var drop, info := DropState(false, dropList), s.standard[1];
    assert s.standard == [drop, info];
    LoggedSend(drop, info, sends[n], msgNo, dice.picks);
    var ran := RunAll(s.standard, sends[n], msgNo, dice.picks);
    assert Drops(drop, msgNo) == Listed(dropList, n + 1);
    LogStep(dropList, sends, s, msgNo, ran.after[1]);
  }

  lemma LogStep(dropList: seq<uint32>, sends: seq<seq<byte>>, s: Sender, msgNo: uint32, after: EventState)
    requires sends != [] && AllHeaded(sends)
    requires LogOk(dropList, sends[..|sends| - 1], s)
    requires after == if Listed(dropList, |sends|) then s.standard[1]
                      else RunOne(s.standard[1], sends[|sends| - 1], msgNo, 0).after
    ensures after.InfoState? && after.history == Surviving(dropList, sends)
    ensures |after.history| + ListedCount(dropList, |sends|) == |sends|
    ensures CountsHistory(after.history, after.count)
  {
    var info := s.standard[1];
    CountUpCounts(info.history, info.count, SeqNoOf(sends[|sends| - 1]));
  }

  lemma LoggedSend(drop: EventState, info: EventState, data: seq<byte>, msgNo: uint32, picks: seq<nat>)
    requires |data| >= 4 && PicksOk(picks, 2, |data|) && drop.DropState? && info.InfoState?
    ensures RunAll([drop, info], data, msgNo, picks)
         == if Drops(drop, msgNo) then Ran(DROPPED, [drop, info], data)
            else Ran(NO_CHANGE, [drop, RunOne(info, data, msgNo, 0).after], data)
  {
    var after := RunOne(info, data, msgNo, picks[1]).after;
    assert [info][1..] == [] && [after] + [] == [after];
    assert RunAll([info], data, msgNo, picks[1..]) == Ran(NO_CHANGE, [after], data);
    assert [drop, info][1..] == [info] && [drop] + [info] == [drop, info] && [drop] + [after] == [drop, after];
  }

  function Multiplicity(history: seq<uint32>, s: uint32): nat {
    multiset(history)[s]
  }

  predicate CountsHistory(history: seq<uint32>, count: map<uint32, uint32>) {
    forall s: uint32 :: (s in count <==> s in history)
                     && (s in count ==> count[s] == Multiplicity(history, s) % 0x1_0000_0000)
  }

  // ----- the event objects

  class ErrorDrop {
    var dropAll: bool
    var dropList: seq<uint32>

    constructor ()
      ensures dropAll && dropList == []
    {
      dropAll := true;
      dropList := [];
    }

    method SetDropAll(all: bool)
      modifies this
      ensures dropAll == all && dropList == old(dropList)
    {
      dropAll := all;
    }

    method SetDropSpecific(list: seq<uint32>)
      modifies this
      ensures !dropAll && dropList == list
    {
      dropAll := false;
      dropList := list;
    }

    method Run(msgNo: uint32) returns (code: int)
      ensures code == if Drops(DropState(dropAll, dropList), msgNo) then DROPPED else NO_CHANGE
    {
      var toDrop := dropAll;
      var it := 0;
      while it != |dropList|
        invariant it <= |dropList| && toDrop == dropAll && msgNo !in dropList[..it]
        decreases |dropList| - it
      {
        if dropList[it] == msgNo {
          toDrop := true;
          break;
        }
        it := it + 1;
      }
      if toDrop {
        code := DROPPED;
      } else {
        code := NO_CHANGE;
      }
    }
  }

  class ErrorFlipBits {
    constructor () {
    }

    method Run(buf: array<byte>, byteToFlip: nat) returns (code: int)
      requires byteToFlip < buf.Length
      modifies buf
      ensures code == CHANGED && buf[..] == FlipAt(old(buf[..]), byteToFlip)
    {
      buf[byteToFlip] := Complement(buf[byteToFlip]);
      code := CHANGED;
    }
  }

  class InfoSeqNo {
    var history: seq<uint32>
    var count: map<uint32, uint32>

    constructor ()
      ensures history == [] && count == map[]
    {
      history := [];
      count := map[];
    }

    method Run(buf: array<byte>) returns (code: int)
      requires buf.Length >= 4
      modifies this
      ensures code == NO_CHANGE
      ensures history == old(history) + [SeqNoOf(buf[..])]
      ensures count == CountUp(old(count), SeqNoOf(buf[..]))
      ensures old(CountsHistory(history, count)) ==> CountsHistory(history, count)
    {
      assert buf[..][..4] == buf[..4];
      var seqNo := FromBE32(buf[..4]);
      ghost var h, c := history, count;
      history := history + [seqNo];
      count := CountUp(count, seqNo);
      if CountsHistory(h, c) {
        CountUpCounts(h, c, seqNo);
      }
      code := NO_CHANGE;
    }
  }

  lemma CountUpCounts(history: seq<uint32>, count: map<uint32, uint32>, s: uint32)
    requires CountsHistory(history, count)
    ensures CountsHistory(history + [s], CountUp(count, s))
  {
    var h: seq<uint32>, c := history + [s], CountUp(count, s);
    assert multiset(h) == multiset(history) + multiset{s};
    assert s in c && s in h;
    forall t: uint32 | t != s
      ensures t in c <==> t in h
      ensures t in c ==> c[t] == Multiplicity(h, t) % 0x1_0000_0000
    {
      assert t in h <==> t in history;
    }
    CountedOnce(history, count, s);
  }

  lemma CountedOnce(history: seq<uint32>, count: map<uint32, uint32>, s: uint32)
    requires CountsHistory(history, count)
    ensures CountUp(count, s)[s] == (Multiplicity(history, s) + 1) % 0x1_0000_0000
  {
    if s !in count {
      assert s !in history;
      assert Multiplicity(history, s) == 0;
    } else {
      var m := Multiplicity(history, s);
      assert (m % 0x1_0000_0000 + 1) % 0x1_0000_0000 == (m + 1) % 0x1_0000_0000;
    }
  }

  /** The C++ event pointer: which class the object is of, and the object. */
  datatype MsgEvent = DropEvent(drop: ErrorDrop) | FlipEvent(flip: ErrorFlipBits) | InfoEvent(info: InfoSeqNo) {

    function Obj(): object {
      match this
      case DropEvent(d) => d
      case FlipEvent(f) => f
      case InfoEvent(i) => i
    }

    function State(): EventState
      reads Obj()
    {
      match this
      case DropEvent(d) => DropState(d.dropAll, d.dropList)
      case FlipEvent(f) => FlipState
      case InfoEvent(i) => InfoState(i.history, i.count)
    }

    method Run(buf: array<byte>, msgNo: uint32, pick: nat) returns (code: int)
      requires buf.Length >= 4 && pick < buf.Length && Obj() != buf
      modifies buf, Obj()
      ensures Ran(code, State(), buf[..]) == RunOne(old(State()), old(buf[..]), msgNo, pick)
    {
      match this
      case DropEvent(d) => code := d.Run(msgNo);
      case FlipEvent(f) => code := f.Run(buf, pick);
      case InfoEvent(i) => code := i.Run(buf);
    }
  }

  ghost function Objects(es: seq<MsgEvent>): set<object> {
    set i | 0 <= i < |es| :: es[i].Obj()
  }

  ghost function States(es: seq<MsgEvent>): (ss: seq<EventState>)
    reads Objects(es)
    ensures |ss| == |es|
    ensures forall i :: 0 <= i < |es| ==> ss[i] == es[i].State()
  {
    seq(|es|, i requires 0 <= i < |es| reads Objects(es) => es[i].State())
  }

  predicate Distinct(es: seq<MsgEvent>) {
    forall i, j :: 0 <= i < j < |es| ==> es[i].Obj() != es[j].Obj()
  }

  /** The outcome of a list whose first events already ran, given the outcome of the rest. */
  ghost function Resume(done: seq<EventState>, hasChanged: bool, rest: Ran<seq<EventState>>): Ran<seq<EventState>> {
    Ran(if rest.code == NO_CHANGE && hasChanged then CHANGED else rest.code, done + rest.after, rest.data)
  }

  lemma ResumeStep(done: seq<EventState>, hasChanged: bool, es: seq<EventState>, data: seq<byte>,
                   msgNo: uint32, picks: seq<nat>)
    returns (first: Ran<EventState>)
    requires |data| >= 4 && PicksOk(picks, |es|, |data|) && es != []
    ensures first == RunOne(es[0], data, msgNo, picks[0])
    ensures Resume(done, hasChanged, RunAll(es, data, msgNo, picks))
         == if first.code == DROPPED then Ran(DROPPED, done + [first.after] + es[1..], first.data)
            else Resume(done + [first.after], hasChanged || first.code == CHANGED,
                        RunAll(es[1..], first.data, msgNo, picks[1..]))
  {
    first := RunOne(es[0], data, msgNo, picks[0]);
    if first.code == DROPPED {
      assert done + ([first.after] + es[1..]) == done + [first.after] + es[1..];
    } else {
      var rest := RunAll(es[1..], first.data, msgNo, picks[1..]);
      assert done + ([first.after] + rest.after) == done + [first.after] + rest.after;
    }
  }

  lemma ListStep<S>(was: seq<S>, before: seq<S>, picks: seq<nat>, i: nat, x: S)
    requires i < |was| == |before| == |picks| && was[i..] == before[i..]
    ensures was[i := x][..i + 1] == was[..i] + [x]
    ensures was[i := x][i + 1..] == before[i + 1..] == before[i..][1..]
    ensures was[i := x] == was[..i] + [x] + before[i..][1..]
    ensures picks[i..][1..] == picks[i + 1..]
  {
    assert was[i + 1..] == was[i..][1..];
  }

  class PacketManager {
    var msgNo: uint32
    var standard: seq<MsgEvent>
    var random: seq<MsgEvent>

    ghost predicate Valid()
      reads this
    {
      Distinct(standard) && Distinct(random) && Objects(standard) !! Objects(random)
      && this !in Objects(standard) && this !in Objects(random)
    }

    constructor ()
      ensures Valid() && msgNo == 0 && standard == [] && random == []
    {
      msgNo := 0;
      standard := [];
      random := [];
    }

    method AddMsgEventStandard(e: MsgEvent)
      requires Valid() && e.Obj() != this
      requires e.Obj() !in Objects(standard) && e.Obj() !in Objects(random)
      modifies this
      ensures Valid() && standard == old(standard) + [e] && random == old(random) && msgNo == old(msgNo)
    {
      standard := standard + [e];
    }

    method AddMsgEventRandom(e: MsgEvent)
      requires Valid() && e.Obj() != this
      requires e.Obj() !in Objects(standard) && e.Obj() !in Objects(random)
      modifies this
      ensures Valid() && random == old(random) + [e] && standard == old(standard) && msgNo == old(msgNo)
    {
      random := random + [e];
    }

    /** Run one event of a list; the other events keep their state. */
    method RunEvent(es: seq<MsgEvent>, i: nat, buf: array<byte>, msg: uint32, pick: nat) returns (code: int)
      requires i < |es| && Distinct(es) && buf !in Objects(es)
      requires buf.Length >= 4 && pick < buf.Length
      modifies buf, es[i].Obj()
      ensures var r := RunOne(old(States(es))[i], old(buf[..]), msg, pick);
              code == r.code && buf[..] == r.data && States(es) == old(States(es))[i := r.after]
    {
      ghost var was := States(es);
      assert es[i].Obj() in Objects(es);
      code := es[i].Run(buf, msg, pick);
      assert forall j :: 0 <= j < |es| && j != i ==> es[j].State() == was[j];
      assert States(es) == was[i := es[i].State()];
    }

    /** The loop over an event list: remembers whether anything changed, stops at the first drop. */
    method RunMsgEvents(es: seq<MsgEvent>, buf: array<byte>, msg: uint32, picks: seq<nat>) returns (code: int)
      requires Distinct(es) && buf !in Objects(es)
      requires buf.Length >= 4 && PicksOk(picks, |es|, buf.Length)
      modifies buf, Objects(es)
      ensures Ran(code, States(es), buf[..]) == RunAll(old(States(es)), old(buf[..]), msg, picks)
    {
      var hasChanged := false;
      ghost var before, len := States(es), buf.Length;
      ghost var goal := RunAll(before, buf[..], msg, picks);
      var i := 0;
      assert before[0..] == before && picks[0..] == picks && before[..0] + goal.after == goal.after;
      while i < |es|
        invariant 0 <= i <= |es|
        invariant States(es)[i..] == before[i..]
        invariant goal == Resume(States(es)[..i], hasChanged, RunAll(before[i..], buf[..], msg, picks[i..]))
      {
        ghost var was := States(es);
        ghost var first := ResumeStep(was[..i], hasChanged, before[i..], buf[..], msg, picks[i..]);
        assert es[i].Obj() in Objects(es) && was[i] == was[i..][0];
        code := RunEvent(es, i, buf, msg, picks[i]);
        ListStep(was, before, picks, i, first.after);
        if code == CHANGED {
          hasChanged := true;
        } else if code == DROPPED {
          return DROPPED;
        }
        i := i + 1;
      }
      assert States(es)[..i] + [] == States(es);
      code := if hasChanged then CHANGED else NO_CHANGE;
    }

    /** Standard events, then with some probability one random event; a drop by either wins. */
    method ProcessEvents(buf: array<byte>, msg: uint32, dice: Dice) returns (code: int)
      requires Valid() && buf !in Objects(standard) && buf !in Objects(random)
      requires buf.Length >= 4 && DiceOk(dice, |standard|, |random|, buf.Length)
      modifies buf, Objects(standard), Objects(random)
      ensures code != DROPPED ==>
                code == if Changes(old(States(standard)), old(States(random)), dice) then CHANGED else NO_CHANGE
      ensures Sent(States(standard), States(random), if code == DROPPED then None else Some(buf[..]))
           == Process(old(States(standard)), old(States(random)), old(buf[..]), msg, dice)
    {
      hide RunAll, RunOne;
      var hasChanged, hasDropped := NO_CHANGE, false;
      ghost var s, r, d := States(standard), States(random), buf[..];
      code := RunMsgEvents(standard, buf, msg, dice.picks);
      RunAllCode(s, d, msg, dice.picks);
      assert States(random) == r;
      if code == DROPPED {
        hasDropped := true;
      } else if code == CHANGED {
        hasChanged := CHANGED;
      }
      if |random| > 0 && dice.fires {
        RunOneCode(r[dice.which], buf[..], msg, dice.pick);
        code := RunRandomEvent(buf, msg, dice.which, dice.pick);
        if code == DROPPED {
          hasDropped := true;
        } else {
          hasChanged := code;
        }
      }
      code := if hasDropped then DROPPED else hasChanged;
    }

    method RunRandomEvent(buf: array<byte>, msg: uint32, which: nat, pick: nat) returns (code: int)
      requires Valid() && buf !in Objects(standard) && buf !in Objects(random)
      requires buf.Length >= 4 && which < |random| && pick < buf.Length
      modifies buf, Objects(random)
      ensures States(standard) == old(States(standard))
      ensures var r := RunOne(old(States(random))[which], old(buf[..]), msg, pick);
              code == r.code && buf[..] == r.data && States(random) == old(States(random))[which := r.after]
    {
      ghost var s := States(standard);
      assert random[which].Obj() in Objects(random);
      code := RunEvent(random, which, buf, msg, pick);
      assert States(standard) == s;
    }

    /**
     * One send. The caller's buffer is only read: the events work on a copy. The wire carries the copy unless
     * some event dropped it. netSent is what the network reports; a drop is reported as a full send.
     */
    method SendtoErr(buf: array<byte>, len: nat, dice: Dice, netSent: int)
      returns (result: int, wire: Option<seq<byte>>)
      requires Valid() && 4 <= len <= buf.Length
      requires DiceOk(dice, |standard|, |random|, len)
      modifies `msgNo, Objects(standard), Objects(random)
      ensures result == (if wire.None? then len else netSent) && msgNo == Increment(old(msgNo))
      ensures Sent(States(standard), States(random), wire)
           == Process(old(States(standard)), old(States(random)), old(buf[..len]), msgNo, dice)
    {
      msgNo := Increment(msgNo);
      var bufTmp := new byte[len](i requires 0 <= i < len reads buf => buf[i]);
      assert bufTmp[..] == buf[..len];
      ghost var s, r := States(standard), States(random);
      assert s == old(States(standard)) && r == old(States(random));
      var code := ProcessEvents(bufTmp, msgNo, dice);
      if code == DROPPED {
        wire := None;
        result := len;
      } else {
        wire := Some(bufTmp[..]);
        result := if netSent == bufTmp.Length then len else netSent;
      }
    }
  }
}
