/**
 * The window exercise: fill the window with packets until it is closed, then take one RR, for ever.
 * The slot array is shown to be a map from sequence numbers to entries, over every run.
 */
module WindowDriver {
  import opened Bytes
  import opened Codec
  import opened Srej
  import opened Windowing

  const PAYLOAD_MAXBUF := 1400
  const DRIVER_FLAG: byte := 3

  // ----- the window as a value

  datatype Win<P> = Win(lower: int, current: int, slots: seq<Slot<P>>) {
    function Upper(): int {
      Int32(lower + |slots|)
    }

    predicate Closed() {
      Upper() <= current
    }
  }

  function NewEntry<P>(w: Win<P>, len: int, pdu: P): (e: Slot<P>)
    requires |w.slots| > 0 && 0 <= w.current
    ensures e.Entry?
  {
    Entry(w.current, len, w.current % |w.slots|, pdu)
  }

  /** The open branch of the loop: store the packet numbered `current`, then count it. */
  function Fill<P>(w: Win<P>, len: int, pdu: P): Win<P>
    requires |w.slots| > 0 && 0 <= w.current
  {
    Win(w.lower, w.current + 1, Place(w.slots, NewEntry(w, len, pdu)))
  }

  /** The closed branch: process_RR. */
  function Acknowledge<P>(w: Win<P>, rr: int): Win<P>
    requires -0x8000_0000 <= rr
  {
    Win(if w.lower < rr then rr else w.lower, w.current, DropBelow(w.slots, Unsigned(rr)))
  }

  // ----- what the slots hold

  /** The entries that are kept: from `floor` on, at most a window's worth, up to the newest. */
  predicate Live<P>(w: Win<P>, floor: int, s: int) {
    floor <= s && w.current - |w.slots| <= s < w.current
  }

  /** The slots are exactly the live sequence numbers, each in its own slot; the upper edge has not wrapped. */
  ghost predicate Tracks<P>(w: Win<P>, floor: int) {
    && |w.slots| > 0 && w.lower + |w.slots| <= INT_MAX
    && 0 <= floor <= w.current <= w.Upper()
    && (forall s: nat :: Live(w, floor, s) ==> HoldsAt(w.slots, s))
    && (forall i :: 0 <= i < |w.slots| && w.slots[i].Entry? ==>
          Live(w, floor, w.slots[i].seqNum) && w.slots[i].seqNum % |w.slots| == i == w.slots[i].index)
  }

  predicate HoldsAt<P>(slots: seq<Slot<P>>, s: nat)
    requires |slots| > 0
  {
    var e := slots[s % |slots|];
    e.Entry? && e.seqNum == s
  }

  lemma ModShift(s: nat, w: nat)
    requires w > 0
    ensures (s + w) % w == s % w
  {
    ModDecompose(s / w + 1, s % w, w);
  }

  lemma FreshTracks<P>(w: Win<P>)
    requires w.lower == 0 == w.current && 0 < |w.slots| <= INT_MAX
    requires forall i :: 0 <= i < |w.slots| ==> !w.slots[i].Entry?
    ensures Tracks(w, 0)
  {
  }

  lemma FillTracks<P>(w: Win<P>, floor: int, len: int, pdu: P)
    requires Tracks(w, floor) && !w.Closed()
    ensures Tracks(Fill(w, len, pdu), floor)
  {
    var n, c, v := |w.slots|, w.current, Fill(w, len, pdu);
    forall s: nat | Live(v, floor, s)
      ensures HoldsAt(v.slots, s)
    {
      if s != c {
        assert Live(w, floor, s);
        if s % n == c % n {
          ModInjective(s, c, n);
        }
      }
    }
    forall i | 0 <= i < n && v.slots[i].Entry?
      ensures Live(v, floor, v.slots[i].seqNum) && v.slots[i].seqNum % n == i == v.slots[i].index
    {
      if i != c % n {
        var s := w.slots[i].seqNum;
        assert Live(w, floor, s);
        if s == c - n {
          ModShift(s, n);
        }
      }
    }
  }

  /** The lowest sequence number that survives an RR. */
  function FloorAfter<P>(w: Win<P>, floor: int, rr: int): int
    requires -0x8000_0000 <= rr
  {
    Min(if floor < Unsigned(rr) then Unsigned(rr) else floor, w.current)
  }

  lemma AcknowledgeTracks<P>(w: Win<P>, floor: int, rr: int)
    requires Tracks(w, floor) && -0x8000_0000 <= rr <= INT_MAX - |w.slots|
    ensures Tracks(Acknowledge(w, rr), FloorAfter(w, floor, rr))
  {
    var v, f := Acknowledge(w, rr), FloorAfter(w, floor, rr);
    forall s: nat | Live(v, f, s)
      ensures HoldsAt(v.slots, s)
    {
      assert Live(w, floor, s);
      assert HoldsAt(w.slots, s);
    }
  }

  /** An RR that makes the upper edge wrap leaves the window closed, and without the entry at its lower edge. */
  lemma AcknowledgeWraps<P>(w: Win<P>, floor: int, rr: int)
    requires Tracks(w, floor) && floor <= w.lower && w.Closed() && INT_MAX - |w.slots| < rr <= INT_MAX
    ensures Acknowledge(w, rr).Closed() && !AllEntries(Acknowledge(w, rr).slots)
  {
    ClosedIsFull(w, floor);
    assert HoldsAt(w.slots, w.lower);
    assert Acknowledge(w, rr).slots[w.lower % |w.slots|].Null?;
  }

  /** A closed window whose floor has not passed its lower edge has an entry in every slot. */
  lemma ClosedIsFull<P>(w: Win<P>, floor: int)
    requires Tracks(w, floor) && floor <= w.lower && w.Closed()
    ensures AllEntries(w.slots)
    ensures forall s: nat :: w.lower <= s < w.Upper() ==> HoldsAt(w.slots, s)
  {
    var n := |w.slots|;
    assert w.current == w.lower + n;
    forall i | 0 <= i < n
      ensures w.slots[i].Entry?
    {
      var s := Owner(w.current, n, i);
      OwnerSlot(w.current, n, i);
      assert Live(w, floor, s);
      assert HoldsAt(w.slots, s);
    }
    forall s: nat | w.lower <= s < w.Upper()
      ensures HoldsAt(w.slots, s)
    {
      assert Live(w, floor, s);
    }
  }

  // ----- refinement of a map

  function Contents<P>(w: Win<P>, floor: int): (m: map<int, Slot<P>>)
    requires |w.slots| > 0 && 0 <= floor
  {
    map s | floor <= s < w.current && Live(w, floor, s) :: w.slots[s % |w.slots|]
  }

  /** findPDU(s) yields the entry of s exactly when s is in the map; for any other s it yields NULL or a stranger. */
  lemma FindRefines<P>(w: Win<P>, floor: int, s: nat)
    requires Tracks(w, floor)
    ensures HoldsAt(w.slots, s) <==> s in Contents(w, floor)
    ensures s in Contents(w, floor) ==> Contents(w, floor)[s] == w.slots[s % |w.slots|]
  {
    if HoldsAt(w.slots, s) {
      assert Live(w, floor, w.slots[s % |w.slots|].seqNum);
    }
  }

  /** Adding is a map update, and evicts the oldest entry exactly when a whole window lies above the floor. */
  lemma FillRefines<P>(w: Win<P>, floor: int, len: int, pdu: P)
    requires Tracks(w, floor) && !w.Closed()
    ensures Contents(Fill(w, len, pdu), floor)
         == (Contents(w, floor) - (if floor + |w.slots| <= w.current then {w.current - |w.slots|} else {}))
            [w.current := Entry(w.current, len, w.current % |w.slots|, pdu)]
    ensures w.slots[w.current % |w.slots|].Entry? <==> floor + |w.slots| <= w.current
  {
    hide HoldsAt;
    FillEvicts(w, floor);
    var n, c := |w.slots|, w.current;
    var v := Fill(w, len, pdu);
    var m := (Contents(w, floor) - (if floor + n <= c then {c - n} else {}))[c := NewEntry(w, len, pdu)];
    forall s: int
      ensures s in Contents(v, floor) <==> s in m
      ensures s in m ==> Contents(v, floor)[s] == m[s]
    {
      if 0 <= s && c - n < s < c {
        OtherSlot(s, c, n);
      }
    }
  }

  lemma OtherSlot(s: nat, c: nat, n: nat)
    requires c - n < s < c
    ensures s % n != c % n
  {
    if s % n == c % n {
      ModInjective(s, c, n);
    }
  }

  /** The slot that is written next is taken exactly when a whole window lies above the floor. */
  lemma FillEvicts<P>(w: Win<P>, floor: int)
    requires Tracks(w, floor) && !w.Closed()
    ensures w.slots[w.current % |w.slots|].Entry? <==> floor + |w.slots| <= w.current
  {
    var n, c := |w.slots|, w.current;
    if floor + n <= c {
      ModShift(c - n, n);
      assert Live(w, floor, c - n);
      assert HoldsAt(w.slots, c - n);
    } else if w.slots[c % n].Entry? {
      var s := w.slots[c % n].seqNum;
      assert Live(w, floor, s);
      ModInjective(s, c, n);
    }
  }

  /** With no RR beyond `current` the floor is the lower edge, and no unacknowledged entry is overwritten. */
  lemma NoUnacknowledgedOverwritten<P>(w: Win<P>, len: int, pdu: P)
    requires Tracks(w, w.lower) && !w.Closed()
    ensures !w.slots[w.current % |w.slots|].Entry?
    ensures Contents(Fill(w, len, pdu), w.lower)
         == Contents(w, w.lower)[w.current := Entry(w.current, len, w.current % |w.slots|, pdu)]
  {
    FillRefines(w, w.lower, len, pdu);
    assert Contents(w, w.lower) - {} == Contents(w, w.lower);
  }

  lemma AcknowledgeKeeps<P>(w: Win<P>, floor: int, rr: int, s: nat)
    requires Tracks(w, floor) && -0x8000_0000 <= rr && Live(w, floor, s) && Unsigned(rr) <= s
    ensures Acknowledge(w, rr).slots[s % |w.slots|] == w.slots[s % |w.slots|]
  {
    assert HoldsAt(w.slots, s);
  }

  /** process_RR removes exactly the entries below rr. */
  lemma AcknowledgeRefines<P>(w: Win<P>, floor: int, rr: int)
    requires Tracks(w, floor) && -0x8000_0000 <= rr <= INT_MAX - |w.slots|
    ensures Contents(Acknowledge(w, rr), FloorAfter(w, floor, rr))
         == map s | s in Contents(w, floor) && Unsigned(rr) <= s :: Contents(w, floor)[s]
  {
    hide HoldsAt, DropBelow;
    var v, f := Acknowledge(w, rr), FloorAfter(w, floor, rr);
    var m := map s | s in Contents(w, floor) && Unsigned(rr) <= s :: Contents(w, floor)[s];
    forall s: int
      ensures s in Contents(v, f) <==> s in m
      ensures s in m ==> Contents(v, f)[s] == m[s]
    {
      if Live(w, floor, s) && Unsigned(rr) <= s {
        AcknowledgeKeeps(w, floor, rr, s);
      }
    }
  }

  // ----- runs

  /** What one turn of the loop may read: a packet for the open branch, an RR for the closed one. */
  datatype Input<P> = Input(len: int, pdu: P, rr: int)

  datatype Status<P> = Running(w: Win<P>) | Crashed

  /** One turn of the loop; process_RR crashes when some slot does not hold an entry. */
  function Turn<P>(w: Win<P>, input: Input<P>): Status<P>
    requires |w.slots| > 0 && 0 <= w.current && -0x8000_0000 <= input.rr
  {
    if !w.Closed() then Running(Fill(w, input.len, input.pdu))
    else if AllEntries(w.slots) then Running(Acknowledge(w, input.rr))
    else Crashed
  }

  predicate IntInputs<P>(inputs: seq<Input<P>>) {
    forall i :: 0 <= i < |inputs| ==> -0x8000_0000 <= inputs[i].rr <= INT_MAX
  }

  function Start<P>(windowsize: nat): Win<P> {
    Win(0, 0, seq(windowsize, _ => Unset))
  }

  function Run<P>(windowsize: nat, inputs: seq<Input<P>>): (st: Status<P>)
    requires windowsize > 0 && IntInputs(inputs)
    ensures st.Running? ==> |st.w.slots| == windowsize && 0 <= st.w.current <= |inputs|
    decreases |inputs|
  {
    if inputs == [] then Running(Start(windowsize)) else
      var n := |inputs| - 1;
      var before := Run(windowsize, inputs[..n]);
      if before.Crashed? then Crashed else Turn(before.w, inputs[n])
  }

  /** Turn i takes an RR on a closed window that is negative, or so large that the upper edge wraps. */
  predicate FatalRR<P>(windowsize: nat, inputs: seq<Input<P>>, i: nat)
    requires windowsize > 0 && IntInputs(inputs) && i < |inputs|
  {
    var before := Run(windowsize, inputs[..i]);
    before.Running? && before.w.Closed() && !(0 <= inputs[i].rr <= INT_MAX - windowsize)
  }

  ghost predicate Healthy<P>(w: Win<P>) {
    exists floor :: Tracks(w, floor) && floor <= w.lower
  }

  /**
   * The driver crashes exactly when some turn other than the last takes a fatal RR on a closed window. The
   * comparison is unsigned, so a negative RR empties every slot and leaves the window closed; one above
   * INT_MAX - windowsize wraps the upper edge and does the same. In particular no run whose RRs lie between,
   * beyond `current` or not, ever reads an empty or unwritten slot.
   */
  lemma {:induction false} CrashesIff<P>(windowsize: nat, inputs: seq<Input<P>>)
    requires 0 < windowsize <= INT_MAX && IntInputs(inputs) && |inputs| <= INT_MAX
    ensures Run(windowsize, inputs).Crashed? <==> exists i :: 0 <= i < |inputs| - 1 && FatalRR(windowsize, inputs, i)
    ensures Run(windowsize, inputs).Running? ==>
              if inputs != [] && FatalRR(windowsize, inputs, |inputs| - 1)
              then Run(windowsize, inputs).w.Closed() && !AllEntries(Run(windowsize, inputs).w.slots)
              else Healthy(Run(windowsize, inputs).w)
    decreases |inputs|
  {
    if inputs == [] {
      FreshTracks(Run(windowsize, inputs).w);
    } else {
      var n := |inputs| - 1;
      CrashesIff(windowsize, inputs[..n]);
      PrefixFatal(windowsize, inputs, n);
      var before := Run(windowsize, inputs[..n]);
      if before.Running? {
        if Healthy(before.w) {
          HealthyTurn(before.w, inputs[n]);
        }
      }
    }
  }

  lemma PrefixFatal<P>(windowsize: nat, inputs: seq<Input<P>>, n: nat)
    requires windowsize > 0 && IntInputs(inputs) && n <= |inputs|
    ensures forall i :: 0 <= i < n ==> FatalRR(windowsize, inputs[..n], i) == FatalRR(windowsize, inputs, i)
  {
    forall i | 0 <= i < n
      ensures FatalRR(windowsize, inputs[..n], i) == FatalRR(windowsize, inputs, i)
    {
      assert inputs[..n][..i] == inputs[..i];
    }
  }

  lemma HealthyTurn<P>(w: Win<P>, input: Input<P>)
    requires Healthy(w) && -0x8000_0000 <= input.rr <= INT_MAX && w.current <= INT_MAX
    ensures var after := Turn(w, input);
      && after.Running?
      && if w.Closed() && !(0 <= input.rr <= INT_MAX - |w.slots|)
         then after.w.Closed() && !AllEntries(after.w.slots)
         else Healthy(after.w)
  {
    var floor :| Tracks(w, floor) && floor <= w.lower;
    if !w.Closed() {
      FillTracks(w, floor, input.len, input.pdu);
    } else {
      ClosedIsFull(w, floor);
      if INT_MAX - |w.slots| < input.rr {
        AcknowledgeWraps(w, floor, input.rr);
      } else {
        AcknowledgeTracks(w, floor, input.rr);
        assert input.rr < 0 ==> Turn(w, input).w.slots[0].Null?;
      }
    }
  }

  /** Over any run without a fatal RR, a closed window holds s in slot s % W for all s in [lower, upper). */
  lemma ClosedHoldsWindow<P>(windowsize: nat, inputs: seq<Input<P>>)
    requires 0 < windowsize <= INT_MAX && IntInputs(inputs) && |inputs| <= INT_MAX
    requires forall i :: 0 <= i < |inputs| ==> !FatalRR(windowsize, inputs, i)
    ensures var st := Run(windowsize, inputs);
      st.Running? && (st.w.Closed() ==> forall s: nat :: st.w.lower <= s < st.w.Upper() ==> HoldsAt(st.w.slots, s))
  {
    CrashesIff(windowsize, inputs);
    var w := Run(windowsize, inputs).w;
    if w.Closed() {
      var floor :| Tracks(w, floor) && floor <= w.lower;
      ClosedIsFull(w, floor);
    }
  }

  /** Turn i, if it takes an RR, takes one between 0 and `current`. */
  predicate Disciplined<P>(windowsize: nat, inputs: seq<Input<P>>, i: nat)
    requires windowsize > 0 && IntInputs(inputs) && i < |inputs|
  {
    var before := Run(windowsize, inputs[..i]);
    before.Running? && before.w.Closed() ==> 0 <= inputs[i].rr <= before.w.current
  }

  /**
   * Over a run whose RRs never pass `current`, the slots hold exactly [lower, current); together with
   * NoUnacknowledgedOverwritten, nothing is lost before it is acknowledged.
   */
  lemma {:induction false} DisciplinedRun<P>(windowsize: nat, inputs: seq<Input<P>>)
    requires windowsize > 0 && IntInputs(inputs) && |inputs| + windowsize <= INT_MAX
    requires forall i :: 0 <= i < |inputs| ==> Disciplined(windowsize, inputs, i)
    ensures Run(windowsize, inputs).Running?
    ensures var w := Run(windowsize, inputs).w; Tracks(w, w.lower)
    decreases |inputs|
  {
    hide Tracks, Turn;
    if inputs == [] {
      FreshTracks(Run(windowsize, inputs).w);
    } else {
      var n := |inputs| - 1;
      forall i | 0 <= i < n
        ensures Disciplined(windowsize, inputs[..n], i)
      {
        assert Disciplined(windowsize, inputs, i);
        assert inputs[..n][..i] == inputs[..i];
      }
      DisciplinedRun(windowsize, inputs[..n]);
      assert Disciplined(windowsize, inputs, n);
      DisciplinedTurn(Run(windowsize, inputs[..n]).w, inputs[n]);
    }
  }

  lemma DisciplinedTurn<P>(w: Win<P>, input: Input<P>)
    requires Tracks(w, w.lower) && -0x8000_0000 <= input.rr
    requires w.Closed() ==> 0 <= input.rr <= Min(w.current, INT_MAX - |w.slots|)
    ensures var after := Turn(w, input); after.Running? && Tracks(after.w, after.w.lower)
  {
    if !w.Closed() {
      FillTracks(w, w.lower, input.len, input.pdu);
    } else {
      ClosedIsFull(w, w.lower);
      AcknowledgeTracks(w, w.lower, input.rr);
    }
  }

  // ----- the program

  /** Build a packet in pduBuffer; returns its length. */
  method CreatePdu(pduBuffer: array<byte>, sequenceNumber: uint32, flag: byte, payload: seq<byte>)
    returns (pduLength: nat)
    requires HEADER_LEN + |payload| <= pduBuffer.Length && |payload| <= 0xFFF0
    modifies pduBuffer
    ensures pduLength == HEADER_LEN + |payload|
    ensures pduBuffer[..pduLength] == Build(sequenceNumber, flag, payload)
  {
    Memcpy(pduBuffer, HEADER_LEN, payload);
    assert pduBuffer[HEADER_LEN..HEADER_LEN + |payload|] == payload;
    pduLength := CreateHeader(|payload|, flag, sequenceNumber, pduBuffer);
  }

  class Driver {
    const window: Window<array<byte>>
    const pduBuffer: array<byte>
    var seqNum: nat

    ghost function State(): Win<array<byte>>
      reads this, window, window.pduArray
    {
      Win(window.lower, window.current, window.pduArray[..])
    }

    ghost predicate Shape()
      reads this, window
    {
      && window.Valid()
      && 0 <= window.current == seqNum
      && pduBuffer.Length == PAYLOAD_MAXBUF + 8
    }

    /** Every stored entry points at the one packet buffer, which holds the newest packet. */
    ghost predicate Aliased()
      reads this, window, window.pduArray, pduBuffer
    {
      && (forall i :: 0 <= i < window.pduArray.Length && window.pduArray[i].Entry? ==>
            window.pduArray[i].pdu == pduBuffer)
      && (window.current > 0 ==> pduBuffer.Length >= 4 && FromBE32(pduBuffer[..4]) == window.current - 1)
    }

    constructor (windowsize: nat)
      requires 0 < windowsize <= INT_MAX
      ensures Shape() && Aliased() && Healthy(State())
      ensures State() == Start(windowsize)
      ensures fresh(window) && fresh(window.pduArray) && fresh(pduBuffer)
    {
      var w: Window<array<byte>> := new Window(windowsize, Unset);
      window := w;
      pduBuffer := new byte[PAYLOAD_MAXBUF + 8];
      seqNum := 0;
      new;
      FreshTracks(State());
    }

    /** add_PDU_to_Win_Buff: the sequence number is read back from the packet. */
    method AddPduToWinBuff(len: int)
      requires window.Valid() && pduBuffer.Length >= 4
      modifies window.pduArray
      ensures window.pduArray[..] == Place(old(window.pduArray[..]),
                Entry(FromBE32(pduBuffer[..4]), len, FromBE32(pduBuffer[..4]) % window.pduArray.Length, pduBuffer))
    {
      var s := FromBE32(pduBuffer[..4]);
      window.AddPdu(pduBuffer, len, s);
    }

    /** One turn of the main loop. */
    method Iterate(payload: seq<byte>, rr: int)
      requires Shape() && |payload| <= PAYLOAD_MAXBUF && window.current < INT_MAX
      requires -0x8000_0000 <= rr <= INT_MAX
      requires State().Closed() ==> AllEntries(window.pduArray[..])
      modifies this, window, window.pduArray, pduBuffer
      ensures Shape()
      ensures Running(State()) == Turn(old(State()), Input(HEADER_LEN + |payload| + 1, pduBuffer, rr))
      ensures old(Aliased()) ==> Aliased()
      ensures old(Healthy(State())) && (old(State().Closed()) ==> 0 <= rr <= INT_MAX - window.pduArray.Length) ==>
                Healthy(State())
    {
      hide Build, Tracks;
      ghost var before := State();
      ghost var input := Input(HEADER_LEN + |payload| + 1, pduBuffer, rr);
      if window.upper > window.current {
        var len := CreatePdu(pduBuffer, seqNum, DRIVER_FLAG, payload);
        BuildStartsWithSeqNum(seqNum, DRIVER_FLAG, payload);
        assert pduBuffer[..4] == pduBuffer[..len][..4] == BE32(seqNum);
        BE32RoundTrip(seqNum);
        seqNum := seqNum + 1;
        AddPduToWinBuff(len + 1);
        window.current := window.current + 1;
      } else {
        window.ProcessRR(rr);
      }
      if Healthy(before) {
        HealthyTurn(before, input);
      }
    }
  }

  /**
   * The bytes behind a stored entry are the newest packet's, so they carry the entry's own sequence
   * number only for the newest entry.
   */
  lemma StoredBytesAreNewest(d: Driver, i: nat)
    requires d.Shape() && d.Aliased() && i < d.window.pduArray.Length && d.window.pduArray[i].Entry?
    requires Healthy(d.State())
    ensures d.window.current > 0 && d.window.pduArray[i].pdu.Length >= 4
    ensures FromBE32(d.window.pduArray[i].pdu[..4]) == d.window.pduArray[i].seqNum
       <==> d.window.pduArray[i].seqNum == d.window.current - 1
  {
    var floor :| Tracks(d.State(), floor) && floor <= d.State().lower;
    assert Live(d.State(), floor, d.State().slots[i].seqNum);
  }
}
