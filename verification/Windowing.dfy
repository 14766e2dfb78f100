/** windowing.c: a circular buffer that keeps sequence number s in slot s % windowsize. */
module Windowing {
  /**
   * One pointer of the slot array: as malloc left it, NULL, or pointing at an entry. The entry's pdu is
   * whatever the caller handed in; the window never copies it.
   */
  datatype Slot<+P> = Unset | Null | Entry(seqNum: nat, length: int, index: nat, pdu: P)

  /** How C compares an int with an unsigned sequence number. */
  function Unsigned(n: int): nat
    requires -0x8000_0000 <= n
  {
    if n < 0 then n + 0x1_0000_0000 else n
  }

  const INT_MAX := 0x7FFF_FFFF

  /** The sum of two ints, which wraps past the largest one. */
  function Int32(n: int): int {
    if n <= INT_MAX then n else n - 0x1_0000_0000
  }

  function Place<P>(slots: seq<Slot<P>>, e: Slot<P>): (r: seq<Slot<P>>)
    requires |slots| > 0 && e.Entry?
    ensures |r| == |slots|
  {
    slots[e.seqNum % |slots| := e]
  }

  /** The entries below rr become NULL. */
  function DropBelow<P>(slots: seq<Slot<P>>, rr: nat): (r: seq<Slot<P>>)
    ensures |r| == |slots|
    ensures forall i :: 0 <= i < |slots| ==>
              r[i] == if slots[i].Entry? && slots[i].seqNum < rr then Null else slots[i]
  {
    seq(|slots|, i requires 0 <= i < |slots| =>
      if slots[i].Entry? && slots[i].seqNum < rr then Null else slots[i])
  }

  predicate AllEntries<P>(slots: seq<Slot<P>>) {
    forall i :: 0 <= i < |slots| ==> slots[i].Entry?
  }

  predicate AllNull<P>(slots: seq<Slot<P>>) {
    forall i :: 0 <= i < |slots| ==> slots[i].Null?
  }

  predicate NoneUnset<P>(slots: seq<Slot<P>>) {
    forall i :: 0 <= i < |slots| ==> !slots[i].Unset?
  }

  class Window<P> {
    var upper: int
    var lower: int
    var current: int
    const pduArray: array<Slot<P>>

    ghost predicate Valid()
      reads this
    {
      pduArray.Length > 0 && upper == Int32(lower + pduArray.Length)
    }

    /** A new window; `memory` is what the allocator left in the slot array. */
    constructor (windowsize: nat, memory: Slot<P>)
      requires windowsize > 0 && !memory.Entry?
      ensures Valid() && fresh(pduArray) && pduArray.Length == windowsize
      ensures lower == 0 && current == 0
      ensures pduArray[..] == seq(windowsize, _ => memory)
    {
      upper := Int32(windowsize);
      lower := 0;
      current := 0;
      pduArray := new Slot<P>[windowsize](_ => memory);
    }

    /** Store an entry, whatever the slot held before. */
    method AddPdu(pdu: P, len: int, seqNum: nat)
      requires Valid()
      modifies pduArray
      ensures pduArray[..] == Place(old(pduArray[..]), Entry(seqNum, len, seqNum % pduArray.Length, pdu))
    {
      var index := seqNum % pduArray.Length;
      pduArray[index] := Entry(seqNum, len, index, pdu);
    }

    /** The slot that seqNum maps to; the entry's own number is not checked. */
    method FindPdu(seqNum: nat) returns (slot: Slot<P>)
      requires Valid()
      ensures slot == pduArray[seqNum % pduArray.Length]
    {
      var i := seqNum % pduArray.Length;
      slot := pduArray[i];
    }

    method IsWindowEmpty() returns (empty: bool)
      requires NoneUnset(pduArray[..])
      ensures empty <==> AllNull(pduArray[..])
    {
      empty := true;
      for i := 0 to pduArray.Length
        invariant empty <==> forall j :: 0 <= j < i ==> pduArray[j].Null?
      {
        if !pduArray[i].Null? {
          empty := false;
        }
      }
    }

    /**
     * Drop the entries below rr and slide the window up. Every slot is dereferenced without a test, so
     * every slot has to hold an entry.
     */
    method ProcessRR(rr: int)
      requires Valid() && -0x8000_0000 <= rr
      requires AllEntries(pduArray[..])
      modifies `lower, `upper, pduArray
      ensures Valid() && lower == (if old(lower) < rr then rr else old(lower))
      ensures pduArray[..] == DropBelow(old(pduArray[..]), Unsigned(rr))
    {
      ghost var slots := pduArray[..];
      for i := 0 to pduArray.Length
        invariant lower == old(lower) && upper == old(upper)
        invariant forall j :: 0 <= j < i ==> pduArray[j] == DropBelow(slots, Unsigned(rr))[j]
        invariant forall j :: i <= j < pduArray.Length ==> pduArray[j] == slots[j]
      {
        if pduArray[i].seqNum < Unsigned(rr) {
          pduArray[i] := Null;
        }
      }
      Slide(rr);
    }

    /** The same with the NULL test made first, as the receiver intends. */
    method ProcessRRGuarded(rr: int)
      requires Valid() && -0x8000_0000 <= rr
      requires NoneUnset(pduArray[..])
      modifies `lower, `upper, pduArray
      ensures Valid() && lower == (if old(lower) < rr then rr else old(lower))
      ensures pduArray[..] == DropBelow(old(pduArray[..]), Unsigned(rr))
    {
      ghost var slots := pduArray[..];
      for i := 0 to pduArray.Length
        invariant lower == old(lower) && upper == old(upper)
        invariant forall j :: 0 <= j < i ==> pduArray[j] == DropBelow(slots, Unsigned(rr))[j]
        invariant forall j :: i <= j < pduArray.Length ==> pduArray[j] == slots[j]
      {
        if !pduArray[i].Null? && pduArray[i].seqNum < Unsigned(rr) {
          pduArray[i] := Null;
        }
      }
      Slide(rr);
    }

    method Slide(rr: int)
      requires Valid()
      modifies `lower, `upper
      ensures Valid() && lower == (if old(lower) < rr then rr else old(lower))
    {
      if lower < rr {
        lower := rr;
        upper := Int32(lower + pduArray.Length);
      }
    }

    method WindowStatus() returns (open: bool)
      ensures open <==> current < upper
    {
      open := upper > current;
    }
  }

  // ----- modular addressing

  lemma TimesMonotone(a: int, b: int, w: nat)
    ensures a <= b ==> a * w <= b * w
  {
    if a <= b {
      assert (b - a) * w >= 0;
    }
  }

  lemma ModDecompose(q: int, i: nat, w: nat)
    requires i < w && q * w + i >= 0
    ensures (q * w + i) % w == i
  {
    var s := q * w + i;
    var d := s / w;
    assert s == d * w + s % w;
    TimesMonotone(d + 1, q, w);
    TimesMonotone(q + 1, d, w);
  }

  /** Sequence numbers less than a window apart never share a slot. */
  lemma ModInjective(s: nat, t: nat, w: nat)
    requires w > 0 && s % w == t % w && t < s + w && s < t + w
    ensures s == t
  {
    var p, q := s / w, t / w;
    assert s == p * w + s % w && t == q * w + t % w;
    TimesMonotone(p + 1, q, w);
    TimesMonotone(q + 1, p, w);
  }

  /** The sequence number in [c - w, c) that lives in slot i. */
  function Owner(c: nat, w: nat, i: nat): (s: nat)
    requires i < w <= c
    ensures c - w <= s < c
  {
    c - 1 - (c - 1 - i) % w
  }

  lemma OwnerSlot(c: nat, w: nat, i: nat)
    requires i < w <= c
    ensures Owner(c, w, i) % w == i
  {
    var q := (c - 1 - i) / w;
    assert c - 1 - i == q * w + (c - 1 - i) % w;
    ModDecompose(q, i, w);
  }
}
