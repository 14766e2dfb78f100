/** The transfer packet: 4-byte sequence number, 2-byte checksum, 1-byte flag, payload. */
module Codec {
  import opened Bytes
  import opened Checksum

  const HEADER_LEN := 7
  const MAX_LEN := 1500
  const CRC_ERROR := -1

  const DATA: byte := 3
  const RR: byte := 5
  const SREJ: byte := 6
  const FNAME_OK: byte := 8
  const FNAME_BAD: byte := 9
  const END_OF_FILE: byte := 10
  const EOF_ACK: byte := 11

  /** What recv_buf reports about a datagram. */
  datatype Arrival = CrcError | Frame(flag: byte, seqNum: uint32, payload: seq<byte>)

  /** The packet as it is before its checksum word is filled in. */
  function Unstamped(seqNum: uint32, flag: byte, payload: seq<byte>): (p: seq<byte>)
    ensures |p| == HEADER_LEN + |payload|
  {
    BE32(seqNum) + [0, 0] + [flag] + payload
  }

  /** The packet that create_header leaves in memory. */
  function Build(seqNum: uint32, flag: byte, payload: seq<byte>): (p: seq<byte>)
    ensures |p| == HEADER_LEN + |payload|
  {
    BE32(seqNum) + LE16(Cksum(Unstamped(seqNum, flag, payload))) + [flag] + payload
  }

  function Decode(p: seq<byte>): Arrival
    requires |p| >= HEADER_LEN
  {
    if Accepts(p) then Frame(p[6], FromBE32(p[..4]), p[7..]) else CrcError
  }

  /** Write the checksum of b into its zeroed, word-aligned field at k. */
  function Stamp(b: seq<byte>, k: nat): (c: seq<byte>)
    requires k + 1 < |b|
    ensures |c| == |b|
  {
    b[k := Cksum(b) % 0x100][k + 1 := Cksum(b) / 0x100]
  }

  /** A stamped buffer is always accepted, an all-zero one and an odd-length one included. */
  lemma StampAccepted(b: seq<byte>, k: nat)
    requires k % 2 == 0 && k + 1 < |b| && b[k] == 0 && b[k + 1] == 0
    ensures Accepts(Stamp(b, k))
  {
    StampSum(b, k);
    CksumIsResidue(b);
    AcceptsIff(Stamp(b, k));
  }

  lemma StampSum(b: seq<byte>, k: nat)
    requires k % 2 == 0 && k + 1 < |b| && b[k] == 0 && b[k + 1] == 0
    ensures WordSum(Stamp(b, k)) == WordSum(b) + Cksum(b)
  {
    WordSumPut(b, k, Cksum(b) % 0x100, Cksum(b) / 0x100);
  }

  lemma WordSumPut(b: seq<byte>, k: nat, lo: byte, hi: byte)
    requires k % 2 == 0 && k + 1 < |b| && b[k] == 0 && b[k + 1] == 0
    ensures WordSum(b[k := lo][k + 1 := hi]) == WordSum(b) + Word(lo, hi)
  {
    WordSumUpdate(b, k, lo);
    WordSumUpdate(b[k := lo], k + 1, hi);
    assert (k + 1) % 2 == 1;
  }

  lemma BuildIsStamp(seqNum: uint32, flag: byte, payload: seq<byte>)
    ensures Build(seqNum, flag, payload) == Stamp(Unstamped(seqNum, flag, payload), 4)
  {
  }

  lemma BuildStartsWithSeqNum(seqNum: uint32, flag: byte, payload: seq<byte>)
    ensures Build(seqNum, flag, payload)[..4] == BE32(seqNum)
  {
  }

  lemma BuildAccepted(seqNum: uint32, flag: byte, payload: seq<byte>)
    ensures Accepts(Build(seqNum, flag, payload))
  {
    var u := Unstamped(seqNum, flag, payload);
    assert u[4] == 0 && u[5] == 0;
    BuildIsStamp(seqNum, flag, payload);
    StampAccepted(u, 4);
  }

  /** Reading back what was built returns the flag, the sequence number and the whole payload. */
  lemma RoundTrip(seqNum: uint32, flag: byte, payload: seq<byte>)
    ensures Decode(Build(seqNum, flag, payload)) == Frame(flag, seqNum, payload)
  {
    var p := Build(seqNum, flag, payload);
    BuildAccepted(seqNum, flag, payload);
    assert p[..4] == BE32(seqNum);
    BE32RoundTrip(seqNum);
    assert p[7..] == payload;
  }

  /** Building is injective, so no two different frames look the same on the wire. */
  lemma BuildInjective(s: uint32, f: byte, p: seq<byte>, t: uint32, g: byte, q: seq<byte>)
    ensures Build(s, f, p) == Build(t, g, q) <==> s == t && f == g && p == q
  {
    RoundTrip(s, f, p);
    RoundTrip(t, g, q);
  }
}
