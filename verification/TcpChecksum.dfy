/** trace.c: verifying a captured TCP segment against its pseudo-header. */
module TcpChecksum {
  import opened Bytes
  import opened Checksum
  import opened Codec

  const IP_HEADER := 14
  const TOTAL_PDU_LEN := 16
  const PROTOCOL := 23
  const SENDER_IP := 26
  const DEST_IP := 30
  const PSEUDO_LEN := 12

  /** The IP header length in bytes, from the low four bits of its first byte. */
  function IpHeaderLen(pkt: seq<byte>): nat
    requires |pkt| > IP_HEADER
  {
    pkt[IP_HEADER] % 0x10 * 4
  }

  /** Total length minus IP header length, in 16-bit arithmetic. */
  function TcpLen(pkt: seq<byte>): uint16
    requires |pkt| > TOTAL_PDU_LEN + 1
  {
    (FromBE16(pkt[TOTAL_PDU_LEN..TOTAL_PDU_LEN + 2]) - IpHeaderLen(pkt)) % 0x1_0000
  }

  /** The capture holds the headers and the whole segment, and the 16-bit buffer length does not wrap. */
  predicate Captured(pkt: seq<byte>) {
    && |pkt| >= 52
    && TcpLen(pkt) + PSEUDO_LEN <= 0xFFFF
    && IP_HEADER + IpHeaderLen(pkt) + TcpLen(pkt) <= |pkt|
  }

  /** Addresses, a zero byte, the protocol and the TCP length, as section 3.1 of RFC 793 lays them out. */
  function PseudoHeader(pkt: seq<byte>): (h: seq<byte>)
    requires Captured(pkt)
    ensures |h| == PSEUDO_LEN
  {
    pkt[SENDER_IP..SENDER_IP + 4] + pkt[DEST_IP..DEST_IP + 4] + [0, pkt[PROTOCOL]] + BE16(TcpLen(pkt))
  }

  function Segment(pkt: seq<byte>): seq<byte>
    requires Captured(pkt)
  {
    var start := IP_HEADER + IpHeaderLen(pkt);
    pkt[start..start + TcpLen(pkt)]
  }

  /** The sum that RFC 793 asks for, in network byte order, over pseudo-header and segment. */
  predicate Verifies(pseudo: seq<byte>, segment: seq<byte>) {
    OnesAdd(OnesSum(NetWords(pseudo)), OnesSum(NetWords(segment))) == 0xFFFF
  }

  /** The allocated buffer: pseudo-header and segment, one behind the other. */
  method Assemble(pkt: array<byte>) returns (buf: array<byte>)
    requires Captured(pkt[..])
    ensures fresh(buf) && buf[..] == PseudoHeader(pkt[..]) + Segment(pkt[..])
  {
    hide BE16, Word;
    ghost var p := pkt[..];
    var headerLen := pkt[IP_HEADER] % 0x10 * 4;
    assert pkt[TOTAL_PDU_LEN..TOTAL_PDU_LEN + 2] == p[TOTAL_PDU_LEN..TOTAL_PDU_LEN + 2];
    var tcpLen: uint16 := (FromBE16(pkt[TOTAL_PDU_LEN..TOTAL_PDU_LEN + 2]) - headerLen) % 0x1_0000;
    var totalLen: uint16 := (tcpLen + PSEUDO_LEN) % 0x1_0000;
    var pseudo := pkt[SENDER_IP..SENDER_IP + 4] + pkt[DEST_IP..DEST_IP + 4] + [0, pkt[PROTOCOL]] + BE16(tcpLen);
    var start := IP_HEADER + headerLen;
    buf := new byte[totalLen];
    Memcpy(buf, 0, pseudo);
    Memcpy(buf, PSEUDO_LEN, pkt[start..start + tcpLen]);
    assert pseudo == PseudoHeader(p) && pkt[start..start + tcpLen] == Segment(p);
    assert buf[..PSEUDO_LEN] == pseudo && buf[PSEUDO_LEN..] == Segment(p);
    assert buf[..] == buf[..PSEUDO_LEN] + buf[PSEUDO_LEN..];
  }

  /** TCP_checksum: true when it prints Correct. The sum is taken in host byte order. */
  method VerifyTcpChecksum(pkt: array<byte>) returns (correct: bool)
    requires Captured(pkt[..])
    ensures correct <==> ReportedCorrect(pkt[..])
  {
    hide Cksum, Verifies, PseudoHeader, TcpLen;
    AcceptsIffVerifies(PseudoHeader(pkt[..]), Segment(pkt[..]));
    var buf := Assemble(pkt);
    assert buf[..buf.Length] == buf[..];
    AccumulatorFits(buf[..]);
    var res := InCksum(buf, buf.Length);
    correct := res == 0;
  }

  lemma AcceptsIffVerifies(pseudo: seq<byte>, segment: seq<byte>)
    requires |pseudo| % 2 == 0
    ensures Accepts(pseudo + segment) <==> Verifies(pseudo, segment)
  {
    ByteOrderIndependence(pseudo + segment);
    ChecksumConcat(pseudo, segment);
  }

  // ----- a sender that follows RFC 793

  const CHECKSUM_FIELD := 16

  /** Fill the checksum field as the RFC says: the complement of the network-order sum, most significant byte first. */
  function Checksummed(pseudo: seq<byte>, segment: seq<byte>): (s: seq<byte>)
    requires |segment| >= 20
    ensures |s| == |segment|
  {
    var c := BE16(0xFFFF - OnesAdd(OnesSum(NetWords(pseudo)), OnesSum(NetWords(segment))));
    segment[CHECKSUM_FIELD := c[0]][CHECKSUM_FIELD + 1 := c[1]]
  }

  lemma SwapComplement(w: uint16)
    ensures BE16(0xFFFF - Swap16(w)) == LE16(0xFFFF - w)
  {
    var h: int, l: int := w / 0x100, w % 0x100;
    assert 0xFFFF - Swap16(w) == 0x100 * (0xFF - l) + (0xFF - h);
    assert 0xFFFF - w == 0x100 * (0xFF - h) + (0xFF - l);
  }

  /** What such a sender produces from a segment with a zeroed checksum field is reported as correct. */
  lemma SenderIsVerified(pseudo: seq<byte>, segment: seq<byte>)
    requires |pseudo| % 2 == 0 && |segment| >= 20
    requires segment[CHECKSUM_FIELD] == 0 && segment[CHECKSUM_FIELD + 1] == 0
    ensures Verifies(pseudo, Checksummed(pseudo, segment))
  {
    hide OnesSum, OnesAdd, Words, NetWords, Accepts, Verifies;
    var b, k := pseudo + segment, |pseudo| + CHECKSUM_FIELD;
    ChecksumConcat(pseudo, segment);
    ByteOrderIndependence(b);
    SwapComplement(OnesSum(Words(b)));
    StampAccepted(b, k);
    assert Stamp(b, k) == pseudo + Checksummed(pseudo, segment);
    AcceptsIffVerifies(pseudo, Checksummed(pseudo, segment));
  }

  /** One aligned 16-bit word of a verified segment changed: still reported correct exactly in these cases. */
  lemma WordChangeVerified(pseudo: seq<byte>, segment: seq<byte>, k: nat, lo: byte, hi: byte)
    requires |pseudo| % 2 == 0 && k % 2 == 0 && k + 1 < |segment| && Verifies(pseudo, segment)
    ensures var changed := segment[k := lo][k + 1 := hi];
      Verifies(pseudo, changed) <==>
        SameClass(segment[k], segment[k + 1], lo, hi) && !(AllZero(pseudo) && AllZero(changed))
  {
    hide OnesSum, OnesAdd, Words, NetWords, Accepts, Verifies, SameClass;
    var changed := segment[k := lo][k + 1 := hi];
    var b, j := pseudo + segment, |pseudo| + k;
    AcceptsIffVerifies(pseudo, segment);
    AcceptsIffVerifies(pseudo, changed);
    WordChangeAccepted(b, j, lo, hi);
    assert b[j := lo][j + 1 := hi] == pseudo + changed;
    AllZeroConcat(pseudo, changed);
  }

  // ----- frames put together from their fields

  /** An Ethernet frame that carries a TCP segment over IP, field by field; padding is what follows the packet. */
  datatype Frame = Frame(
    ethernet: seq<byte>,
    version: byte,
    headerWords: byte,
    service: byte,
    identification: seq<byte>,
    ttl: byte,
    protocol: byte,
    ipChecksum: seq<byte>,
    source: seq<byte>,
    dest: seq<byte>,
    options: seq<byte>,
    segment: seq<byte>,
    padding: seq<byte>)

  /** The fields' sizes: identification is taken with the fragment word, options fill the header's 4-byte words. */
  predicate FrameOk(f: Frame) {
    && |f.ethernet| == 14 && f.version < 0x10 && |f.identification| == 4 && |f.ipChecksum| == 2
    && |f.source| == 4 && |f.dest| == 4
    && 5 <= f.headerWords < 0x10 && |f.options| == 4 * f.headerWords - 20
    && 20 <= |f.segment| && |f.segment| + 4 * f.headerWords <= 0xFFFF
  }

  function OnWire(f: Frame): seq<byte>
    requires FrameOk(f)
  {
    f.ethernet
    + [0x10 * f.version + f.headerWords, f.service] + BE16(4 * f.headerWords + |f.segment|)
    + f.identification + [f.ttl, f.protocol] + f.ipChecksum
    + f.source + f.dest + f.options + f.segment + f.padding
  }

  /** The pseudo-header of section 3.1 of RFC 793: addresses, zero, protocol, TCP length. */
  function RfcPseudo(f: Frame): seq<byte>
    requires FrameOk(f)
  {
    f.source + f.dest + [0, f.protocol] + BE16(|f.segment|)
  }

  lemma HeaderLengths(f: Frame)
    requires FrameOk(f)
    ensures var pkt := OnWire(f);
      && |pkt| >= 34 + 4 * f.headerWords
      && IpHeaderLen(pkt) == 4 * f.headerWords && TcpLen(pkt) == |f.segment|
  {
    var pkt := OnWire(f);
    assert pkt[14] == 0x10 * f.version + f.headerWords;
    assert pkt[16..18] == BE16(4 * f.headerWords + |f.segment|);
  }

  /** The program finds the pseudo-header and the segment of every such frame. */
  lemma FindsParts(f: Frame)
    requires FrameOk(f)
    ensures Captured(OnWire(f)) && PseudoHeader(OnWire(f)) == RfcPseudo(f) && Segment(OnWire(f)) == f.segment
  {
    var pkt, start := OnWire(f), 14 + 4 * f.headerWords;
    HeaderLengths(f);
    assert pkt[start..start + |f.segment|] == f.segment;
    assert pkt[26..30] == f.source && pkt[30..34] == f.dest && pkt[23] == f.protocol;
  }

  /** What TCP_checksum reports about a frame. */
  predicate ReportedCorrect(pkt: seq<byte>)
    requires Captured(pkt)
  {
    Verifies(PseudoHeader(pkt), Segment(pkt))
  }

  /** A frame whose segment was filled as RFC 793 says is reported as correct. */
  lemma FrameIsVerified(f: Frame, segment: seq<byte>)
    requires FrameOk(f.(segment := segment))
    requires segment[CHECKSUM_FIELD] == 0 && segment[CHECKSUM_FIELD + 1] == 0
    ensures var g := f.(segment := segment);
      var sent := f.(segment := Checksummed(RfcPseudo(g), segment));
      FrameOk(sent) && Captured(OnWire(sent)) && ReportedCorrect(OnWire(sent))
  {
    hide OnWire, Checksummed, Verifies, PseudoHeader, Segment, Captured;
    var g := f.(segment := segment);
    var sent := f.(segment := Checksummed(RfcPseudo(g), segment));
    FindsParts(sent);
    assert RfcPseudo(sent) == RfcPseudo(g);
    SenderIsVerified(RfcPseudo(g), segment);
  }

  /** One aligned word of the segment of a correct packet changed on the way: still correct exactly in these cases. */
  lemma PacketWordChange(pkt: seq<byte>, k: nat, lo: byte, hi: byte)
    requires Captured(pkt) && ReportedCorrect(pkt) && IpHeaderLen(pkt) >= 20
    requires k % 2 == 0 && k + 1 < TcpLen(pkt)
    ensures var at := IP_HEADER + IpHeaderLen(pkt) + k;
      var changed := pkt[at := lo][at + 1 := hi];
      Captured(changed) && (ReportedCorrect(changed) <==> SameClass(pkt[at], pkt[at + 1], lo, hi))
  {
    hide Verifies, SameClass, AllZero, BE16, FromBE16;
    var start := IP_HEADER + IpHeaderLen(pkt);
    var changed := pkt[start + k := lo][start + k + 1 := hi];
    assert changed[..start] == pkt[..start];
    SameHeader(pkt, changed, start);
    assert Segment(changed) == Segment(pkt)[k := lo][k + 1 := hi];
    WordChangeVerified(PseudoHeader(pkt), Segment(pkt), k, lo, hi);
    LengthShows(pkt);
  }

  lemma SameHeader(p: seq<byte>, q: seq<byte>, start: nat)
    requires Captured(p) && |q| == |p| && 34 <= start <= |p| && q[..start] == p[..start]
    ensures Captured(q) && IpHeaderLen(q) == IpHeaderLen(p) && TcpLen(q) == TcpLen(p)
    ensures PseudoHeader(q) == PseudoHeader(p)
  {
    hide BE16, FromBE16;
    assert forall i :: 0 <= i < start ==> q[i] == q[..start][i] == p[..start][i] == p[i];
    assert q[16..18] == p[16..18];
  }

  lemma LengthShows(pkt: seq<byte>)
    requires Captured(pkt)
    ensures TcpLen(pkt) > 0 ==> !AllZero(PseudoHeader(pkt))
  {
    var pseudo, len := PseudoHeader(pkt), TcpLen(pkt);
    assert pseudo[10] == len / 0x100 && pseudo[11] == len % 0x100;
  }

  lemma AllZeroConcat(a: seq<byte>, b: seq<byte>)
    ensures AllZero(a + b) <==> AllZero(a) && AllZero(b)
  {
    assert forall i :: 0 <= i < |a| ==> a[i] == (a + b)[i];
    assert forall i :: 0 <= i < |b| ==> b[i] == (a + b)[|a| + i];
  }
}
