/** Bytes, machine words and the two byte orders that the programs move between. */
module Bytes {

  type byte = x: int | 0 <= x < 0x100
  type uint16 = x: int | 0 <= x < 0x1_0000
  type uint32 = x: int | 0 <= x < 0x1_0000_0000

  /** The C type that accumulates checksums; arithmetic outside its range does not verify. */
  newtype int32 = x: int | -0x8000_0000 <= x < 0x8000_0000

  datatype Option<+T> = None | Some(value: T)

  function Min(a: int, b: int): int {
    if a <= b then a else b
  }

  /** The 16-bit value with the given low and high bytes. */
  function Word(lo: byte, hi: byte): uint16 {
    lo as int + 0x100 * (hi as int)
  }

  /** Network byte order, most significant byte first (htons). */
  function BE16(n: uint16): (s: seq<byte>)
    ensures |s| == 2
  {
    [n / 0x100, n % 0x100]
  }

  function FromBE16(s: seq<byte>): uint16
    requires |s| == 2
  {
    Word(s[1], s[0])
  }

  /** Host byte order of a little-endian machine: how a 16-bit word sits in memory. */
  function LE16(n: uint16): (s: seq<byte>)
    ensures |s| == 2
  {
    [n % 0x100, n / 0x100]
  }

  /** Network byte order of a 32-bit word (htonl). */
  function BE32(n: uint32): (s: seq<byte>)
    ensures |s| == 4
  {
    var high, low := n / 0x1_0000, n % 0x1_0000;
    [high / 0x100, high % 0x100, low / 0x100, low % 0x100]
  }

  /** A 32-bit word as it sits in memory. */
  function LE32(n: uint32): (s: seq<byte>)
    ensures |s| == 4
  {
    var high, low := n / 0x1_0000, n % 0x1_0000;
    [low % 0x100, low / 0x100, high % 0x100, high / 0x100]
  }

  /** Host order is network order turned round. */
  lemma HostOrder(n: uint32)
    ensures LE32(n) == [BE32(n)[3], BE32(n)[2], BE32(n)[1], BE32(n)[0]]
  {
  }

  /** Network order: most significant byte first. */
  lemma NetworkOrder(a: byte, b: byte, c: byte, d: byte)
    ensures BE32(0x100_0000 * a as int + 0x1_0000 * b as int + 0x100 * c as int + d as int) == [a, b, c, d]
    ensures BE16(0x100 * a as int + b as int) == [a, b]
  {
    var n: int := 0x100_0000 * a as int + 0x1_0000 * b as int + 0x100 * c as int + d as int;
    assert n / 0x1_0000 == 0x100 * a as int + b as int && n % 0x1_0000 == 0x100 * c as int + d as int;
  }

  function FromBE32(s: seq<byte>): uint32
    requires |s| == 4
  {
    0x100_0000 * s[0] as int + 0x1_0000 * s[1] as int + 0x100 * s[2] as int + s[3] as int
  }

  lemma BE32RoundTrip(n: uint32)
    ensures FromBE32(BE32(n)) == n
  {
    var high, low := n / 0x1_0000, n % 0x1_0000;
    assert high == 0x100 * (high / 0x100) + high % 0x100 && low == 0x100 * (low / 0x100) + low % 0x100;
  }

  /** One byte exclusive-or 0xFF: the corruption that the error library injects. */
  function Complement(b: byte): byte {
    0xFF - b
  }

  lemma ComplementIsXor(v: bv8)
    ensures Complement(v as int) == (v ^ 0xFF) as int
  {
    assert v ^ 0xFF == 0xFF - v;
  }

  /** memcpy. */
  method Memcpy(dst: array<byte>, at: nat, src: seq<byte>)
    requires at + |src| <= dst.Length
    modifies dst
    ensures forall i :: 0 <= i < |src| ==> dst[at + i] == src[i]
    ensures forall i :: 0 <= i < dst.Length && !(at <= i < at + |src|) ==> dst[i] == old(dst[i])
  {
    forall i | 0 <= i < |src| {
      dst[at + i] := src[i];
    }
  }
}
