/** The Internet checksum: the accumulate-and-fold loop against 16-bit ones'-complement addition. */
module Checksum {
  import opened Bytes

  /** Ones'-complement addition of 16-bit words: a carry out of the top is added back in. */
  function OnesAdd(a: uint16, b: uint16): uint16 {
    if a + b <= 0xFFFF then a + b else a + b - 0xFFFF
  }

  function OnesSum(ws: seq<uint16>): uint16 {
    if ws == [] then 0 else OnesAdd(OnesSum(ws[..|ws| - 1]), ws[|ws| - 1])
  }

  /** The 16-bit words a little-endian machine reads from a buffer; an odd last byte is padded with zero. */
  function Words(b: seq<byte>): (ws: seq<uint16>)
    ensures |ws| == (|b| + 1) / 2
  {
    seq((|b| + 1) / 2, i requires 0 <= i < (|b| + 1) / 2 =>
      Word(b[2 * i], if 2 * i + 1 < |b| then b[2 * i + 1] else 0))
  }

  /** The same words read in network byte order. */
  function NetWords(b: seq<byte>): (ws: seq<uint16>)
    ensures |ws| == (|b| + 1) / 2
  {
    seq((|b| + 1) / 2, i requires 0 <= i < (|b| + 1) / 2 =>
      Word(if 2 * i + 1 < |b| then b[2 * i + 1] else 0, b[2 * i]))
  }

  /** What the checksum field must hold for the data b. */
  function Cksum(b: seq<byte>): uint16 {
    0xFFFF - OnesSum(Words(b))
  }

  /** A receiver accepts b when its checksum, taken over the checksum field as well, is zero. */
  predicate Accepts(b: seq<byte>) {
    Cksum(b) == 0
  }

  // ----- the integer sum behind the ones'-complement sum

  /** What a value at byte position i contributes to the word it belongs to. */
  function Scaled(i: nat, v: int): int {
    if i % 2 == 0 then v else 0x100 * v
  }

  /** The plain integer sum of the words of b, byte by byte. */
  function WordSum(b: seq<byte>): nat {
    if b == [] then 0 else WordSum(b[..|b| - 1]) + Scaled(|b| - 1, b[|b| - 1])
  }

  function Total(ws: seq<uint16>): nat {
    if ws == [] then 0 else Total(ws[..|ws| - 1]) + ws[|ws| - 1]
  }

  /** The representative of s modulo 65535 among 0..65535 that keeps 0 for s == 0 only. */
  function Residue(s: nat): uint16 {
    if s == 0 then 0 else (s - 1) % 0xFFFF + 1
  }

  lemma ResidueShift(s: nat, k: nat)
    requires s > 0
    ensures Residue(s + 0xFFFF * k) == Residue(s)
  {
    assert (s - 1 + 0xFFFF * k) % 0xFFFF == (s - 1) % 0xFFFF;
  }

  lemma ResidueStep(s: nat, w: uint16)
    ensures OnesAdd(Residue(s), w) == Residue(s + w)
  {
  }

  lemma {:induction false} OnesSumIsResidue(ws: seq<uint16>)
    ensures OnesSum(ws) == Residue(Total(ws))
  {
    if ws == [] {
    } else {
      OnesSumIsResidue(ws[..|ws| - 1]);
      ResidueStep(Total(ws[..|ws| - 1]), ws[|ws| - 1]);
    }
  }

  lemma TotalSnoc(ws: seq<uint16>, w: uint16)
    ensures Total(ws + [w]) == Total(ws) + w
  {
    assert (ws + [w])[..|ws|] == ws;
  }

  lemma WordsSnoc(b: seq<byte>)
    requires b != []
    ensures |b| % 2 == 1 ==> Words(b) == Words(b[..|b| - 1]) + [b[|b| - 1]]
    ensures |b| % 2 == 0 ==> Words(b) == Words(b[..|b| - 2]) + [Word(b[|b| - 2], b[|b| - 1])]
  {
  }

  lemma TotalWords(b: seq<byte>)
    ensures Total(Words(b)) ==
            if b == [] then 0
            else if |b| % 2 == 1 then Total(Words(b[..|b| - 1])) + b[|b| - 1]
            else Total(Words(b[..|b| - 2])) + Word(b[|b| - 2], b[|b| - 1])
  {
    if b != [] {
      hide Words, Total, Word;
      WordsSnoc(b);
      if |b| % 2 == 1 {
        TotalSnoc(Words(b[..|b| - 1]), b[|b| - 1]);
      } else {
        TotalSnoc(Words(b[..|b| - 2]), Word(b[|b| - 2], b[|b| - 1]));
      }
    }
  }

  lemma {:induction false} WordSumIsTotal(b: seq<byte>)
    ensures WordSum(b) == Total(Words(b))
  {
    hide Words, Total, Word;
    TotalWords(b);
    if b == [] {
    } else if |b| % 2 == 1 {
      WordSumIsTotal(b[..|b| - 1]);
    } else {
      WordSumIsTotal(b[..|b| - 2]);
      WordSumTwo(b, |b| - 2);
      assert b[..|b|] == b;
    }
  }

  lemma CksumIsResidue(b: seq<byte>)
    ensures Cksum(b) == 0xFFFF - Residue(WordSum(b))
  {
    hide Words, OnesSum, Total, Residue, WordSum;
    WordSumIsTotal(b);
    OnesSumIsResidue(Words(b));
  }

  lemma FullResidue(s: nat)
    ensures Residue(s) == 0xFFFF <==> s > 0 && s % 0xFFFF == 0
  {
  }

  /** Acceptance in terms of the integer sum: positive and divisible by 65535. */
  lemma AcceptsIff(b: seq<byte>)
    ensures Accepts(b) <==> WordSum(b) > 0 && WordSum(b) % 0xFFFF == 0
  {
    hide Cksum, Residue, WordSum;
    FullResidue(WordSum(b));
    CksumIsResidue(b);
  }

  // ----- the loop

  lemma {:induction false} WordSumBound(b: seq<byte>)
    ensures WordSum(b) <= 0xFFFF * ((|b| + 1) / 2)
  {
    if |b| == 0 {
    } else if |b| % 2 == 1 {
      WordSumBound(b[..|b| - 1]);
    } else {
      var a := b[..|b| - 1];
      assert a[..|a| - 1] == b[..|b| - 2];
      WordSumBound(b[..|b| - 2]);
    }
  }

  /** 32768 words cannot overflow the accumulator. */
  lemma AccumulatorFits(b: seq<byte>)
    requires |b| <= 0x1_0000
    ensures WordSum(b) <= 0x7FFF_FFFF
  {
    WordSumBound(b);
  }

  lemma WordSumTwo(b: seq<byte>, k: nat)
    requires k + 2 <= |b| && k % 2 == 0
    ensures WordSum(b[..k + 2]) == WordSum(b[..k]) + Word(b[k], b[k + 1])
  {
    assert b[..k + 2][..k + 1] == b[..k + 1];
    assert b[..k + 1][..k] == b[..k];
  }

  lemma {:induction false} WordSumMonotone(b: seq<byte>, k: nat)
    requires k <= |b|
    ensures WordSum(b[..k]) <= WordSum(b)
    decreases |b| - k
  {
    if k == |b| {
      assert b[..k] == b;
    } else {
      WordSumMonotone(b, k + 1);
      assert b[..k + 1][..k] == b[..k];
    }
  }

  function Fold(s: nat): nat {
    s / 0x1_0000 + s % 0x1_0000
  }

  /** One fold plus the carry, complemented and cut to 16 bits, is the complement of the residue. */
  lemma TwoFolds(s: nat)
    requires s <= 0x7FFF_FFFF
    ensures var f := Fold(s);
            (-(f + f / 0x1_0000) - 1) % 0x1_0000 == 0xFFFF - Residue(s)
  {
    var f, h := Fold(s), s / 0x1_0000;
    if s > 0 {
      ResidueShift(f, h);
    }
    SmallFold(f);
  }

  lemma SmallFold(f: nat)
    requires f <= 0x1_7FFE
    ensures (-(f + f / 0x1_0000) - 1) % 0x1_0000 == 0xFFFF - Residue(f)
  {
    assert Residue(f) == if f <= 0xFFFF then f else f - 0xFFFF;
    var c := f / 0x1_0000;
    assert c == if f <= 0xFFFF then 0 else 1;
    if c == 0 {
      assert -(f + c) - 1 == (0xFFFF - f) - 0x1_0000;
    } else {
      assert -(f + c) - 1 == (0x1_FFFE - f) - 0x2_0000;
    }
  }

  /**
   * The checksum routine: sum the 16-bit words of addr[..len], mop up an odd byte, fold twice, complement.
   * The sum is a C int, so it must stay below 2^31; AccumulatorFits gives that for up to 65536 bytes.
   */
  method InCksum(addr: array<byte>, len: nat) returns (answer: uint16)
    requires len <= addr.Length
    requires WordSum(addr[..len]) <= 0x7FFF_FFFF
    ensures answer == Cksum(addr[..len])
  {
    ghost var b := addr[..len];
    var sum: int32 := 0;
    var w := 0;
    var nleft := len;
    while nleft > 1
      invariant 0 <= nleft && w + nleft == len && w % 2 == 0
      invariant sum as int == WordSum(b[..w])
    {
      WordSumTwo(b, w);
      WordSumMonotone(b, w + 2);
      sum := sum + Word(addr[w], addr[w + 1]) as int32;
      w := w + 2;
      nleft := nleft - 2;
    }
    if nleft == 1 {
      sum := sum + addr[w] as int32;
    } else {
      assert b[..w] == b;
    }
    CksumIsResidue(b);
    answer := FoldAndComplement(sum);
  }

  /** Add the high half to the low half, add the carry of that, complement, and keep 16 bits. */
  method FoldAndComplement(total: int32) returns (answer: uint16)
    requires total >= 0
    ensures answer == 0xFFFF - Residue(total as int)
  {
    TwoFolds(total as int);
    var sum := total / 0x1_0000 + total % 0x1_0000;
    sum := sum + sum / 0x1_0000;
    answer := (-(sum as int) - 1) % 0x1_0000;
  }

  // ----- what a change of the data does to the sum

  lemma {:induction false} WordSumUpdate(b: seq<byte>, k: nat, v: byte)
    requires k < |b|
    ensures WordSum(b[k := v]) == WordSum(b) + Scaled(k, v as int - b[k] as int)
    decreases |b|
  {
    var n := |b| - 1;
    if k == n {
      assert b[k := v][..n] == b[..n];
    } else {
      WordSumUpdate(b[..n], k, v);
      assert b[k := v][..n] == b[..n][k := v];
    }
  }

  function FlipAt(b: seq<byte>, k: nat): (c: seq<byte>)
    requires k < |b|
    ensures |c| == |b|
  {
    b[k := Complement(b[k])]
  }

  predicate AllZero(b: seq<byte>) {
    forall i :: 0 <= i < |b| ==> b[i] == 0
  }

  lemma {:induction false} WordSumZero(b: seq<byte>)
    ensures WordSum(b) == 0 <==> AllZero(b)
  {
    if b == [] {
    } else {
      var n := |b| - 1;
      WordSumZero(b[..n]);
      if AllZero(b) {
        assert AllZero(b[..n]);
      } else if AllZero(b[..n]) {
        assert b[n] != 0;
      }
    }
  }

  /** How complementing the byte v at position i moves the word sum. */
  function FlipDelta(i: nat, v: byte): int {
    Scaled(i, 0xFF - 2 * (v as int))
  }

  lemma FlipSum(b: seq<byte>, k: nat)
    requires k < |b|
    ensures WordSum(FlipAt(b, k)) == WordSum(b) + FlipDelta(k, b[k])
  {
    WordSumUpdate(b, k, Complement(b[k]));
  }

  predicate Multiple(n: int) {
    n % 0xFFFF == 0
  }

  lemma MultipleShift(s: int, d: int)
    requires Multiple(s)
    ensures Multiple(s + d) <==> Multiple(d)
  {
  }

  lemma SmallMultiple(d: int)
    requires -0x1_FFFE < d < 0x1_FFFE
    ensures Multiple(d) <==> d == 0 || d == 0xFFFF || d == -0xFFFF
  {
  }

  /** An accepted buffer whose word sum moves by d is accepted again exactly when d is a multiple of 65535. */
  lemma AcceptsAfter(b: seq<byte>, c: seq<byte>, d: int)
    requires Accepts(b) && WordSum(c) == WordSum(b) + d
    ensures Accepts(c) <==> Multiple(d) && !AllZero(c)
  {
    AcceptsIff(b);
    AcceptsIff(c);
    WordSumZero(c);
    MultipleShift(WordSum(b), d);
  }

  /** Complementing any one byte of an accepted buffer is always detected. */
  lemma SingleFlipDetected(b: seq<byte>, k: nat)
    requires k < |b| && Accepts(b)
    ensures !Accepts(FlipAt(b, k))
  {
    var d := FlipDelta(k, b[k]);
    FlipSum(b, k);
    AcceptsAfter(b, FlipAt(b, k), d);
    SmallMultiple(d);
  }

  lemma FlipCommutes(b: seq<byte>, i: nat, j: nat)
    requires i < |b| && j < |b| && i != j
    ensures FlipAt(FlipAt(b, i), j) == FlipAt(FlipAt(b, j), i)
  {
  }

  /** Two different complemented bytes escape detection exactly in these cases. */
  predicate FlipsCancel(b: seq<byte>, i: nat, j: nat)
    requires i < |b| && j < |b|
  {
    if i % 2 == j % 2 then b[i] as int + b[j] as int == 0xFF
    else b[i] == b[j] && (b[i] == 0 || b[i] == 0xFF)
  }

  lemma DoubleFlipEscapes(b: seq<byte>, i: nat, j: nat)
    requires i < |b| && j < |b| && i != j && Accepts(b)
    ensures Accepts(FlipAt(FlipAt(b, i), j))
       <==> FlipsCancel(b, i, j) && !AllZero(FlipAt(FlipAt(b, i), j))
  {
    if i % 2 == 1 && j % 2 == 0 {
      FlipCommutes(b, i, j);
      DoubleFlipSum(b, j, i);
    } else {
      DoubleFlipSum(b, i, j);
    }
  }

  lemma DoubleFlipSum(b: seq<byte>, i: nat, j: nat)
    requires i < |b| && j < |b| && i != j && Accepts(b)
    requires i % 2 == 0 || j % 2 == 1
    ensures Accepts(FlipAt(FlipAt(b, i), j))
       <==> FlipsCancel(b, i, j) && !AllZero(FlipAt(FlipAt(b, i), j))
  {
    TwoFlipSum(b, i, j);
    AcceptsAfter(b, FlipAt(FlipAt(b, i), j), FlipDelta(i, b[i]) + FlipDelta(j, b[j]));
    if i % 2 == j % 2 {
      PairSum(i, j, b[i], b[j]);
    } else {
      MixedSum(i, j, b[i], b[j]);
    }
  }

  lemma TwoFlipSum(b: seq<byte>, i: nat, j: nat)
    requires i < |b| && j < |b| && i != j
    ensures WordSum(FlipAt(FlipAt(b, i), j))
         == WordSum(b) + (FlipDelta(i, b[i]) + FlipDelta(j, b[j]))
  {
    FlipSum(b, i);
    FlipSum(FlipAt(b, i), j);
  }

  lemma PairSum(i: nat, j: nat, p: byte, q: byte)
    requires i % 2 == j % 2
    ensures Multiple(FlipDelta(i, p) + FlipDelta(j, q)) <==> p as int + q as int == 0xFF
  {
    SmallMultiple(FlipDelta(i, p) + FlipDelta(j, q));
  }

  lemma MixedSum(i: nat, j: nat, p: byte, q: byte)
    requires i % 2 == 0 && j % 2 == 1
    ensures Multiple(FlipDelta(i, p) + FlipDelta(j, q)) <==> p == q && (p == 0 || p == 0xFF)
  {
    SmallMultiple(FlipDelta(i, p) + FlipDelta(j, q));
  }

  /** Two 16-bit words look alike to the checksum when they are equal, or are the two zeros 0x0000 and 0xFFFF. */
  predicate SameClass(a: byte, b: byte, lo: byte, hi: byte) {
    (a == lo && b == hi) || (a == b == 0 && lo == hi == 0xFF) || (a == b == 0xFF && lo == hi == 0)
  }

  lemma SameClassIff(a: byte, b: byte, lo: byte, hi: byte)
    ensures SameClass(a, b, lo, hi) <==> Multiple(Word(lo, hi) - Word(a, b))
  {
    SmallMultiple(Word(lo, hi) - Word(a, b));
  }

  /** Exact detection power for one aligned word of an accepted buffer. */
  lemma WordChangeAccepted(b: seq<byte>, k: nat, lo: byte, hi: byte)
    requires k % 2 == 0 && k + 1 < |b| && Accepts(b)
    ensures Accepts(b[k := lo][k + 1 := hi])
       <==> SameClass(b[k], b[k + 1], lo, hi) && !AllZero(b[k := lo][k + 1 := hi])
  {
    hide WordSum, Accepts, Multiple, AllZero;
    var u: int, v: int := Word(b[k], b[k + 1]), Word(lo, hi);
    WordSumUpdate(b, k, lo);
    WordSumUpdate(b[k := lo], k + 1, hi);
    AcceptsAfter(b, b[k := lo][k + 1 := hi], v - u);
    SameClassIff(b[k], b[k + 1], lo, hi);
  }

  // ----- byte order and concatenation

  function Swap16(w: uint16): uint16 {
    0x100 * (w % 0x100) + w / 0x100
  }

  lemma SwapIsShift(w: uint16)
    ensures Swap16(w) == Residue(0x100 * w)
  {
    var h: int, l: int := w / 0x100, w % 0x100;
    assert 0x100 * w == (0x100 * l + h) + 0xFFFF * h;
    if w > 0 {
      ResidueShift(0x100 * l + h, h);
    }
  }

  lemma ResidueAdds(s: nat, t: nat)
    ensures OnesAdd(Residue(s), Residue(t)) == Residue(s + t)
  {
    ResidueStep(s, Residue(t));
  }

  lemma SwapAdds(x: uint16, y: uint16)
    ensures Swap16(OnesAdd(x, y)) == OnesAdd(Swap16(x), Swap16(y))
  {
    SwapIsShift(x);
    SwapIsShift(y);
    SwapIsShift(OnesAdd(x, y));
    ResidueAdds(0x100 * x, 0x100 * y);
    var z: int := OnesAdd(x, y);
    if x + y > 0xFFFF {
      ResidueShift(0x100 * z, 0x100);
    }
  }

  lemma {:induction false} SwapSum(ws: seq<uint16>, ns: seq<uint16>)
    requires |ws| == |ns|
    requires forall i :: 0 <= i < |ws| ==> ns[i] == Swap16(ws[i])
    ensures OnesSum(ns) == Swap16(OnesSum(ws))
  {
    if ws == [] {
    } else {
      var n := |ws| - 1;
      SwapSum(ws[..n], ns[..n]);
      SwapAdds(OnesSum(ws[..n]), ws[n]);
    }
  }

  lemma WordParts(lo: byte, hi: byte)
    ensures Word(lo, hi) % 0x100 == lo && Word(lo, hi) / 0x100 == hi
  {
  }

  lemma SwapAllOnes(w: uint16)
    ensures Swap16(w) == 0xFFFF <==> w == 0xFFFF
  {
  }

  /** Summing in the other byte order gives the byte-swapped sum, so it accepts the same buffers. */
  lemma ByteOrderIndependence(b: seq<byte>)
    ensures OnesSum(NetWords(b)) == Swap16(OnesSum(Words(b)))
    ensures Accepts(b) <==> OnesSum(NetWords(b)) == 0xFFFF
  {
    hide OnesSum;
    forall i | 0 <= i < |Words(b)|
      ensures NetWords(b)[i] == Swap16(Words(b)[i])
    {
      WordParts(b[2 * i], if 2 * i + 1 < |b| then b[2 * i + 1] else 0);
    }
    SwapSum(Words(b), NetWords(b));
    SwapAllOnes(OnesSum(Words(b)));
  }

  lemma OnesAddAssociates(a: uint16, b: uint16, c: uint16)
    ensures OnesAdd(OnesAdd(a, b), c) == OnesAdd(a, OnesAdd(b, c))
  {
  }

  /** Sums of parts combine; Words splits over a concatenation whose first part is even. */
  lemma {:induction false} OnesSumConcat(xs: seq<uint16>, ys: seq<uint16>)
    ensures OnesSum(xs + ys) == OnesAdd(OnesSum(xs), OnesSum(ys))
    decreases |ys|
  {
    if ys == [] {
      assert xs + ys == xs;
    } else {
      var n := |ys| - 1;
      OnesSumConcat(xs, ys[..n]);
      assert (xs + ys)[..|xs + ys| - 1] == xs + ys[..n];
      OnesAddAssociates(OnesSum(xs), OnesSum(ys[..n]), ys[n]);
    }
  }

  lemma WordsConcat(a: seq<byte>, b: seq<byte>)
    requires |a| % 2 == 0
    ensures Words(a + b) == Words(a) + Words(b)
    ensures NetWords(a + b) == NetWords(a) + NetWords(b)
  {
    hide Word;
    var h := |a| / 2;
    forall i | 0 <= i < |Words(a + b)|
      ensures Words(a + b)[i] == (Words(a) + Words(b))[i]
      ensures NetWords(a + b)[i] == (NetWords(a) + NetWords(b))[i]
    {
      if i < h {
        assert (a + b)[2 * i] == a[2 * i] && (a + b)[2 * i + 1] == a[2 * i + 1];
      } else {
        assert (a + b)[2 * i] == b[2 * (i - h)];
        assert 2 * i + 1 < |a + b| ==> (a + b)[2 * i + 1] == b[2 * (i - h) + 1];
      }
    }
  }

  lemma ChecksumConcat(a: seq<byte>, b: seq<byte>)
    requires |a| % 2 == 0
    ensures OnesSum(Words(a + b)) == OnesAdd(OnesSum(Words(a)), OnesSum(Words(b)))
    ensures OnesSum(NetWords(a + b)) == OnesAdd(OnesSum(NetWords(a)), OnesSum(NetWords(b)))
  {
    WordsConcat(a, b);
    OnesSumConcat(Words(a), Words(b));
    OnesSumConcat(NetWords(a), NetWords(b));
  }
}
