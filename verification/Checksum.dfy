/**
  The Internet checksum (RFC 1071) as the two engines compute it: util.c adds
  little-endian words in 32 bits, CommonMethods.java adds big-endian words in 64.
*/
module Checksum {
  import opened Words
  import opened Layout

  // ---------- sums ----------

  /** Little-endian words; an odd last byte is a low byte. */
  function LeSum(b: seq<u8>): nat {
    if |b| == 0 then 0
    else if |b| == 1 then b[0]
    else b[0] + 256 * b[1] + LeSum(b[2..])
  }

  /** Big-endian words; an odd last byte is a high byte (getsum). */
  function BeSum(b: seq<u8>): nat {
    if |b| == 0 then 0
    else if |b| == 1 then 256 * b[0]
    else 256 * b[0] + b[1] + BeSum(b[2..])
  }

  /** The end-around carry, repeated until 16 bits are left. */
  function Fold(s: nat): u16 {
    if s < 0x1_0000 then s else Fold(s % 0x1_0000 + s / 0x1_0000)
  }

  /** calc_checksum: the running sum is a 32-bit word. */
  function CalcChecksum(start: u16, b: seq<u8>): u16 {
    Fold(Mod32(start + LeSum(b)))
  }

  function Swap16(x: u16): u16 {
    x % 256 * 256 + x / 256
  }

  // ---------- one's complement arithmetic ----------

  /** How many times 0xFFFF the carries removed. */
  function Carried(s: nat): nat {
    if s < 0x1_0000 then 0 else s / 0x1_0000 + Carried(s % 0x1_0000 + s / 0x1_0000)
  }

  /** Folding keeps the value modulo 0xFFFF, and only zero folds to zero. */
  lemma {:induction false} FoldResidue(s: nat)
    ensures Fold(s) + 0xFFFF * Carried(s) == s
    ensures Fold(s) == 0 <==> s == 0
  {
    if s < 0x1_0000 {
    } else {
      FoldResidue(s % 0x1_0000 + s / 0x1_0000);
    }
  }

  /** Equal modulo 0xFFFF, and zero together: the same folded value. */
  lemma FoldUnique(x: u16, y: u16, k: int)
    requires x - y == 0xFFFF * k && (x == 0 <==> y == 0)
    ensures x == y
  {
  }

  lemma FoldCongruent(s: nat, t: nat, k: int)
    requires s - t == 0xFFFF * k && (s == 0 <==> t == 0)
    ensures Fold(s) == Fold(t)
  {
    FoldResidue(s);
    FoldResidue(t);
    FoldUnique(Fold(s), Fold(t), k - Carried(s) + Carried(t));
  }

  /** A partial sum may be folded before the rest is added. */
  lemma FoldPartial(s: nat, t: nat)
    ensures Fold(Fold(s) + t) == Fold(s + t)
  {
    FoldResidue(s);
    FoldCongruent(s + t, Fold(s) + t, Carried(s));
  }

  // ---------- size ----------

  lemma {:induction false} LeSumBound(b: seq<u8>)
    ensures LeSum(b) <= 0xFFFF * ((|b| + 1) / 2)
  {
    if |b| <= 1 {
    } else {
      LeSumBound(b[2..]);
    }
  }

  /** Up to 2^17 bytes, more than any IP packet, nothing leaves the 32-bit sum. */
  lemma NoOverflow(start: u16, b: seq<u8>)
    requires |b| <= 0x2_0000
    ensures start + LeSum(b) < 0x1_0000_0000
    ensures CalcChecksum(start, b) == Fold(start + LeSum(b))
  {
    hide Fold, LeSum;
    LeSumBound(b);
    assert (|b| + 1) / 2 <= 0x1_0000;
  }

  // ---------- byte order ----------

  /** The sum of the high bytes. */
  function HighSum(b: seq<u8>): nat {
    if |b| == 0 then 0
    else if |b| == 1 then b[0]
    else b[0] + HighSum(b[2..])
  }

  lemma {:induction false} OrdersCongruent(b: seq<u8>)
    ensures 256 * BeSum(b) == LeSum(b) + 0xFFFF * HighSum(b)
    ensures BeSum(b) == 0 <==> LeSum(b) == 0
  {
    if |b| <= 1 {
    } else {
      OrdersCongruent(b[2..]);
    }
  }

  /** Reading the same bytes in the other order swaps the folded sum (section 2(B) of RFC 1071). */
  lemma FoldedOrdersSwap(b: seq<u8>)
    ensures Fold(LeSum(b)) == Swap16(Fold(BeSum(b)))
  {
    var x: int := Fold(BeSum(b));
    OrdersCongruent(b);
    FoldResidue(BeSum(b));
    FoldResidue(LeSum(b));
    assert 256 * x == Swap16(x) + 0xFFFF * (x / 256);
    FoldUnique(Fold(LeSum(b)), Swap16(x), 256 * Carried(BeSum(b)) - HighSum(b) - Carried(LeSum(b)) + x / 256);
  }

  /** A wrapped sum folds to another value: the dropped carries count. */
  lemma WrapChangesFold(s: nat)
    requires s < 0x8000 * 0x1_0000_0000
    ensures Fold(Mod32(s)) == Fold(s) <==> s < 0x1_0000_0000
  {
    if s >= 0x1_0000_0000 {
      var j := s / 0x1_0000_0000;
      assert s == Mod32(s) + j * 0x1_0000_0000 && 0 < j < 0x8000;
      FoldResidue(s);
      FoldResidue(Mod32(s));
      var k := Carried(s) - Carried(Mod32(s)) - 0x1_0001 * j;
      assert Fold(Mod32(s)) == Fold(s) ==> j == 0xFFFF * k;
      NotMultiple(j, k);
    }
  }

  lemma NotMultiple(j: int, k: int)
    requires 0 < j < 0xFFFF
    ensures j != 0xFFFF * k
  {
  }

  /**
    Byte-order independence: for every byte sequence up to 4 GB, even or odd,
    the C checksum is the byte swap of the folded Java sum exactly when the
    little-endian sum fits 32 bits.
  */
  lemma ByteOrderIndependent(b: seq<u8>)
    requires |b| <= 0x1_0000_0000
    ensures CalcChecksum(0, b) == Swap16(Fold(BeSum(b))) <==> LeSum(b) < 0x1_0000_0000
  {
    LeSumBound(b);
    FoldedOrdersSwap(b);
    WrapChangesFold(LeSum(b));
  }

  // ---------- chaining ----------

  lemma {:induction false} LeSumConcat(a: seq<u8>, b: seq<u8>)
    requires |a| % 2 == 0
    ensures LeSum(a + b) == LeSum(a) + LeSum(b)
  {
    if a == [] {
      assert a + b == b;
    } else {
      assert (a + b)[2..] == a[2..] + b;
      LeSumConcat(a[2..], b);
    }
  }

  lemma {:induction false} BeSumConcat(a: seq<u8>, b: seq<u8>)
    requires |a| % 2 == 0
    ensures BeSum(a + b) == BeSum(a) + BeSum(b)
  {
    if a == [] {
      assert a + b == b;
    } else {
      assert (a + b)[2..] == a[2..] + b;
      BeSumConcat(a[2..], b);
    }
  }

  /** Two successive calls, the first over an even number of bytes, equal one call over both. */
  lemma ChainedChecksum(start: u16, a: seq<u8>, b: seq<u8>)
    requires |a| % 2 == 0 && |a| + |b| <= 0x2_0000
    ensures CalcChecksum(CalcChecksum(start, a), b) == CalcChecksum(start, a + b)
  {
    NoOverflow(start, a);
    NoOverflow(CalcChecksum(start, a), b);
    NoOverflow(start, a + b);
    LeSumConcat(a, b);
    FoldPartial(start + LeSum(a), LeSum(b));
  }

  /** With an odd first part chaining fails: the second part is read at the wrong parity. */
  lemma OddChainDiffers()
    ensures CalcChecksum(CalcChecksum(0, [0]), [1]) != CalcChecksum(0, [0] + [1])
  {
    assert [0] + [1] == [0, 1];
    assert LeSum([0, 1]) == 256;
    assert LeSum([0]) == 0 && LeSum([1]) == 1;
  }

  // ---------- the check field ----------

  function PutLe(b: seq<u8>, i: nat, v: u16): seq<u8>
    requires i + 1 < |b|
  {
    b[i := v % 256][i + 1 := v / 256]
  }

  lemma {:induction false} LeSumPut(b: seq<u8>, i: nat, v: u16)
    requires i % 2 == 0 && i + 1 < |b| && b[i] == 0 && b[i + 1] == 0
    ensures LeSum(PutLe(b, i, v)) == LeSum(b) + v
  {
    if i == 0 {
      assert PutLe(b, i, v)[2..] == b[2..];
    } else {
      assert PutLe(b, i, v)[2..] == PutLe(b[2..], i - 2, v);
      LeSumPut(b[2..], i - 2, v);
    }
  }

  lemma {:induction false} BeSumPut(b: seq<u8>, i: nat, v: u16)
    requires i % 2 == 0 && i + 1 < |b| && b[i] == 0 && b[i + 1] == 0
    ensures BeSum(PutBe(b, i, v)) == BeSum(b) + v
  {
    if i == 0 {
      assert PutBe(b, i, v)[2..] == b[2..];
    } else {
      assert PutBe(b, i, v)[2..] == PutBe(b[2..], i - 2, v);
      BeSumPut(b[2..], i - 2, v);
    }
  }

  /** A sum plus the complement of its fold is a non-zero multiple of 0xFFFF. */
  lemma ComplementFolds(s: nat)
    ensures Fold(s + (0xFFFF - Fold(s))) == 0xFFFF
  {
    FoldResidue(s);
    FoldCongruent(s + (0xFFFF - Fold(s)), 0xFFFF, Carried(s));
  }

  /** Storing the complement in the zeroed field makes the whole fold to 0xFFFF, in either engine. */
  lemma StoredChecksumVerifies(b: seq<u8>, i: nat)
    requires i % 2 == 0 && i + 1 < |b| <= 0x2_0000 && b[i] == 0 && b[i + 1] == 0
    ensures CalcChecksum(0, PutLe(b, i, 0xFFFF - CalcChecksum(0, b))) == 0xFFFF
    ensures Fold(BeSum(PutBe(b, i, 0xFFFF - Fold(BeSum(b))))) == 0xFFFF
  {
    NoOverflow(0, b);
    LeSumPut(b, i, 0xFFFF - CalcChecksum(0, b));
    ComplementFolds(LeSum(b));
    NoOverflow(0, PutLe(b, i, 0xFFFF - CalcChecksum(0, b)));
    BeSumPut(b, i, 0xFFFF - Fold(BeSum(b)));
    ComplementFolds(BeSum(b));
  }

  // ---------- the loops ----------

  /** The second loop of calc_checksum. */
  method FoldLoop(start: u32) returns (r: u16)
    ensures r == Fold(start)
  {
    var sum: u32 := start;
    while sum / 0x1_0000 > 0
      invariant Fold(sum) == Fold(start)
      decreases sum
    {
      sum := sum % 0x1_0000 + sum / 0x1_0000;
    }
    r := sum;
  }

  /** calc_checksum. */
  method CalcChecksumLoop(start: u16, buffer: seq<u8>) returns (r: u16)
    ensures r == CalcChecksum(start, buffer)
  {
    hide Fold;
    var sum: u32 := start;
    var p := 0;
    var len := |buffer|;
    while len > 1
      invariant 0 <= p && 0 <= len && p + len == |buffer|
      invariant Mod32(sum + LeSum(buffer[p..])) == Mod32(start + LeSum(buffer))
    {
      var lo: int, hi: int := buffer[p], buffer[p + 1];
      var word := lo + 256 * hi;
      assert buffer[p..][2..] == buffer[p + 2..];
      ModAdd(sum + word, LeSum(buffer[p + 2..]));
      sum := Mod32(sum + word);
      p := p + 2;
      len := len - 2;
    }
    if len > 0 {
      assert buffer[p..] == [buffer[p]];
      sum := Mod32(sum + buffer[p]);
    } else {
      assert buffer[p..] == [];
    }
    r := FoldLoop(sum);
  }

  /** getsum: the words of buf[offset..offset + len]. */
  method GetSum(buf: array<u8>, offset: nat, length: nat) returns (sum: nat)
    requires offset + length <= buf.Length
    ensures sum == BeSum(buf[offset..offset + length])
  {
    var p, len := offset, length;
    sum := 0;
    while len > 1
      invariant 0 <= len && p + len == offset + length && offset <= p
      invariant sum + BeSum(buf[p..offset + length]) == BeSum(buf[offset..offset + length])
    {
      assert buf[p..offset + length][2..] == buf[p + 2..offset + length];
      var hi: int, lo: int := buf[p], buf[p + 1];
      sum := sum + (256 * hi + lo);
      p := p + 2;
      len := len - 2;
    }
    if len > 0 {
      assert buf[p..offset + length] == [buf[p]];
      var hi: int := buf[p];
      sum := sum + hi * 256;
    }
  }

  /** checksum: add, fold, complement. */
  method ChecksumLoop(sum0: nat, buf: array<u8>, offset: nat, length: nat) returns (r: u16)
    requires offset + length <= buf.Length
    ensures r == 0xFFFF - Fold(sum0 + BeSum(buf[offset..offset + length]))
  {
    var more := GetSum(buf, offset, length);
    var sum: nat := sum0 + more;
    while sum / 0x1_0000 > 0
      invariant Fold(sum) == Fold(sum0 + BeSum(buf[offset..offset + length]))
      decreases sum
    {
      sum := sum % 0x1_0000 + sum / 0x1_0000;
    }
    r := 0xFFFF - sum;
  }

  /**
    The checksum of write_tcp: chained over the pseudo header, the TCP header
    with a zero check field, the options and the data, then stored little-endian.
    The receiver's sum over all four parts folds to 0xFFFF.
  */
  method SealSegment(pseudo: seq<u8>, header: array<u8>, options: seq<u8>, data: seq<u8>)
    requires |pseudo| % 2 == 0 && header.Length == 20 && |options| % 2 == 0
    requires |pseudo| + 20 + |options| + |data| <= 0x2_0000
    modifies header
    ensures CalcChecksum(0, pseudo + header[..] + options + data) == 0xFFFF
    ensures forall i | 0 <= i < 20 && i != 16 && i != 17 :: header[i] == old(header[i])
  {
    header[16], header[17] := 0, 0;
    var csum := CalcChecksumLoop(0, pseudo);
    csum := CalcChecksumLoop(csum, header[..]);
    csum := CalcChecksumLoop(csum, options);
    csum := CalcChecksumLoop(csum, data);
    ghost var zeroed := header[..];
    ghost var whole := pseudo + zeroed + options + data;
    ChainedChecksum(0, pseudo, zeroed);
    ChainedChecksum(0, pseudo + zeroed, options);
    ChainedChecksum(0, pseudo + zeroed + options, data);
    StoredChecksumVerifies(whole, |pseudo| + 16);
    var check := 0xFFFF - csum;
    header[16], header[17] := check % 256, check / 256;
    assert header[..] == PutLe(zeroed, 16, check);
    assert pseudo + header[..] + options + data == PutLe(whole, |pseudo| + 16, check);
  }
}
