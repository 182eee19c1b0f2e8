/** Byte fields at positions of a message: what the parsers read and the encoders write. */
module Layout {
  import opened Words

  /** A 16-bit field in network order: readShort of CommonMethods.java. */
  function Be16(d: seq<u8>, i: nat): u16
    requires i + 1 < |d|
  {
    var hi: int, lo: int := d[i], d[i + 1];
    256 * hi + lo
  }

  /** The two bytes of a 16-bit field. */
  function Bytes16(n: nat): seq<u8>
    requires n < 0x1_0000
  {
    [n / 256, n % 256]
  }

  /** s stands in d at position i. */
  predicate At(d: seq<u8>, i: nat, s: seq<u8>) {
    i + |s| <= |d| && forall k | 0 <= k < |s| :: d[i + k] == s[k]
  }

  lemma AtSplit(d: seq<u8>, i: nat, a: seq<u8>, b: seq<u8>)
    requires At(d, i, a + b)
    ensures At(d, i, a) && At(d, i + |a|, b)
  {
    forall k | 0 <= k < |a|
      ensures d[i + k] == a[k]
    {
      assert (a + b)[k] == a[k];
    }
    forall k | 0 <= k < |b|
      ensures d[i + |a| + k] == b[k]
    {
      assert (a + b)[|a| + k] == b[k];
    }
  }

  lemma AtIndex(d: seq<u8>, i: nat, s: seq<u8>, k: nat)
    requires At(d, i, s) && k < |s|
    ensures d[i + k] == s[k]
  {}

  lemma AtSlice(d: seq<u8>, i: nat, s: seq<u8>)
    requires At(d, i, s)
    ensures d[i..i + |s|] == s
  {}

  lemma AtLength(d: seq<u8>, i: nat, n: nat)
    requires n < 0x1_0000 && At(d, i, Bytes16(n))
    ensures i + 1 < |d| && Be16(d, i) == n
  {
    AtIndex(d, i, Bytes16(n), 0);
    AtIndex(d, i, Bytes16(n), 1);
  }

  /** Storing a 16-bit field. */
  function PutBe(b: seq<u8>, i: nat, v: u16): seq<u8>
    requires i + 1 < |b|
  {
    b[i := v / 256][i + 1 := v % 256]
  }

  /** readInt, as an unsigned word. */
  function Be32(b: seq<u8>, i: nat): u32
    requires i + 3 < |b|
  {
    var hi: int, lo: int := Be16(b, i), Be16(b, i + 2);
    0x1_0000 * hi + lo
  }

  /** The four bytes of a 32-bit field. */
  function Bytes32(v: u32): seq<u8> {
    Bytes16(v / 0x1_0000) + Bytes16(v % 0x1_0000)
  }

  lemma AtInt(d: seq<u8>, i: nat, v: u32)
    requires At(d, i, Bytes32(v))
    ensures i + 3 < |d| && Be32(d, i) == v
  {
    AtSplit(d, i, Bytes16(v / 0x1_0000), Bytes16(v % 0x1_0000));
    AtLength(d, i, v / 0x1_0000);
    AtLength(d, i + 2, v % 0x1_0000);
  }

  /** writeInt. */
  function PutBe32(b: seq<u8>, i: nat, v: u32): seq<u8>
    requires i + 3 < |b|
  {
    PutBe(PutBe(b, i, v / 0x1_0000), i + 2, v % 0x1_0000)
  }

  /** Reading back what was written, and everything else unchanged. */
  lemma ShortRoundTrip(b: seq<u8>, i: nat, v: u16)
    requires i + 1 < |b|
    ensures Be16(PutBe(b, i, v), i) == v
    ensures forall k | 0 <= k < |b| && k != i && k != i + 1 :: PutBe(b, i, v)[k] == b[k]
  {
  }

  lemma IntRoundTrip(b: seq<u8>, i: nat, v: u32)
    requires i + 3 < |b|
    ensures Be32(PutBe32(b, i, v), i) == v
    ensures forall k | 0 <= k < |b| && !(i <= k < i + 4) :: PutBe32(b, i, v)[k] == b[k]
  {
    ShortRoundTrip(b, i, v / 0x1_0000);
    ShortRoundTrip(PutBe(b, i, v / 0x1_0000), i + 2, v % 0x1_0000);
  }

  /** writeShort. */
  method StoreShort(data: array<u8>, offset: nat, value: u16)
    requires offset + 1 < data.Length
    modifies data
    ensures data[..] == PutBe(old(data[..]), offset, value)
  {
    data[offset] := value / 256;
    data[offset + 1] := value % 256;
  }

  /** writeInt. */
  method StoreInt(data: array<u8>, offset: nat, value: u32)
    requires offset + 3 < data.Length
    modifies data
    ensures data[..] == PutBe32(old(data[..]), offset, value)
  {
    StoreShort(data, offset, value / 0x1_0000);
    StoreShort(data, offset + 2, value % 0x1_0000);
  }
}
