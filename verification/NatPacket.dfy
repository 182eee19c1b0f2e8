/**
  IPv4/TCP packets as LocalVpnService.java rewrites them in place: field access
  through CommonMethods, and the two checksums.
*/
module NatPacket {
  import opened Words
  import opened Layout
  import opened Checksum

  const IP_CRC := 10
  const IP_SOURCE := 12
  const IP_DESTINATION := 16
  const TCP_CRC := 16
  const TCP: u8 := 6

  /** Long enough for any header: 60 bytes of IP and 20 of TCP. */
  predicate Buffer(b: seq<u8>) {
    |b| >= 80
  }

  function HeaderLength(b: seq<u8>): (r: nat)
    requires Buffer(b)
    ensures r <= 60
  {
    b[0] % 16 * 4
  }

  function TotalLength(b: seq<u8>): u16
    requires Buffer(b)
  {
    Be16(b, 2)
  }

  function SourceIp(b: seq<u8>): u32
    requires Buffer(b)
  {
    Be32(b, IP_SOURCE)
  }

  function DestinationIp(b: seq<u8>): u32
    requires Buffer(b)
  {
    Be32(b, IP_DESTINATION)
  }

  function SourcePort(b: seq<u8>): u16
    requires Buffer(b)
  {
    Be16(b, HeaderLength(b))
  }

  function DestinationPort(b: seq<u8>): u16
    requires Buffer(b)
  {
    Be16(b, HeaderLength(b) + 2)
  }

  /** The bytes behind the TCP header, as the service computes it. */
  function DataSize(b: seq<u8>): int
    requires Buffer(b)
  {
    TotalLength(b) - HeaderLength(b) - b[HeaderLength(b) + 12] / 16 * 4
  }

  /** The fields stand where RFC 791 and RFC 793 have them, most significant byte first. */
  lemma FieldsStand(b: seq<u8>, words: nat, total: u16, src: u32, dst: u32, sport: u16, dport: u16, offset: nat)
    requires |b| >= 80 && words < 16 && b[0] % 16 == words
    requires At(b, 2, Bytes16(total)) && At(b, 12, Bytes32(src)) && At(b, 16, Bytes32(dst))
    requires At(b, 4 * words, Bytes16(sport)) && At(b, 4 * words + 2, Bytes16(dport))
    requires offset < 16 && b[4 * words + 12] / 16 == offset
    ensures TotalLength(b) == total && SourceIp(b) == src && DestinationIp(b) == dst
    ensures SourcePort(b) == sport && DestinationPort(b) == dport
    ensures DataSize(b) == total - 4 * words - 4 * offset
  {
    AtLength(b, 2, total);
    AtInt(b, 12, src);
    AtInt(b, 16, dst);
    AtLength(b, 4 * words, sport);
    AtLength(b, 4 * words + 2, dport);
  }

  /** ComputeIPChecksum. */
  function IpSealed(b: seq<u8>): (r: seq<u8>)
    requires Buffer(b)
    ensures |r| == |b|
  {
    var z := PutBe(b, IP_CRC, 0);
    PutBe(z, IP_CRC, 0xFFFF - Fold(BeSum(z[..HeaderLength(b)])))
  }

  /** The sum over addresses, protocol and length that stands for the pseudo header. */
  function PseudoSum(b: seq<u8>): int
    requires Buffer(b)
  {
    BeSum(b[IP_SOURCE..IP_SOURCE + 8]) + b[9] + (TotalLength(b) - HeaderLength(b))
  }

  /** ComputeTCPChecksum; None when the array ends before the packet does. */
  function TcpSealed(b: seq<u8>): (r: Option<seq<u8>>)
    requires Buffer(b)
    ensures r.Some? ==> |r.value| == |b|
  {
    var hl := HeaderLength(b);
    var s := IpSealed(b);
    if TotalLength(s) < hl then Some(s)
    else
      var z := PutBe(s, hl + TCP_CRC, 0);
      if TotalLength(s) > |b| then None
      else Some(PutBe(z, hl + TCP_CRC, 0xFFFF - Fold(PseudoSum(s) + BeSum(z[hl..TotalLength(s)]))))
  }

  // ---------- what a valid packet is ----------

  /** A complete IPv4 header and a complete TCP header, inside the packet. */
  predicate WellFormed(b: seq<u8>) {
    Buffer(b) && 20 <= HeaderLength(b) && HeaderLength(b) + 20 <= TotalLength(b) <= |b|
  }

  /** The 12-byte pseudo header of RFC 793. */
  function PseudoHeader(b: seq<u8>): seq<u8>
    requires WellFormed(b)
  {
    var len: u16 := TotalLength(b) - HeaderLength(b);
    b[IP_SOURCE..IP_SOURCE + 8] + [0, b[9], len / 256, len % 256]
  }

  /** Both checksums verify: header alone, and pseudo header with segment. */
  predicate ChecksumsValid(b: seq<u8>)
    requires WellFormed(b)
  {
    && Fold(BeSum(b[..HeaderLength(b)])) == 0xFFFF
    && Fold(BeSum(PseudoHeader(b) + b[HeaderLength(b)..TotalLength(b)])) == 0xFFFF
  }

  lemma PseudoHeaderSum(b: seq<u8>)
    requires WellFormed(b)
    ensures BeSum(PseudoHeader(b)) == PseudoSum(b) && |PseudoHeader(b)| == 12
  {
    var len: u16 := TotalLength(b) - HeaderLength(b);
    var tail: seq<u8> := [0, b[9], len / 256, len % 256];
    BeSumConcat(b[IP_SOURCE..IP_SOURCE + 8], tail);
    var last: seq<u8> := [len / 256, len % 256];
    assert tail[2..] == last && last[2..] == [];
    assert BeSum(last) == 256 * (len / 256) + len % 256 + BeSum(last[2..]);
    assert BeSum(tail) == 256 * 0 + b[9] + BeSum(last);
  }

  /** Sealing changes the two check fields only. */
  lemma IpSealedKeeps(b: seq<u8>)
    requires Buffer(b)
    ensures forall k | 0 <= k < |b| && k != IP_CRC && k != IP_CRC + 1 :: IpSealed(b)[k] == b[k]
    ensures HeaderLength(IpSealed(b)) == HeaderLength(b) && TotalLength(IpSealed(b)) == TotalLength(b)
  {
  }

  lemma PutInSlice(b: seq<u8>, lo: nat, hi: nat, i: nat, v: u16)
    requires lo <= i && i + 1 < hi <= |b|
    ensures PutBe(b, i, v)[lo..hi] == PutBe(b[lo..hi], i - lo, v)
  {
  }

  lemma PutOutsideSlice(b: seq<u8>, lo: nat, hi: nat, i: nat, v: u16)
    requires lo <= hi <= |b| && i + 1 < |b| && (i + 1 < lo || hi <= i)
    ensures PutBe(b, i, v)[lo..hi] == b[lo..hi]
  {
  }

  /** The stored IP checksum makes the header fold to 0xFFFF. */
  lemma IpSealValid(b: seq<u8>)
    requires WellFormed(b)
    ensures Fold(BeSum(IpSealed(b)[..HeaderLength(b)])) == 0xFFFF
  {
    var hl := HeaderLength(b);
    var z := PutBe(b, IP_CRC, 0);
    var v := 0xFFFF - Fold(BeSum(z[..hl]));
    PutInSlice(z, 0, hl, IP_CRC, v);
    BeSumPut(z[..hl], IP_CRC, v);
    ComplementFolds(BeSum(z[..hl]));
    assert z[0..hl] == z[..hl] && IpSealed(b)[0..hl] == IpSealed(b)[..hl];
  }

  /** After sealing, a well-formed packet has both checksums right and only the check fields changed. */
  lemma SealValid(b: seq<u8>)
    requires WellFormed(b)
    ensures TcpSealed(b).Some? && WellFormed(TcpSealed(b).value) && ChecksumsValid(TcpSealed(b).value)
    ensures var r := TcpSealed(b).value; var hl := HeaderLength(b);
            && HeaderLength(r) == hl && TotalLength(r) == TotalLength(b)
            && forall k | 0 <= k < |b| && k != IP_CRC && k != IP_CRC + 1
                          && k != hl + TCP_CRC && k != hl + TCP_CRC + 1 ::
                 r[k] == b[k]
  {
    var hl, total := HeaderLength(b), TotalLength(b);
    var s := IpSealed(b);
    IpSealedKeeps(b);
    IpSealValid(b);
    var z := PutBe(s, hl + TCP_CRC, 0);
    var sum := PseudoSum(s) + BeSum(z[hl..total]);
    var v := 0xFFFF - Fold(sum);
    var r := PutBe(z, hl + TCP_CRC, v);
    assert r == TcpSealed(b).value;
    PutOutsideSlice(s, 0, hl, hl + TCP_CRC, 0);
    PutOutsideSlice(z, 0, hl, hl + TCP_CRC, v);
    assert r[0..hl] == r[..hl] && s[0..hl] == s[..hl];
    PutInSlice(z, hl, total, hl + TCP_CRC, v);
    BeSumPut(z[hl..total], TCP_CRC, v);
    ComplementFolds(sum);
    SealPseudo(s, r, hl);
    PseudoHeaderSum(r);
    BeSumConcat(PseudoHeader(r), r[hl..total]);
  }

  /** The pseudo header does not see the TCP check field. */
  lemma SealPseudo(s: seq<u8>, r: seq<u8>, hl: nat)
    requires Buffer(s) && Buffer(r) && |r| == |s| && hl == HeaderLength(s) && hl >= 20
    requires forall k | 0 <= k < hl :: r[k] == s[k]
    ensures HeaderLength(r) == hl && TotalLength(r) == TotalLength(s) && PseudoSum(r) == PseudoSum(s)
  {
    assert r[IP_SOURCE..IP_SOURCE + 8] == s[IP_SOURCE..IP_SOURCE + 8];
  }
}
