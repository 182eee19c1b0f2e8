/** The index of Chinese networks in ChinaIpMaskManager.java. */
module IpMask {
  import opened Words
  import opened Layout

  /** A Java int. */
  datatype Word = Word(bits: bv32)

  const ZERO := Word(0)

  function And(a: Word, b: Word): Word {
    Word(a.bits & b.bits)
  }

  /** One line of the list. */
  datatype Record = Record(network: Word, mask: Word)

  /** ChinaIpMaskDict, and the keys of MaskDict. */
  datatype Index = Index(networks: map<Word, Word>, masks: set<Word>)

  const EMPTY := Index(map[], {})

  /** The two puts for one record. */
  function Put(x: Index, r: Record): Index {
    Index(x.networks[r.network := r.mask], x.masks + {r.mask})
  }

  function Load(x: Index, rs: seq<Record>): Index
    decreases |rs|
  {
    if rs == [] then x else Put(Load(x, rs[..|rs| - 1]), rs[|rs| - 1])
  }

  /** SparseIntArray.get: 0 for a missing key. */
  function Get(m: map<Word, Word>, k: Word): Word {
    if k in m then m[k] else ZERO
  }

  /** One round of isIPInChina. */
  predicate Hit(x: Index, ip: Word, mask: Word) {
    Get(x.networks, And(ip, mask)) == mask
  }

  predicate InChina(x: Index, ip: Word) {
    exists mask | mask in x.masks :: Hit(x, ip, mask)
  }

  // ---------- the plain scan ----------

  /** Record i is the last one for its network. */
  predicate IsLast(rs: seq<Record>, i: nat)
    requires i < |rs|
  {
    forall j | i < j < |rs| :: rs[j].network != rs[i].network
  }

  predicate Covers(r: Record, ip: Word) {
    And(ip, r.mask) == r.network
  }

  /** Some network, taken with the last mask listed for it, covers the address. */
  predicate Listed(rs: seq<Record>, ip: Word) {
    exists i | 0 <= i < |rs| :: IsLast(rs, i) && Covers(rs[i], ip)
  }

  /** Some record has this network. */
  predicate Names(rs: seq<Record>, network: Word) {
    exists i | 0 <= i < |rs| :: rs[i].network == network
  }

  predicate Masks(rs: seq<Record>, mask: Word) {
    exists i | 0 <= i < |rs| :: rs[i].mask == mask
  }

  // ---------- what loading keeps ----------

  lemma {:induction false} MasksLoaded(rs: seq<Record>, mask: Word)
    ensures mask in Load(EMPTY, rs).masks <==> Masks(rs, mask)
  {
    if rs == [] {
    } else {
      var n := |rs| - 1;
      MasksLoaded(rs[..n], mask);
      if Masks(rs[..n], mask) {
        var i :| 0 <= i < n && rs[..n][i].mask == mask;
        assert rs[i].mask == mask;
      }
      if Masks(rs, mask) && mask != rs[n].mask {
        var i :| 0 <= i < |rs| && rs[i].mask == mask;
        assert rs[..n][i].mask == mask;
      }
    }
  }

  lemma {:induction false} NetworksLoaded(rs: seq<Record>, network: Word)
    ensures network in Load(EMPTY, rs).networks <==> Names(rs, network)
  {
    if rs == [] {
    } else {
      var n := |rs| - 1;
      NetworksLoaded(rs[..n], network);
      if Names(rs[..n], network) {
        var i :| 0 <= i < n && rs[..n][i].network == network;
        assert rs[i].network == network;
      }
      if Names(rs, network) && network != rs[n].network {
        var i :| 0 <= i < |rs| && rs[i].network == network;
        assert rs[..n][i].network == network;
      }
    }
  }

  lemma PutKeepsOther(x: Index, r: Record, network: Word)
    requires network in x.networks && network != r.network
    ensures network in Put(x, r).networks && Put(x, r).networks[network] == x.networks[network]
  {}

  /** The mask kept for a network is that of its last record. */
  lemma {:induction false} LastMaskLoaded(rs: seq<Record>, i: nat)
    requires i < |rs| && IsLast(rs, i)
    ensures rs[i].network in Load(EMPTY, rs).networks
    ensures Load(EMPTY, rs).networks[rs[i].network] == rs[i].mask
  {
    var n := |rs| - 1;
    if i == n {
    } else {
      assert rs[..n][i] == rs[i] && forall j | i < j < n :: rs[..n][j] == rs[j];
      LastMaskLoaded(rs[..n], i);
      PutKeepsOther(Load(EMPTY, rs[..n]), rs[n], rs[i].network);
    }
  }

  /** Every network named has a last record. */
  lemma {:induction false} LastExists(rs: seq<Record>, network: Word) returns (i: nat)
    requires Names(rs, network)
    ensures i < |rs| && rs[i].network == network && IsLast(rs, i)
  {
    var n := |rs| - 1;
    if rs[n].network == network {
      i := n;
    } else {
      var k :| 0 <= k < |rs| && rs[k].network == network;
      assert rs[..n][k].network == network;
      i := LastExists(rs[..n], network);
      assert forall j | i < j < n :: rs[..n][j] == rs[j];
    }
  }

  // ---------- the main results ----------

  /**
    For every list of records: the index answers as the plain scan does, except that a
    mask 0 with no record for network 0 makes every address match.
  */
  lemma IndexAgreesWithScan(rs: seq<Record>, ip: Word)
    ensures InChina(Load(EMPTY, rs), ip) <==> Listed(rs, ip) || (Masks(rs, ZERO) && !Names(rs, ZERO))
  {
    if InChina(Load(EMPTY, rs), ip) {
      var mask :| mask in Load(EMPTY, rs).masks && Hit(Load(EMPTY, rs), ip, mask);
      HitIsListed(rs, ip, mask);
    }
    if Listed(rs, ip) {
      ListedIsHit(rs, ip);
    }
    if Masks(rs, ZERO) && !Names(rs, ZERO) {
      ZeroMaskHits(rs, ip);
    }
  }

  lemma ListedIsHit(rs: seq<Record>, ip: Word)
    requires Listed(rs, ip)
    ensures InChina(Load(EMPTY, rs), ip)
  {
    var i :| 0 <= i < |rs| && IsLast(rs, i) && Covers(rs[i], ip);
    LastMaskLoaded(rs, i);
    MasksLoaded(rs, rs[i].mask);
    assert Hit(Load(EMPTY, rs), ip, rs[i].mask);
  }

  lemma ZeroMaskHits(rs: seq<Record>, ip: Word)
    requires Masks(rs, ZERO) && !Names(rs, ZERO)
    ensures InChina(Load(EMPTY, rs), ip)
  {
    MasksLoaded(rs, ZERO);
    NetworksLoaded(rs, ZERO);
    assert And(ip, ZERO) == ZERO;
    assert Hit(Load(EMPTY, rs), ip, ZERO);
  }

  lemma HitIsListed(rs: seq<Record>, ip: Word, mask: Word)
    requires var x := Load(EMPTY, rs); mask in x.masks && Hit(x, ip, mask)
    ensures Listed(rs, ip) || (Masks(rs, ZERO) && !Names(rs, ZERO))
  {
    var network := And(ip, mask);
    NetworksLoaded(rs, network);
    MasksLoaded(rs, mask);
    if Names(rs, network) {
      var i := LastExists(rs, network);
      LastMaskLoaded(rs, i);
      assert Covers(rs[i], ip);
    } else {
      assert mask == ZERO;
      assert And(ip, ZERO) == ZERO;
    }
  }

  /** Lists without a zero mask, such as the shipped one, are answered exactly. */
  lemma NonZeroMasksAreExact(rs: seq<Record>, ip: Word)
    requires forall r | r in rs :: r.mask != ZERO
    ensures InChina(Load(EMPTY, rs), ip) <==> Listed(rs, ip)
  {
    IndexAgreesWithScan(rs, ip);
    assert !Masks(rs, ZERO);
  }

  /** A mask that no network carries any more never changes an answer, unless it is 0. */
  lemma StaleMaskIsHarmless(x: Index, stale: Word, ip: Word)
    requires stale != ZERO && forall n | n in x.networks :: x.networks[n] != stale
    ensures InChina(Index(x.networks, x.masks + {stale}), ip) <==> InChina(x, ip)
  {
    var y := Index(x.networks, x.masks + {stale});
    if InChina(x, ip) {
      var mask :| mask in x.masks && Hit(x, ip, mask);
      assert Hit(y, ip, mask);
    }
    if InChina(y, ip) {
      var mask :| mask in y.masks && Hit(y, ip, mask);
      assert mask != stale;
      assert Hit(x, ip, mask);
    }
  }

  // ---------- reading the file ----------

  const BUFFER_SIZE := 4096

  /** readInt. */
  function ReadInt(b: seq<u8>, i: nat): Word
    requires i + 4 <= |b|
  {
    Word(Be32(b, i) as bv32)
  }

  function RecordAt(b: seq<u8>, i: nat): Record
    requires i + 8 <= |b|
  {
    Record(ReadInt(b, i), ReadInt(b, i + 4))
  }

  /** The records the loop over a buffer sees when count bytes were read: the last may reach beyond them. */
  function RecordsIn(b: seq<u8>, count: nat): (rs: seq<Record>)
    requires count <= |b| && |b| % 8 == 0
    ensures |rs| == (count + 7) / 8 && forall i | 0 <= i < |rs| :: rs[i] == RecordAt(b, 8 * i)
  {
    seq((count + 7) / 8, i requires 0 <= i < (count + 7) / 8 => RecordAt(b, 8 * i))
  }

  function Blank(): (b: seq<u8>)
    ensures |b| == BUFFER_SIZE && forall i | 0 <= i < |b| :: b[i] == 0
  {
    seq(BUFFER_SIZE, _ => 0)
  }

  /** The buffer after a read. */
  function Overlay(buffer: seq<u8>, data: seq<u8>): (b: seq<u8>)
    requires |data| <= |buffer|
    ensures |b| == |buffer|
  {
    data + buffer[|data|..]
  }

  /** What a stream hands out, read by read. */
  predicate Portions(portions: seq<seq<u8>>) {
    forall r | r in portions :: 0 < |r| <= BUFFER_SIZE
  }

  /** No read ends inside a record. */
  predicate WholeRecords(portions: seq<seq<u8>>) {
    forall r | r in portions :: |r| % 8 == 0
  }

  lemma PortionsTail(portions: seq<seq<u8>>)
    requires Portions(portions) && portions != []
    ensures 0 < |portions[0]| <= BUFFER_SIZE && Portions(portions[1..])
    ensures WholeRecords(portions) ==> |portions[0]| % 8 == 0 && WholeRecords(portions[1..])
  {
    assert forall r | r in portions[1..] :: r in portions;
  }

  function LoadReads(x: Index, buffer: seq<u8>, portions: seq<seq<u8>>): Index
    requires |buffer| == BUFFER_SIZE && Portions(portions)
    decreases |portions|
  {
    if portions == [] then x
    else
      PortionsTail(portions);
      var b := Overlay(buffer, portions[0]);
      LoadReads(Load(x, RecordsIn(b, |portions[0]|)), b, portions[1..])
  }

  function Joined(portions: seq<seq<u8>>): seq<u8> {
    if portions == [] then [] else portions[0] + Joined(portions[1..])
  }

  lemma {:induction false} LoadInTurn(x: Index, a: seq<Record>, b: seq<Record>)
    ensures Load(Load(x, a), b) == Load(x, a + b)
    decreases |b|
  {
    if b == [] {
      assert a + b == a;
    } else {
      var n := |b| - 1;
      LoadInTurn(x, a, b[..n]);
      assert (a + b)[..|a + b| - 1] == a + b[..n] && (a + b)[|a + b| - 1] == b[n];
    }
  }

  /** A record depends on its own eight bytes. */
  lemma SameRecord(a: seq<u8>, i: nat, b: seq<u8>, j: nat)
    requires i + 8 <= |a| && j + 8 <= |b| && a[i..i + 8] == b[j..j + 8]
    ensures RecordAt(a, i) == RecordAt(b, j)
  {
    assert a[i..i + 8][..4] == a[i..i + 4] && b[j..j + 8][..4] == b[j..j + 4];
    assert a[i..i + 8][4..] == a[i + 4..i + 8] && b[j..j + 8][4..] == b[j + 4..j + 8];
    SameInt(a, i, b, j);
    SameInt(a, i + 4, b, j + 4);
  }

  lemma SameInt(a: seq<u8>, i: nat, b: seq<u8>, j: nat)
    requires i + 4 <= |a| && j + 4 <= |b| && a[i..i + 4] == b[j..j + 4]
    ensures ReadInt(a, i) == ReadInt(b, j)
  {
    IntOfSlice(a, i);
    IntOfSlice(b, j);
    hide ReadInt;
  }

  lemma IntOfSlice(a: seq<u8>, i: nat)
    requires i + 4 <= |a|
    ensures ReadInt(a, i) == ReadInt(a[i..i + 4], 0)
  {
    assert Be32(a, i) == Be32(a[i..i + 4], 0);
    hide Be32;
  }

  /** Whole records in a buffer are the records of the bytes read. */
  lemma RecordsOfRead(buffer: seq<u8>, data: seq<u8>)
    requires |data| <= |buffer| && |buffer| % 8 == 0 && |data| % 8 == 0
    ensures RecordsIn(Overlay(buffer, data), |data|) == RecordsIn(data, |data|)
  {
    hide RecordAt;
    forall i | 0 <= i < |data| / 8
      ensures RecordAt(Overlay(buffer, data), 8 * i) == RecordAt(data, 8 * i)
    {
      SameRecord(Overlay(buffer, data), 8 * i, data, 8 * i);
    }
  }

  lemma RecordsJoin(a: seq<u8>, b: seq<u8>)
    requires |a| % 8 == 0 && |b| % 8 == 0
    ensures RecordsIn(a + b, |a + b|) == RecordsIn(a, |a|) + RecordsIn(b, |b|)
  {
    hide RecordAt;
    forall i | 0 <= i < |a + b| / 8
      ensures RecordAt(a + b, 8 * i) == if i < |a| / 8 then RecordAt(a, 8 * i) else RecordAt(b, 8 * (i - |a| / 8))
    {
      if i < |a| / 8 {
        SameRecord(a + b, 8 * i, a, 8 * i);
      } else {
        SameRecord(a + b, 8 * i, b, 8 * (i - |a| / 8));
      }
    }
  }

  lemma LoadSplit(x: Index, a: seq<u8>, b: seq<u8>)
    requires |a| % 8 == 0 && |b| % 8 == 0
    ensures |a + b| % 8 == 0
    ensures Load(Load(x, RecordsIn(a, |a|)), RecordsIn(b, |b|)) == Load(x, RecordsIn(a + b, |a + b|))
  {
    hide Load, RecordAt;
    RecordsJoin(a, b);
    LoadInTurn(x, RecordsIn(a, |a|), RecordsIn(b, |b|));
  }

  function Unsigned(w: Word): u32 {
    w.bits as int
  }

  /** A record of the file: network and mask, most significant byte first. */
  function EncodeRecord(r: Record): (b: seq<u8>)
    ensures |b| == 8
  {
    Bytes32(Unsigned(r.network)) + Bytes32(Unsigned(r.mask))
  }

  function EncodeAll(rs: seq<Record>): (b: seq<u8>)
    ensures |b| == 8 * |rs|
  {
    if rs == [] then [] else EncodeRecord(rs[0]) + EncodeAll(rs[1..])
  }

  lemma ReadsWord(b: seq<u8>, i: nat, w: Word)
    requires At(b, i, Bytes32(Unsigned(w)))
    ensures i + 4 <= |b| && ReadInt(b, i) == w
  {
    AtInt(b, i, Unsigned(w));
    hide Be32;
  }

  lemma ReadsRecord(r: Record)
    ensures RecordsIn(EncodeRecord(r), 8) == [r]
  {
    var b := EncodeRecord(r);
    AtSplit(b, 0, Bytes32(Unsigned(r.network)), Bytes32(Unsigned(r.mask)));
    ReadsWord(b, 0, r.network);
    ReadsWord(b, 4, r.mask);
    hide ReadInt, Bytes32, Unsigned;
  }

  /** The records read from an encoded list are that list. */
  lemma {:induction false} ReadsAll(rs: seq<Record>)
    ensures RecordsIn(EncodeAll(rs), 8 * |rs|) == rs
    decreases |rs|
  {
    hide RecordsIn, EncodeRecord;
    if rs == [] {
    } else {
      ReadsRecord(rs[0]);
      ReadsAll(rs[1..]);
      RecordsJoin(EncodeRecord(rs[0]), EncodeAll(rs[1..]));
    }
  }

  /**
    A list written to a file and read in whole records answers for exactly the
    addresses that the scan of the list finds, if no mask is 0.
  */
  lemma FileAnswersExactly(rs: seq<Record>, portions: seq<seq<u8>>, ip: Word)
    requires Portions(portions) && WholeRecords(portions) && Joined(portions) == EncodeAll(rs)
    requires forall r | r in rs :: r.mask != ZERO
    ensures InChina(LoadReads(EMPTY, Blank(), portions), ip) <==> Listed(rs, ip)
  {
    WholeReadsLoadFile(EMPTY, Blank(), portions);
    ReadsAll(rs);
    NonZeroMasksAreExact(rs, ip);
    hide InChina, Listed, LoadReads, Load, RecordsIn, Joined, EncodeAll;
  }

  /** When no read ends inside a record, the records loaded are those of the file, however it was cut. */
  lemma {:induction false} WholeReadsLoadFile(x: Index, buffer: seq<u8>, portions: seq<seq<u8>>)
    requires |buffer| == BUFFER_SIZE && Portions(portions) && WholeRecords(portions)
    ensures |Joined(portions)| % 8 == 0
    ensures LoadReads(x, buffer, portions) == Load(x, RecordsIn(Joined(portions), |Joined(portions)|))
    decreases |portions|
  {
    hide RecordAt, Load, RecordsIn, Overlay, Portions, WholeRecords;
    if portions == [] {
      NoRecords(x);
    } else {
      PortionsTail(portions);
      var b := Overlay(buffer, portions[0]);
      RecordsOfRead(buffer, portions[0]);
      WholeReadsLoadFile(Load(x, RecordsIn(portions[0], |portions[0]|)), b, portions[1..]);
      LoadSplit(x, portions[0], Joined(portions[1..]));
    }
  }

  lemma NoRecords(x: Index)
    ensures Load(x, RecordsIn([], 0)) == x
  {}

  /** A single record that arrives in two portions of four bytes makes every address match. */
  lemma CutRecordMatchesAll(network: seq<u8>, mask: seq<u8>, ip: Word)
    requires |network| == 4 && |mask| == 4
    ensures InChina(LoadReads(EMPTY, Blank(), [network, mask]), ip)
  {
    var b1 := Overlay(Blank(), network);
    var b2 := Overlay(b1, mask);
    BlankMask(b1);
    BlankMask(b2);
    var r1, r2 := RecordAt(b1, 0), RecordAt(b2, 0);
    hide RecordAt, ReadInt;
    assert RecordsIn(b1, 4) == [r1] && RecordsIn(b2, 4) == [r2];
    var x1, x2 := Load(EMPTY, [r1]), Load(Load(EMPTY, [r1]), [r2]);
    assert [network, mask][1..] == [mask] && [mask][1..] == [];
    assert LoadReads(EMPTY, Blank(), [network, mask]) == LoadReads(x1, b1, [mask]) == LoadReads(x2, b2, []) == x2;
    OneRecord(EMPTY, r1);
    OneRecord(x1, r2);
    assert And(ip, ZERO) == ZERO;
    assert Hit(x2, ip, ZERO);
  }

  lemma BlankMask(b: seq<u8>)
    requires |b| >= 8 && b[4] == b[5] == b[6] == b[7] == 0
    ensures RecordAt(b, 0).mask == ZERO
  {}

  lemma OneRecord(x: Index, r: Record)
    ensures Load(x, [r]) == Put(x, r)
  {
    assert [r][..0] == [];
  }

  // ---------- the code ----------

  class Manager {
    var networks: map<Word, Word>
    var maskKeys: seq<Word>

    constructor ()
      ensures Contents() == EMPTY
    {
      networks, maskKeys := map[], [];
    }

    ghost function Contents(): Index
      reads this
    {
      Index(networks, set m | m in maskKeys)
    }

    method IsIpInChina(ip: Word) returns (found: bool)
      ensures found <==> InChina(Contents(), ip)
    {
      found := false;
      var i := 0;
      while i < |maskKeys|
        invariant 0 <= i <= |maskKeys|
        invariant forall k | 0 <= k < i :: !Hit(Contents(), ip, maskKeys[k])
      {
        var mask := maskKeys[i];
        var networkIp := And(ip, mask);
        var mask2 := if networkIp in networks then networks[networkIp] else ZERO;
        if mask2 == mask {
          assert mask in Contents().masks && Hit(Contents(), ip, mask);
          return true;
        }
        i := i + 1;
      }
    }

    /** The file, in the portions the stream hands out; an exception ends the loop early. */
    method LoadFromFile(portions: seq<seq<u8>>)
      requires Portions(portions)
      modifies this
      ensures Contents() == LoadReads(old(Contents()), Blank(), portions)
    {
      hide RecordAt, Load, Put;
      var buffer := new u8[BUFFER_SIZE](_ => 0);
      assert buffer[..] == Blank();
      var k := 0;
      while k < |portions|
        invariant 0 <= k <= |portions| && buffer.Length == BUFFER_SIZE && fresh(buffer)
        invariant LoadReads(old(Contents()), Blank(), portions) == LoadReads(Contents(), buffer[..], portions[k..])
      {
        var count := |portions[k]|;
        ghost var before := buffer[..];
        forall i | 0 <= i < count {
          buffer[i] := portions[k][i];
        }
        assert buffer[..] == Overlay(before, portions[k]);
        assert portions[k..][0] == portions[k] && portions[k..][1..] == portions[k + 1..];
        LoadPortion(buffer, count);
        k := k + 1;
      }
    }

    /** The records in the first count bytes of the buffer. */
    method LoadPortion(buffer: array<u8>, count: nat)
      requires count <= buffer.Length == BUFFER_SIZE
      modifies this
      ensures Contents() == Load(old(Contents()), RecordsIn(buffer[..], count))
    {
      hide RecordAt, Put;
      ghost var rs := RecordsIn(buffer[..], count);
      var i := 0;
      while i < count
        invariant i % 8 == 0 && i / 8 <= |rs| && (i < count ==> i / 8 < |rs|) && (i >= count ==> i / 8 == |rs|)
        invariant Contents() == Load(old(Contents()), rs[..i / 8])
      {
        PutRecord(RecordAt(buffer[..], i));
        assert rs[..i / 8 + 1][..i / 8] == rs[..i / 8] && rs[i / 8] == RecordAt(buffer[..], i);
        i := i + 8;
      }
      assert rs[..i / 8] == rs;
    }

    method PutRecord(r: Record)
      modifies this
      ensures Contents() == Put(old(Contents()), r)
    {
      networks := networks[r.network := r.mask];
      if r.mask !in maskKeys {
        maskKeys := maskKeys + [r.mask];
      }
    }
  }
}
