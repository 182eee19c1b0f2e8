/**
  The fake-address allocator of DnsProxy.java: a hash, a probing loop and two
  maps. Java strings are sequences of UTF-16 units, addresses and hash codes are
  the unsigned reading of Java ints.
*/
module FakeIp {
  import opened Words

  type JavaString = seq<u16>

  const SPAN: int := 0x1_0000
  const FAKE_NETWORK_IP: u32 := 0xAC19_0000  // 172.25.0.0, mask 255.255.0.0

  /** String.hashCode. */
  function HashCode(s: JavaString): u32 {
    if s == [] then 0
    else
      var last: int := s[|s| - 1];
      Mod32(31 * HashCode(s[..|s| - 1]) + last)
  }

  function PowerOf31(n: nat): nat {
    if n == 0 then 1 else 31 * PowerOf31(n - 1)
  }

  /** The hash is the polynomial in 31 whose coefficients are the characters, in 32 bits. */
  function Polynomial(s: JavaString): nat {
    if s == [] then 0
    else
      var first: nat := s[0];
      first * PowerOf31(|s| - 1) + Polynomial(s[1..])
  }

  lemma {:induction false} HashIsPolynomial(s: JavaString)
    ensures HashCode(s) == Mod32(Polynomial(s))
  {
    if s == [] {
    } else {
      var n := |s| - 1;
      HashIsPolynomial(s[..n]);
      PolynomialAppend(s[..n], s[n]);
      assert s == s[..n] + [s[n]];
      var last: int := s[n];
      Mod32Times31(Polynomial(s[..n]), last);
    }
  }

  lemma Mod32Times31(p: int, c: int)
    ensures Mod32(31 * Mod32(p) + c) == Mod32(31 * p + c)
  {
    var k := p / 0x1_0000_0000;
    assert p == Mod32(p) + 0x1_0000_0000 * k;
    assert 31 * p + c == (31 * Mod32(p) + c) + 0x1_0000_0000 * (31 * k);
  }

  lemma {:induction false} PolynomialAppend(s: JavaString, c: u16)
    ensures Polynomial(s + [c]) == 31 * Polynomial(s) + c
  {
    if s == [] {
      assert [] + [c] == [c] && [c][1..] == [];
      assert PowerOf31(0) == 1;
      assert Polynomial([c]) == c * PowerOf31(0) + Polynomial([]);
    } else {
      assert (s + [c])[1..] == s[1..] + [c];
      PolynomialAppend(s[1..], c);
      var first: nat, p := s[0], PowerOf31(|s| - 1);
      assert first * (31 * p) == 31 * (first * p);
    }
  }

  /** ProxyConfig.isFakeIP: the upper half of the address is that of the network. */
  predicate IsFakeIp(ip: u32) {
    FAKE_NETWORK_IP <= ip < FAKE_NETWORK_IP + SPAN
  }

  lemma FakeIpIsUpperHalf(ip: u32)
    ensures IsFakeIp(ip) <==> ip / SPAN == FAKE_NETWORK_IP / SPAN
  {}

  /** The address tried in round k. */
  function Candidate(hash: u32, k: nat): u32 {
    FAKE_NETWORK_IP + Mod32(hash + k) % SPAN
  }

  /** IPDomainMaps and DomainIPMaps. */
  datatype Maps<D> = Maps(byIp: map<u32, D>, byDomain: map<D, u32>)

  const EMPTY: Maps<JavaString> := Maps(map[], map[])

  /** The first round from k whose address is free; SPAN when there is none. */
  function Probe<D>(used: map<u32, D>, hash: u32, k: nat): (r: nat)
    requires k <= SPAN
    ensures k <= r <= SPAN
    ensures forall j | k <= j < r :: Candidate(hash, j) in used
    ensures r < SPAN ==> Candidate(hash, r) !in used
    decreases SPAN - k
  {
    if k == SPAN || Candidate(hash, k) !in used then k else Probe(used, hash, k + 1)
  }

  /** getOrCreateFakeIP for a domain with this hash code; None is the loop that never ends. */
  function GetOrCreate<D(==)>(m: Maps<D>, domain: D, hash: u32): Option<(Maps<D>, u32)> {
    if domain in m.byDomain then Some((m, m.byDomain[domain]))
    else
      var k := Probe(m.byIp, hash, 0);
      if k == SPAN then None
      else
        var ip := Candidate(hash, k);
        Some((Maps(m.byIp[ip := domain], m.byDomain[domain := ip]), ip))
  }

  predicate Maplet<K(==), V(==)>(m: map<K, V>, k: K, v: V) {
    k in m && m[k] == v
  }

  /** The two maps are inverse to each other and hold fake addresses only. */
  ghost predicate Inverse<D(!new)>(m: Maps<D>) {
    && (forall ip, d :: Maplet(m.byIp, ip, d) <==> Maplet(m.byDomain, d, ip))
    && (forall ip | ip in m.byIp :: IsFakeIp(ip))
    && |m.byIp| == |m.byDomain|
  }

  // ---------- the probing loop ends ----------

  /** The first n addresses of the fake network. */
  ghost function Net(n: nat): (r: set<u32>)
    requires n <= SPAN
    ensures |r| == n
    ensures forall ip :: ip in r <==> FAKE_NETWORK_IP <= ip < FAKE_NETWORK_IP + n
  {
    if n == 0 then {} else Net(n - 1) + {FAKE_NETWORK_IP + (n - 1)}
  }

  lemma SubsetSize<T>(a: set<T>, b: set<T>)
    requires a <= b
    ensures |a| <= |b|
    ensures |a| == |b| ==> a == b
  {
    assert |b| == |a| + |b - a| by { assert b == a + (b - a); }
    if |a| == |b| {
      assert b - a == {};
    }
  }

  /** 65536 consecutive rounds try every address. */
  lemma EveryAddressIsTried(hash: u32, ip: u32)
    requires IsFakeIp(ip)
    ensures exists k: nat | k < SPAN :: Candidate(hash, k) == ip
  {
    var k := (ip - hash) % SPAN;
    LowHalf(hash + k);
    assert (hash + k) % SPAN == ip % SPAN by { SpanAdd(hash, ip - hash); }
    assert Candidate(hash, k) == ip;
  }

  lemma LowHalf(x: int)
    ensures Mod32(x) % SPAN == x % SPAN
  {
    var q := x / 0x1_0000_0000;
    assert x == Mod32(x) + SPAN * (SPAN * q);
    SpanPeriod(Mod32(x), SPAN * q);
  }

  lemma SpanPeriod(x: int, n: int)
    ensures (x + SPAN * n) % SPAN == x % SPAN
  {}

  lemma SpanAdd(h: int, d: int)
    ensures (h + d % SPAN) % SPAN == (h + d) % SPAN
  {
    assert d == SPAN * (d / SPAN) + d % SPAN;
    SpanPeriod(h + d % SPAN, d / SPAN);
  }

  lemma CandidateIsFake(hash: u32, k: nat)
    ensures IsFakeIp(Candidate(hash, k))
  {}

  /** The loop ends exactly when fewer than 65536 addresses are in use, and then within 65536 rounds. */
  lemma ProbeEnds<D(!new)>(m: Maps<D>, hash: u32)
    requires Inverse(m)
    ensures |m.byIp| <= SPAN
    ensures Probe(m.byIp, hash, 0) < SPAN <==> |m.byIp| < SPAN
  {
    SubsetSize(m.byIp.Keys, Net(SPAN));
    var k := Probe(m.byIp, hash, 0);
    if k < SPAN {
      CandidateIsFake(hash, k);
    } else {
      forall ip | ip in Net(SPAN)
        ensures ip in m.byIp.Keys
      {
        EveryAddressIsTried(hash, ip);
      }
      SubsetSize(Net(SPAN), m.byIp.Keys);
    }
  }

  // ---------- one call and whole runs ----------

  lemma InsertMaplet<D(!new)>(m: Maps<D>, domain: D, ip: u32, i: u32, d: D)
    requires Maplet(m.byIp, i, d) <==> Maplet(m.byDomain, d, i)
    requires domain !in m.byDomain && ip !in m.byIp
    ensures Maplet(m.byIp[ip := domain], i, d) <==> Maplet(m.byDomain[domain := ip], d, i)
  {}

  lemma InsertKeeps<D(!new)>(m: Maps<D>, domain: D, ip: u32)
    requires Inverse(m) && domain !in m.byDomain && ip !in m.byIp && IsFakeIp(ip)
    ensures Inverse(Maps(m.byIp[ip := domain], m.byDomain[domain := ip]))
  {
    hide Maplet, IsFakeIp;
    var byIp, byDomain := m.byIp[ip := domain], m.byDomain[domain := ip];
    InsertSize(m.byIp, ip, domain);
    InsertSize(m.byDomain, domain, ip);
    forall i, d
      ensures Maplet(byIp, i, d) <==> Maplet(byDomain, d, i)
    {
      InsertMaplet(m, domain, ip, i, d);
    }
  }

  lemma InsertSize<K, V>(m: map<K, V>, k: K, v: V)
    requires k !in m
    ensures |m[k := v]| == |m| + 1
  {
    assert m[k := v].Keys == m.Keys + {k};
  }

  /** Address k of the fake network, counting from the low half of the hash and around. */
  function AddressFrom(hash: u32, k: nat): int {
    0xAC19_0000 + (hash % 0x1_0000 + k) % 0x1_0000
  }

  lemma CandidateCounts(hash: u32, k: nat)
    ensures Candidate(hash, k) == AddressFrom(hash, k)
  {
    LowHalf(hash + k);
    SpanAdd(k, hash);
  }

  /** A new domain gets the first of these addresses that is free. */
  lemma FirstFree<D(!new)>(m: Maps<D>, domain: D, hash: u32) returns (k: nat)
    requires domain !in m.byDomain && GetOrCreate(m, domain, hash).Some?
    ensures GetOrCreate(m, domain, hash).value.1 == AddressFrom(hash, k) && AddressFrom(hash, k) !in m.byIp
    ensures forall j: nat | j < k :: AddressFrom(hash, j) in m.byIp
  {
    k := Probe(m.byIp, hash, 0);
    CandidateCounts(hash, k);
    forall j: nat | j < k
      ensures AddressFrom(hash, j) in m.byIp
    {
      CandidateCounts(hash, j);
      assert Candidate(hash, j) in m.byIp;
    }
  }

  /** One call answers with the domain's own address and forgets no other. */
  predicate Extends<D(==)>(m: Maps<D>, domain: D, after: Maps<D>, ip: u32) {
    && after.byDomain.Keys == m.byDomain.Keys + {domain} && after.byDomain[domain] == ip
    && forall d | d in m.byDomain :: after.byDomain[d] == m.byDomain[d]
  }

  /**
    One call keeps the maps inverse and answers with a fake address; it fails to
    return exactly when none is left for a new domain.
  */
  lemma GetKeeps<D(!new)>(m: Maps<D>, domain: D, hash: u32)
    requires Inverse(m)
    ensures GetOrCreate(m, domain, hash).None? <==> domain !in m.byDomain && |m.byIp| == SPAN
    ensures var r := GetOrCreate(m, domain, hash);
            r.Some? ==> Inverse(r.value.0) && IsFakeIp(r.value.1) && Extends(m, domain, r.value.0, r.value.1)
  {
    if domain in m.byDomain {
      assert Maplet(m.byDomain, domain, m.byDomain[domain]);
      assert Maplet(m.byIp, m.byDomain[domain], domain);
    } else {
      ProbeEnds(m, hash);
      var k := Probe(m.byIp, hash, 0);
      if k < SPAN {
        CandidateIsFake(hash, k);
        InsertKeeps(m, domain, Candidate(hash, k));
      }
    }
  }

  /** The maps after the calls for ds, as far as the loops end, and the addresses answered. */
  function Run<D(==)>(m: Maps<D>, ds: seq<D>, hash: D -> u32): (Maps<D>, seq<u32>)
    decreases |ds|
  {
    if ds == [] then (m, [])
    else
      match GetOrCreate(m, ds[0], hash(ds[0]))
      case None => (m, [])
      case Some(r) => var rest := Run(r.0, ds[1..], hash); (rest.0, [r.1] + rest.1)
  }

  ghost function Distinct<D(!new)>(ds: seq<D>): set<D> {
    set d | d in ds
  }

  lemma DistinctHead<D(!new)>(d: D, ds: seq<D>)
    ensures Distinct([d] + ds) == {d} + Distinct(ds)
  {}

  /** Answered domains are exactly the new keys, each with its fake address; old keys keep theirs. */
  predicate Answered<D(==)>(m: Maps<D>, ds: seq<D>, after: Maps<D>, ips: seq<u32>) {
    && |ips| <= |ds|
    && (forall i | 0 <= i < |ips| :: IsFakeIp(ips[i]) && ds[i] in after.byDomain && after.byDomain[ds[i]] == ips[i])
    && (forall d | d in m.byDomain :: d in after.byDomain && after.byDomain[d] == m.byDomain[d])
  }

  lemma AnsweredHead<D(!new)>(m: Maps<D>, d: D, mid: Maps<D>, ip: u32, ds: seq<D>, after: Maps<D>, ips: seq<u32>)
    requires Extends(m, d, mid, ip) && IsFakeIp(ip) && Answered(mid, ds, after, ips)
    ensures Answered(m, [d] + ds, after, [ip] + ips)
  {
    assert d in mid.byDomain;
    forall x | x in m.byDomain
      ensures x in after.byDomain && after.byDomain[x] == m.byDomain[x]
    {
      assert x in mid.byDomain.Keys;
    }
  }

  lemma {:induction false} RunKeeps<D(!new)>(m: Maps<D>, ds: seq<D>, hash: D -> u32)
    requires Inverse(m)
    ensures Inverse(Run(m, ds, hash).0) && Answered(m, ds, Run(m, ds, hash).0, Run(m, ds, hash).1)
    decreases |ds|
  {
    hide GetOrCreate, Inverse, Extends, IsFakeIp;
    if ds == [] {
    } else {
      GetKeeps(m, ds[0], hash(ds[0]));
      if GetOrCreate(m, ds[0], hash(ds[0])).Some? {
        var r := GetOrCreate(m, ds[0], hash(ds[0])).value;
        RunKeeps(r.0, ds[1..], hash);
        var rest := Run(r.0, ds[1..], hash);
        hide Answered;
        AnsweredHead(m, ds[0], r.0, r.1, ds[1..], rest.0, rest.1);
        assert [ds[0]] + ds[1..] == ds;
      }
    }
  }

  /** The keys after a run, and why it stopped early. */
  ghost predicate Keyed<D(!new)>(m: Maps<D>, ds: seq<D>, after: Maps<D>, n: nat) {
    && n <= |ds| && after.byDomain.Keys == m.byDomain.Keys + Distinct(ds[..n])
    && (n < |ds| ==> ds[n] !in after.byDomain && |after.byIp| == SPAN)
  }

  lemma KeyedHead<D(!new)>(m: Maps<D>, d: D, mid: Maps<D>, ip: u32, ds: seq<D>, after: Maps<D>, n: nat)
    requires Extends(m, d, mid, ip) && Keyed(mid, ds, after, n)
    ensures Keyed(m, [d] + ds, after, n + 1)
  {
    DistinctHead(d, ds[..n]);
    assert ([d] + ds)[..n + 1] == [d] + ds[..n];
  }

  lemma KeyedStop<D(!new)>(m: Maps<D>, ds: seq<D>)
    requires ds != [] ==> ds[0] !in m.byDomain && |m.byIp| == SPAN
    ensures Keyed(m, ds, m, 0)
  {
    assert Distinct(ds[..0]) == {};
  }

  lemma {:induction false} RunKeys<D(!new)>(m: Maps<D>, ds: seq<D>, hash: D -> u32)
    requires Inverse(m)
    ensures Keyed(m, ds, Run(m, ds, hash).0, |Run(m, ds, hash).1|)
    decreases |ds|
  {
    hide Inverse, Extends, GetOrCreate, Keyed, Distinct;
    if ds == [] {
      KeyedStop(m, ds);
    } else {
      GetKeeps(m, ds[0], hash(ds[0]));
      if GetOrCreate(m, ds[0], hash(ds[0])).None? {
        KeyedStop(m, ds);
      } else {
        var r := GetOrCreate(m, ds[0], hash(ds[0])).value;
        RunKeys(r.0, ds[1..], hash);
        var rest := Run(r.0, ds[1..], hash);
        assert [ds[0]] + ds[1..] == ds;
        KeyedHead(m, ds[0], r.0, r.1, ds[1..], rest.0, |rest.1|);
      }
    }
  }

  lemma KnownSize<D(!new)>(m: Maps<D>)
    requires Inverse(m)
    ensures |m.byDomain.Keys| == |m.byIp| <= SPAN
  {
    ProbeEnds(m, 0);
  }

  lemma AnswersBound<D(!new)>(m: Maps<D>, ds: seq<D>, after: Maps<D>, ips: seq<u32>)
    requires Answered(m, ds, after, ips)
    ensures |ips| <= |ds|
  {}

  lemma EmptyKeyed<D(!new)>(m: Maps<D>, ds: seq<D>, after: Maps<D>, n: nat)
    requires m.byDomain == map[] && Keyed(m, ds, after, n)
    ensures after.byDomain.Keys == Distinct(ds[..n])
  {
    assert m.byDomain.Keys == {};
  }

  /** The number of domains a run from empty maps knows. */
  lemma RunSize<D(!new)>(m: Maps<D>, ds: seq<D>, hash: D -> u32)
    requires m == Maps(map[], map[])
    ensures var (after, ips) := Run(m, ds, hash);
            && |after.byDomain.Keys| <= SPAN && |ips| <= |ds|
            && after.byDomain.Keys == Distinct(ds[..|ips|])
            && (|ips| < |ds| ==> ds[|ips|] !in after.byDomain.Keys && |after.byDomain.Keys| == SPAN)
  {
    assert Inverse(m);
    hide Run, GetOrCreate, Inverse, Distinct, Answered;
    RunKeeps(m, ds, hash);
    RunKeys(m, ds, hash);
    KnownSize(Run(m, ds, hash).0);
    AnswersBound(m, ds, Run(m, ds, hash).0, Run(m, ds, hash).1);
    EmptyKeyed(m, ds, Run(m, ds, hash).0, |Run(m, ds, hash).1|);
  }

  /**
    From empty maps: two calls get the same address exactly when they ask for the same domain, and
    afterwards reverseLookup leads from every address answered back to its domain.
  */
  lemma AddressesIdentifyDomains(ds: seq<JavaString>, i: nat, j: nat)
    requires i < |Run(EMPTY, ds, HashCode).1| && j < |Run(EMPTY, ds, HashCode).1|
    ensures |Run(EMPTY, ds, HashCode).1| <= |ds|
    ensures Run(EMPTY, ds, HashCode).1[i] == Run(EMPTY, ds, HashCode).1[j] <==> ds[i] == ds[j]
    ensures var (after, ips) := Run(EMPTY, ds, HashCode);
            IsFakeIp(ips[i]) && ips[i] in after.byIp && after.byIp[ips[i]] == ds[i]
  {
    RunKeeps(EMPTY, ds, HashCode);
    var (after, ips) := Run(EMPTY, ds, HashCode);
    assert Maplet(after.byDomain, ds[i], ips[i]) && Maplet(after.byDomain, ds[j], ips[j]);
    assert Maplet(after.byIp, ips[i], ds[i]) && Maplet(after.byIp, ips[j], ds[j]);
  }

  /** From empty maps, every call of a run returns exactly when the run asks for at most 65536 domains. */
  lemma AllCallsReturn(ds: seq<JavaString>)
    ensures |Run(EMPTY, ds, HashCode).1| == |ds| <==> |Distinct(ds)| <= SPAN
  {
    hide Run, HashCode, GetOrCreate;
    RunSize(EMPTY, ds, HashCode);
    var keys, n := Run(EMPTY, ds, HashCode).0.byDomain.Keys, |Run(EMPTY, ds, HashCode).1|;
    if n == |ds| {
      assert ds[..n] == ds;
    } else {
      SubsetSize(keys + {ds[n]}, Distinct(ds));
    }
  }

  // ---------- the code ----------

  class Allocator {
    var ipDomainMaps: map<u32, JavaString>
    var domainIpMaps: map<JavaString, u32>

    constructor ()
      ensures Contents() == EMPTY
    {
      ipDomainMaps, domainIpMaps := map[], map[];
    }

    ghost function Contents(): Maps<JavaString>
      reads this
    {
      Maps(ipDomainMaps, domainIpMaps)
    }

    /** The do-while loop; without a free address it would not end. */
    method FindFree(hash: u32) returns (fakeIp: u32)
      requires Probe(ipDomainMaps, hash, 0) < SPAN
      ensures fakeIp == Candidate(hash, Probe(ipDomainMaps, hash, 0))
    {
      ghost var k := 0;
      fakeIp := FAKE_NETWORK_IP + hash % SPAN;
      var hashIp := Mod32(hash + 1);
      while fakeIp in ipDomainMaps
        invariant k < SPAN && Probe(ipDomainMaps, hash, 0) == Probe(ipDomainMaps, hash, k)
        invariant fakeIp == Candidate(hash, k) && hashIp == Mod32(hash + (k + 1))
        decreases SPAN - k
      {
        fakeIp := FAKE_NETWORK_IP + hashIp % SPAN;
        Words.ModAdd(hash + (k + 1), 1);
        hashIp := Mod32(hashIp + 1);
        k := k + 1;
      }
    }

    /** The caller needs a free address only for a new domain; without one the code never returns. */
    method GetOrCreateFakeIp(domain: JavaString) returns (fakeIp: u32)
      requires Inverse(Contents())
      requires domain in domainIpMaps || |ipDomainMaps| < SPAN
      modifies this
      ensures Inverse(Contents())
      ensures Some((Contents(), fakeIp)) == GetOrCreate(old(Contents()), domain, HashCode(domain))
    {
      GetKeeps(Contents(), domain, HashCode(domain));
      ProbeEnds(Contents(), HashCode(domain));
      if domain in domainIpMaps {
        return domainIpMaps[domain];
      }
      fakeIp := FindFree(HashCode(domain));
      domainIpMaps := domainIpMaps[domain := fakeIp];
      ipDomainMaps := ipDomainMaps[fakeIp := domain];
    }

    /** The domain whose address this is, or None when it is nobody's. */
    method ReverseLookup(ip: u32) returns (domain: Option<JavaString>)
      ensures domain == if ip in ipDomainMaps then Some(ipDomainMaps[ip]) else None
      ensures Inverse(Contents()) ==>
                match domain
                case Some(d) => Maplet(domainIpMaps, d, ip)
                case None => forall d | d in domainIpMaps :: domainIpMaps[d] != ip
    {
      domain := if ip in ipDomainMaps then Some(ipDomainMaps[ip]) else None;
      assert ip in ipDomainMaps ==> Maplet(ipDomainMaps, ip, ipDomainMaps[ip]);
      assert forall d | d in domainIpMaps :: Maplet(domainIpMaps, d, domainIpMaps[d]);
    }
  }
}
