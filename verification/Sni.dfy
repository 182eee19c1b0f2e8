/**
  The two parsers of the server name in a TLS ClientHello (section 7.4.1.2 of
  RFC 5246, section 3 of RFC 6066): tls.c and HttpHostHeaderParser.java.
*/
module Sni {
  import opened Words
  import opened Layout

  const TLS_HEADER_LEN := 5
  const FQDN_MAX := 255

  // ---------- tls.c ----------

  /** The C string at the front of a byte sequence. */
  function CString(s: seq<u8>): (r: seq<u8>)
    ensures r <= s && 0 !in r
    ensures |r| < |s| ==> s[|r|] == 0
  {
    if s == [] || s[0] == 0 then [] else [s[0]] + CString(s[1..])
  }

  /** parse_server_name_extension: the first host_name entry; None leaves the buffer alone. */
  function ServerName(d: seq<u8>, pos: nat): (r: Option<seq<u8>>)
    ensures r.Some? ==> 0 !in r.value
    decreases |d| - pos
  {
    if pos + 3 >= |d| then None
    else
      var len := Be16(d, pos + 1);
      if pos + 3 + len > |d| then None
      else if d[pos] == 0 then
        var n := if len < FQDN_MAX then len else FQDN_MAX;
        Some(CString(d[pos + 3..pos + 3 + n]))
      else ServerName(d, pos + 3 + len)
  }

  /** parse_extensions. */
  function Extensions(d: seq<u8>, pos: nat): (r: Option<seq<u8>>)
    ensures r.Some? ==> 0 !in r.value
    decreases |d| - pos
  {
    if pos + 4 > |d| then None
    else
      var len := Be16(d, pos + 2);
      if d[pos] == 0 && d[pos + 1] == 0 then
        if pos + 4 + len > |d| then None else ServerName(d[pos + 4..pos + 4 + len], 2)
      else Extensions(d, pos + 4 + len)
  }

  /** The fixed part of the record: content type, version, complete record, ClientHello. */
  predicate IsHello(d: seq<u8>, signedChar: bool) {
    && |d| >= TLS_HEADER_LEN
    && !(d[0] >= 0x80 && d[2] == 1)
    && d[0] == 0x16
    && !(d[1] < 3 || (signedChar && d[1] >= 0x80))
    && Be16(d, 3) + TLS_HEADER_LEN <= |d|
    && Be16(d, 3) >= 1
    && d[5] == 1
  }

  /** Past the session id, the cipher suites and the compression methods: where the extension length stands. */
  function SkipFields(d: seq<u8>): Option<nat>
    requires |d| >= 3
  {
    if 44 > |d| then None
    else
      var session: int := d[43];
      var p1 := 44 + session;
      if p1 + 2 > |d| then None
      else
        var p2 := p1 + 2 + Be16(d, p1);
        if p2 + 1 > |d| then None
        else
          var compression: int := d[p2];
          var p3 := p2 + 1 + compression;
          if (p3 == |d| && d[1] == 3 && d[2] == 0) || p3 + 2 > |d| then None else Some(p3)
  }

  /** parse_tls_header; `char` is signed or not depending on the platform. */
  function ParseTls(data: seq<u8>, signedChar: bool): (r: Option<seq<u8>>)
    ensures r.Some? ==> 0 !in r.value
  {
    if !IsHello(data, signedChar) then None
    else
      var d := data[..Be16(data, 3) + TLS_HEADER_LEN];
      match SkipFields(d)
      case None => None
      case Some(p) =>
        var len := Be16(d, p);
        if p + 2 + len > |d| then None else Extensions(d[p + 2..p + 2 + len], 0)
  }

  // ---------- HttpHostHeaderParser.java ----------

  /** The extension loop of getSNI; None also stands for an exception, which parseHost turns into null. */
  function JavaExtensions(b: seq<u8>, offset: nat, limit: nat): Option<seq<u8>>
    decreases limit - offset
  {
    if offset + 4 > limit || offset + 4 > |b| then None
    else
      var len := Be16(b, offset + 2);
      if b[offset] == 0 && b[offset + 1] == 0 && len > 5 then
        if offset + 4 + len > limit || offset + 4 + len > |b| then None
        else Some(b[offset + 9..offset + 4 + len])
      else JavaExtensions(b, offset + 4 + len, limit)
  }

  /** getSNI's walk over the fixed header, the session id, the cipher suites and the compression methods. */
  function JavaSkipFields(b: seq<u8>, offset: nat, limit: nat): Option<nat> {
    var p0 := offset + 43;
    if p0 + 1 > limit || p0 + 1 > |b| then None
    else
      var session: int := b[p0];
      var p1 := p0 + 1 + session;
      if p1 + 2 > limit || p1 + 2 > |b| then None
      else
        var p2 := p1 + 2 + Be16(b, p1);
        if p2 + 1 > limit || p2 + 1 > |b| then None
        else
          var compression: int := b[p2];
          var p3 := p2 + 1 + compression;
          if p3 + 2 > limit || p3 + 2 > |b| then None else Some(p3)
  }

  /** getSNI over count bytes at offset. */
  function GetSni(b: seq<u8>, offset: nat, count: nat): Option<seq<u8>> {
    var limit := offset + count;
    if count <= 43 || offset >= |b| || b[offset] != 0x16 then None
    else
      match JavaSkipFields(b, offset, limit)
      case None => None
      case Some(p) => if p + 2 + Be16(b, p) > limit then None else JavaExtensions(b, p + 2, limit)
  }

  // ---------- well-formed ClientHello records ----------

  /** Any extension but server_name. */
  datatype Ext = Ext(kind: u16, data: seq<u8>)

  datatype Hello = Hello(minor: u8, fixed: seq<u8>, session: seq<u8>, ciphers: seq<u8>, compression: seq<u8>,
                         before: seq<Ext>, name: Option<seq<u8>>, after: seq<Ext>)

  predicate ValidExts(es: seq<Ext>) {
    forall e | e in es :: e.kind != 0 && |e.data| < 0x1_0000
  }

  function EncodeExt(e: Ext): seq<u8>
    requires |e.data| < 0x1_0000
  {
    Bytes16(e.kind) + Bytes16(|e.data|) + e.data
  }

  function EncodeExts(es: seq<Ext>): seq<u8>
    requires ValidExts(es)
  {
    if es == [] then [] else EncodeExt(es[0]) + EncodeExts(es[1..])
  }

  /** server_name with one host_name entry. */
  function EncodeName(host: seq<u8>): seq<u8>
    requires 1 <= |host| < 0x1_0000 - 5
  {
    [0, 0] + Bytes16(|host| + 5) + Bytes16(|host| + 3) + [0] + Bytes16(|host|) + host
  }

  predicate NameFits(name: Option<seq<u8>>) {
    name.Some? ==> 1 <= |name.value| < 0x1_0000 - 5
  }

  /** server_name, if the hello has one. */
  function EncodeServerName(name: Option<seq<u8>>): seq<u8>
    requires NameFits(name)
  {
    if name.Some? then EncodeName(name.value) else []
  }

  predicate ValidHello(h: Hello) {
    && |h.fixed| == 37  // handshake length, version, random
    && |h.session| < 256 && |h.ciphers| < 0x1_0000 && |h.compression| < 256
    && ValidExts(h.before) && ValidExts(h.after)
    && NameFits(h.name)
    && |EncodeAllExts(h)| < 0x1_0000
    && 1 + |h.fixed| + |Fields(h)| + 2 + |EncodeAllExts(h)| < 0x1_0000
  }

  function EncodeAllExts(h: Hello): seq<u8>
    requires ValidExts(h.before) && ValidExts(h.after) && NameFits(h.name)
  {
    EncodeExts(h.before) + (EncodeServerName(h.name) + EncodeExts(h.after))
  }

  /** Session id, cipher suites and compression methods. */
  function Fields(h: Hello): seq<u8>
    requires |h.session| < 256 && |h.ciphers| < 0x1_0000 && |h.compression| < 256
  {
    [|h.session|] + h.session + (Bytes16(|h.ciphers|) + h.ciphers + ([|h.compression|] + h.compression))
  }

  function Handshake(h: Hello): seq<u8>
    requires ValidHello(h)
  {
    [1] + h.fixed + (Fields(h) + (Bytes16(|EncodeAllExts(h)|) + EncodeAllExts(h)))
  }

  /** The whole TLS record. */
  function Record(h: Hello): seq<u8>
    requires ValidHello(h)
  {
    [0x16, 3, h.minor] + Bytes16(|Handshake(h)|) + Handshake(h)
  }

  // ---------- reading what was written ----------

  /** Where the parts of a server_name extension stand. */
  lemma NameAt(d: seq<u8>, i: nat, host: seq<u8>)
    requires 1 <= |host| < 0x1_0000 - 5 && At(d, i, EncodeName(host))
    ensures |EncodeName(host)| == |host| + 9 && i + 9 + |host| <= |d|
    ensures d[i] == 0 && d[i + 1] == 0 && Be16(d, i + 2) == |host| + 5
    ensures d[i + 6] == 0 && Be16(d, i + 7) == |host| && d[i + 9..i + 9 + |host|] == host
  {
    var p := [0, 0] + Bytes16(|host| + 5) + Bytes16(|host| + 3) + [0] + Bytes16(|host|);
    AtSplit(d, i, p, host);
    AtSlice(d, i + |p|, host);
    AtIndex(d, i, p, 0);
    AtIndex(d, i, p, 1);
    AtIndex(d, i, p, 2);
    AtIndex(d, i, p, 3);
    AtIndex(d, i, p, 6);
    AtIndex(d, i, p, 7);
    AtIndex(d, i, p, 8);
  }

  /** Where the parts of another extension stand. */
  lemma ExtAt(d: seq<u8>, i: nat, e: Ext)
    requires e.kind != 0 && |e.data| < 0x1_0000 && At(d, i, EncodeExt(e))
    ensures |EncodeExt(e)| == 4 + |e.data| && i + 4 <= |d|
    ensures !(d[i] == 0 && d[i + 1] == 0) && Be16(d, i + 2) == |e.data|
  {
    AtIndex(d, i, EncodeExt(e), 0);
    AtIndex(d, i, EncodeExt(e), 1);
    AtIndex(d, i, EncodeExt(e), 2);
    AtIndex(d, i, EncodeExt(e), 3);
  }

  /** The encoding of a list of extensions with one in front. */
  lemma ExtInFront(before: seq<Ext>, tail: seq<u8>)
    requires ValidExts(before) && before != []
    ensures EncodeExts(before) + tail == EncodeExt(before[0]) + (EncodeExts(before[1..]) + tail)
  {}

  /** What the C code keeps of a host name: at most 255 bytes, cut at the first NUL. */
  function Kept(host: seq<u8>): seq<u8> {
    CString(host[..if |host| < FQDN_MAX then |host| else FQDN_MAX])
  }

  lemma {:induction false} CStringKeeps(s: seq<u8>)
    ensures CString(s) == s <==> 0 !in s
  {
    if s == [] {
    } else {
      assert s == [s[0]] + s[1..];
      CStringKeeps(s[1..]);
    }
  }

  /** Exactly the NUL-free hosts of at most 255 bytes survive in C. */
  lemma KeptWhole(host: seq<u8>)
    ensures Kept(host) == host <==> |host| <= FQDN_MAX && 0 !in host
  {
    if |host| <= FQDN_MAX {
      assert host[..|host|] == host;
      CStringKeeps(host);
    }
  }

  lemma SliceOfSlice(d: seq<u8>, lo: nat, hi: nat, i: nat, j: nat)
    requires lo <= hi <= |d| && i <= j <= hi - lo
    ensures d[lo..hi][i..j] == d[lo + i..lo + j]
  {
    var x, y := d[lo..hi][i..j], d[lo + i..lo + j];
    assert |x| == |y| && forall k | 0 <= k < |x| :: x[k] == d[lo..hi][i + k] == d[lo + i + k] == y[k];
  }

  lemma NameFound(d: seq<u8>, i: nat, host: seq<u8>)
    requires 1 <= |host| < 0x1_0000 - 5 && At(d, i, EncodeName(host))
    ensures Extensions(d, i) == Some(Kept(host))
  {
    NameAt(d, i, host);
    var x := d[i + 4..i + 9 + |host|];
    assert x[2] == d[i + 6] && x[3] == d[i + 7] && x[4] == d[i + 8];
    var n := if |host| < FQDN_MAX then |host| else FQDN_MAX;
    SliceOfSlice(d, i + 4, i + 9 + |host|, 5, 5 + n);
    SliceOfSlice(d, i + 9, i + 9 + |host|, 0, n);
    hide CString;
  }

  /** An entry of a server_name list. */
  function EncodeEntry(kind: u8, name: seq<u8>): seq<u8>
    requires |name| < 0x1_0000
  {
    [kind] + Bytes16(|name|) + name
  }

  /** Entries of other types than host_name. */
  datatype Entry = Entry(kind: u8, name: seq<u8>)

  predicate ValidEntries(es: seq<Entry>) {
    forall e | e in es :: e.kind != 0 && |e.name| < 0x1_0000
  }

  function EncodeEntries(es: seq<Entry>): seq<u8>
    requires ValidEntries(es)
  {
    if es == [] then [] else EncodeEntry(es[0].kind, es[0].name) + EncodeEntries(es[1..])
  }

  lemma EntryAt(d: seq<u8>, i: nat, kind: u8, name: seq<u8>)
    requires |name| < 0x1_0000 && At(d, i, EncodeEntry(kind, name))
    ensures i + 3 + |name| <= |d| && d[i] == kind && Be16(d, i + 1) == |name| && d[i + 3..i + 3 + |name|] == name
  {
    AtSplit(d, i, [kind] + Bytes16(|name|), name);
    AtSplit(d, i, [kind], Bytes16(|name|));
    AtIndex(d, i, [kind], 0);
    AtLength(d, i + 1, |name|);
    AtSlice(d, i + 3, name);
  }

  /** tls.c takes the first host_name of a list, behind any entries of other types. */
  lemma {:induction false} FirstHostName(d: seq<u8>, pos: nat, others: seq<Entry>, host: seq<u8>)
    requires ValidEntries(others) && 1 <= |host| < 0x1_0000
    requires At(d, pos, EncodeEntries(others) + EncodeEntry(0, host))
    ensures ServerName(d, pos) == Some(Kept(host))
    decreases |others|
  {
    if others == [] {
      assert [] + EncodeEntry(0, host) == EncodeEntry(0, host);
      EntryAt(d, pos, 0, host);
      var n := if |host| < FQDN_MAX then |host| else FQDN_MAX;
      SliceOfSlice(d, pos + 3, pos + 3 + |host|, 0, n);
    } else {
      var e := others[0];
      var rest := EncodeEntries(others[1..]) + EncodeEntry(0, host);
      assert EncodeEntries(others) + EncodeEntry(0, host) == EncodeEntry(e.kind, e.name) + rest;
      AtSplit(d, pos, EncodeEntry(e.kind, e.name), rest);
      EntryAt(d, pos, e.kind, e.name);
      assert |rest| > 0;
      FirstHostName(d, pos + |EncodeEntry(e.kind, e.name)|, others[1..], host);
    }
  }

  /** tls.c looks only at a complete record that carries a ClientHello, getSNI only at a handshake record. */
  lemma OnlyHellos(data: seq<u8>, signedChar: bool, offset: nat, count: nat)
    ensures ParseTls(data, signedChar).Some? ==>
              && |data| >= 6 && data[0] == 0x16 && data[1] >= 3 && (signedChar ==> data[1] < 0x80)
              && 1 <= Be16(data, 3) && 5 + Be16(data, 3) <= |data| && data[5] == 1
    ensures GetSni(data, offset, count).Some? ==> offset < |data| && data[offset] == 0x16 && count > 43
  {}

  /** tls.c skips every other extension and finds the name. */
  lemma {:induction false} FindsName(d: seq<u8>, i: nat, before: seq<Ext>, host: seq<u8>, after: seq<u8>)
    requires ValidExts(before) && 1 <= |host| < 0x1_0000 - 5
    requires At(d, i, EncodeExts(before) + (EncodeName(host) + after))
    ensures Extensions(d, i) == Some(Kept(host))
    decreases |before|
  {
    if before == [] {
      assert EncodeExts(before) + (EncodeName(host) + after) == EncodeName(host) + after;
      AtSplit(d, i, EncodeName(host), after);
      NameFound(d, i, host);
    } else {
      ExtInFront(before, EncodeName(host) + after);
      AtSplit(d, i, EncodeExt(before[0]), EncodeExts(before[1..]) + (EncodeName(host) + after));
      ExtAt(d, i, before[0]);
      FindsName(d, i + |EncodeExt(before[0])|, before[1..], host, after);
    }
  }

  lemma JavaNameFound(b: seq<u8>, i: nat, limit: nat, host: seq<u8>)
    requires 1 <= |host| < 0x1_0000 - 5 && At(b, i, EncodeName(host)) && i + |EncodeName(host)| <= limit
    ensures JavaExtensions(b, i, limit) == Some(host)
  {
    NameAt(b, i, host);
  }

  /** So does getSNI. */
  lemma {:induction false} JavaFindsName(b: seq<u8>, i: nat, limit: nat, before: seq<Ext>, host: seq<u8>,
                                         after: seq<u8>)
    requires ValidExts(before) && 1 <= |host| < 0x1_0000 - 5
    requires At(b, i, EncodeExts(before) + (EncodeName(host) + after))
    requires i + |EncodeExts(before) + (EncodeName(host) + after)| <= limit
    ensures JavaExtensions(b, i, limit) == Some(host)
    decreases |before|
  {
    if before == [] {
      assert EncodeExts(before) + (EncodeName(host) + after) == EncodeName(host) + after;
      AtSplit(b, i, EncodeName(host), after);
      JavaNameFound(b, i, limit, host);
    } else {
      ExtInFront(before, EncodeName(host) + after);
      AtSplit(b, i, EncodeExt(before[0]), EncodeExts(before[1..]) + (EncodeName(host) + after));
      ExtAt(b, i, before[0]);
      JavaFindsName(b, i + |EncodeExt(before[0])|, limit, before[1..], host, after);
    }
  }

  /** Without a name tls.c walks over all extensions. */
  lemma {:induction false} FindsNone(d: seq<u8>, i: nat, es: seq<Ext>)
    requires ValidExts(es) && At(d, i, EncodeExts(es)) && i + |EncodeExts(es)| == |d|
    ensures Extensions(d, i) == None
    decreases |es|
  {
    if es == [] {
    } else {
      AtSplit(d, i, EncodeExt(es[0]), EncodeExts(es[1..]));
      ExtAt(d, i, es[0]);
      FindsNone(d, i + |EncodeExt(es[0])|, es[1..]);
    }
  }

  /** And getSNI walks on over what stands behind them. */
  lemma {:induction false} JavaWalksOn(b: seq<u8>, i: nat, limit: nat, es: seq<Ext>)
    requires ValidExts(es) && At(b, i, EncodeExts(es)) && i + |EncodeExts(es)| <= limit
    ensures JavaExtensions(b, i, limit) == JavaExtensions(b, i + |EncodeExts(es)|, limit)
    decreases |es|
  {
    if es == [] {
    } else {
      AtSplit(b, i, EncodeExt(es[0]), EncodeExts(es[1..]));
      ExtAt(b, i, es[0]);
      JavaWalksOn(b, i + |EncodeExt(es[0])|, limit, es[1..]);
    }
  }

  lemma {:induction false} ExtsJoin(xs: seq<Ext>, ys: seq<Ext>)
    requires ValidExts(xs) && ValidExts(ys)
    ensures ValidExts(xs + ys) && EncodeExts(xs + ys) == EncodeExts(xs) + EncodeExts(ys)
  {
    if xs == [] {
      assert xs + ys == ys && [] + EncodeExts(ys) == EncodeExts(ys);
    } else {
      ExtsJoin(xs[1..], ys);
      assert (xs + ys)[0] == xs[0] && (xs + ys)[1..] == xs[1..] + ys;
      ExtInFront(xs, EncodeExts(ys));
    }
  }

  /** The session id, cipher suites and compression methods stand at p0 and are followed by their extensions. */
  predicate FieldsStand(d: seq<u8>, p0: nat, h: Hello) {
    var p1 := p0 + 1 + |h.session|;
    var p2 := p1 + 2 + |h.ciphers|;
    var p3 := p2 + 1 + |h.compression|;
    && p3 + 2 <= |d| && d[p0] == |h.session| && Be16(d, p1) == |h.ciphers| && d[p2] == |h.compression|
  }

  function AfterFields(p0: nat, h: Hello): nat {
    p0 + 4 + |h.session| + |h.ciphers| + |h.compression|
  }

  lemma CiphersAt(d: seq<u8>, p: nat, h: Hello)
    requires |h.ciphers| < 0x1_0000 && At(d, p, Bytes16(|h.ciphers|) + h.ciphers)
    ensures p + 2 + |h.ciphers| <= |d| && Be16(d, p) == |h.ciphers|
  {
    AtSplit(d, p, Bytes16(|h.ciphers|), h.ciphers);
    AtLength(d, p, |h.ciphers|);
  }

  lemma FieldsAt(d: seq<u8>, p0: nat, h: Hello)
    requires |h.session| < 256 && |h.ciphers| < 0x1_0000 && |h.compression| < 256
    requires At(d, p0, Fields(h)) && AfterFields(p0, h) + 2 <= |d|
    ensures |Fields(h)| == AfterFields(0, h)
    ensures FieldsStand(d, p0, h)
  {
    var s := [|h.session|] + h.session;
    var k := Bytes16(|h.ciphers|) + h.ciphers;
    var c := [|h.compression|] + h.compression;
    AtSplit(d, p0, s, k + c);
    AtSplit(d, p0 + |s|, k, c);
    AtIndex(d, p0, s, 0);
    CiphersAt(d, p0 + |s|, h);
    AtIndex(d, p0 + |s| + |k|, c, 0);
  }

  /** Extensions stand behind their length. */
  predicate ExtensionsStand(d: seq<u8>, p: nat, x: seq<u8>) {
    p + 2 <= |d| && Be16(d, p) == |x| && At(d, p + 2, x)
  }

  lemma HandshakeAt(d: seq<u8>, i: nat, h: Hello)
    requires ValidHello(h) && At(d, i, Handshake(h))
    ensures d[i] == 1
    ensures AfterFields(i + 38, h) + 2 + |EncodeAllExts(h)| == i + |Handshake(h)| <= |d|
    ensures FieldsStand(d, i + 38, h) && ExtensionsStand(d, AfterFields(i + 38, h), EncodeAllExts(h))
  {
    var n := Bytes16(|EncodeAllExts(h)|);
    var exts := n + EncodeAllExts(h);
    var front := [1] + h.fixed;
    AtSplit(d, i, front, Fields(h) + exts);
    AtIndex(d, i, front, 0);
    AtSplit(d, i + 38, Fields(h), exts);
    AtSplit(d, i + 38 + |Fields(h)|, n, EncodeAllExts(h));
    AtLength(d, i + 38 + |Fields(h)|, |EncodeAllExts(h)|);
    FieldsAt(d, i + 38, h);
  }

  /** Where the parts of a record stand. */
  lemma RecordAt(d: seq<u8>, i: nat, h: Hello)
    requires ValidHello(h) && At(d, i, Record(h))
    ensures d[i] == 0x16 && d[i + 1] == 3 && Be16(d, i + 3) == |Record(h)| - 5 >= 1 && d[i + 5] == 1
    ensures AfterFields(i + 43, h) + 2 + |EncodeAllExts(h)| == i + |Record(h)| <= |d|
    ensures FieldsStand(d, i + 43, h) && ExtensionsStand(d, AfterFields(i + 43, h), EncodeAllExts(h))
  {
    var head := [0x16, 3, h.minor];
    AtSplit(d, i, head + Bytes16(|Handshake(h)|), Handshake(h));
    AtSplit(d, i, head, Bytes16(|Handshake(h)|));
    AtIndex(d, i, head, 0);
    AtIndex(d, i, head, 1);
    AtLength(d, i + 3, |Handshake(h)|);
    HandshakeAt(d, i + 5, h);
  }

  lemma SkipsFields(d: seq<u8>, h: Hello)
    requires |d| >= 3 && FieldsStand(d, 43, h)
    ensures SkipFields(d) == Some(AfterFields(43, h))
  {}

  lemma JavaSkipsFields(b: seq<u8>, offset: nat, limit: nat, h: Hello)
    requires FieldsStand(b, offset + 43, h) && AfterFields(offset + 43, h) + 2 <= limit
    ensures JavaSkipFields(b, offset, limit) == Some(AfterFields(offset + 43, h))
  {}

  // ---------- the main results ----------

  /** The record alone: tls.c walks past the fields to the extensions. */
  lemma ReachesExtensions(h: Hello)
    requires ValidHello(h)
    ensures var d := Record(h);
            && |d| >= 5 && SkipFields(d) == Some(AfterFields(43, h))
            && AfterFields(43, h) + 2 + |EncodeAllExts(h)| == |d|
            && Be16(d, AfterFields(43, h)) == |EncodeAllExts(h)|
            && d[AfterFields(43, h) + 2..|d|] == EncodeAllExts(h)
  {
    var d := Record(h);
    assert At(d, 0, d);
    RecordAt(d, 0, h);
    SkipsFields(d, h);
  }

  lemma RecordIsHello(h: Hello, data: seq<u8>, signedChar: bool)
    requires ValidHello(h) && At(data, 0, Record(h))
    ensures IsHello(data, signedChar) && data[..Be16(data, 3) + TLS_HEADER_LEN] == Record(h)
  {
    RecordAt(data, 0, h);
    AtSlice(data, 0, Record(h));
  }

  lemma ParsesExtensions(data: seq<u8>, signedChar: bool, d: seq<u8>, p: nat, x: seq<u8>)
    requires IsHello(data, signedChar) && d == data[..Be16(data, 3) + TLS_HEADER_LEN]
    requires SkipFields(d) == Some(p) && p + 2 + |x| == |d| && Be16(d, p) == |x| && d[p + 2..|d|] == x
    ensures ParseTls(data, signedChar) == Extensions(x, 0)
  {}

  /**
    tls.c returns the host of every well-formed ClientHello that has one, whatever
    follows the record and however `char` is signed, cut to 255 bytes and at a NUL.
  */
  lemma TlsFindsHost(h: Hello, data: seq<u8>, signedChar: bool)
    requires ValidHello(h) && At(data, 0, Record(h))
    ensures ParseTls(data, signedChar) == if h.name.Some? then Some(Kept(h.name.value)) else None
  {
    RecordIsHello(h, data, signedChar);
    ReachesExtensions(h);
    var x := EncodeAllExts(h);
    ParsesExtensions(data, signedChar, Record(h), AfterFields(43, h), x);
    assert At(x, 0, x);
    if h.name.Some? {
      FindsName(x, 0, h.before, h.name.value, EncodeExts(h.after));
    } else {
      ExtsJoin(h.before, h.after);
      assert [] + EncodeExts(h.after) == EncodeExts(h.after);
      FindsNone(x, 0, h.before + h.after);
    }
  }

  lemma JavaReaches(b: seq<u8>, offset: nat, count: nat, h: Hello, x: seq<u8>)
    requires offset < |b| && b[offset] == 0x16
    requires FieldsStand(b, offset + 43, h) && ExtensionsStand(b, AfterFields(offset + 43, h), x)
    requires AfterFields(offset + 43, h) + 2 + |x| <= offset + count
    ensures GetSni(b, offset, count) == JavaExtensions(b, AfterFields(offset + 43, h) + 2, offset + count)
  {
    JavaSkipsFields(b, offset, offset + count, h);
  }

  lemma JavaReachesExtensions(b: seq<u8>, offset: nat, count: nat, h: Hello) returns (p: nat)
    requires ValidHello(h) && At(b, offset, Record(h)) && |Record(h)| <= count
    ensures GetSni(b, offset, count) == JavaExtensions(b, p, offset + count)
    ensures At(b, p, EncodeAllExts(h)) && p + |EncodeAllExts(h)| == offset + |Record(h)|
  {
    RecordAt(b, offset, h);
    JavaReaches(b, offset, count, h, EncodeAllExts(h));
    p := AfterFields(offset + 43, h) + 2;
  }

  /**
    getSNI returns the host whole, from a record anywhere in a buffer, whatever
    surrounds it. If there is none it goes on behind the record, as far as count says.
  */
  lemma JavaFindsHost(b: seq<u8>, offset: nat, count: nat, h: Hello)
    requires ValidHello(h) && At(b, offset, Record(h)) && |Record(h)| <= count
    ensures GetSni(b, offset, count) ==
            if h.name.Some? then h.name else JavaExtensions(b, offset + |Record(h)|, offset + count)
  {
    hide GetSni, JavaExtensions, Record;
    var p := JavaReachesExtensions(b, offset, count, h);
    if h.name.Some? {
      JavaFindsName(b, p, offset + count, h.before, h.name.value, EncodeExts(h.after));
    } else {
      ExtsJoin(h.before, h.after);
      assert [] + EncodeExts(h.after) == EncodeExts(h.after);
      JavaWalksOn(b, p, offset + count, h.before + h.after);
    }
  }

  /**
    The two parsers agree on a well-formed ClientHello exactly when its host is NUL-free
    and at most 255 bytes; without a host, exactly when nothing behind the record that
    getSNI may read passes for a server_name extension, as when it is given the record alone.
  */
  lemma ParsersAgree(h: Hello, data: seq<u8>, signedChar: bool, b: seq<u8>, offset: nat, count: nat)
    requires ValidHello(h) && At(data, 0, Record(h))
    requires At(b, offset, Record(h)) && |Record(h)| <= count
    ensures ParseTls(data, signedChar) == GetSni(b, offset, count) <==>
            match h.name
            case Some(host) => |host| <= 255 && 0 !in host
            case None => JavaExtensions(b, offset + |Record(h)|, offset + count) == None
    ensures h.name == None && count == |Record(h)| ==> GetSni(b, offset, count) == None
  {
    TlsFindsHost(h, data, signedChar);
    JavaFindsHost(b, offset, count, h);
    if h.name.Some? {
      KeptWhole(h.name.value);
    }
  }

  /** What follows a hello without a host may name one to getSNI. */
  lemma StrayName(h: Hello, b: seq<u8>, offset: nat, host: seq<u8>)
    requires ValidHello(h) && h.name == None && 1 <= |host| < 0x1_0000 - 5
    requires At(b, offset, Record(h) + EncodeName(host))
    ensures GetSni(b, offset, |Record(h) + EncodeName(host)|) == Some(host)
  {
    hide GetSni, JavaExtensions, Record, EncodeName;
    AtSplit(b, offset, Record(h), EncodeName(host));
    JavaFindsHost(b, offset, |Record(h) + EncodeName(host)|, h);
    JavaNameFound(b, offset + |Record(h)|, offset + |Record(h) + EncodeName(host)|, host);
  }

  // ---------- the code ----------

  /** What a parse leaves in the host buffer: untouched without a name, else the name as a C string. */
  ghost predicate Stored(before: seq<u8>, after: seq<u8>, found: Option<seq<u8>>) {
    && |after| == |before| > FQDN_MAX
    && (found.None? ==> after == before)
    && (found.Some? ==>
          && |found.value| <= FQDN_MAX && after[..|found.value|] == found.value && after[|found.value|] == 0
          && after[FQDN_MAX + 1..] == before[FQDN_MAX + 1..])
  }

  /** A stored name is what a reader of the C string sees. */
  lemma {:induction false} StoredIsCString(s: seq<u8>, n: nat)
    requires n < |s| && 0 !in s[..n] && s[n] == 0
    ensures CString(s) == s[..n]
  {
    if n == 0 {
    } else {
      assert s[0] == s[..n][0] && s[1..][..n - 1] == s[..n][1..];
      StoredIsCString(s[1..], n - 1);
    }
  }

  /** strncpy over all of src, then the terminator. */
  method CopyName(hostname: array<u8>, src: seq<u8>)
    requires |src| <= FQDN_MAX < hostname.Length
    modifies hostname
    ensures Stored(old(hostname[..]), hostname[..], Some(CString(src)))
  {
    var c := CString(src);
    forall i | 0 <= i < |src| {
      hostname[i] := if i < |c| then c[i] else 0;
    }
    hostname[|src|] := 0;
    assert hostname[..|c|] == c;
  }

  method ParseServerNameExtension(data: seq<u8>, hostname: array<u8>)
    requires FQDN_MAX < hostname.Length
    modifies hostname
    ensures Stored(old(hostname[..]), hostname[..], ServerName(data, 2))
  {
    var pos := 2;
    while pos + 3 < |data|
      invariant ServerName(data, 2) == ServerName(data, pos)
      invariant hostname[..] == old(hostname[..])
      decreases |data| - pos
    {
      var len: int := Be16(data, pos + 1);
      if pos + 3 + len > |data| {
        return;
      }
      if data[pos] == 0 {
        len := if len < FQDN_MAX then len else FQDN_MAX;
        CopyName(hostname, data[pos + 3..pos + 3 + len]);
        return;
      }
      pos := pos + 3 + len;
    }
  }

  method ParseExtensions(data: seq<u8>, hostname: array<u8>)
    requires FQDN_MAX < hostname.Length
    modifies hostname
    ensures Stored(old(hostname[..]), hostname[..], Extensions(data, 0))
  {
    var pos := 0;
    while pos + 4 <= |data|
      invariant Extensions(data, 0) == Extensions(data, pos)
      invariant hostname[..] == old(hostname[..])
      decreases |data| - pos
    {
      var len: int := Be16(data, pos + 2);
      if data[pos] == 0 && data[pos + 1] == 0 {
        if pos + 4 + len > |data| {
          return;
        }
        ParseServerNameExtension(data[pos + 4..pos + 4 + len], hostname);
        return;
      }
      pos := pos + 4 + len;
    }
  }

  method ParseTlsHeader(data: seq<u8>, signedChar: bool, hostname: array<u8>)
    requires FQDN_MAX < hostname.Length
    modifies hostname
    ensures Stored(old(hostname[..]), hostname[..], ParseTls(data, signedChar))
    ensures ParseTls(data, signedChar).Some? ==> CString(hostname[..]) == ParseTls(data, signedChar).value
  {
    if !IsHello(data, signedChar) {
      return;
    }
    var d := data[..Be16(data, 3) + TLS_HEADER_LEN];
    var pos := TLS_HEADER_LEN + 38;
    if pos + 1 > |d| {
      return;
    }
    var len: int := d[pos];
    pos := pos + 1 + len;
    if pos + 2 > |d| {
      return;
    }
    len := Be16(d, pos);
    pos := pos + 2 + len;
    if pos + 1 > |d| {
      return;
    }
    len := d[pos];
    pos := pos + 1 + len;
    if (pos == |d| && d[1] == 3 && d[2] == 0) || pos + 2 > |d| {
      return;
    }
    assert SkipFields(d) == Some(pos);
    len := Be16(d, pos);
    pos := pos + 2;
    if pos + len > |d| {
      return;
    }
    ParseExtensions(d[pos..pos + len], hostname);
    if ParseTls(data, signedChar).Some? {
      StoredIsCString(hostname[..], |ParseTls(data, signedChar).value|);
    }
  }

  /** getSNI's extension loop. */
  method FindSni(buffer: seq<u8>, start: nat, limit: nat) returns (r: Option<seq<u8>>)
    ensures r == JavaExtensions(buffer, start, limit)
  {
    var offset := start;
    while offset + 4 <= limit
      invariant JavaExtensions(buffer, start, limit) == JavaExtensions(buffer, offset, limit)
      decreases limit - offset
    {
      if offset + 4 > |buffer| {
        return None;
      }
      var type0, type1 := buffer[offset], buffer[offset + 1];
      var length: int := Be16(buffer, offset + 2);
      offset := offset + 4;
      if type0 == 0 && type1 == 0 && length > 5 {
        offset := offset + 5;
        length := length - 5;
        if offset + length > limit || offset + length > |buffer| {
          return None;
        }
        return Some(buffer[offset..offset + length]);
      }
      offset := offset + length;
    }
    return None;
  }

  method ReadSni(buffer: seq<u8>, start: nat, count: nat) returns (r: Option<seq<u8>>)
    ensures r == GetSni(buffer, start, count)
  {
    var offset, limit := start, start + count;
    if count <= 43 || offset >= |buffer| || buffer[offset] != 0x16 {
      return None;
    }
    offset := offset + 43;
    if offset + 1 > limit || offset + 1 > |buffer| {
      return None;
    }
    var length: int := buffer[offset];
    offset := offset + 1 + length;
    if offset + 2 > limit || offset + 2 > |buffer| {
      return None;
    }
    length := Be16(buffer, offset);
    offset := offset + 2 + length;
    if offset + 1 > limit || offset + 1 > |buffer| {
      return None;
    }
    length := buffer[offset];
    offset := offset + 1 + length;
    if offset + 2 > limit || offset + 2 > |buffer| {
      return None;
    }
    assert JavaSkipFields(buffer, start, limit) == Some(offset);
    length := Be16(buffer, offset);
    offset := offset + 2;
    if offset + length > limit {
      return None;
    }
    r := FindSni(buffer, offset, limit);
  }
}
