/**
  DNS messages as DnsPacket.java parses them and DnsProxy.java rewrites them: a
  message starts at an offset of a larger array, and compressed names (section
  4.1.4 of RFC 1035) are followed by wrapping that array anew. None stands for
  null or an exception; strings are the bytes they are built from.
*/
module Dns {
  import opened Words
  import opened Layout

  const DOT: u8 := 46
  const POINTER_BITS: u8 := 0xC0
  const MAX_MESSAGE := 512

  // ---------- ReadDomain ----------

  /** Without the last character. */
  function Strip(s: seq<u8>): seq<u8> {
    if s == [] then [] else s[..|s| - 1]
  }

  /**
    ReadDomain on a buffer over array a whose elements start at off, from pos to
    lim, after sb has been read: the name and the position behind it. Each
    pointer raises the limit by at least twice the header offset, so even a
    pointer cycle ends: the limit passes the end of the array.
  */
  function ReadName(a: seq<u8>, base: nat, off: nat, pos: nat, lim: nat, sb: seq<u8>): (r: Option<(seq<u8>, nat)>)
    requires base > 0 && off + lim <= |a| && pos <= lim
    ensures r.Some? ==> pos <= r.value.1 <= lim
    decreases |a| - lim, lim - pos
  {
    if pos == lim then Some((Strip(sb), pos))
    else
      var len: int := a[off + pos];
      if len == 0 then Some((Strip(sb), pos + 1))
      else if len >= POINTER_BITS then
        if pos + 1 == lim then None
        else
          var low: int := a[off + pos + 1];
          var start := base + (len % 64 * 256 + low);
          if start + (base + lim) > |a| then None
          else
            match ReadName(a, base, 0, start, start + (base + lim), [])
            case None => None
            case Some(inner) => Some((sb + inner.0, pos + 2))
      else if pos + 1 + len > lim then Some((sb + a[off + pos + 1..off + lim] + [DOT], lim))
      else ReadName(a, base, off, pos + 1 + len, lim, sb + a[off + pos + 1..off + pos + 1 + len] + [DOT])
  }

  // ---------- DnsPacket.FromBytes ----------

  datatype Question = Question(domain: seq<u8>, kind: u16, cls: u16, offset: nat, length: nat)

  datatype Resource = Resource(domain: seq<u8>, kind: u16, cls: u16, ttl: u32, data: seq<u8>)

  datatype Packet = Packet(size: nat, id: u16, flags: u16, questions: seq<Question>,
                           answers: seq<Resource>, authorities: seq<Resource>, extras: seq<Resource>)

  /** Question.FromBytes at pos: the question and the position behind it. */
  function ReadQuestion(a: seq<u8>, base: nat, pos: nat, lim: nat): (r: Option<(Question, nat)>)
    requires base > 0 && base + lim <= |a| && pos <= lim
    ensures r.Some? ==> pos <= r.value.1 <= lim
  {
    match ReadName(a, base, base, pos, lim, [])
    case None => None
    case Some(n) =>
      var p := n.1;
      if p + 4 > lim then None
      else Some((Question(n.0, Be16(a, base + p), Be16(a, base + p + 2), base + pos, p + 4 - pos), p + 4))
  }

  /** Resource.FromBytes. */
  function ReadResource(a: seq<u8>, base: nat, pos: nat, lim: nat): (r: Option<(Resource, nat)>)
    requires base > 0 && base + lim <= |a| && pos <= lim
    ensures r.Some? ==> pos <= r.value.1 <= lim
  {
    match ReadName(a, base, base, pos, lim, [])
    case None => None
    case Some(n) =>
      var p := n.1;
      if p + 10 > lim || p + 10 + Be16(a, base + p + 8) > lim then None
      else
        var end := p + 10 + Be16(a, base + p + 8);
        Some((Resource(n.0, Be16(a, base + p), Be16(a, base + p + 2), Be32(a, base + p + 4),
                       a[base + p + 10..base + end]), end))
  }

  function ReadQuestions(a: seq<u8>, base: nat, pos: nat, lim: nat, n: nat): (r: Option<(seq<Question>, nat)>)
    requires base > 0 && base + lim <= |a| && pos <= lim
    ensures r.Some? ==> pos <= r.value.1 <= lim && |r.value.0| == n
    decreases n
  {
    if n == 0 then Some(([], pos))
    else
      match ReadQuestion(a, base, pos, lim)
      case None => None
      case Some(q) =>
        match ReadQuestions(a, base, q.1, lim, n - 1)
        case None => None
        case Some(rest) => Some(([q.0] + rest.0, rest.1))
  }

  function ReadResources(a: seq<u8>, base: nat, pos: nat, lim: nat, n: nat): (r: Option<(seq<Resource>, nat)>)
    requires base > 0 && base + lim <= |a| && pos <= lim
    ensures r.Some? ==> pos <= r.value.1 <= lim && |r.value.0| == n
    decreases n
  {
    if n == 0 then Some(([], pos))
    else
      match ReadResource(a, base, pos, lim)
      case None => None
      case Some(x) =>
        match ReadResources(a, base, x.1, lim, n - 1)
        case None => None
        case Some(rest) => Some(([x.0] + rest.0, rest.1))
  }

  /** The counts FromBytes accepts; counts from 0x8000 on are negative shorts and fail as array sizes. */
  predicate CountsAccepted(a: seq<u8>, base: nat)
    requires base + 12 <= |a|
  {
    && Be16(a, base + 4) <= 2 && Be16(a, base + 6) <= 50
    && Be16(a, base + 8) <= 50 && Be16(a, base + 10) <= 50
  }

  /** DnsPacket.FromBytes on the limit bytes from base. */
  function FromBytes(a: seq<u8>, base: nat, limit: nat): Option<Packet>
    requires base > 0 && base + limit <= |a|
  {
    if limit < 12 || limit > MAX_MESSAGE || !CountsAccepted(a, base) then None
    else
      match ReadQuestions(a, base, 12, limit, Be16(a, base + 4))
      case None => None
      case Some(qs) =>
        match ReadResources(a, base, qs.1, limit, Be16(a, base + 6))
        case None => None
        case Some(xs) =>
          match ReadResources(a, base, xs.1, limit, Be16(a, base + 8))
          case None => None
          case Some(ys) =>
            match ReadResources(a, base, ys.1, limit, Be16(a, base + 10))
            case None => None
            case Some(zs) => Some(Packet(limit, Be16(a, base), Be16(a, base + 2), qs.0, xs.0, ys.0, zs.0))
  }

  /** n questions and then m records, one after the other. */
  function ReadAll(a: seq<u8>, base: nat, limit: nat, n: nat, m: nat): Option<(seq<Question>, seq<Resource>)>
    requires base > 0 && base + limit <= |a| && 12 <= limit
  {
    match ReadQuestions(a, base, 12, limit, n)
    case None => None
    case Some(qs) =>
      match ReadResources(a, base, qs.1, limit, m)
      case None => None
      case Some(xs) => Some((qs.0, xs.0))
  }

  /**
    A message is taken exactly if it holds a header, has at most 512 bytes and at
    most 2, 50, 50 and 50 records of the four kinds, and these can be read one
    after the other; then it has as many of each as the header says.
  */
  lemma TakenIff(a: seq<u8>, base: nat, limit: nat)
    requires base > 0 && base + limit <= |a| && 12 <= limit
    ensures var n, x, y, z := Be16(a, base + 4), Be16(a, base + 6), Be16(a, base + 8), Be16(a, base + 10);
            var r, all := FromBytes(a, base, limit), ReadAll(a, base, limit, n, x + y + z);
            && (r.Some? <==> limit <= 512 && n <= 2 && x <= 50 && y <= 50 && z <= 50 && all.Some?)
            && (r.Some? && all.Some? ==>
                  var p := r.value;
                  && p.size == limit && p.id == Be16(a, base) && p.flags == Be16(a, base + 2)
                  && p.questions == all.value.0 && p.answers + p.authorities + p.extras == all.value.1
                  && |p.questions| == n && |p.answers| == x && |p.authorities| == y && |p.extras| == z)
  {
    var x: nat, y: nat, z: nat := Be16(a, base + 6), Be16(a, base + 8), Be16(a, base + 10);
    hide ReadQuestions, ReadResources, Be16;
    var qs := ReadQuestions(a, base, 12, limit, Be16(a, base + 4));
    if qs.Some? && CountsAccepted(a, base) {
      ThreeBatches(a, base, qs.value.1, limit, x, y, z);
    }
  }

  /** The three batches FromBytes reads. */
  function Batches(a: seq<u8>, base: nat, pos: nat, lim: nat, x: nat, y: nat, z: nat): Option<seq<Resource>>
    requires base > 0 && base + lim <= |a| && pos <= lim
  {
    match ReadResources(a, base, pos, lim, x)
    case None => None
    case Some(xs) =>
      match ReadResources(a, base, xs.1, lim, y)
      case None => None
      case Some(ys) =>
        match ReadResources(a, base, ys.1, lim, z)
        case None => None
        case Some(zs) => Some(xs.0 + ys.0 + zs.0)
  }

  lemma ThreeBatches(a: seq<u8>, base: nat, pos: nat, lim: nat, x: nat, y: nat, z: nat)
    requires base > 0 && base + lim <= |a| && pos <= lim
    ensures Batches(a, base, pos, lim, x, y, z) ==
            match ReadResources(a, base, pos, lim, x + y + z) case None => None case Some(r) => Some(r.0)
  {
    hide ReadResources;
    ResourcesJoin(a, base, pos, lim, x + y, z);
    ResourcesJoin(a, base, pos, lim, x, y);
    var both := ReadResources(a, base, pos, lim, x + y);
    assert both.None? ==> Batches(a, base, pos, lim, x, y, z) == None;
  }

  /** A message without a whole header is refused. */
  lemma ShortRefused(a: seq<u8>, base: nat, limit: nat)
    requires base > 0 && base + limit <= |a| && limit < 12
    ensures FromBytes(a, base, limit) == None
  {}

  /** Two batches of records read one after the other are one batch. */
  lemma {:induction false} ResourcesJoin(a: seq<u8>, base: nat, pos: nat, lim: nat, n: nat, m: nat)
    requires base > 0 && base + lim <= |a| && pos <= lim
    ensures ReadResources(a, base, pos, lim, n + m) ==
            match ReadResources(a, base, pos, lim, n)
            case None => None
            case Some(x) =>
              match ReadResources(a, base, x.1, lim, m)
              case None => None
              case Some(y) => Some((x.0 + y.0, y.1))
    decreases n
  {
    hide ReadResource;
    if n == 0 {
      var r := ReadResources(a, base, pos, lim, m);
      assert r.Some? ==> [] + r.value.0 == r.value.0;
    } else {
      var x := ReadResource(a, base, pos, lim);
      if x.Some? {
        ResourcesJoin(a, base, x.value.1, lim, n - 1, m);
        var y := ReadResources(a, base, x.value.1, lim, n - 1);
        if y.Some? {
          var z := ReadResources(a, base, y.value.1, lim, m);
          assert z.Some? ==> [x.value.0] + (y.value.0 + z.value.0) == [x.value.0] + y.value.0 + z.value.0;
        }
      }
    }
  }

  // ---------- tamperDnsResponse ----------

  /** ProxyConfig.getDnsTTL. */
  function DnsTtl(configured: int): (r: u32)
    requires configured < 0x8000_0000
    ensures r >= 30 && (r == configured || configured < r == 30)
  {
    if configured < 30 then 30 else configured
  }

  /** The answer record: the pointer 0xC00C, then type, class, time to live, length and address. */
  function Answer(q: Question, ttl: u32, ip: u32): (r: seq<u8>)
    ensures |r| == 16
  {
    [0xC0, 0x0C] + Bytes16(q.kind) + Bytes16(q.cls) + Bytes32(ttl) + [0, 4] + Bytes32(ip)
  }

  /** s written over a at i. */
  function Overwrite(a: seq<u8>, i: nat, s: seq<u8>): (r: seq<u8>)
    requires i + |s| <= |a|
    ensures |r| == |a| && At(r, i, s) && forall k | 0 <= k < |a| && !(i <= k < i + |s|) :: r[k] == a[k]
  {
    a[..i] + s + a[i + |s|..]
  }

  /** One answer, no authorities, no extras. */
  const COUNTS: seq<u8> := [0, 1, 0, 0, 0, 0]

  /** The array after tamperDnsResponse for the question q. */
  function Tampered(a: seq<u8>, base: nat, q: Question, ttl: u32, ip: u32): (r: seq<u8>)
    requires base + 12 <= q.offset && q.offset + q.length + 16 <= |a|
    ensures |r| == |a|
  {
    Overwrite(Overwrite(a, base + 6, COUNTS), q.offset + q.length, Answer(q, ttl, ip))
  }

  /** The size tamperDnsResponse sets. */
  function TamperedSize(q: Question): nat {
    12 + q.length + 16
  }

  // ---------- uncompressed names ----------

  /** The label at i. */
  function Word(a: seq<u8>, i: nat): seq<u8>
    requires i < |a| && i + 1 + a[i] <= |a|
  {
    a[i + 1..i + 1 + a[i]]
  }

  /** A name of plain labels from i up to e, its final zero included. */
  predicate Plain(a: seq<u8>, i: nat, e: nat)
    decreases e - i
  {
    && i < e <= |a|
    && (if a[i] == 0 then e == i + 1
        else a[i] < POINTER_BITS && i + 1 + a[i] < e && Plain(a, i + 1 + a[i], e))
  }

  /** The labels of a plain name, each followed by a dot. */
  function Dotted(a: seq<u8>, i: nat, e: nat): seq<u8>
    requires Plain(a, i, e)
    decreases e - i
  {
    if a[i] == 0 then [] else Word(a, i) + [DOT] + Dotted(a, i + 1 + a[i], e)
  }

  /** ReadDomain reads a plain name to its end. */
  lemma {:induction false} ReadsPlain(a: seq<u8>, base: nat, off: nat, pos: nat, lim: nat, sb: seq<u8>, e: nat)
    requires base > 0 && off + lim <= |a| && pos <= lim
    requires Plain(a, off + pos, e) && e <= off + lim
    ensures ReadName(a, base, off, pos, lim, sb) == Some((Strip(sb + Dotted(a, off + pos, e)), e - off))
    decreases e - (off + pos)
  {
    if a[off + pos] == 0 {
      assert sb + [] == sb;
    } else {
      var len: int := a[off + pos];
      var word := Word(a, off + pos);
      ReadsPlain(a, base, off, pos + 1 + len, lim, sb + word + [DOT], e);
      assert sb + (word + [DOT] + Dotted(a, off + (pos + 1 + len), e))
          == sb + word + [DOT] + Dotted(a, off + (pos + 1 + len), e);
    }
  }

  /** Labels from i up to e, where something else follows. */
  predicate Labels(a: seq<u8>, i: nat, e: nat)
    decreases e - i
  {
    i == e || (i < e <= |a| && 0 < a[i] < POINTER_BITS && i + 1 + a[i] <= e && Labels(a, i + 1 + a[i], e))
  }

  function LabelsDotted(a: seq<u8>, i: nat, e: nat): seq<u8>
    requires Labels(a, i, e)
    decreases e - i
  {
    if i == e then [] else Word(a, i) + [DOT] + LabelsDotted(a, i + 1 + a[i], e)
  }

  /** Where the fourteen bits of the pointer at e lead. */
  function Target(a: seq<u8>, base: nat, e: nat): nat
    requires e + 1 < |a| && a[e] >= 0xC0
  {
    var low: int := a[e + 1];
    base + ((a[e] - 0xC0) * 256 + low)
  }

  /** A name read, behind what was read before it. */
  function Behind(front: seq<u8>, r: Option<(seq<u8>, nat)>, next: nat): Option<(seq<u8>, nat)> {
    match r
    case None => None
    case Some(n) => Some((front + n.0, next))
  }

  /** A pointer is followed with a limit raised by where it leads, and fails if the array ends before that. */
  lemma FollowsPointer(a: seq<u8>, base: nat, off: nat, pos: nat, lim: nat, sb: seq<u8>)
    requires base > 0 && off + lim <= |a| && pos + 2 <= lim && a[off + pos] >= 0xC0
    ensures var start := Target(a, base, off + pos);
            ReadName(a, base, off, pos, lim, sb) ==
            if start + base + lim > |a| then None
            else Behind(sb, ReadName(a, base, 0, start, start + base + lim, []), pos + 2)
  {
    var low: int := a[off + pos + 1];
    assert a[off + pos] % 64 == a[off + pos] - 0xC0;
    assert Target(a, base, off + pos) == base + (a[off + pos] % 64 * 256 + low);
    assert Target(a, base, off + pos) + (base + lim) == Target(a, base, off + pos) + base + lim;
  }

  /** Labels are read one after the other. */
  lemma {:induction false} LabelsRead(a: seq<u8>, base: nat, off: nat, pos: nat, lim: nat, sb: seq<u8>, e: nat)
    requires base > 0 && off + lim <= |a| && pos <= lim
    requires Labels(a, off + pos, e) && off + pos <= e <= off + lim
    ensures ReadName(a, base, off, pos, lim, sb)
         == ReadName(a, base, off, e - off, lim, sb + LabelsDotted(a, off + pos, e))
    decreases e - (off + pos)
  {
    hide ReadName, Word;
    if off + pos == e {
      assert sb + [] == sb;
    } else {
      OneLabel(a, base, off, pos, lim, sb);
      LabelInFront(a, off + pos, e, sb);
      LabelsRead(a, base, off, pos + 1 + a[off + pos], lim, sb + Word(a, off + pos) + [DOT], e);
    }
  }

  /** Labels in front of a pointer come first, then the name it leads to. */
  lemma LabelsThenPointer(a: seq<u8>, base: nat, off: nat, pos: nat, lim: nat, sb: seq<u8>, e: nat)
    requires base > 0 && off + lim <= |a| && pos <= lim
    requires Labels(a, off + pos, e) && off + pos <= e && e + 2 <= off + lim && a[e] >= 0xC0
    ensures var start := Target(a, base, e);
            ReadName(a, base, off, pos, lim, sb) ==
            if start + base + lim > |a| then None
            else Behind(sb + LabelsDotted(a, off + pos, e),
                        ReadName(a, base, 0, start, start + base + lim, []), e + 2 - off)
  {
    hide ReadName, Behind, Target, Labels, LabelsDotted;
    LabelsRead(a, base, off, pos, lim, sb, e);
    FollowsPointer(a, base, off, e - off, lim, sb + LabelsDotted(a, off + pos, e));
  }

  /**
    Without a final zero a name ends with the message: behind a whole label the last
    dot goes, as it does at a zero; a label cut short keeps its dot, and a pointer
    cut in two is refused.
  */
  lemma LabelsThenEnd(a: seq<u8>, base: nat, pos: nat, lim: nat, e: nat)
    requires base > 0 && base + lim <= |a| && pos <= lim
    requires Labels(a, base + pos, e) && base + pos <= e <= base + lim
    requires e < base + lim ==> a[e] > 0 && e + 1 + a[e] > base + lim
    ensures var front := LabelsDotted(a, base + pos, e);
            ReadName(a, base, base, pos, lim, []) ==
            if e == base + lim then Some((Strip(front), lim))
            else if a[e] < 0xC0 then Some((front + a[e + 1..base + lim] + [DOT], lim))
            else if e + 1 == base + lim then None
            else ReadName(a, base, base, e - base, lim, front)
  {
    LabelsRead(a, base, base, pos, lim, [], e);
    hide Labels, LabelsDotted;
    assert [] + LabelsDotted(a, base + pos, e) == LabelsDotted(a, base + pos, e);
  }

  lemma LabelInFront(a: seq<u8>, i: nat, e: nat, sb: seq<u8>)
    requires Labels(a, i, e) && i != e
    ensures sb + LabelsDotted(a, i, e) == sb + Word(a, i) + [DOT] + LabelsDotted(a, i + 1 + a[i], e)
  {
    assert sb + (Word(a, i) + [DOT] + LabelsDotted(a, i + 1 + a[i], e))
        == sb + Word(a, i) + [DOT] + LabelsDotted(a, i + 1 + a[i], e);
  }

  lemma OneLabel(a: seq<u8>, base: nat, off: nat, pos: nat, lim: nat, sb: seq<u8>)
    requires base > 0 && off + lim <= |a| && pos < lim
    requires 0 < a[off + pos] < POINTER_BITS && pos + 1 + a[off + pos] <= lim
    ensures ReadName(a, base, off, pos, lim, sb)
         == ReadName(a, base, off, pos + 1 + a[off + pos], lim, sb + Word(a, off + pos) + [DOT])
  {
    var len: int := a[off + pos];
  }

  /** So labels and a pointer to a plain name read as the labels and that name. */
  lemma LabelsThenName(a: seq<u8>, base: nat, pos: nat, lim: nat, e: nat, start: nat, end: nat)
    requires base > 0 && pos <= lim && start + base + lim <= |a|
    requires Labels(a, base + pos, e) && base + pos <= e && e + 2 <= base + lim && base + lim <= |a|
    requires a[e] >= 0xC0 && start == Target(a, base, e)
    requires Plain(a, start, end) && end <= start + base + lim
    ensures ReadName(a, base, base, pos, lim, []) ==
            Some((LabelsDotted(a, base + pos, e) + Strip(Dotted(a, start, end)), e + 2 - base))
  {
    LabelsThenPointer(a, base, base, pos, lim, [], e);
    ReadsPlain(a, base, 0, start, start + base + lim, [], end);
    hide ReadName, Plain, Labels;
    assert [] + Dotted(a, start, end) == Dotted(a, start, end);
    assert [] + LabelsDotted(a, base + pos, e) == LabelsDotted(a, base + pos, e);
  }

  /** b holds the bytes of a from i up to e. */
  predicate Same(a: seq<u8>, b: seq<u8>, i: nat, e: nat) {
    |a| == |b| && e <= |a| && forall k | i <= k < e :: b[k] == a[k]
  }

  /** A plain name depends only on its own bytes. */
  lemma {:induction false} PlainMoves(a: seq<u8>, b: seq<u8>, i: nat, e: nat)
    requires Plain(a, i, e) && Same(a, b, i, e)
    ensures Plain(b, i, e)
    decreases e - i
  {
    if a[i] == 0 {
    } else {
      var len: int := a[i];
      PlainMoves(a, b, i + 1 + len, e);
    }
  }

  lemma WordMoves(a: seq<u8>, b: seq<u8>, i: nat, e: nat)
    requires Same(a, b, i, e) && i < e && i + 1 + a[i] <= e
    ensures b[i] == a[i] && Word(b, i) == Word(a, i)
  {}

  lemma {:induction false} DottedMoves(a: seq<u8>, b: seq<u8>, i: nat, e: nat)
    requires Plain(a, i, e) && Plain(b, i, e) && Same(a, b, i, e)
    ensures Dotted(b, i, e) == Dotted(a, i, e)
    decreases e - i
  {
    if a[i] == 0 {
    } else {
      WordMoves(a, b, i, e);
      DottedMoves(a, b, i + 1 + a[i], e);
    }
  }

  // ---------- the main results ----------

  /** A name that points at itself is refused, whatever surrounds it. */
  lemma {:induction false} PointerCycleFails(a: seq<u8>, base: nat, off: nat, pos: nat, lim: nat, sb: seq<u8>)
    requires base > 0 && off + lim <= |a| && pos + 2 <= lim
    requires base + 12 == off + pos && base + 14 <= |a|
    requires a[base + 12] == 0xC0 && a[base + 13] == 12
    ensures ReadName(a, base, off, pos, lim, sb) == None
    decreases |a| - lim
  {
    var start := base + 12;
    if start + (base + lim) > |a| {
    } else {
      PointerCycleFails(a, base, 0, start, start + (base + lim), []);
    }
  }

  function QuestionOf(a: seq<u8>, base: nat, e: nat): Question
    requires Plain(a, base + 12, e) && e + 4 <= |a|
  {
    Question(Strip(Dotted(a, base + 12, e)), Be16(a, e), Be16(a, e + 2), base + 12, e - base - 8)
  }

  /** A question with a plain name is read as its dotted name, two fields and its extent. */
  lemma QuestionAt(a: seq<u8>, base: nat, lim: nat, e: nat)
    requires base > 0 && base + lim <= |a| && 12 <= lim
    requires Plain(a, base + 12, e) && e + 4 <= base + lim
    ensures ReadQuestion(a, base, 12, lim)
         == Some((QuestionOf(a, base, e), e + 4 - base))
  {
    ReadsPlain(a, base, base, 12, lim, [], e);
    assert [] + Dotted(a, base + 12, e) == Dotted(a, base + 12, e);
  }

  /** A record whose name is the pointer 0xC00C gets the question's name. */
  lemma PointedName(a: seq<u8>, base: nat, pos: nat, lim: nat, e: nat)
    requires base > 0 && base + lim <= |a| && pos + 2 <= lim && 2 * base + 12 + lim <= |a|
    requires a[base + pos] == 0xC0 && a[base + pos + 1] == 12 && Plain(a, base + 12, e) && e <= base + lim
    ensures ReadName(a, base, base, pos, lim, []) == Some((Strip(Dotted(a, base + 12, e)), pos + 2))
  {
    var start := base + 12;
    ReadsPlain(a, base, 0, start, start + (base + lim), [], e);
    assert [] + Dotted(a, base + 12, e) == Dotted(a, base + 12, e);
    assert [] + Strip(Dotted(a, base + 12, e)) == Strip(Dotted(a, base + 12, e));
  }

  /** The fields of the answer record where it was written. */
  predicate AnswerStands(d: seq<u8>, i: nat, q: Question, ttl: u32, ip: u32) {
    && i + 16 <= |d| && d[i] == 0xC0 && d[i + 1] == 12
    && Be16(d, i + 2) == q.kind && Be16(d, i + 4) == q.cls && Be32(d, i + 6) == ttl
    && Be16(d, i + 10) == 4 && d[i + 12..i + 16] == Bytes32(ip)
  }

  lemma AnswerFields(d: seq<u8>, i: nat, q: Question, ttl: u32, ip: u32)
    requires At(d, i, Answer(q, ttl, ip))
    ensures AnswerStands(d, i, q, ttl, ip)
  {
    var s := Answer(q, ttl, ip);
    forall k | 0 <= k < 16
      ensures d[i + k] == s[k]
    {
      AtIndex(d, i, s, k);
    }
    assert d[i] == s[0] && d[i + 1] == s[1] && d[i + 2] == s[2] && d[i + 3] == s[3];
    assert d[i + 4] == s[4] && d[i + 5] == s[5] && d[i + 6] == s[6] && d[i + 7] == s[7];
    assert d[i + 8] == s[8] && d[i + 9] == s[9] && d[i + 10] == s[10] && d[i + 11] == s[11];
    assert d[i + 12] == s[12] && d[i + 13] == s[13] && d[i + 14] == s[14] && d[i + 15] == s[15];
  }

  /** What a one-question message reads as: only its question matters here. */
  lemma OneQuestion(a: seq<u8>, base: nat, limit: nat, e: nat)
    requires base > 0 && base + limit <= |a| && Plain(a, base + 12, e) && e <= base + limit
    requires FromBytes(a, base, limit).Some? && Be16(a, base + 4) == 1
    ensures 16 <= e + 4 - base <= limit
    ensures FromBytes(a, base, limit).value.questions == [ReadQuestion(a, base, 12, limit).value.0]
    ensures ReadQuestion(a, base, 12, limit) == Some((QuestionOf(a, base, e), e + 4 - base))
  {
    ReadsPlain(a, base, base, 12, limit, [], e);
    assert ReadQuestion(a, base, 12, limit).Some?;
    QuestionAt(a, base, limit, e);
  }

  /** The array holds the message with room behind it, as the 2000 bytes of the receive buffer do. */
  predicate Room(a: seq<u8>, base: nat) {
    base > 0 && 2 * base + 12 + MAX_MESSAGE + 16 <= |a|
  }

  /** The array holds a plain name at the question of a message, and the question's fields. */
  predicate PlainQuestion(a: seq<u8>, base: nat, e: nat) {
    Room(a, base) && Plain(a, base + 12, e) && e + 4 <= base + MAX_MESSAGE
  }

  lemma AtSame(a: seq<u8>, b: seq<u8>, i: nat, s: seq<u8>)
    requires At(a, i, s) && Same(a, b, i, i + |s|)
    ensures At(b, i, s)
  {}

  lemma TamperedFacts(a: seq<u8>, base: nat, e: nat, q: Question, ttl: u32, ip: u32)
    requires PlainQuestion(a, base, e) && q.offset == base + 12 && q.length == e - base - 8
    ensures var d := Tampered(a, base, q, ttl, ip);
            && Same(a, d, base + 12, e + 4) && Same(a, d, base, base + 6)
            && At(d, base + 6, COUNTS) && At(d, e + 4, Answer(q, ttl, ip))
  {
    assert base + 12 < e <= |a| && e + 20 <= |a|;
    hide Overwrite, Answer, Plain;
    var m := Overwrite(a, base + 6, COUNTS);
    var d := Overwrite(m, e + 4, Answer(q, ttl, ip));
    AtSame(m, d, base + 6, COUNTS);
  }

  lemma WrittenCounts(d: seq<u8>, base: nat)
    requires At(d, base + 6, COUNTS)
    ensures base + 12 <= |d| && Be16(d, base + 6) == 1 && Be16(d, base + 8) == 0 && Be16(d, base + 10) == 0
  {
    AtIndex(d, base + 6, COUNTS, 0);
    AtIndex(d, base + 6, COUNTS, 1);
    AtIndex(d, base + 6, COUNTS, 2);
    AtIndex(d, base + 6, COUNTS, 3);
    AtIndex(d, base + 6, COUNTS, 4);
    AtIndex(d, base + 6, COUNTS, 5);
  }

  /** The question is still the same. */
  lemma QuestionStays(a: seq<u8>, d: seq<u8>, base: nat, e: nat)
    requires PlainQuestion(a, base, e) && Same(a, d, base + 12, e + 4)
    ensures Plain(d, base + 12, e) && QuestionOf(d, base, e) == QuestionOf(a, base, e)
  {
    PlainMoves(a, d, base + 12, e);
    DottedMoves(a, d, base + 12, e);
  }

  /** A record is its name, type, class, time to live and as many bytes of data as its length says. */
  lemma ResourceAt(d: seq<u8>, base: nat, pos: nat, lim: nat, name: seq<u8>, p: nat, n: nat)
    requires base > 0 && base + lim <= |d| && pos <= lim && p + 10 + n <= lim
    requires ReadName(d, base, base, pos, lim, []) == Some((name, p)) && Be16(d, base + p + 8) == n
    ensures ReadResource(d, base, pos, lim)
         == Some((Resource(name, Be16(d, base + p), Be16(d, base + p + 2), Be32(d, base + p + 4),
                           d[base + p + 10..base + p + 10 + n]), p + 10 + n))
  {}

  /** The record tamperDnsResponse means to write. */
  function Intended(q: Question, ttl: u32, ip: u32): Resource {
    Resource(q.domain, q.kind, q.cls, ttl, Bytes32(ip))
  }

  /** The record written reads as intended once its pointer leads to the question's name. */
  lemma AnswerReads(d: seq<u8>, base: nat, pos: nat, q: Question, ttl: u32, ip: u32)
    requires base > 0 && AnswerStands(d, base + pos, q, ttl, ip)
    requires ReadName(d, base, base, pos, pos + 16, []) == Some((q.domain, pos + 2))
    ensures ReadResource(d, base, pos, pos + 16) == Some((Intended(q, ttl, ip), pos + 16))
  {
    ResourceAt(d, base, pos, pos + 16, q.domain, pos + 2, 4);
  }

  lemma PointedAnswer(d: seq<u8>, base: nat, e: nat, q: Question, ttl: u32, ip: u32)
    requires PlainQuestion(d, base, e) && q.domain == Strip(Dotted(d, base + 12, e))
    requires AnswerStands(d, e + 4, q, ttl, ip)
    ensures ReadResource(d, base, e + 4 - base, e + 20 - base) == Some((Intended(q, ttl, ip), e + 20 - base))
  {
    hide ReadName, ReadResource, Plain, Dotted, Be16, Be32, Bytes32, Intended;
    PlainExtent(d, base + 12, e);
    var pos: nat := e + 4 - base;
    assert base + pos == e + 4 && pos + 16 == e + 20 - base;
    PointedName(d, base, pos, pos + 16, e);
    AnswerReads(d, base, pos, q, ttl, ip);
  }

  lemma PlainExtent(a: seq<u8>, i: nat, e: nat)
    requires Plain(a, i, e)
    ensures i < e <= |a|
  {}

  lemma OneQuestionRead(d: seq<u8>, base: nat, size: nat, q: Question, p: nat)
    requires base > 0 && base + size <= |d| && 12 <= p <= size
    requires ReadQuestion(d, base, 12, size) == Some((q, p))
    ensures ReadQuestions(d, base, 12, size, 1) == Some(([q], p))
  {
    assert ReadQuestions(d, base, p, size, 0) == Some(([], p));
    assert [q] + [] == [q];
  }

  lemma OneResourceRead(d: seq<u8>, base: nat, p: nat, size: nat, x: Resource)
    requires base > 0 && base + size <= |d| && p <= size
    requires ReadResource(d, base, p, size) == Some((x, size))
    ensures ReadResources(d, base, p, size, 1) == Some(([x], size))
  {
    assert ReadResources(d, base, size, size, 0) == Some(([], size));
    assert [x] + [] == [x];
  }

  lemma OneOfEach(d: seq<u8>, base: nat, size: nat, q: Question, p: nat, x: Resource)
    requires base > 0 && base + size <= |d| && 12 <= p <= size <= MAX_MESSAGE
    requires Be16(d, base + 4) == 1 && Be16(d, base + 6) == 1 && Be16(d, base + 8) == 0 && Be16(d, base + 10) == 0
    requires ReadQuestion(d, base, 12, size) == Some((q, p))
    requires ReadResource(d, base, p, size) == Some((x, size))
    ensures FromBytes(d, base, size) == Some(Packet(size, Be16(d, base), Be16(d, base + 2), [q], [x], [], []))
  {
    OneQuestionRead(d, base, size, q, p);
    OneResourceRead(d, base, p, size, x);
    assert ReadResources(d, base, size, size, 0) == Some(([], size));
  }

  /** d holds the question of a and the answer record for it. */
  ghost predicate Stands(a: seq<u8>, d: seq<u8>, base: nat, e: nat, q: Question, ttl: u32, ip: u32) {
    && PlainQuestion(d, base, e) && base + 12 <= |a| && q == QuestionOf(d, base, e)
    && Be16(d, base) == Be16(a, base)
    && Be16(d, base + 2) == Be16(a, base + 2) && Be16(d, base + 4) == Be16(a, base + 4)
    && Be16(d, base + 6) == 1 && Be16(d, base + 8) == 0 && Be16(d, base + 10) == 0
    && AnswerStands(d, e + 4, q, ttl, ip)
  }

  lemma CountsStand(a: seq<u8>, d: seq<u8>, base: nat, e: nat, q: Question, ttl: u32, ip: u32)
    requires PlainQuestion(d, base, e) && q == QuestionOf(d, base, e) && base + 12 <= |a|
    requires Same(a, d, base, base + 6) && At(d, base + 6, COUNTS) && AnswerStands(d, e + 4, q, ttl, ip)
    ensures Stands(a, d, base, e, q, ttl, ip)
  {
    WrittenCounts(d, base);
  }

  lemma WrittenStands(a: seq<u8>, d: seq<u8>, base: nat, e: nat, q: Question, ttl: u32, ip: u32)
    requires PlainQuestion(a, base, e) && q == QuestionOf(a, base, e)
    requires Same(a, d, base + 12, e + 4) && Same(a, d, base, base + 6)
    requires At(d, base + 6, COUNTS) && At(d, e + 4, Answer(q, ttl, ip))
    ensures Stands(a, d, base, e, q, ttl, ip)
  {
    AnswerFields(d, e + 4, q, ttl, ip);
    QuestionStays(a, d, base, e);
    CountsStand(a, d, base, e, q, ttl, ip);
  }

  lemma StandingReads(a: seq<u8>, d: seq<u8>, base: nat, e: nat, q: Question, ttl: u32, ip: u32)
    requires Stands(a, d, base, e, q, ttl, ip) && Be16(a, base + 4) == 1 && e + 20 - base <= MAX_MESSAGE
    ensures FromBytes(d, base, e + 20 - base)
         == Some(Packet(e + 20 - base, Be16(a, base), Be16(a, base + 2), [q], [Intended(q, ttl, ip)], [], []))
  {
    hide FromBytes, Plain, Dotted;
    assert ReadQuestion(d, base, 12, e + 20 - base) == Some((q, e + 4 - base)) by {
      QuestionAt(d, base, e + 20 - base, e);
    }
    PointedAnswer(d, base, e, q, ttl, ip);
    OneOfEach(d, base, e + 20 - base, q, e + 4 - base, Intended(q, ttl, ip));
  }

  lemma TamperedReads(a: seq<u8>, d: seq<u8>, base: nat, e: nat, q: Question, ttl: u32, ip: u32)
    requires PlainQuestion(a, base, e) && q == QuestionOf(a, base, e)
    requires Same(a, d, base + 12, e + 4) && Same(a, d, base, base + 6)
    requires At(d, base + 6, COUNTS) && At(d, e + 4, Answer(q, ttl, ip))
    requires Be16(a, base + 4) == 1 && TamperedSize(q) <= MAX_MESSAGE
    ensures FromBytes(d, base, TamperedSize(q))
         == Some(Packet(TamperedSize(q), Be16(a, base), Be16(a, base + 2), [q], [Intended(q, ttl, ip)], [], []))
  {
    hide FromBytes;
    WrittenStands(a, d, base, e, q, ttl, ip);
    StandingReads(a, d, base, e, q, ttl, ip);
  }

  /**
    For every message with one question and an uncompressed name: what tamperDnsResponse
    leaves parses back exactly when it is at most 512 bytes, and then to the same question
    and one answer with the question's name and the address.
  */
  lemma TamperedParsesBack(a: seq<u8>, base: nat, limit: nat, e: nat, configured: int, ip: u32)
    requires Room(a, base) && limit <= MAX_MESSAGE && configured < 0x8000_0000
    requires FromBytes(a, base, limit).Some? && Be16(a, base + 4) == 1
    requires Plain(a, base + 12, e) && e <= base + limit
    ensures |FromBytes(a, base, limit).value.questions| == 1
    ensures var p := FromBytes(a, base, limit).value;
            var q := p.questions[0];
            var size := TamperedSize(q);
            && q.offset == base + 12 && q.length <= limit - 12
            && var r := FromBytes(Tampered(a, base, q, DnsTtl(configured), ip), base, size);
            && (r.Some? <==> size <= MAX_MESSAGE)
            && (r.Some? ==>
                  r.value == Packet(size, p.id, p.flags, [q], [Intended(q, DnsTtl(configured), ip)], [], []))
  {
    OneQuestion(a, base, limit, e);
    var q, ttl := QuestionOf(a, base, e), DnsTtl(configured);
    if TamperedSize(q) <= MAX_MESSAGE {
      TamperedFacts(a, base, e, q, ttl, ip);
      TamperedReads(a, Tampered(a, base, q, ttl, ip), base, e, q, ttl, ip);
    }
  }
}
