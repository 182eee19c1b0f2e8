/**
  The ByteBuffer loops of DnsPacket.java, and tamperDnsResponse writing into the
  packet array. A failed read is an exception in the source.
*/
module DnsBuffer {
  import opened Words
  import opened Layout
  import opened Dns

  /** A reading method ended as its specification says: with the same value, at the same position. */
  ghost predicate Is<T(!new)>(spec: Option<(T, nat)>, r: Option<T>, position: nat) {
    spec == if r.None? then None else Some((r.value, position))
  }

  /** A list read so far, and what is still to be read of it. */
  ghost predicate Continues<T(!new)>(whole: Option<(seq<T>, nat)>, done: seq<T>, rest: Option<(seq<T>, nat)>) {
    whole == if rest.None? then None else Some((done + rest.value.0, rest.value.1))
  }

  lemma NothingDone<T(!new)>(whole: Option<(seq<T>, nat)>)
    ensures Continues(whole, [], whole)
  {
    if whole.Some? {
      assert [] + whole.value.0 == whole.value.0;
    }
  }

  lemma OneMoreDone<T(!new)>(whole: Option<(seq<T>, nat)>, done: seq<T>, before: Option<(seq<T>, nat)>, x: T,
                                   after: Option<(seq<T>, nat)>)
    requires Continues(whole, done, before) && Continues(before, [x], after)
    ensures Continues(whole, done + [x], after)
  {
    if after.Some? {
      assert done + ([x] + after.value.0) == done + [x] + after.value.0;
    }
  }

  /** The name behind a pointer whose low byte is at pos. */
  ghost function PointedAt(a: seq<u8>, base: nat, off: nat, pos: nat, lim: nat, len: nat): Option<seq<u8>>
    requires base > 0 && off + lim <= |a| && pos <= lim
  {
    if pos == lim then None
    else
      var low: int := a[off + pos];
      var start := base + (len % 64 * 256 + low);
      if start + (base + lim) > |a| then None
      else
        var name := ReadName(a, base, 0, start, start + (base + lim), []);
        if name.None? then None else Some(name.value.0)
  }

  /** One round of ReadDomain. */
  lemma NameStep(a: seq<u8>, base: nat, off: nat, pos: nat, lim: nat, sb: seq<u8>)
    requires base > 0 && off + lim <= |a| && pos <= lim
    ensures var name := ReadName(a, base, off, pos, lim, sb);
            if pos == lim then name == Some((Strip(sb), pos))
            else
              var len: int := a[off + pos];
              var end := if pos + 1 + len <= lim then pos + 1 + len else lim;
              if len == 0 then name == Some((Strip(sb), pos + 1))
              else if len >= POINTER_BITS then
                var rest := PointedAt(a, base, off, pos + 1, lim, len);
                name == if rest.None? then None else Some((sb + rest.value, pos + 2))
              else
                var more := sb + a[off + pos + 1..off + end] + [DOT];
                name == if pos + 1 + len > lim then Some((more, lim)) else ReadName(a, base, off, end, lim, more)
  {}

  lemma QuestionsStep(a: seq<u8>, base: nat, pos: nat, lim: nat, n: nat)
    requires base > 0 && base + lim <= |a| && pos <= lim && n > 0
    ensures var q, whole := ReadQuestion(a, base, pos, lim), ReadQuestions(a, base, pos, lim, n);
            if q.None? then whole.None?
            else Continues(whole, [q.value.0], ReadQuestions(a, base, q.value.1, lim, n - 1))
  {}

  lemma ResourcesStep(a: seq<u8>, base: nat, pos: nat, lim: nat, n: nat)
    requires base > 0 && base + lim <= |a| && pos <= lim && n > 0
    ensures var x, whole := ReadResource(a, base, pos, lim), ReadResources(a, base, pos, lim, n);
            if x.None? then whole.None?
            else Continues(whole, [x.value.0], ReadResources(a, base, x.value.1, lim, n - 1))
  {}

  /** A ByteBuffer over part of an array. */
  class Buffer {
    const data: array<u8>
    const arrayOffset: nat
    var position: nat
    var limit: nat

    /** ByteBuffer.wrap(array, offset, length), and a slice of it when arrayOffset is not 0. */
    constructor (data: array<u8>, arrayOffset: nat, position: nat, limit: nat)
      requires arrayOffset + limit <= data.Length && position <= limit
      ensures this.data == data && this.arrayOffset == arrayOffset
      ensures this.position == position && this.limit == limit
      ensures Valid()
    {
      this.data, this.arrayOffset, this.position, this.limit := data, arrayOffset, position, limit;
    }

    ghost predicate Valid()
      reads this
    {
      arrayOffset + limit <= data.Length && position <= limit
    }

    /** The inner loop of ReadDomain: what is there of a label, and a dot. */
    method ReadLabel(length: nat, before: seq<u8>) returns (sb: seq<u8>, len: nat)
      requires Valid()
      modifies this
      ensures Valid() && limit == old(limit)
      ensures position == if old(position) + length <= limit then old(position) + length else limit
      ensures len == length - (position - old(position))
      ensures sb == before + data[arrayOffset + old(position)..arrayOffset + position] + [DOT]
    {
      sb, len := before, length;
      while len > 0 && position < limit
        invariant Valid() && limit == old(limit) && old(position) <= position
        invariant len == length - (position - old(position))
        invariant sb == before + data[arrayOffset + old(position)..arrayOffset + position]
        decreases len
      {
        sb := sb + [data[arrayOffset + position]];
        position := position + 1;
        len := len - 1;
      }
      sb := sb + [DOT];
    }

    /** The low byte of a pointer, and the name it leads to in the array wrapped anew. */
    method FollowPointer(len: nat, headerOffset: nat) returns (r: Option<seq<u8>>)
      requires Valid() && headerOffset > 0 && len < 256
      modifies this
      ensures Valid() && limit == old(limit)
      ensures r == PointedAt(data[..], headerOffset, arrayOffset, old(position), limit, len)
      ensures r.Some? ==> position == old(position) + 1
      decreases data.Length - limit, 0
    {
      if position == limit {
        return None;
      }
      var low: int := data[arrayOffset + position];
      var start := headerOffset + (len % 64 * 256 + low);
      position := position + 1;
      if start + (headerOffset + limit) > data.Length {
        return None;
      }
      var newBuffer := new Buffer(data, 0, start, start + (headerOffset + limit));
      r := newBuffer.ReadDomain(headerOffset);
    }

    /** ReadDomain; headerOffset is where the message starts. */
    method ReadDomain(headerOffset: nat) returns (r: Option<seq<u8>>)
      requires Valid() && headerOffset > 0
      modifies this
      ensures Valid() && limit == old(limit)
      ensures Is(ReadName(data[..], headerOffset, arrayOffset, old(position), limit, []), r, position)
      decreases data.Length - limit, 1
    {
      hide ReadName;
      var sb: seq<u8> := [];
      var len: nat := 0;
      ghost var name := ReadName(data[..], headerOffset, arrayOffset, position, limit, []);
      while position < limit
        invariant Valid() && limit == old(limit)
        invariant len > 0 ==> position == limit && name == Some((sb, position))
        invariant len == 0 ==> name == ReadName(data[..], headerOffset, arrayOffset, position, limit, sb)
        decreases limit - position
      {
        NameStep(data[..], headerOffset, arrayOffset, position, limit, sb);
        len := data[arrayOffset + position];
        position := position + 1;
        if len == 0 {
          r := Some(Strip(sb));
          return;
        }
        if len >= POINTER_BITS {
          var rest := FollowPointer(len, headerOffset);
          return if rest.None? then None else Some(sb + rest.value);
        }
        sb, len := ReadLabel(len, sb);
      }
      NameStep(data[..], headerOffset, arrayOffset, position, limit, sb);
      r := Some(if len == 0 then Strip(sb) else sb);
    }

    /** getShort. */
    method GetShort() returns (r: Option<u16>)
      requires Valid()
      modifies this
      ensures Valid() && limit == old(limit)
      ensures r.Some? <==> old(position) + 2 <= limit
      ensures r.Some? ==> position == old(position) + 2 && r.value == Be16(data[..], arrayOffset + old(position))
    {
      if position + 2 > limit {
        return None;
      }
      r := Some(Be16(data[..], arrayOffset + position));
      position := position + 2;
    }

    /** Question.FromBytes. */
    method QuestionFromBytes() returns (r: Option<Question>)
      requires Valid() && arrayOffset > 0
      modifies this
      ensures Valid() && limit == old(limit)
      ensures Is(ReadQuestion(data[..], arrayOffset, old(position), limit), r, position)
    {
      hide ReadName;
      var offset := arrayOffset + position;
      var domain := ReadDomain(arrayOffset);
      if domain.None? {
        return None;
      }
      var kind := GetShort();
      if kind.None? {
        return None;
      }
      var cls := GetShort();
      if cls.None? {
        return None;
      }
      r := Some(Question(domain.value, kind.value, cls.value, offset, arrayOffset + position - offset));
    }

    /** Resource.FromBytes. */
    method ResourceFromBytes() returns (r: Option<Resource>)
      requires Valid() && arrayOffset > 0
      modifies this
      ensures Valid() && limit == old(limit)
      ensures Is(ReadResource(data[..], arrayOffset, old(position), limit), r, position)
    {
      hide ReadName;
      var domain := ReadDomain(arrayOffset);
      if domain.None? || position + 10 > limit {
        return None;
      }
      var p := arrayOffset + position;
      var kind, cls := Be16(data[..], p), Be16(data[..], p + 2);
      var ttl, length := Be32(data[..], p + 4), Be16(data[..], p + 8);
      position := position + 10;
      if position + length > limit {
        return None;
      }
      r := Some(Resource(domain.value, kind, cls, ttl, data[arrayOffset + position..arrayOffset + position + length]));
      position := position + length;
    }

    /** The loop of FromBytes over questions. */
    method ReadAllQuestions(n: nat) returns (r: Option<seq<Question>>)
      requires Valid() && arrayOffset > 0
      modifies this
      ensures Valid() && limit == old(limit)
      ensures Is(ReadQuestions(data[..], arrayOffset, old(position), limit, n), r, position)
    {
      hide ReadQuestion;
      var questions: seq<Question> := [];
      ghost var whole := ReadQuestions(data[..], arrayOffset, position, limit, n);
      NothingDone(whole);
      while |questions| < n
        invariant Valid() && limit == old(limit) && |questions| <= n
        invariant Continues(whole, questions, ReadQuestions(data[..], arrayOffset, position, limit, n - |questions|))
        decreases n - |questions|
      {
        ghost var rest := ReadQuestions(data[..], arrayOffset, position, limit, n - |questions|);
        QuestionsStep(data[..], arrayOffset, position, limit, n - |questions|);
        var q := QuestionFromBytes();
        if q.None? {
          return None;
        }
        OneMoreDone(whole, questions, rest, q.value,
                    ReadQuestions(data[..], arrayOffset, position, limit, n - |questions| - 1));
        questions := questions + [q.value];
      }
      assert questions + [] == questions;
      r := Some(questions);
    }

    /** The loops of FromBytes over resources. */
    method ReadAllResources(n: nat) returns (r: Option<seq<Resource>>)
      requires Valid() && arrayOffset > 0
      modifies this
      ensures Valid() && limit == old(limit)
      ensures Is(ReadResources(data[..], arrayOffset, old(position), limit, n), r, position)
    {
      hide ReadResource;
      var resources: seq<Resource> := [];
      ghost var whole := ReadResources(data[..], arrayOffset, position, limit, n);
      NothingDone(whole);
      while |resources| < n
        invariant Valid() && limit == old(limit) && |resources| <= n
        invariant Continues(whole, resources, ReadResources(data[..], arrayOffset, position, limit, n - |resources|))
        decreases n - |resources|
      {
        ghost var rest := ReadResources(data[..], arrayOffset, position, limit, n - |resources|);
        ResourcesStep(data[..], arrayOffset, position, limit, n - |resources|);
        var x := ResourceFromBytes();
        if x.None? {
          return None;
        }
        OneMoreDone(whole, resources, rest, x.value,
                    ReadResources(data[..], arrayOffset, position, limit, n - |resources| - 1));
        resources := resources + [x.value];
      }
      assert resources + [] == resources;
      r := Some(resources);
    }
  }

  /** DnsPacket.FromBytes on a slice of the array that was just cleared and limited. */
  method PacketFromBytes(data: array<u8>, base: nat, limit: nat) returns (r: Option<Packet>)
    requires base > 0 && base + limit <= data.Length
    ensures r == FromBytes(data[..], base, limit)
  {
    if limit < 12 || limit > MAX_MESSAGE || !CountsAccepted(data[..], base) {
      return None;
    }
    var buffer := new Buffer(data, base, 12, limit);
    var questions := buffer.ReadAllQuestions(Be16(data[..], base + 4));
    if questions.None? {
      return None;
    }
    var answers := buffer.ReadAllResources(Be16(data[..], base + 6));
    if answers.None? {
      return None;
    }
    var authorities := buffer.ReadAllResources(Be16(data[..], base + 8));
    if authorities.None? {
      return None;
    }
    var extras := buffer.ReadAllResources(Be16(data[..], base + 10));
    if extras.None? {
      return None;
    }
    r := Some(Packet(limit, Be16(data[..], base), Be16(data[..], base + 2), questions.value,
                     answers.value, authorities.value, extras.value));
  }

  /** The counts and the answer record, field by field; the result is the packet's new size. */
  method TamperDnsResponse(rawPacket: array<u8>, base: nat, q: Question, ttl: u32, newIp: u32) returns (size: nat)
    requires base + 12 <= q.offset && q.offset + q.length + 16 <= rawPacket.Length
    modifies rawPacket
    ensures rawPacket[..] == Tampered(old(rawPacket[..]), base, q, ttl, newIp)
    ensures size == TamperedSize(q)
  {
    WriteCounts(rawPacket, base);
    WriteAnswer(rawPacket, q.offset + q.length, q, ttl, newIp);
    size := 12 + q.length + 16;
  }

  method WriteCounts(rawPacket: array<u8>, base: nat)
    requires base + 12 <= rawPacket.Length
    modifies rawPacket
    ensures rawPacket[..] == Overwrite(old(rawPacket[..]), base + 6, COUNTS)
  {
    StoreShort(rawPacket, base + 6, 1);
    StoreShort(rawPacket, base + 8, 0);
    StoreShort(rawPacket, base + 10, 0);
  }

  /** ResourcePointer's setters. */
  method WriteAnswer(rawPacket: array<u8>, offset: nat, q: Question, ttl: u32, newIp: u32)
    requires offset + 16 <= rawPacket.Length
    modifies rawPacket
    ensures rawPacket[..] == Overwrite(old(rawPacket[..]), offset, Answer(q, ttl, newIp))
  {
    StoreShort(rawPacket, offset, 0xC00C);
    StoreShort(rawPacket, offset + 2, q.kind);
    StoreShort(rawPacket, offset + 4, q.cls);
    StoreInt(rawPacket, offset + 6, ttl);
    StoreShort(rawPacket, offset + 10, 4);
    StoreInt(rawPacket, offset + 12, newIp);
  }
}
