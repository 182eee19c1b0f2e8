/**
  The queue of segments waiting to be forwarded upstream (the `forward` list
  of a TCP session) and queue_tcp, which inserts into it.
*/
module TcpQueue {
  import opened Words

  datatype Segment = Segment(seqno: u32, len: u16, sent: u16, psh: bool, data: seq<u8>)

  /** How many leading segments compare before seqno: where queue_tcp's scan stops. */
  function Scan(m: Subtraction, q: seq<Segment>, seqno: u32): (i: nat)
    ensures i <= |q|
    ensures forall j | 0 <= j < i :: CompareU32(m, q[j].seqno, seqno) < 0
    ensures i < |q| ==> CompareU32(m, q[i].seqno, seqno) >= 0
  {
    if q != [] && CompareU32(m, q[0].seqno, seqno) < 0 then 1 + Scan(m, q[1..], seqno) else 0
  }

  /** The queue after a segment that is not behind remote_seq has been offered to it. */
  function Enqueue(m: Subtraction, q: seq<Segment>, seqno: u32, psh: bool, data: seq<u8>): seq<Segment>
    requires |data| < 0x1_0000
  {
    var i := Scan(m, q, seqno);
    if i == |q| || CompareU32(m, q[i].seqno, seqno) > 0 then
      q[..i] + [Segment(seqno, |data|, 0, psh, data)] + q[i..]
    else if q[i].len < |data| then
      q[i := q[i].(data := data)]  // a longer duplicate replaces the bytes, not the length
    else q
  }

  /** queue_tcp as a whole: segments behind remote_seq are dropped. */
  function QueueTcp(m: Subtraction, q: seq<Segment>, remoteSeq: u32, seqno: u32, psh: bool, data: seq<u8>)
    : seq<Segment>
    requires |data| < 0x1_0000
  {
    if CompareU32(m, seqno, remoteSeq) < 0 then q else Enqueue(m, q, seqno, psh, data)
  }

  /** Positions are measured from an origin; the queue is in strict order of position. */
  ghost predicate Ordered(origin: u32, q: seq<Segment>) {
    forall i, j | 0 <= i < j < |q| :: Distance(origin, q[i].seqno) < Distance(origin, q[j].seqno)
  }

  /** The lengths recorded in a segment never exceed the bytes it holds. */
  predicate Sound(s: Segment) {
    s.sent <= s.len <= |s.data|
  }

  ghost predicate AllSound(q: seq<Segment>) {
    forall s | s in q :: Sound(s)
  }

  /** Every queued segment is close enough to seqno for compare_u32 to order it, and no difference wraps. */
  ghost predicate Comparable(m: Subtraction, origin: u32, q: seq<Segment>, seqno: u32) {
    forall s | s in q ::
      && -0x7FFF_FFFF < Distance(origin, s.seqno) - Distance(origin, seqno) < 0x7FFF_FFFF
      && Alike(m, s.seqno, seqno)
  }

  lemma CompareIsPosition(m: Subtraction, origin: u32, a: u32, b: u32)
    requires -0x7FFF_FFFF < Distance(origin, a) - Distance(origin, b) < 0x7FFF_FFFF
    ensures CompareU32(m, a, b) == Sign(Distance(origin, a) - Distance(origin, b)) <==> Alike(m, a, b)
  {
    WordAtDistance(origin, a);
    WordAtDistance(origin, b);
    CompareOrdersWindow(m, origin + Distance(origin, a), origin + Distance(origin, b));
  }

  lemma QueuedIsPosition(m: Subtraction, origin: u32, q: seq<Segment>, seqno: u32, j: nat)
    requires Comparable(m, origin, q, seqno) && j < |q|
    ensures CompareU32(m, q[j].seqno, seqno) == Sign(Distance(origin, q[j].seqno) - Distance(origin, seqno))
  {
    hide CompareU32, Distance;
    assert q[j] in q;
    CompareIsPosition(m, origin, q[j].seqno, seqno);
  }

  /** The scan stops exactly at the first segment that is not before seqno. */
  lemma ScanSplitsByPosition(m: Subtraction, origin: u32, q: seq<Segment>, seqno: u32)
    requires Ordered(origin, q) && Comparable(m, origin, q, seqno)
    ensures var i := Scan(m, q, seqno);
            && (forall j | 0 <= j < i :: Distance(origin, q[j].seqno) < Distance(origin, seqno))
            && (forall j | i <= j < |q| :: Distance(origin, q[j].seqno) >= Distance(origin, seqno))
            && (i < |q| ==>
                  CompareU32(m, q[i].seqno, seqno) == Sign(Distance(origin, q[i].seqno) - Distance(origin, seqno)))
  {
    hide CompareU32, Distance, Comparable, Scan;
    var i := Scan(m, q, seqno);
    forall j | 0 <= j < |q|
      ensures CompareU32(m, q[j].seqno, seqno) == Sign(Distance(origin, q[j].seqno) - Distance(origin, seqno))
    {
      QueuedIsPosition(m, origin, q, seqno, j);
    }
  }

  /** Two words at the same position are the same word. */
  lemma SamePosition(origin: u32, a: u32, b: u32)
    requires Distance(origin, a) == Distance(origin, b)
    ensures a == b
  {
    WordAtDistance(origin, a);
    WordAtDistance(origin, b);
  }

  /** In order of position there are two cases: the position is new, or exactly one segment holds it. */
  lemma EnqueueShape(m: Subtraction, origin: u32, q: seq<Segment>, seqno: u32, psh: bool, data: seq<u8>)
    requires |data| < 0x1_0000
    requires Ordered(origin, q) && Comparable(m, origin, q, seqno)
    ensures var i := Scan(m, q, seqno);
            if i < |q| && q[i].seqno == seqno then
              && Enqueue(m, q, seqno, psh, data) == (if q[i].len < |data| then q[i := q[i].(data := data)] else q)
              && (forall j | 0 <= j < |q| && j != i :: q[j].seqno != seqno)
            else
              && Enqueue(m, q, seqno, psh, data) == q[..i] + [Segment(seqno, |data|, 0, psh, data)] + q[i..]
              && (forall j | 0 <= j < |q| :: q[j].seqno != seqno)
              && (forall j | 0 <= j < i :: Distance(origin, q[j].seqno) < Distance(origin, seqno))
              && (forall j | i <= j < |q| :: Distance(origin, q[j].seqno) > Distance(origin, seqno))
  {
    hide CompareU32, Comparable, Distance, Scan;
    var i := Scan(m, q, seqno);
    ScanSplitsByPosition(m, origin, q, seqno);
    if i < |q| {
      SameWord(m, q[i].seqno, seqno);
      if q[i].seqno == seqno {
        forall j | 0 <= j < |q| && j != i ensures q[j].seqno != seqno {
          assert j < i || Distance(origin, q[i].seqno) < Distance(origin, q[j].seqno);
        }
      } else {
        OtherPosition(origin, q[i].seqno, seqno);
      }
    }
  }

  lemma SameWord(m: Subtraction, a: u32, b: u32)
    ensures CompareU32(m, a, b) == 0 <==> a == b
  {
  }

  lemma OtherPosition(origin: u32, a: u32, b: u32)
    requires a != b
    ensures Distance(origin, a) != Distance(origin, b)
  {
    if Distance(origin, a) == Distance(origin, b) {
      SamePosition(origin, a, b);
    }
  }

  /** What an insertion keeps, whatever the order. */
  lemma InsertKeepsOthers(q: seq<Segment>, i: nat, n: Segment)
    requires i <= |q|
    ensures var r := q[..i] + [n] + q[i..];
            && n in r && |r| == |q| + 1
            && (forall s | s in q :: s in r)
            && (forall s | s in r :: s in q || s == n)
  {
    var r := q[..i] + [n] + q[i..];
    assert r[i] == n;
    forall s | s in q ensures s in r {
      var j :| 0 <= j < |q| && q[j] == s;
      assert r[if j < i then j else j + 1] == s;
    }
  }

  /** What replacing one segment keeps. */
  lemma ReplaceKeepsOthers(q: seq<Segment>, i: nat, n: Segment)
    requires i < |q|
    ensures var r := q[i := n];
            && n in r && |r| == |q|
            && (forall s | s in q && s != q[i] :: s in r)
            && (forall s | s in r :: s in q || s == n)
  {
    var r := q[i := n];
    assert r[i] == n;
    forall s | s in q && s != q[i] ensures s in r {
      var j :| 0 <= j < |q| && q[j] == s;
      assert r[j] == s;
    }
  }

  /** Replacing the bytes of a segment moves nothing. */
  lemma ReplaceKeepsOrder(origin: u32, q: seq<Segment>, i: nat, data: seq<u8>)
    requires i < |q| && Ordered(origin, q)
    ensures Ordered(origin, q[i := q[i].(data := data)])
  {
    var r := q[i := q[i].(data := data)];
    forall a, b | 0 <= a < b < |r| ensures Distance(origin, r[a].seqno) < Distance(origin, r[b].seqno) {
      assert r[a].seqno == q[a].seqno && r[b].seqno == q[b].seqno;
    }
  }

  /** The segment that holds the offered position afterwards, made from an old one or new. */
  ghost predicate Offered(q: seq<Segment>, s: Segment, seqno: u32, psh: bool, data: seq<u8>)
    requires |data| < 0x1_0000
  {
    s == Segment(seqno, |data|, 0, psh, data)
    || exists o :: o in q && o.seqno == seqno && s == o.(data := s.data) && (s.data == o.data || s.data == data)
  }

  /**
    queue_tcp keeps the queue strictly increasing and free of duplicates, leaves
    every segment at another position alone, and afterwards holds at least the
    offered bytes at the offered position.
  */
  lemma EnqueueKeepsOrder(m: Subtraction, origin: u32, q: seq<Segment>, seqno: u32, psh: bool, data: seq<u8>)
    requires |data| < 0x1_0000
    requires Ordered(origin, q) && AllSound(q) && Comparable(m, origin, q, seqno)
    ensures var r := Enqueue(m, q, seqno, psh, data);
            && Ordered(origin, r) && AllSound(r)
            && (forall s | s in q && s.seqno != seqno :: s in r)
            && (forall s | s in r && s.seqno != seqno :: s in q)
            && (exists s :: s in r && s.seqno == seqno && |s.data| >= |data|)
            && (forall s | s in r && s.seqno == seqno :: Offered(q, s, seqno, psh, data))
            && |r| == |q| + (if exists s :: s in q && s.seqno == seqno then 0 else 1)
  {
    hide Scan, CompareU32, Comparable, Distance, Enqueue;
    var i := Scan(m, q, seqno);
    EnqueueShape(m, origin, q, seqno, psh, data);
    if i < |q| && q[i].seqno == seqno {
      var n := if q[i].len < |data| then q[i].(data := data) else q[i];
      assert Sound(q[i]);
      ReplaceKeepsOthers(q, i, n);
      ReplaceKeepsOrder(origin, q, i, n.data);
      assert Enqueue(m, q, seqno, psh, data) == q[i := n];
      forall s | s in q[i := n] && s.seqno == seqno ensures s == n {
        var j :| 0 <= j < |q| && q[i := n][j] == s;
      }
    } else {
      var n := Segment(seqno, |data|, 0, psh, data);
      InsertKeepsOthers(q, i, n);
      InsertKeepsOrder(origin, q, i, n);
    }
  }

  lemma InsertKeepsOrder(origin: u32, q: seq<Segment>, i: nat, n: Segment)
    requires i <= |q| && Ordered(origin, q)
    requires forall j | 0 <= j < i :: Distance(origin, q[j].seqno) < Distance(origin, n.seqno)
    requires forall j | i <= j < |q| :: Distance(origin, q[j].seqno) > Distance(origin, n.seqno)
    ensures Ordered(origin, q[..i] + [n] + q[i..])
  {
    var r := q[..i] + [n] + q[i..];
    forall a, b | 0 <= a < b < |r| ensures Distance(origin, r[a].seqno) < Distance(origin, r[b].seqno) {
      assert r[a] == if a < i then q[a] else if a == i then n else q[a - 1];
      assert r[b] == if b < i then q[b] else if b == i then n else q[b - 1];
    }
  }

  /** Ahead of a window base, by less than 2^31-1. */
  predicate InWindow(base: u32, x: u32) {
    Mod32(x - base) < 0x7FFF_FFFF
  }

  /** compare_u32 orders a window as the distance from its base, exactly while no difference wraps. */
  lemma WindowOrder(m: Subtraction, base: u32, a: u32, b: u32)
    requires InWindow(base, a) && InWindow(base, b)
    ensures CompareU32(m, a, b) == Sign(Mod32(a - base) - Mod32(b - base)) <==> Alike(m, a, b)
  {
    CompareIsPosition(m, base, a, b);
  }

  /** The same statement for a queue inside one window: order is kept with respect to the base. */
  lemma EnqueueInWindow(m: Subtraction, base: u32, q: seq<Segment>, seqno: u32, psh: bool, data: seq<u8>)
    requires |data| < 0x1_0000
    requires forall i, j | 0 <= i < j < |q| :: Mod32(q[i].seqno - base) < Mod32(q[j].seqno - base)
    requires (forall s | s in q :: InWindow(base, s.seqno) && Sound(s)) && InWindow(base, seqno)
    requires forall s | s in q :: Alike(m, s.seqno, seqno)
    ensures var r := Enqueue(m, q, seqno, psh, data);
            && (forall i, j | 0 <= i < j < |r| :: Mod32(r[i].seqno - base) < Mod32(r[j].seqno - base))
            && (forall s | s in r :: InWindow(base, s.seqno) && Sound(s))
            && (forall s | s in q && s.seqno != seqno :: s in r)
            && (exists s :: s in r && s.seqno == seqno && |s.data| >= |data|)
  {
    hide Enqueue, Offered, Alike;
    assert forall x: u32 | InWindow(base, x) :: Distance(base, x) == Mod32(x - base);
    assert Ordered(base, q);
    EnqueueKeepsOrder(m, base, q, seqno, psh, data);
    var r := Enqueue(m, q, seqno, psh, data);
    forall s | s in r ensures InWindow(base, s.seqno) {
      if s.seqno != seqno {
        assert s in q;
      }
    }
    forall i, j | 0 <= i < j < |r| ensures Mod32(r[i].seqno - base) < Mod32(r[j].seqno - base) {
      assert r[i] in r && r[j] in r;
    }
  }

  /** Bytes queued and not yet sent. */
  function Unsent(q: seq<Segment>): int {
    if q == [] then 0 else (q[0].len - q[0].sent) + Unsent(q[1..])
  }
}
