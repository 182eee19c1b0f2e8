/**
  Machine words shared by the native engine and the Java engine: unsigned
  ranges, 32-bit sequence numbers and the serial-number comparison of util.c.
*/
module Words {

  type u8 = x: int | 0 <= x < 0x100
  type u16 = x: int | 0 <= x < 0x1_0000
  type u32 = x: int | 0 <= x < 0x1_0000_0000

  datatype Option<+T> = None | Some(value: T)

  /** The 32-bit word that represents an unbounded position. */
  function Mod32(x: int): u32 {
    x % 0x1_0000_0000
  }

  /** The two's complement reading of a word (a C `int` cast). */
  function Signed32(x: u32): int {
    if x < 0x8000_0000 then x else x - 0x1_0000_0000
  }

  /** The signed distance from a to b on the circle of 32-bit words. */
  function Distance(a: u32, b: u32): int {
    Signed32(Mod32(b - a))
  }

  /** C division: truncates toward zero, where Dafny's `/` is Euclidean. */
  function TruncDiv(a: int, b: int): int
    requires b > 0
  {
    if a >= 0 then a / b else -(-a / b)
  }

  /** 2 to the power n, the factor of a left shift by n. */
  function Pow2(n: nat): (p: nat)
    ensures p >= 1
  {
    if n == 0 then 1 else 2 * Pow2(n - 1)
  }

  /** A logical right shift by n. */
  function Shr(x: nat, n: nat): (r: nat)
    ensures r <= x
  {
    if n == 0 then x else Shr(x / 2, n - 1)
  }

  /** The shift is the quotient by 2 to the power n. */
  lemma {:induction false} ShrBounds(x: nat, n: nat)
    ensures Shr(x, n) * Pow2(n) <= x < Shr(x, n) * Pow2(n) + Pow2(n)
  {
    if n == 0 {
    } else {
      ShrBounds(x / 2, n - 1);
      var r, q := Shr(x / 2, n - 1), Pow2(n - 1);
      assert r * (2 * q) == 2 * (r * q);
    }
  }

  /**
    How compare_u32 takes its two differences: over the mathematical integers, as
    section 3.2 of RFC 1982 intends, or wrapped to a 32-bit `int`, as compiled.
  */
  datatype Subtraction = Unbounded | Wrapped

  function Difference(m: Subtraction, i1: int, i2: int): int {
    match m
    case Unbounded => i1 - i2
    case Wrapped => Signed32(Mod32(i1 - i2))
  }

  /** compare_u32. */
  function CompareU32(m: Subtraction, s1: u32, s2: u32): int {
    if s1 == s2 then 0
    else
      var i1 := Signed32(s1);
      var i2 := Signed32(s2);
      if (i1 < i2 && Difference(m, i2, i1) < 0x7FFF_FFFF) || (i1 > i2 && Difference(m, i1, i2) > 0x7FFF_FFFF)
      then -1 else 1
  }

  function Sign(x: int): int {
    if x < 0 then -1 else if x == 0 then 0 else 1
  }

  /** The signed views of two words are less than 2^31 apart. */
  predicate SameSide(s1: u32, s2: u32) {
    -0x8000_0000 < Signed32(s1) - Signed32(s2) < 0x8000_0000
  }

  /** Two words on which compare_u32 is not disturbed by a wrapped difference. */
  predicate Alike(m: Subtraction, s1: u32, s2: u32) {
    m.Wrapped? ==> SameSide(s1, s2)
  }

  /** Wrapped and unbounded differences agree exactly while the signed views are less than 2^31 apart. */
  lemma WrappedComparisonDomain(s1: u32, s2: u32)
    ensures CompareU32(Wrapped, s1, s2) == CompareU32(Unbounded, s1, s2) <==> SameSide(s1, s2)
  {
    if s1 != s2 {
      var d := Signed32(s1) - Signed32(s2);
      assert Mod32(d) == if d < 0 then d + 0x1_0000_0000 else d;
      assert Mod32(-d) == if d <= 0 then -d else 0x1_0000_0000 - d;
    }
  }

  /**
    In 32 bits the second disjunct of compare_u32 is never true: it orders the
    signed views, but for one difference.
  */
  lemma WrappedIsSignedOrder(s1: u32, s2: u32)
    ensures CompareU32(Wrapped, s1, s2) ==
            if Signed32(s1) < Signed32(s2) && Signed32(s2) - Signed32(s1) != 0x7FFF_FFFF then -1
            else if s1 == s2 then 0
            else 1
  {
    var d := Signed32(s2) - Signed32(s1);
    assert Mod32(d) == if d < 0 then d + 0x1_0000_0000 else d;
  }

  /**
    Over unbounded differences compare_u32 depends on the forward distance from s1
    to s2; only two distances depend on where the words lie.
  */
  lemma CompareByDistance(s1: u32, s2: u32)
    ensures CompareU32(Unbounded, s1, s2) ==
            var d := Mod32(s2 - s1);
            if d == 0 then 0
            else if d < 0x7FFF_FFFF then -1
            else if d > 0x8000_0000 then 1
            else if Signed32(s1) < Signed32(s2) then 1 else -1
  {
    ForwardDistance(s1, s2);
  }

  /**
    Less than 2^31-1 apart, compare_u32 orders positions as the integers they
    stand for, except exactly that wrapped differences lose the order of two
    words that lie across 2^31.
  */
  lemma CompareOrdersWindow(m: Subtraction, x: int, y: int)
    requires -0x7FFF_FFFF < x - y < 0x7FFF_FFFF
    ensures CompareU32(m, Mod32(x), Mod32(y)) == Sign(x - y) <==> Alike(m, Mod32(x), Mod32(y))
    ensures SameSide(Mod32(x), Mod32(y)) <==> Signed32(Mod32(x)) - Signed32(Mod32(y)) == x - y
  {
    ModOfDifference(y, x);
    CompareByDistance(Mod32(x), Mod32(y));
    WrappedComparisonDomain(Mod32(x), Mod32(y));
    ForwardDistance(Mod32(y), Mod32(x));
    assert Mod32(x - y) == if x < y then x - y + 0x1_0000_0000 else x - y;
  }

  /** The bound is tight: at distance 2^31-1 the order is lost, wherever the words lie. */
  lemma CompareOddDistance(m: Subtraction)
    ensures CompareU32(m, 0, 0x7FFF_FFFF) == 1 && CompareU32(m, 0x8000_0000, 0xFFFF_FFFF) == 1
    ensures CompareU32(m, 1, 0x8000_0000) == if m.Unbounded? then -1 else 1
  {
  }

  /** The forward distance between two words, case by case. */
  lemma ForwardDistance(a: u32, b: u32)
    ensures Mod32(b - a) == if b < a then b - a + 0x1_0000_0000 else b - a
  {
    var d := b - a;
    assert Mod32(d) == if d < 0 then d + 0x1_0000_0000 else d;
  }

  lemma ModOfDifference(x: int, y: int)
    ensures Mod32(Mod32(y) - Mod32(x)) == Mod32(y - x)
  {
    var q := (y - Mod32(y)) / 0x1_0000_0000;
    var r := (x - Mod32(x)) / 0x1_0000_0000;
    assert y - x == Mod32(y) - Mod32(x) + (q - r) * 0x1_0000_0000;
    ModPeriod(Mod32(y) - Mod32(x), q - r);
  }

  lemma {:induction false} ModPeriod(x: int, k: int)
    ensures Mod32(x + k * 0x1_0000_0000) == Mod32(x)
    decreases if k < 0 then -k else k
  {
    if k == 0 {
    } else if k > 0 {
      ModPeriod(x, k - 1);
    } else {
      ModPeriod(x, k + 1);
    }
  }

  /** Advancing a word by n and reducing is advancing the position by n. */
  lemma ModAdd(x: int, n: int)
    ensures Mod32(Mod32(x) + n) == Mod32(x + n)
  {
    var q := (x - Mod32(x)) / 0x1_0000_0000;
    assert x + n == Mod32(x) + n + q * 0x1_0000_0000;
    ModPeriod(Mod32(x) + n, q);
  }

  /** A position is recovered from its word when it is known to within 2^31. */
  lemma DistanceOfPositions(x: int, y: int)
    requires -0x8000_0000 <= y - x < 0x8000_0000
    ensures Distance(Mod32(x), Mod32(y)) == y - x
  {
    ModOfDifference(x, y);
  }

  /** Moving the origin forward moves every distance back by the same amount, inside the half circle. */
  lemma DistanceShift(a: u32, b: u32, n: nat)
    requires Distance(a, b) - n >= -0x8000_0000
    ensures Distance(Mod32(a + n), b) == Distance(a, b) - n
  {
    var d := Distance(a, b);
    WordAtDistance(a, b);
    DistanceOfPositions(a + n, a + d);
  }

  lemma WordAtDistance(a: u32, b: u32)
    ensures Mod32(a + Distance(a, b)) == b
  {
    ForwardDistance(a, b);
  }
}
