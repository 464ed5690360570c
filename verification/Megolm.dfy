// The Megolm hash ratchet: four parts R(0)..R(3) and a 32-bit counter. The
// counter is a four-digit number in base 256; digit j says how often R(j) has
// been rehashed since R(j-1) last changed. HMAC-SHA-256 is a parameter, so
// everything here holds for every keyed hash.
module Megolm {
  import opened Bytes

  const PARTS: nat := 4

  /** HMAC of the one-byte seed `HASH_KEY_SEEDS[k]` under a ratchet part. */
  type Hmac<!P> = (P, nat) -> P

  datatype Ratchet<P> = Ratchet(parts: seq<P>, counter: uint32)

  ghost predicate Valid<P>(r: Ratchet<P>) {
    |r.parts| == PARTS
  }

  // ------------------------------------------------------------------
  // The one-step ratchet
  // ------------------------------------------------------------------

  /** 256^(3-j): how far the counter moves between two changes of digit j. */
  function Block(j: nat): (b: nat)
    requires j < PARTS
    ensures 0 < b <= 0x100_0000
  {
    if j == 0 then 0x100_0000 else if j == 1 then 0x1_0000 else if j == 2 then 0x100 else 1
  }

  /** The lowest part that has to be rekeyed when the counter becomes c. */
  function Level(c: uint32): (h: nat)
    ensures h < PARTS
  {
    if c % 0x100_0000 == 0 then 0
    else if c % 0x1_0000 == 0 then 1
    else if c % 0x100 == 0 then 2
    else 3
  }

  lemma LevelIsLeast(c: uint32)
    ensures c % Block(Level(c)) == 0
    ensures forall j: nat :: j < Level(c) ==> c % Block(j) != 0
  {
  }

  function Next(c: uint32): (c': uint32)
  {
    if c == MODULUS - 1 then 0 else c + 1
  }

  /** R(h)..R(3) replaced by hashes of the old R(h). */
  function Rekeyed<P>(hmac: Hmac<P>, p: seq<P>, h: nat): (q: seq<P>)
    requires h < |p|
    ensures |q| == |p|
    ensures forall k :: 0 <= k < |p| ==> q[k] == if k < h then p[k] else hmac(p[h], k)
  {
    seq(|p|, k requires 0 <= k < |p| => if k < h then p[k] else hmac(p[h], k))
  }

  function Step<P>(hmac: Hmac<P>, r: Ratchet<P>): (r': Ratchet<P>)
    requires Valid(r)
    ensures Valid(r')
  {
    var c := Next(r.counter);
    Ratchet(Rekeyed(hmac, r.parts, Level(c)), c)
  }

  function Steps<P>(hmac: Hmac<P>, r: Ratchet<P>, n: nat): (r': Ratchet<P>)
    requires Valid(r)
    ensures Valid(r')
  {
    if n == 0 then r else Step(hmac, Steps(hmac, r, n - 1))
  }

  lemma {:induction false} StepsAdd<P>(hmac: Hmac<P>, r: Ratchet<P>, m: nat, n: nat)
    requires Valid(r)
    ensures Steps(hmac, r, m + n) == Steps(hmac, Steps(hmac, r, m), n)
  {
    hide Step;
    if n == 0 {
    } else {
      StepsAdd(hmac, r, m, n - 1);
    }
  }

  lemma {:induction false} StepsCounter<P>(hmac: Hmac<P>, r: Ratchet<P>, n: nat)
    requires Valid(r)
    ensures Steps(hmac, r, n).counter == (r.counter + n) % MODULUS
  {
    hide Level, Rekeyed;
    if n == 0 {
    } else {
      StepsCounter(hmac, r, n - 1);
      NextWraps(r.counter + n - 1);
    }
  }

  lemma NextWraps(c: nat)
    ensures Next(c % MODULUS) == (c + 1) % MODULUS
  {
  }

  /** How many steps lead from counter c to counter a, wrapping at 2^32. */
  function Distance(c: uint32, a: uint32): (d: nat)
    ensures d < MODULUS && (c + d) % MODULUS == a
  {
    (a - c) % MODULUS
  }

  // ------------------------------------------------------------------
  // What a run of steps does to the parts
  // ------------------------------------------------------------------

  /** R(j) hashed n times with its own seed, the other parts untouched. */
  function SelfHashed<P>(hmac: Hmac<P>, p: seq<P>, j: nat, n: nat): (q: seq<P>)
    requires j < |p|
    ensures |q| == |p| && forall k :: 0 <= k < |p| && k != j ==> q[k] == p[k]
  {
    if n == 0 then p
    else var q := SelfHashed(hmac, p, j, n - 1); q[j := hmac(q[j], j)]
  }

  /** Between two multiples of Block(j) the parts R(0)..R(j) do not change. */
  lemma {:induction false} StepsInsideBlock<P>(hmac: Hmac<P>, r: Ratchet<P>, j: nat, n: nat)
    requires Valid(r) && j < PARTS && r.counter % Block(j) + n < Block(j)
    ensures var s := Steps(hmac, r, n);
      s.counter == r.counter + n && forall k :: 0 <= k <= j ==> s.parts[k] == r.parts[k]
  {
    hide Block, Level;
    if n == 0 {
    } else {
      StepsInsideBlock(hmac, r, j, n - 1);
      InsideBlockLevel(r.counter, j, n);
    }
  }

  lemma InsideBlockLevel(c: uint32, j: nat, n: nat)
    requires j < PARTS && 0 < n && c % Block(j) + n < Block(j)
    ensures c + n < MODULUS && Level(c + n) > j
  {
    if j == 0 {
    } else if j == 1 {
    } else {
    }
  }

  /** Digit j of the counter can move s times without a carry into digit j-1. */
  predicate NoCarry(c: uint32, j: nat, s: nat)
    requires j < PARTS
  {
    j == 0 || (c / Block(j)) % 256 + s <= 255
  }

  lemma DivUnique(x: nat, b: nat, q: nat, r: nat)
    requires r < b && x == q * b + r
    ensures x / b == q && x % b == r
  {
    var p, t := x / b, x % b;
    assert p * b + t == q * b + r;
    assert (p - q) * b == r - t;
    if p > q {
      AtLeastOne(p - q, b);
    } else if q > p {
      assert (q - p) * b == t - r;
      AtLeastOne(q - p, b);
    }
  }

  lemma AtLeastOne(k: nat, b: nat)
    requires k >= 1
    ensures k * b >= b
  {
  }

  /** Without a carry, the s-th multiple of Block(j) after c is Block(j) * (c / Block(j) + s). */
  lemma BlockMultiple(c: uint32, j: nat, s: nat)
    requires j < PARTS && NoCarry(c, j, s)
    ensures var m := c - c % Block(j) + s * Block(j);
      && m % Block(j) == 0 && m / Block(j) == c / Block(j) + s
      && (j > 0 ==> m < MODULUS && (m / Block(j)) % 256 == (c / Block(j)) % 256 + s)
  {
    var x := c / Block(j);
    hide Block;
    SumMultiple(x, s, Block(j));
    if j > 0 {
      DivUnique(x + s, 256, x / 256, x % 256 + s);
      TopMultiple(c, j);
      MulMonotone(x + s, x / 256 * 256 + 255, Block(j));
    }
  }

  lemma SumMultiple(x: nat, s: nat, b: nat)
    requires b > 0
    ensures x * b + s * b == (x + s) * b
    ensures ((x + s) * b) % b == 0 && ((x + s) * b) / b == x + s
  {
    DivUnique((x + s) * b, b, x + s, 0);
  }

  lemma MulMonotone(k: nat, l: nat, b: nat)
    requires k <= l
    ensures k * b <= l * b
  {
  }

  lemma TopMultiple(c: uint32, j: nat)
    requires 1 <= j < PARTS
    ensures (c / Block(j) / 256 * 256 + 255) * Block(j) < MODULUS
  {
    if j == 1 {
    } else if j == 2 {
    } else {
    }
  }

  lemma BlockDigits(c: uint32, j: nat)
    requires 1 <= j < PARTS
    ensures c / Block(j - 1) == c / Block(j) / 256
  {
  }

  lemma AlignedLevel(m: nat, j: nat)
    requires j < PARTS && m % Block(j) == 0 && (j > 0 ==> m < MODULUS && (m / Block(j)) % 256 != 0)
    ensures Level(m % MODULUS) == j
  {
    var x := m / Block(j);
    var d, r := x / 256, x % 256;
    assert x == d * 256 + r;
    if j == 0 {
      assert m == d * MODULUS + r * 0x100_0000;
      DivUnique(m, MODULUS, d, r * 0x100_0000);
      DivUnique(m % MODULUS, 0x100_0000, r, 0);
    } else {
      DivUnique(m, MODULUS, 0, m);
      if j == 1 {
        assert m == d * 0x100_0000 + r * 0x1_0000;
        DivUnique(m, 0x100_0000, d, r * 0x1_0000);
      } else if j == 2 {
        assert m == d * 0x1_0000 + r * 0x100;
        DivUnique(m, 0x1_0000, d, r * 0x100);
        assert m % 0x100_0000 != 0 by { NotDivisible(m, 0x1_0000, 256); }
      } else {
        assert m % 256 == r;
        assert m % 0x1_0000 != 0 by { NotDivisible(m, 256, 256); }
        assert m % 0x100_0000 != 0 by { NotDivisible(m, 256, 0x1_0000); }
      }
    }
  }

  lemma NotDivisible(m: nat, b: nat, k: nat)
    requires b > 0 && k > 0 && m % b != 0
    ensures k * b > 0 && m % (k * b) != 0
  {
    assert k * b > 0;
    if m % (k * b) == 0 {
      var q := m / (k * b);
      assert m == q * (k * b) == (q * k) * b;
      DivUnique(m, b, q * k, 0);
    }
  }

  lemma BlockEndLevel(c: uint32, j: nat)
    requires j < PARTS && NoCarry(c, j, 1)
    ensures var last := c - c % Block(j) + Block(j) - 1;
      last < MODULUS && Level(Next(last)) == j
  {
    hide Level, Block, Next, NoCarry;
    BlockBelowModulus(c, j);
    BlockEndAligned(c, j);
    var last := c - c % Block(j) + Block(j) - 1;
    AlignedLevel(last + 1, j);
    NextWraps(last);
    SmallMod(last);
  }

  lemma SmallMod(c: nat)
    requires c < MODULUS
    ensures c % MODULUS == c
  {
  }

  lemma BlockEndAligned(c: uint32, j: nat)
    requires j < PARTS && NoCarry(c, j, 1)
    ensures var m := c - c % Block(j) + Block(j);
      m % Block(j) == 0 && (j > 0 ==> m < MODULUS && (m / Block(j)) % 256 != 0)
  {
    hide Block, NoCarry;
    BlockMultiple(c, j, 1);
  }

  lemma BlockBelowModulus(c: uint32, j: nat)
    requires j < PARTS
    ensures c - c % Block(j) + Block(j) <= MODULUS
  {
    var q := c / Block(j);
    assert c - c % Block(j) == q * Block(j);
    if j == 0 {
      assert q <= 255;
    } else if j == 1 {
      assert q <= 0xFFFF;
    } else if j == 2 {
      assert q <= 0xFF_FFFF;
    }
  }

  /** Stepping up to the next multiple of Block(j) rekeys exactly from R(j). */
  lemma StepsToBlockEnd<P>(hmac: Hmac<P>, r: Ratchet<P>, j: nat)
    requires Valid(r) && j < PARTS && NoCarry(r.counter, j, 1)
    ensures Steps(hmac, r, Block(j) - r.counter % Block(j)).parts == Rekeyed(hmac, r.parts, j)
  {
    hide Block, Level, NoCarry;
    var n := Block(j) - r.counter % Block(j);
    StepsInsideBlock(hmac, r, j, n - 1);
    BlockEndLevel(r.counter, j);
    var s := Steps(hmac, r, n - 1);
    assert Steps(hmac, r, n) == Step(hmac, s);
    assert Rekeyed(hmac, s.parts, j) == Rekeyed(hmac, r.parts, j);
  }

  lemma RekeyedTwice<P>(hmac: Hmac<P>, p: seq<P>, j: nat, n: nat)
    requires j < |p|
    ensures Rekeyed(hmac, Rekeyed(hmac, SelfHashed(hmac, p, j, n), j), j)
         == Rekeyed(hmac, SelfHashed(hmac, p, j, n + 1), j)
  {
  }

  lemma CounterAtBlock<P>(hmac: Hmac<P>, r: Ratchet<P>, j: nat, s: nat)
    requires Valid(r) && j < PARTS && NoCarry(r.counter, j, s + 1) && s * Block(j) >= r.counter % Block(j)
    ensures var c := Steps(hmac, r, s * Block(j) - r.counter % Block(j)).counter;
      c % Block(j) == 0 && NoCarry(c, j, 1)
  {
    hide Steps;
    StepsCounter(hmac, r, s * Block(j) - r.counter % Block(j));
    BlockMultiple(r.counter, j, s);
    WrappedMultiple(r.counter - r.counter % Block(j) + s * Block(j), j);
    hide Block;
  }

  lemma WrappedMultiple(m: nat, j: nat)
    requires j < PARTS && m % Block(j) == 0 && (j > 0 ==> m < MODULUS)
    ensures m % MODULUS % Block(j) == 0 && (j > 0 ==> m % MODULUS == m)
  {
    if j == 0 {
      var q, w := m / 0x100_0000, m / MODULUS;
      DivUnique(m % MODULUS, 0x100_0000, q - w * 256, 0);
    }
  }

  /** Stepping across `steps` multiples of Block(j), the last one included. */
  lemma {:induction false} StepsAcrossBlocks<P>(hmac: Hmac<P>, r: Ratchet<P>, j: nat, steps: nat)
    requires Valid(r) && j < PARTS && 1 <= steps && NoCarry(r.counter, j, steps)
    ensures steps * Block(j) >= r.counter % Block(j)
    ensures Steps(hmac, r, steps * Block(j) - r.counter % Block(j)).parts
         == Rekeyed(hmac, SelfHashed(hmac, r.parts, j, steps - 1), j)
  {
    hide Rekeyed, Steps, Level, Block;
    if steps == 1 {
      StepsToBlockEnd(hmac, r, j);
    } else {
      StepsAcrossBlocks(hmac, r, j, steps - 1);
      var n := (steps - 1) * Block(j) - r.counter % Block(j);
      CounterAtBlock(hmac, r, j, steps - 1);
      StepsToBlockEnd(hmac, Steps(hmac, r, n), j);
      assert steps * Block(j) - r.counter % Block(j) == n + Block(j);
      StepsAdd(hmac, r, n, Block(j));
      RekeyedTwice(hmac, r.parts, j, steps - 2);
    }
  }

  /** x hashed n times with the seed of R(0). */
  function Hashed<P>(hmac: Hmac<P>, x: P, n: nat): (y: P) {
    if n == 0 then x else hmac(Hashed(hmac, x, n - 1), 0)
  }

  /** How many multiples of 2^24 a counter meets in n steps, counting on past 2^32. */
  function TopMoves(c: nat, n: nat): (k: nat) {
    (c + n) / 0x100_0000 - c / 0x100_0000
  }

  lemma TopMovesNext(c: nat, n: nat)
    requires n > 0
    ensures TopMoves(c, 0) == 0
    ensures TopMoves(c, n) == TopMoves(c, n - 1) + if Level((c + n) % MODULUS) == 0 then 1 else 0
  {
    NextMultiple(c + n);
    LevelZero(c + n);
    hide Level;
  }

  lemma NextMultiple(x: nat)
    requires x > 0
    ensures x / 0x100_0000 == (x - 1) / 0x100_0000 + if x % 0x100_0000 == 0 then 1 else 0
  {
  }

  lemma LevelZero(x: nat)
    ensures Level(x % MODULUS) == 0 <==> x % 0x100_0000 == 0
  {
    assert x % MODULUS % 0x100_0000 == x % 0x100_0000;
  }

  /** R(0) is hashed whenever the counter meets a multiple of 2^24, and only then. */
  lemma {:induction false} TopHashes<P>(hmac: Hmac<P>, r: Ratchet<P>, n: nat)
    requires Valid(r)
    ensures Steps(hmac, r, n).parts[0] == Hashed(hmac, r.parts[0], TopMoves(r.counter, n))
  {
    hide Next, Level, Rekeyed, TopMoves;
    if n == 0 {
      TopMovesNext(r.counter, 1);
    } else {
      TopHashes(hmac, r, n - 1);
      StepsCounter(hmac, r, n - 1);
      NextWraps(r.counter + n - 1);
      TopMovesNext(r.counter, n);
    }
  }

  // ------------------------------------------------------------------
  // The jump, one counter digit at a time
  // ------------------------------------------------------------------

  /** How often the jump from c to a hashes R(j): the distance between the two
      digits, or 256 when the digits agree but a lies behind c. */
  function LevelSteps(c: uint32, a: uint32, j: nat): (steps: nat)
    requires j < PARTS
    ensures steps <= 256
  {
    var steps := (a / Block(j) - c / Block(j)) % 256;
    if steps == 0 && a < c then 256 else steps
  }

  function LevelCounter(c: uint32, a: uint32, j: nat): (c': uint32)
    requires j < PARTS
  {
    if LevelSteps(c, a, j) == 0 then c else a - a % Block(j)
  }

  /** All digits above digit j of c already agree with a. */
  predicate Aligned(c: uint32, a: uint32, j: nat)
    requires j <= PARTS
  {
    j == 0 || (c <= a && c / Block(j - 1) == a / Block(j - 1))
  }

  lemma LevelProgressTop(c: uint32, a: uint32)
    ensures var b := Block(0); var steps := LevelSteps(c, a, 0);
      && (steps == 0 ==> c <= a && c / b == a / b)
      && (steps > 0 ==> Distance(c, a) == steps * b - c % b + a % b)
  {
    assert Block(0) == 0x100_0000;
    hide Distance, LevelSteps, Block;
    DistanceIs(c, a);
    TopSteps(c, a);
    TopDigit(c);
    TopDigit(a);
  }

  lemma DistanceIs(c: uint32, a: uint32)
    ensures Distance(c, a) == if a < c then a - c + MODULUS else a - c
  {
  }

  lemma TopDigit(c: uint32)
    ensures c / 0x100_0000 < 256 && c == c / 0x100_0000 * 0x100_0000 + c % 0x100_0000
  {
  }

  lemma TopSteps(c: uint32, a: uint32)
    ensures var x, y := c / 0x100_0000, a / 0x100_0000;
      LevelSteps(c, a, 0) == if y < x then y - x + 256 else if y > x then y - x else if a < c then 256 else 0
  {
    TopDigit(c);
    TopDigit(a);
    ByteDifference(c / 0x100_0000, a / 0x100_0000);
  }

  lemma ByteDifference(x: nat, y: nat)
    requires x < 256 && y < 256
    ensures (y - x) % 256 == if y < x then y - x + 256 else y - x
  {
  }

  lemma LevelProgressBelow(c: uint32, a: uint32, j: nat)
    requires 1 <= j < PARTS && Aligned(c, a, j)
    ensures var b := Block(j); var steps := LevelSteps(c, a, j);
      && NoCarry(c, j, steps)
      && steps == a / b - c / b
      && (steps > 0 ==> Distance(c, a) == steps * b - c % b + a % b)
  {
    BlockDigits(c, j);
    BlockDigits(a, j);
    assert Distance(c, a) == a - c;
    hide Distance, Block;
    var b, x, y := Block(j), c / Block(j), a / Block(j);
    QuotientOrder(c, a, b);
    LowerDigits(x, y);
    assert LevelSteps(c, a, j) == y - x;
    hide LevelSteps;
  }

  lemma QuotientOrder(c: nat, a: nat, b: nat)
    requires b > 0 && c <= a
    ensures c / b <= a / b
    ensures a - c == (a / b - c / b) * b - c % b + a % b
  {
    var x, y := c / b, a / b;
    assert c == x * b + c % b && a == y * b + a % b;
    assert (y - x) * b == y * b - x * b;
    if y < x {
      assert (x - y) * b >= b by { AtLeastOne(x - y, b); }
    }
  }

  lemma LowerDigits(x: nat, y: nat)
    requires x / 256 == y / 256
    ensures y - x == y % 256 - x % 256
    ensures x <= y ==> (y - x) % 256 == y - x
  {
  }

  lemma MaskedDistance(a: uint32, j: nat)
    requires j < PARTS
    ensures var m := a - a % Block(j);
      m <= a && Distance(m, a) == a % Block(j) && m / Block(j) == a / Block(j)
  {
    if j == 0 {
    } else if j == 1 {
    } else if j == 2 {
    } else {
    }
  }

  /** One round of the jump moves forward, never past a, and settles digit j. */
  lemma LevelProgress(c: uint32, a: uint32, j: nat)
    requires j < PARTS && Aligned(c, a, j)
    ensures Aligned(LevelCounter(c, a, j), a, j + 1)
    ensures var steps := LevelSteps(c, a, j); steps > 0 ==>
      && NoCarry(c, j, steps)
      && Distance(c, a) == steps * Block(j) - c % Block(j) + Distance(LevelCounter(c, a, j), a)
  {
    MaskedDistance(a, j);
    if j == 0 {
      LevelProgressTop(c, a);
    } else {
      LevelProgressBelow(c, a, j);
    }
    hide LevelSteps, Distance, NoCarry;
  }

  lemma LevelUnmoved(c: uint32, a: uint32, j: nat)
    requires j < PARTS && LevelSteps(c, a, j) == 0
    ensures LevelCounter(c, a, j) == c
  {
  }

  lemma AlignedAtEnd(c: uint32, a: uint32)
    requires Aligned(c, a, PARTS)
    ensures c == a && Distance(c, a) == 0
  {
  }

  /** Only R(0) is ever hashed 256 times. */
  lemma WrapOnlyAtTop(c: uint32, a: uint32, j: nat)
    requires j < PARTS && Aligned(c, a, j) && LevelSteps(c, a, j) == 256
    ensures j == 0
  {
  }

  /** One round of the jump. */
  function Round<P>(hmac: Hmac<P>, r: Ratchet<P>, a: uint32, j: nat): (r': Ratchet<P>)
    requires Valid(r) && j < PARTS
    ensures Valid(r')
  {
    var steps := LevelSteps(r.counter, a, j);
    if steps == 0 then r
    else Ratchet(Rekeyed(hmac, SelfHashed(hmac, r.parts, j, steps - 1), j), LevelCounter(r.counter, a, j))
  }

  /** Rounds j..3 of the jump to a. */
  function Jump<P>(hmac: Hmac<P>, r: Ratchet<P>, a: uint32, j: nat): (r': Ratchet<P>)
    requires Valid(r) && j <= PARTS
    ensures Valid(r')
    decreases PARTS - j
  {
    if j == PARTS then r else Jump(hmac, Round(hmac, r, a, j), a, j + 1)
  }

  lemma RoundIsSteps<P>(hmac: Hmac<P>, r: Ratchet<P>, a: uint32, j: nat)
    requires Valid(r) && j < PARTS && Aligned(r.counter, a, j)
    ensures var next := Round(hmac, r, a, j);
      && Aligned(next.counter, a, j + 1)
      && Distance(next.counter, a) <= Distance(r.counter, a)
      && next == Steps(hmac, r, Distance(r.counter, a) - Distance(next.counter, a))
  {
    hide Step, Steps, Rekeyed, SelfHashed, Aligned, NoCarry, Distance, Block;
    LevelProgress(r.counter, a, j);
    var steps := LevelSteps(r.counter, a, j);
    if steps == 0 {
      LevelUnmoved(r.counter, a, j);
      StepsNone(hmac, r);
    } else {
      StepsOfRound(hmac, r, a, j, steps, LevelCounter(r.counter, a, j));
    }
  }

  lemma StepsNone<P>(hmac: Hmac<P>, r: Ratchet<P>)
    requires Valid(r)
    ensures Steps(hmac, r, 0) == r
  {
  }

  lemma StepsOfRound<P>(hmac: Hmac<P>, r: Ratchet<P>, a: uint32, j: nat, steps: nat, c: uint32)
    requires Valid(r) && j < PARTS && 0 < steps && NoCarry(r.counter, j, steps)
    requires Distance(r.counter, a) == steps * Block(j) - r.counter % Block(j) + Distance(c, a)
    ensures Distance(c, a) <= Distance(r.counter, a)
    ensures Steps(hmac, r, Distance(r.counter, a) - Distance(c, a))
         == Ratchet(Rekeyed(hmac, SelfHashed(hmac, r.parts, j, steps - 1), j), c)
  {
    hide Steps, Rekeyed, SelfHashed, Distance, NoCarry, Block;
    StepsAcrossBlocks(hmac, r, j, steps);
    StepsCounter(hmac, r, Distance(r.counter, a) - Distance(c, a));
    DistanceShift(r.counter, c, a);
  }

  /** The jump is the ratchet stepped one index at a time, for every pair of
      counters; a target behind the counter means stepping through 2^32. */
  lemma {:induction false} JumpIsSteps<P>(hmac: Hmac<P>, r: Ratchet<P>, a: uint32, j: nat)
    requires Valid(r) && j <= PARTS && Aligned(r.counter, a, j)
    ensures Jump(hmac, r, a, j) == Steps(hmac, r, Distance(r.counter, a))
    decreases PARTS - j
  {
    hide Round, Aligned, Distance, Steps, Step;
    if j == PARTS {
      AlignedAtEnd(r.counter, a);
      StepsNone(hmac, r);
    } else {
      var next := Round(hmac, r, a, j);
      RoundIsSteps(hmac, r, a, j);
      JumpIsSteps(hmac, next, a, j + 1);
      StepsAdd(hmac, r, Distance(r.counter, a) - Distance(next.counter, a), Distance(next.counter, a));
    }
  }

  lemma DistanceShift(c: uint32, c': uint32, a: uint32)
    requires Distance(c', a) <= Distance(c, a)
    ensures (c + (Distance(c, a) - Distance(c', a))) % MODULUS == c'
  {
  }

  // ------------------------------------------------------------------
  // The cost of a jump
  // ------------------------------------------------------------------

  /** Part rehashes of the rounds j..3 of a jump from c to a. */
  function RehashCost(c: uint32, a: uint32, j: nat): (n: nat)
    requires j <= PARTS
    decreases PARTS - j
  {
    if j == PARTS then 0
    else
      var steps := LevelSteps(c, a, j);
      (if steps == 0 then 0 else steps - 1 + (PARTS - j)) + RehashCost(LevelCounter(c, a, j), a, j + 1)
  }

  function CostBound(j: nat): (n: nat)
    requires 1 <= j <= PARTS
  {
    if j == 1 then 768 else if j == 2 then 511 else if j == 3 then 255 else 0
  }

  lemma {:induction false} CostBelow(c: uint32, a: uint32, j: nat)
    requires 1 <= j <= PARTS && Aligned(c, a, j)
    ensures RehashCost(c, a, j) <= CostBound(j)
    decreases PARTS - j
  {
    if j >= PARTS {
    } else {
      assert LevelSteps(c, a, j) <= 255 by { hide *; LevelStepsBelow(c, a, j); }
      hide Aligned, LevelCounter, LevelSteps;
      LevelProgress(c, a, j);
      CostBelow(LevelCounter(c, a, j), a, j + 1);
    }
  }

  lemma LevelStepsBelow(c: uint32, a: uint32, j: nat)
    requires 1 <= j < PARTS && Aligned(c, a, j)
    ensures LevelSteps(c, a, j) <= 255
  {
    if LevelSteps(c, a, j) == 256 {
      WrapOnlyAtTop(c, a, j);
    }
  }

  /** The counter after round j-1 moved: a with its digits j..3 zeroed. */
  function Masked(a: uint32, j: nat): (m: uint32)
    requires 1 <= j <= PARTS
  {
    a - a % Block(j - 1)
  }

  lemma MaskedRound(a: uint32, j: nat)
    requires 1 <= j < PARTS
    ensures Aligned(Masked(a, j), a, j)
    ensures LevelSteps(Masked(a, j), a, j) == (a / Block(j)) % 256
    ensures LevelCounter(Masked(a, j), a, j) == Masked(a, j + 1)
    ensures a % Block(j - 1) == (a / Block(j)) % 256 * Block(j) + a % Block(j)
  {
    hide Block;
    MaskedDistance(a, j - 1);
    MaskedDigit(a, j);
  }

  lemma MaskedDigit(a: uint32, j: nat)
    requires 1 <= j < PARTS
    ensures a % Block(j - 1) == (a / Block(j)) % 256 * Block(j) + a % Block(j)
    ensures a / Block(j) - Masked(a, j) / Block(j) == (a / Block(j)) % 256
  {
    BlockDigits(a, j);
    var y := a / Block(j);
    assert y == y / 256 * 256 + y % 256;
    if j == 1 {
      assert a - a % 0x100_0000 == y / 256 * 0x100_0000;
    } else if j == 2 {
      assert a - a % 0x1_0000 == y / 256 * 0x1_0000;
    } else {
      assert a - a % 0x100 == y / 256 * 0x100;
    }
  }

  /** Digit j of a counter. */
  function Digit(a: uint32, j: nat): (d: byte)
    requires j < PARTS
  {
    (a / Block(j)) % 256
  }

  lemma CostOfRound(a: uint32, j: nat)
    requires 1 <= j < PARTS
    ensures var d := Digit(a, j);
      RehashCost(Masked(a, j), a, j) == (if d == 0 then 0 else d + 3 - j) + RehashCost(Masked(a, j + 1), a, j + 1)
  {
    MaskedRound(a, j);
    hide LevelSteps, LevelCounter, Masked, Block;
  }

  /** Once R(0) moves, every lower digit of the target is hashed up from zero; each
      digit that is not zero then also costs one rehash of every part below it. */
  lemma CostOfDigits(c: uint32, a: uint32)
    requires LevelSteps(c, a, 0) > 0
    ensures RehashCost(c, a, 0)
         == LevelSteps(c, a, 0) + 3 + Digit(a, 1) + (if Digit(a, 1) > 0 then 2 else 0)
          + Digit(a, 2) + (if Digit(a, 2) > 0 then 1 else 0) + Digit(a, 3)
  {
    assert LevelCounter(c, a, 0) == Masked(a, 1);
    hide LevelSteps, LevelCounter, Masked, Digit;
    CostOfRound(a, 1);
    CostOfRound(a, 2);
    CostOfRound(a, 3);
  }

  /** Without a step of R(0) a jump is cheap. */
  lemma CostBelowTop(c: uint32, a: uint32)
    requires LevelSteps(c, a, 0) == 0
    ensures RehashCost(c, a, 0) <= 768
  {
    LevelProgress(c, a, 0);
    CostBelow(c, a, 1);
    hide Aligned, LevelSteps;
  }

  /** No jump costs more than 1026 rehashes ... */
  lemma JumpCost(c: uint32, a: uint32)
    ensures RehashCost(c, a, 0) <= 1026
  {
    if LevelSteps(c, a, 0) == 0 {
      CostBelowTop(c, a);
    } else {
      CostOfDigits(c, a);
      if LevelSteps(c, a, 0) == 256 {
        WrappedDigits(c, a);
      }
    }
    hide LevelSteps, Digit, RehashCost;
  }

  lemma WrappedDigits(c: uint32, a: uint32)
    requires LevelSteps(c, a, 0) == 256
    ensures Digit(a, 1) < 255 || Digit(a, 2) < 255 || Digit(a, 3) < 255
  {
    TopWrap(c, a);
    MaskedDigit(a, 1);
    MaskedDigit(a, 2);
    MaskedDigit(a, 3);
    assert a % Block(3) == 0;
    hide LevelSteps;
  }

  lemma TopWrap(c: uint32, a: uint32)
    requires LevelSteps(c, a, 0) == 256
    ensures a % Block(0) != Block(0) - 1
  {
  }

  /** ... one jump costs exactly that ... */
  lemma JumpCostReached()
    ensures RehashCost(0, 0xFFFF_FFFF, 0) == 1026
  {
    var a: uint32 := 0xFFFF_FFFF;
    assert LevelSteps(0, a, 0) == 255 && Digit(a, 1) == Digit(a, 2) == Digit(a, 3) == 255;
    CostOfDigits(0, a);
    hide RehashCost, LevelSteps, Digit;
  }

  /** ... and the documented 1020 is kept exactly by the jumps whose steps of R(0)
      and lower target digits sum to at most 1014. */
  lemma DocumentedCostIff(c: uint32, a: uint32)
    ensures RehashCost(c, a, 0) <= 1020
       <==> LevelSteps(c, a, 0) + Digit(a, 1) + Digit(a, 2) + Digit(a, 3) <= 1014
  {
    if LevelSteps(c, a, 0) == 0 {
      CostBelowTop(c, a);
    } else {
      CostOfDigits(c, a);
    }
    hide LevelSteps, Digit, RehashCost;
  }

  // ------------------------------------------------------------------
  // The C object
  // ------------------------------------------------------------------

  class Megolm<P> {
    const hmac: Hmac<P>
    var data: array<P>
    var counter: uint32

    ghost predicate Valid()
      reads this
    {
      data.Length == PARTS
    }

    ghost function View(): (r: Ratchet<P>)
      requires Valid()
      reads this, data
    {
      Ratchet(data[..], counter)
    }

    constructor (hmac: Hmac<P>, random: seq<P>, counter: uint32)
      requires |random| == PARTS
      ensures Valid() && fresh(data) && this.hmac == hmac
      ensures View() == Ratchet(random, counter)
    {
      this.hmac := hmac;
      this.counter := counter;
      this.data := new P[PARTS](k requires 0 <= k < PARTS => random[k]);
      new;
      assert data[..] == random;
    }

    method Init(random: seq<P>, counter: uint32)
      requires Valid() && |random| == PARTS
      modifies this`counter, data
      ensures View() == Ratchet(random, counter)
    {
      this.counter := counter;
      for k := 0 to PARTS
        invariant this.counter == counter
        invariant forall i :: 0 <= i < k ==> data[i] == random[i]
      {
        data[k] := random[k];
      }
      assert data[..] == random;
    }

    /** A copy in its own storage, as a C structure assignment makes one. */
    method Copy() returns (m: Megolm<P>)
      requires Valid()
      ensures fresh(m) && m.Valid() && fresh(m.data) && m.hmac == hmac && m.View() == View()
    {
      m := new Megolm(hmac, data[..], counter);
    }

    method RehashPart(rehashFrom: nat, rehashTo: nat)
      requires Valid() && rehashFrom < PARTS && rehashTo < PARTS
      modifies data
      ensures data[..] == old(data[..])[rehashTo := hmac(old(data[rehashFrom]), rehashTo)]
    {
      data[rehashTo] := hmac(data[rehashFrom], rehashTo);
    }

    /** R(h)..R(3) from R(h), highest part first so that R(h) is still the old one. */
    method Rekey(h: nat)
      requires Valid() && h < PARTS
      modifies data
      ensures data[..] == Rekeyed(hmac, old(data[..]), h)
    {
      var i := PARTS;
      while i > h
        invariant h <= i <= PARTS
        invariant forall k :: 0 <= k < i ==> data[k] == old(data[k])
        invariant forall k :: i <= k < PARTS ==> data[k] == hmac(old(data[h]), k)
      {
        i := i - 1;
        RehashPart(h, i);
      }
    }

    method Advance()
      requires Valid()
      modifies this`counter, data
      ensures View() == Step(hmac, old(View()))
    {
      counter := Next(counter);
      // `counter & mask` for the masks 2^24-1, 2^16-1, 2^8-1 and 0
      var mask := 0x00FF_FFFF;
      var h := 0;
      while h < PARTS
        invariant 0 <= h <= Level(counter)
        invariant mask == Block(h) - 1
      {
        if counter % (mask + 1) == 0 {
          break;
        }
        h := h + 1;
        mask := mask / 256;
      }
      Rekey(h);
    }

    /** The body of one round: `steps - 1` plain rehashes of R(j), then a rekey from it. */
    method HashLevel(j: nat, steps: nat) returns (ghost rehashes: nat)
      requires Valid() && j < PARTS && steps > 0
      modifies data
      ensures data[..] == Rekeyed(hmac, SelfHashed(hmac, old(data[..]), j, steps - 1), j)
      ensures rehashes == steps - 1 + (PARTS - j)
    {
      rehashes := 0;
      var left := steps;
      while left > 1
        invariant 1 <= left <= steps && rehashes == steps - left
        invariant data[..] == SelfHashed(hmac, old(data[..]), j, steps - left)
      {
        RehashPart(j, j);
        left := left - 1;
        rehashes := rehashes + 1;
      }
      Rekey(j);
      rehashes := rehashes + (PARTS - j);
    }

    /** One round of the jump. */
    method AdvanceDigit(advanceTo: uint32, j: nat) returns (ghost rehashes: nat)
      requires Valid() && j < PARTS
      modifies this`counter, data
      ensures View() == Round(hmac, old(View()), advanceTo, j)
      ensures counter == LevelCounter(old(counter), advanceTo, j)
      ensures var steps := LevelSteps(old(counter), advanceTo, j);
        rehashes == if steps == 0 then 0 else steps - 1 + (PARTS - j)
    {
      // ((advance_to >> shift) - (counter >> shift)) & 0xff
      var steps := (advanceTo / Block(j) - counter / Block(j)) % 256;
      if steps == 0 {
        if advanceTo < counter {
          steps := 0x100;
        } else {
          return 0;
        }
      }
      rehashes := HashLevel(j, steps);
      // advance_to & mask
      counter := advanceTo - advanceTo % Block(j);
    }

    /** Jumps to `advanceTo`; `rehashes` counts the calls of RehashPart. */
    method AdvanceTo(advanceTo: uint32) returns (ghost rehashes: nat)
      requires Valid()
      modifies this`counter, data
      ensures View() == Steps(hmac, old(View()), Distance(old(counter), advanceTo))
      ensures rehashes == RehashCost(old(counter), advanceTo, 0)
    {
      rehashes := 0;
      ghost var start := View();
      for j := 0 to PARTS
        invariant Jump(hmac, View(), advanceTo, j) == Jump(hmac, start, advanceTo, 0)
        invariant rehashes + RehashCost(counter, advanceTo, j) == RehashCost(start.counter, advanceTo, 0)
      {
        hide Round, LevelSteps, LevelCounter;
        ghost var n := AdvanceDigit(advanceTo, j);
        rehashes := rehashes + n;
      }
      hide Steps;
      JumpIsSteps(hmac, start, advanceTo, 0);
    }
  }
}
