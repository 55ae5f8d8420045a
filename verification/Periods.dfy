/** Periodic deadlines in 64 bits: the loop that moves one past the present, where it lands, and
    when it ends. */
module Periods {
  import opened Common

  // ---- In unbounded time ---------------------------------------------------------------------

  /** The first deadline after `now` that lies a number of periods after `deadline`. */
  function LeastAfter(deadline: int, period: int, now: int): (d: int)
    requires period > 0
    ensures d > now && d >= deadline && (deadline <= now ==> d - period <= now)
    decreases now - deadline
  {
    if deadline > now then deadline else LeastAfter(deadline + period, period, now)
  }

  /** It is in step, and nothing in step lies between. */
  lemma {:induction false} LeastAfterIs(deadline: int, period: int, now: int, k: nat)
    requires period > 0
    ensures exists j: nat :: LeastAfter(deadline, period, now) == deadline + j * period
    ensures deadline + k * period > now ==> deadline + k * period >= LeastAfter(deadline, period, now)
    decreases now - deadline
  {
    if deadline > now {
      assert LeastAfter(deadline, period, now) == deadline + 0 * period;
    } else {
      LeastAfterIs(deadline + period, period, now, if k > 0 then k - 1 else 0);
      var j: nat :| LeastAfter(deadline + period, period, now) == deadline + period + j * period;
      assert deadline + period + j * period == deadline + (j + 1) * period;
      assert k > 0 ==> deadline + period + (k - 1) * period == deadline + k * period;
    }
  }

  /** Periods from a deadline that has passed to the first after now. */
  function PeriodCount(deadline: int, period: int, now: int): (k: int)
    requires period > 0
  {
    (now - deadline) / period + 1
  }

  lemma PeriodsIs(deadline: int, period: int, now: int)
    requires period > 0 && deadline <= now
    ensures PeriodCount(deadline, period, now) >= 1
    ensures (PeriodCount(deadline, period, now) - 1) * period <= now - deadline
    ensures now - deadline < PeriodCount(deadline, period, now) * period
  {
    var q := (now - deadline) / period;
    assert now - deadline == q * period + (now - deadline) % period;
    assert (q + 1) * period == q * period + period;
  }

  lemma LeastAfterClosed(deadline: int, period: int, now: int)
    requires period > 0 && deadline <= now
    ensures LeastAfter(deadline, period, now) == deadline + PeriodCount(deadline, period, now) * period
  {
    var k := PeriodCount(deadline, period, now);
    PeriodsIs(deadline, period, now);
    hide PeriodCount;
    LeastAfterIs(deadline, period, now, k);
    var j: nat :| LeastAfter(deadline, period, now) == deadline + j * period;
    assert (j - 1) * period == j * period - period;
    if j < k {
      Times(j, k - 1, period);
    } else if k < j {
      Times(k, j - 1, period);
    }
  }

  lemma Times(a: int, b: int, p: int)
    requires a <= b && p >= 0
    ensures a * p <= b * p
  {
    assert (b - a) * p >= 0;
  }

  // ---- In 64 bits ----------------------------------------------------------------------------

  /** The deadline after k wrapped additions. */
  function At(deadline: int, period: int, k: nat): int { (deadline + k * period) % LIMIT64 }

  lemma AtNext(deadline: int, period: int, k: nat)
    ensures At(deadline, period, k + 1) == (At(deadline, period, k) + period) % LIMIT64
  {
    assert deadline + (k + 1) * period == deadline + k * period + period;
  }

  /** The loop lands on d: the first wrapped deadline after now. */
  ghost predicate Lands(deadline: int, period: int, now: int, d: int) {
    exists k: nat :: LandsAt(deadline, period, now, d, k)
  }

  ghost predicate LandsAt(deadline: int, period: int, now: int, d: int, k: nat) {
    At(deadline, period, k) == d > now && forall j :: 0 <= j < k ==> At(deadline, period, j) <= now
  }

  lemma LandsOnce(deadline: int, period: int, now: int, d: int, e: int)
    requires Lands(deadline, period, now, d) && Lands(deadline, period, now, e)
    ensures d == e
  {
    var k: nat :| LandsAt(deadline, period, now, d, k);
    var l: nat :| LandsAt(deadline, period, now, e, l);
    assert k < l ==> At(deadline, period, k) <= now;
    assert l < k ==> At(deadline, period, l) <= now;
  }

  /** It lands on the first deadline in step exactly when that fits 64 bits. */
  lemma LandsInStep(deadline: int, period: int, now: int, d: int)
    requires 0 <= deadline <= now < LIMIT64 && 0 < period < LIMIT64 && Lands(deadline, period, now, d)
    ensures d == LeastAfter(deadline, period, now) <==> deadline + PeriodCount(deadline, period, now) * period < LIMIT64
  {
    hide PeriodCount;
    var k := PeriodCount(deadline, period, now);
    PeriodsIs(deadline, period, now);
    LeastAfterClosed(deadline, period, now);
    if deadline + k * period < LIMIT64 {
      forall j | 0 <= j < k ensures At(deadline, period, j) <= now {
        Times(0, j, period);
        Times(j, k - 1, period);
      }
      assert LandsAt(deadline, period, now, deadline + k * period, k);
      LandsOnce(deadline, period, now, d, deadline + k * period);
    }
  }

  // ---- When the loop ends --------------------------------------------------------------------

  /** The largest power of two that divides p. */
  function LowBit(p: int): (g: int)
    requires p > 0
    ensures 1 <= g <= p
    decreases p
  {
    if p % 2 == 1 then 1 else 2 * LowBit(p / 2)
  }

  /** The largest wrapped deadline in step: all of them agree with it below the low bit of the
      period, and the loop ends exactly when it lies after now. */
  function Last(deadline: int, period: int): int
    requires period > 0
  {
    LIMIT64 - LowBit(period) + deadline % LowBit(period)
  }

  predicate Ends(deadline: int, period: int, now: int)
    requires period > 0
  {
    now < Last(deadline, period)
  }

  function Pow2(n: nat): (m: int)
    ensures m >= 1
  {
    if n == 0 then 1 else 2 * Pow2(n - 1)
  }

  /** A period is an odd number times its low bit, and so is 2^n a power of two times it. */
  lemma {:induction false} LowBitParts(p: int, n: nat) returns (odd: int, rest: nat)
    requires 0 < p < Pow2(n)
    ensures p == LowBit(p) * odd && odd % 2 == 1 && rest <= n && Pow2(n) == LowBit(p) * Pow2(rest)
    decreases p
  {
    if p % 2 == 1 {
      odd, rest := p, n;
    } else {
      odd, rest := LowBitParts(p / 2, n - 1);
      Double(LowBit(p / 2), odd);
      Double(LowBit(p / 2), Pow2(rest));
    }
  }

  lemma Double(a: int, b: int)
    ensures 2 * a * b == 2 * (a * b)
  {
  }

  /** Multiples of an odd number reach every residue of a power of two. */
  lemma {:induction false} OddReaches(odd: int, c: int, n: nat) returns (x: nat, q: int)
    requires odd % 2 == 1
    ensures x * odd == c + q * Pow2(n)
    decreases n
  {
    if n == 0 {
      x, q := 0, -c;
    } else {
      var y, r := OddReaches(odd, c, n - 1);
      if r % 2 == 0 {
        x, q := y, r / 2;
        Double(r / 2, Pow2(n - 1));
      } else {
        x, q := y + Pow2(n - 1), (r + odd) / 2;
        Spread(y, Pow2(n - 1), odd);
        Spread(r, odd, Pow2(n - 1));
        assert r + odd == 2 * q;
        Double(q, Pow2(n - 1));
      }
    }
  }

  lemma Spread(a: int, b: int, c: int)
    ensures (a + b) * c == a * c + b * c && c * b == b * c
  {
  }

  lemma AddMultiple(a: int, g: int, x: int)
    requires g > 0
    ensures (a + g * x) % g == a % g
  {
    var q, r := a / g, a % g;
    var b := a + g * x;
    assert b == g * (q + x) + r;
    assert b == g * (b / g) + b % g;
    SameQuotient(b, g, q + x, r, b / g, b % g);
  }

  lemma SameQuotient(b: int, g: int, q: int, r: int, p: int, s: int)
    requires b == g * q + r == g * p + s && 0 <= r < g && 0 <= s < g
    ensures r == s
  {
    if q < p {
      Times(1, p - q, g);
    } else if p < q {
      Times(1, q - p, g);
    }
  }

  lemma Pow64()
    ensures Pow2(64) == LIMIT64
  {
    Pow16(0);
    Pow16(16);
    Pow16(32);
    Pow16(48);
  }

  lemma Pow16(n: nat)
    ensures Pow2(n + 16) == LIMIT16 * Pow2(n)
  {
    Pow4(n);
    Pow4(n + 4);
    Pow4(n + 8);
    Pow4(n + 12);
  }

  lemma Pow4(n: nat)
    ensures Pow2(n + 4) == 16 * Pow2(n)
  {
    assert Pow2(n + 1) == 2 * Pow2(n);
    assert Pow2(n + 2) == 2 * Pow2(n + 1);
    assert Pow2(n + 3) == 2 * Pow2(n + 2);
  }

  /** Wrapped deadlines agree with the first one below the low bit of the period. */
  lemma AtLow(deadline: int, period: int, k: nat)
    requires 0 < period < LIMIT64
    ensures At(deadline, period, k) % LowBit(period) == deadline % LowBit(period)
  {
    hide LowBit, Pow2;
    Pow64();
    var g := LowBit(period);
    var odd, rest := LowBitParts(period, 64);
    var all := deadline + k * period;
    var q := all / LIMIT64;
    assert At(deadline, period, k) == all - q * LIMIT64;
    Factors(g, odd, k, Pow2(rest), q);
    AddMultiple(deadline, g, k * odd - q * Pow2(rest));
  }

  lemma Factors(g: int, odd: int, k: int, m: int, q: int)
    ensures k * (g * odd) - q * (g * m) == g * (k * odd - q * m)
  {
  }

  /** None lies after the last one. */
  lemma AtMostLast(deadline: int, period: int, k: nat)
    requires 0 < period < LIMIT64
    ensures At(deadline, period, k) <= Last(deadline, period)
  {
    hide LowBit, Pow2;
    Pow64();
    AtLow(deadline, period, k);
    var g := LowBit(period);
    var odd, rest := LowBitParts(period, 64);
    var v := At(deadline, period, k);
    assert v == g * (v / g) + v % g;
    Below(g, v / g, Pow2(rest), v % g);
  }

  lemma Below(g: int, u: int, m: int, r: int)
    requires g > 0 && r >= 0 && g * u + r < g * m
    ensures g * u + r <= g * m - g + r
  {
    if u >= m {
      Times(m, u, g);
    } else {
      Times(u, m - 1, g);
    }
  }

  /** The last one is reached. */
  lemma ReachesLast(deadline: int, period: int) returns (k: nat)
    requires 0 < period < LIMIT64
    ensures At(deadline, period, k) == Last(deadline, period)
  {
    hide LowBit, Pow2;
    Pow64();
    var g := LowBit(period);
    var odd, rest := LowBitParts(period, 64);
    var c := Pow2(rest) - 1 - deadline / g;
    var q;
    k, q := OddReaches(odd, c, rest);
    LastReached(deadline, g, odd, k, q, Pow2(rest));
    AddMultiple(Last(deadline, period), LIMIT64, q);
  }

  lemma LastReached(deadline: int, g: int, odd: int, k: int, q: int, m: int)
    requires g > 0 && k * odd == m - 1 - deadline / g + q * m
    ensures deadline + k * (g * odd) == g * m - g + deadline % g + (g * m) * q
  {
    var a := deadline / g;
    assert deadline == g * a + deadline % g;
    Reorder(g, odd, k);
    Spread4(g, m, a, q);
  }

  lemma Reorder(g: int, odd: int, k: int)
    ensures k * (g * odd) == g * (k * odd)
  {
  }

  lemma Spread4(g: int, m: int, a: int, q: int)
    ensures g * (m - 1 - a + q * m) == g * m - g - g * a + (g * m) * q
  {
  }

  /** The loop ends exactly when the last wrapped deadline in step lies after now. */
  lemma EndsExactly(deadline: int, period: int, now: int)
    requires 0 < period < LIMIT64
    ensures Ends(deadline, period, now) <==> exists k: nat :: At(deadline, period, k) > now
  {
    var k := ReachesLast(deadline, period);
    hide At, Last;
    forall j: nat ensures At(deadline, period, j) <= Last(deadline, period) {
      AtMostLast(deadline, period, j);
    }
  }

  /** A deadline moves past now in steps of its period, in 64 bits. */
  method CatchUp(deadline: int, period: int, now: int) returns (d: int)
    requires 0 <= deadline <= now < LIMIT64 && 0 < period < LIMIT64 && Ends(deadline, period, now)
    ensures now < d < LIMIT64 && Lands(deadline, period, now, d)
    ensures d == LeastAfter(deadline, period, now) <==> deadline + PeriodCount(deadline, period, now) * period < LIMIT64
  {
    EndsExactly(deadline, period, now);
    ghost var end: nat :| At(deadline, period, end) > now;
    ghost var k: nat := 0;
    d := deadline;
    while d <= now
      invariant k <= end && d == At(deadline, period, k) && forall j :: 0 <= j < k ==> At(deadline, period, j) <= now
      decreases end - k
    {
      AtNext(deadline, period, k);
      d := (d + period) % LIMIT64;
      k := k + 1;
    }
    assert LandsAt(deadline, period, now, d, k);
    LandsInStep(deadline, period, now, d);
  }

  const LONGEST: int := LIMIT64 - 1

  /** A timer armed with the longest period, due at tick 11, counts down instead: it lands on the
      last tick of 64 bits, and the deadline in step is out of reach. */
  lemma LongestPeriod()
    ensures Lands(11, LONGEST, 11, LONGEST) && LeastAfter(11, LONGEST, 11) == LIMIT64 + 10
  {
    forall j | 0 <= j < 12 ensures At(11, LONGEST, j) == 11 - j {
      assert 11 + j * LONGEST == 11 - j + j * LIMIT64;
    }
    assert 11 + 12 * LONGEST == LONGEST + 11 * LIMIT64;
    assert LandsAt(11, LONGEST, 11, LONGEST, 12);
  }

  /** With half of all ticks as period, a timer due in the first half never gets past a tick of
      the second half: the loop goes round for ever. */
  lemma GoesRound(deadline: int, now: int, k: nat)
    requires 0 <= deadline < LIMIT64 / 2 <= deadline + LIMIT64 / 2 <= now < LIMIT64
    ensures !Ends(deadline, LIMIT64 / 2, now) && At(deadline, LIMIT64 / 2, k) <= now
  {
    EndsExactly(deadline, LIMIT64 / 2, now);
    AtMostLast(deadline, LIMIT64 / 2, k);
    HalfLow();
  }

  lemma HalfLow()
    ensures LowBit(LIMIT64 / 2) == LIMIT64 / 2
  {
    PowLow(63);
    Pow64();
  }

  lemma {:induction false} PowLow(n: nat)
    ensures LowBit(Pow2(n)) == Pow2(n)
  {
    if n > 0 {
      PowLow(n - 1);
    }
  }
}
