/** Rounding conversion of ticks between two resolutions. */
module TickConversion {
  import opened Wrappers
  import opened Bytes

  // Nearest target tick, halves rounded up when the source resolution is even.
  function Scaled(tick: nat, source: nat, target: nat): nat
    requires 0 < source
  {
    (tick * target + source / 2) / source
  }

  /** The conversion of the parser: fails when the result leaves the 64-bit range. */
  function Convert(tick: nat, source: nat, target: nat): Option<nat>
    requires 0 < source
  {
    if Scaled(tick, source, target) <= U64_MAX then Some(Scaled(tick, source, target)) else None
  }

  lemma {:induction false} Identity(tick: nat, ppq: nat)
    requires 0 < ppq
    ensures Scaled(tick, ppq, ppq) == tick
  {
    var n := tick * ppq + ppq / 2;
    Quotient(n, ppq, tick);
  }

  lemma {:induction false} Cancel(a: int, b: int, d: nat)
    requires a * d < b * d
    ensures a < b
  {
    assert 0 < (b - a) * d;
  }

  lemma {:induction false} Quotient(n: nat, d: nat, q: nat)
    requires 0 < d && q * d <= n < q * d + d
    ensures n / d == q
  {
    var k := n / d;
    assert n == k * d + n % d;
    Cancel(k, q + 1, d);
    Cancel(q, k + 1, d);
  }

  lemma {:induction false} Monotone(a: nat, b: nat, source: nat, target: nat)
    requires 0 < source && a <= b
    ensures Scaled(a, source, target) <= Scaled(b, source, target)
  {
    assert a * target <= b * target;
    DivMonotone(a * target + source / 2, b * target + source / 2, source);
  }

  lemma {:induction false} DivMonotone(m: nat, n: nat, d: nat)
    requires 0 < d && m <= n
    ensures m / d <= n / d
  {
    assert m == m / d * d + m % d && n == n / d * d + n % d;
    Cancel(m / d, n / d + 1, d);
  }

  /** The nearest target tick: scaled/target - tick/source is at most 1/(2*target) and more than -1/(2*target), cleared
      of fractions, so that halves are rounded up. No other tick is that near. */
  lemma {:induction false} HalfTick(tick: nat, source: nat, target: nat)
    requires 0 < source
    ensures -(source as int) < 2 * (Scaled(tick, source, target) * source - tick * target) <= source
  {
    var n := tick * target + source / 2;
    assert n == n / source * source + n % source;
  }

  /** Being the nearest determines the tick. */
  lemma {:induction false} NearestIsScaled(tick: nat, source: nat, target: nat, nearest: nat)
    requires 0 < source && -(source as int) < 2 * (nearest * source - tick * target) <= source
    ensures nearest == Scaled(tick, source, target)
  {
    var scaled := Scaled(tick, source, target);
    HalfTick(tick, source, target);
    assert (nearest - scaled) * source == nearest * source - scaled * source;
    if nearest < scaled {
      Cancel(scaled, nearest + 1, source);
    } else if scaled < nearest {
      Cancel(nearest, scaled + 1, source);
    }
  }

  /** Distinct ticks stay distinct when the target resolution is not smaller. */
  lemma {:induction false} Injective(a: nat, b: nat, source: nat, target: nat)
    requires 0 < source <= target && a < b
    ensures Scaled(a, source, target) < Scaled(b, source, target)
  {
    NextMultiple(a, b, target);
    var m, n := a * target + source / 2, b * target + source / 2;
    DivMonotone(m + source, n, source);
    NextQuotient(m, source);
  }

  lemma {:induction false} NextMultiple(a: nat, b: nat, d: nat)
    requires a < b
    ensures a * d + d <= b * d
  {
    assert b * d == (a + 1) * d + (b - a - 1) * d;
  }

  lemma {:induction false} NextQuotient(m: nat, d: nat)
    requires 0 < d
    ensures (m + d) / d == m / d + 1
  {
    assert m == m / d * d + m % d;
    Quotient(m + d, d, m / d + 1);
  }
}
