/** Quotients, remainders and alignment of natural numbers: the few facts the allocator's arithmetic rests on. */
module Division {
  lemma Times(a: nat, b: nat, c: nat)
    requires b <= c
    ensures a * b <= a * c && b * a <= c * a
  {
    assert a * c == a * b + a * (c - b);
  }

  lemma RemExact(n: nat, d: nat)
    requires d > 0
    ensures n == (n / d) * d + n % d
  {
  }

  lemma QuotientExact(n: nat, d: nat)
    requires d > 0
    ensures (n / d) * d <= n < (n / d + 1) * d
  {
    RemExact(n, d);
    assert (n / d + 1) * d == (n / d) * d + d;
  }

  lemma QuotientFits(n: nat, d: nat)
    requires d > 0
    ensures 0 <= n / d
  {
  }

  /** There is one quotient and one remainder. */
  lemma RemMultiple(q: nat, d: nat, r: nat)
    requires r < d
    ensures (q * d + r) % d == r && (q * d + r) / d == q
  {
    var p := (q * d + r) / d;
    QuotientExact(q * d + r, d);
    RemExact(q * d + r, d);
    assert (q + 1) * d == q * d + d;
    if p < q { Times(d, p + 1, q); }
    if p > q { Times(d, q + 1, p); }
  }

  lemma QuotientFalls(n: nat, m: nat, d: nat, e: nat)
    requires 0 < d <= e && m <= n
    ensures m / e <= n / d
  {
    QuotientExact(n, d);
    QuotientExact(m, e);
    if m / e > n / d {
      Times(d, n / d + 1, m / e);
      Times(m / e, d, e);
    }
  }

  /** Adding a multiple of d changes no remainder. */
  lemma RemPlus(a: nat, b: nat, d: nat)
    requires d > 0 && b % d == 0
    ensures (a + b) % d == a % d
  {
    RemExact(a, d);
    RemExact(b, d);
    var p, q := a / d, b / d;
    assert (p + q) * d == p * d + q * d;
    RemMultiple(p + q, d, a % d);
  }

  lemma RemTimes(q: nat, d: nat)
    requires d > 0
    ensures (q * d) % d == 0
  {
    RemMultiple(q, d, 0);
  }

  /** Behind a multiple. */
  lemma RemBehind(base: nat, off: nat, d: nat)
    requires off < d && base % d == 0
    ensures (base + off) % d == off
  {
    RemExact(base, d);
    RemMultiple(base / d, d, off);
  }

  /** A multiple of a multiple. */
  lemma RemChain(n: nat, d: nat, e: nat)
    requires d > 0 && e > 0 && n % d == 0 && d % e == 0
    ensures n % e == 0
  {
    RemExact(n, d);
    RemExact(d, e);
    var p, q := n / d, d / e;
    Regroup(p, q, e);
    RemTimes(p * q, e);
  }

  lemma Regroup(p: nat, q: nat, e: nat)
    ensures p * (q * e) == (p * q) * e
  {
  }

  /** n / d, rounded up. */
  function Ceil(n: nat, d: nat): nat
    requires d > 0
  {
    n / d + if n % d != 0 then 1 else 0
  }

  lemma CeilExact(n: nat, d: nat)
    requires d > 0
    ensures n <= Ceil(n, d) * d < n + d
  {
    RemExact(n, d);
    assert (n / d + 1) * d == (n / d) * d + d;
  }

  lemma CeilBound(n: nat, d: nat, most: nat)
    requires d > 0 && n <= most * d
    ensures Ceil(n, d) <= most && (n > 0 ==> Ceil(n, d) >= 1)
  {
    CeilExact(n, d);
    assert (most + 1) * d == most * d + d;
    if Ceil(n, d) > most { Times(d, most + 1, Ceil(n, d)); }
  }

  predicate PowerOfTwo(n: nat) { n == 1 || (n > 1 && n % 2 == 0 && PowerOfTwo(n / 2)) }

  /** Of two powers of two the smaller divides the larger. */
  lemma {:induction false} PowersDivide(a: nat, b: nat)
    requires PowerOfTwo(a) && PowerOfTwo(b) && a <= b
    ensures b % a == 0
    decreases b
  {
    if a == 1 {
      RemTimes(b, 1);
    } else {
      PowersDivide(a / 2, b / 2);
      HalvesDivide(a / 2, b / 2);
    }
  }

  lemma HalvesDivide(a: nat, b: nat)
    requires a > 0 && b % a == 0
    ensures (2 * b) % (2 * a) == 0
  {
    RemExact(b, a);
    var q := b / a;
    assert 2 * b == q * (2 * a);
    RemTimes(q, 2 * a);
  }

  /** The next multiple of a, from p on: (p & ~(a - 1)) + a unless p is one. */
  function AlignUp(p: nat, a: nat): nat
    requires a > 0
  {
    if p % a == 0 then p else p - p % a + a
  }

  /** Behind a multiple of a, less than a further on. */
  lemma AlignBehind(base: nat, off: nat, a: nat)
    requires 0 < off < a && base % a == 0
    ensures AlignUp(base + off, a) == base + a
  {
    RemBehind(base, off, a);
  }

  lemma AlignUpExact(p: nat, a: nat)
    requires a > 0
    ensures AlignUp(p, a) % a == 0 && p <= AlignUp(p, a) < p + a
  {
    RemExact(p, a);
    var q := p / a;
    RemTimes(q, a);
    RemTimes(q + 1, a);
    assert (q + 1) * a == q * a + a;
  }
}
