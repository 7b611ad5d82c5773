/** The 32-bit operators of ECMAScript, on integers. */
module Bits {
  import opened Numerals

  const WORD: nat := 0x1_0000_0000

  function ToUint32(n: int): (r: nat)
    ensures r < WORD
  {
    n % WORD
  }

  function ToInt32(n: int): int {
    var u := ToUint32(n);
    if u < WORD / 2 then u else u - WORD
  }

  /** Bitwise `and` and `or` of naturals, bit by bit. */
  function And(a: nat, b: nat): nat {
    if a == 0 || b == 0 then 0 else 2 * And(a / 2, b / 2) + (a % 2) * (b % 2)
  }

  function Or(a: nat, b: nat): nat
    decreases a + b
  {
    if a == 0 then b else if b == 0 then a
    else 2 * Or(a / 2, b / 2) + (if a % 2 == 1 || b % 2 == 1 then 1 else 0)
  }

  function BitAnd(a: int, b: int): int {
    ToInt32(And(ToUint32(a), ToUint32(b)))
  }

  function BitOr(a: int, b: int): int {
    ToInt32(Or(ToUint32(a), ToUint32(b)))
  }

  /** `a << n`; only the low five bits of the count matter. */
  function ShiftLeft(a: int, n: nat): int {
    ToInt32(ToUint32(a) * Power(2, n % 32))
  }

  /** `a >>> n`, of an unsigned result. */
  function ShiftRight(a: int, n: nat): nat {
    ToUint32(a) / Power(2, n % 32)
  }

  lemma SameWord(n: int)
    ensures ToUint32(ToInt32(n)) == ToUint32(n)
  {
  }

  lemma IsWord(n: nat)
    requires n < WORD
    ensures ToUint32(n) == n && (n < WORD / 2 ==> ToInt32(n) == n)
  {
  }

  lemma ShiftLeftWord(a: nat, n: nat)
    requires n < 32 && a < WORD && a * Power(2, n) < WORD
    ensures ToUint32(ShiftLeft(a, n)) == a * Power(2, n)
  {
    IsWord(a);
    assert n % 32 == n;
    SameWord(a * Power(2, n));
    IsWord(a * Power(2, n));
  }

  lemma BitOrWord(a: int, b: int)
    requires Or(ToUint32(a), ToUint32(b)) < WORD
    ensures ToUint32(BitOr(a, b)) == Or(ToUint32(a), ToUint32(b))
  {
    SameWord(Or(ToUint32(a), ToUint32(b)));
    IsWord(Or(ToUint32(a), ToUint32(b)));
  }

  lemma BitAndWord(a: nat, b: nat)
    requires a < WORD && b < WORD && And(a, b) < WORD
    ensures ToUint32(BitAnd(a, b)) == And(a, b)
  {
    IsWord(a);
    IsWord(b);
    SameWord(And(a, b));
    IsWord(And(a, b));
  }

  lemma ShiftLeftFits(a: nat, n: nat)
    requires n < 32 && a < WORD && a * Power(2, n) < WORD / 2
    ensures ShiftLeft(a, n) == a * Power(2, n)
  {
    IsWord(a);
    assert n % 32 == n;
    IsWord(a * Power(2, n));
  }

  lemma BitOrFits(a: nat, b: nat)
    requires a < WORD && b < WORD && Or(a, b) < WORD / 2
    ensures BitOr(a, b) == Or(a, b)
  {
    IsWord(a);
    IsWord(b);
    IsWord(Or(a, b));
  }

  lemma ShiftRightFits(a: nat, n: nat)
    requires n < 32 && a < WORD
    ensures ShiftRight(a, n) == a / Power(2, n)
  {
    IsWord(a);
    assert n % 32 == n;
  }

  /** A multiple of a power of two and a smaller number have no bit in common. */
  lemma {:induction false} OrDisjoint(high: nat, low: nat, k: nat)
    requires low < Power(2, k)
    ensures Or(high * Power(2, k), low) == high * Power(2, k) + low
    decreases k
  {
    if k == 0 {
    } else {
      var p := Power(2, k - 1);
      var a := high * Power(2, k);
      assert a == 2 * (high * p);
      OrDisjoint(high, low / 2, k - 1);
      if a != 0 && low != 0 {
        assert a / 2 == high * p && a % 2 == 0;
      }
    }
  }

  lemma Multiple(x: int, m: nat)
    ensures x >= 1 ==> x * m >= m
    ensures x <= -1 ==> x * m <= -(m as int)
  {
    if x >= 1 {
      assert x * m == m + (x - 1) * m && (x - 1) * m >= 0;
    } else if x <= -1 {
      assert x * m == (x + 1) * m - m && (x + 1) * m <= 0;
    }
  }

  lemma Remainder(q: nat, m: nat, r: nat)
    requires r < m
    ensures (q * m + r) % m == r && (q * m + r) / m == q
  {
    var n := q * m + r;
    var d, e := n / m, n % m;
    assert n == d * m + e;
    assert (q - d) * m == q * m - d * m;
    Multiple(q - d, m);
  }

  lemma HalfRemainder(v: nat, p: nat)
    requires p >= 1
    ensures v % (2 * p) == 2 * (v / 2 % p) + v % 2 && v / (2 * p) == v / 2 / p
  {
    var q, r := v / 2 / p, v / 2 % p;
    assert v / 2 == q * p + r;
    assert q * (2 * p) == 2 * (q * p);
    Remainder(q, 2 * p, 2 * r + v % 2);
  }

  lemma AndHalves(a: nat, b: nat)
    ensures And(a, b) == 2 * And(a / 2, b / 2) + (a % 2) * (b % 2)
  {
  }

  lemma AndLowStep(v: nat, p: nat)
    requires p >= 1 && And(v / 2, p - 1) == v / 2 % p
    ensures And(v, 2 * p - 1) == v % (2 * p)
  {
    AndHalves(v, 2 * p - 1);
    assert (2 * p - 1) / 2 == p - 1 && (2 * p - 1) % 2 == 1;
    HalfRemainder(v, p);
    assert (v % 2) * 1 == v % 2;
  }

  /** Masking with `2^k - 1` keeps the low bits. */
  lemma {:induction false} AndLow(v: nat, k: nat)
    ensures And(v, Power(2, k) - 1) == v % Power(2, k)
  {
    if k > 0 {
      AndLow(v / 2, k - 1);
      AndLowStep(v, Power(2, k - 1));
    }
  }

  lemma AndDouble(v: nat, x: nat)
    ensures And(v, 2 * x) == 2 * And(v / 2, x)
  {
    AndHalves(v, 2 * x);
    assert (v % 2) * 0 == 0;
  }

  lemma Double(x: nat, p: nat)
    ensures x * (p * 2) == 2 * (x * p)
  {
  }

  lemma AndHighStep(v: nat, mask: nat, p: nat)
    requires p >= 1 && And(v / 2, mask * p) == v / 2 / p * p
    ensures And(v, mask * (p * 2)) == v / (p * 2) * (p * 2)
  {
    var q := v / 2 / p;
    HalfRemainder(v, p);
    assert 2 * p == p * 2 && v / (p * 2) == q;
    calc {
      And(v, mask * (p * 2));
    == { Double(mask, p); }
      And(v, 2 * (mask * p));
    == { AndDouble(v, mask * p); }
      2 * (q * p);
    == { Double(q, p); }
      q * (p * 2);
    }
  }

  /** Masking with a run of ones above `k` zeros drops the low bits. */
  lemma {:induction false} AndHigh(v: nat, k: nat, ones: nat)
    requires v < Power(2, k + ones)
    ensures And(v, (Power(2, ones) - 1) * Power(2, k)) == v / Power(2, k) * Power(2, k)
    decreases k
  {
    var mask := Power(2, ones) - 1;
    if k == 0 {
      AndLow(v, ones);
      Small(v, Power(2, ones));
    } else {
      AndHigh(v / 2, k - 1, ones);
      AndHighStep(v, mask, Power(2, k - 1));
    }
  }

  lemma Small(v: nat, m: nat)
    requires v < m
    ensures v % m == v && (m - 1) * 1 == m - 1 && v / 1 * 1 == v
  {
  }
}
