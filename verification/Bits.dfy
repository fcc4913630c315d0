/** Bitwise operators on Python's unbounded non-negative integers. */
module Bits {
  import opened Digits

  /** `a ^ b`. */
  function Xor(a: nat, b: nat): nat
    decreases a + b
  {
    if a == 0 && b == 0 then 0 else 2 * Xor(a / 2, b / 2) + (a + b) % 2
  }

  /** `(n >> i) & 1 == 1`. */
  predicate Bit(n: nat, i: nat) {
    if i == 0 then n % 2 == 1 else Bit(n / 2, i - 1)
  }

  lemma {:induction false} XorComm(a: nat, b: nat)
    ensures Xor(a, b) == Xor(b, a)
    decreases a + b
  {
    if a != 0 || b != 0 { XorComm(a / 2, b / 2); }
  }

  lemma {:induction false} XorZero(a: nat)
    ensures Xor(a, 0) == a && Xor(0, a) == a
  {
    if a != 0 { XorZero(a / 2); }
  }

  lemma {:induction false} XorSelf(a: nat)
    ensures Xor(a, a) == 0
  {
    if a != 0 { XorSelf(a / 2); }
  }

  lemma {:induction false} XorUnfold(a: nat, b: nat)
    ensures Xor(a, b) == 2 * Xor(a / 2, b / 2) + (a + b) % 2
  {}

  lemma {:induction false} XorParts(a: nat, b: nat)
    ensures Xor(a, b) / 2 == Xor(a / 2, b / 2)
    ensures Xor(a, b) % 2 == (a % 2 + b % 2) % 2
  {
    XorUnfold(a, b);
    ParityParts(Xor(a / 2, b / 2), a, b);
  }

  lemma ParityParts(q: nat, a: nat, b: nat)
    ensures (2 * q + (a + b) % 2) / 2 == q
    ensures (2 * q + (a + b) % 2) % 2 == (a % 2 + b % 2) % 2
  {}

  lemma AssocFromParts(a: nat, b: nat, c: nat, x: nat, y: nat, l: nat, r: nat)
    requires x % 2 == (a % 2 + b % 2) % 2 && y % 2 == (b % 2 + c % 2) % 2
    requires l % 2 == (x % 2 + c % 2) % 2 && r % 2 == (a % 2 + y % 2) % 2
    requires l / 2 == r / 2
    ensures l == r
  {}

  lemma {:induction false} XorAssoc(a: nat, b: nat, c: nat)
    ensures Xor(Xor(a, b), c) == Xor(a, Xor(b, c))
    decreases a + b + c
  {
    if a != 0 || b != 0 || c != 0 {
      XorAssoc(a / 2, b / 2, c / 2);
      var x, y := Xor(a, b), Xor(b, c);
      XorParts(a, b);
      XorParts(b, c);
      XorParts(x, c);
      XorParts(a, y);
      AssocFromParts(a, b, c, x, y, Xor(x, c), Xor(a, y));
    }
  }

  lemma {:induction false} XorSwap(a: nat, b: nat, c: nat, d: nat)
    ensures Xor(Xor(a, b), Xor(c, d)) == Xor(Xor(a, c), Xor(b, d))
  {
    XorAssoc(a, b, Xor(c, d));
    XorAssoc(b, c, d);
    XorComm(b, c);
    XorAssoc(c, b, d);
    XorAssoc(a, c, Xor(b, d));
  }

  lemma {:induction false} XorCancel(a: nat, b: nat)
    ensures Xor(a, Xor(a, b)) == b
    ensures Xor(a, b) == 0 ==> a == b
  {
    XorAssoc(a, a, b);
    XorSelf(a);
    XorZero(b);
    XorZero(a);
  }

  /** `n << k`. */
  function Shl(n: nat, k: nat): nat {
    if k == 0 then n else 2 * Shl(n, k - 1)
  }

  lemma {:induction false} ShlIsProduct(n: nat, k: nat)
    ensures Shl(n, k) == Pow(2, k) * n
  {
    if k > 0 {
      ShlIsProduct(n, k - 1);
      MulAssoc(2, Pow(2, k - 1), n);
    }
  }

  /** Xor works on the digits of base 2^k separately. */
  lemma {:induction false} XorDigit(k: nat, h: nat, l: nat, h': nat, l': nat)
    requires l < Pow(2, k) && l' < Pow(2, k)
    ensures Xor(Shl(h, k) + l, Shl(h', k) + l') == Shl(Xor(h, h'), k) + Xor(l, l')
    ensures Xor(l, l') < Pow(2, k)
    decreases k
  {
    if k > 0 {
      XorDigit(k - 1, h, l / 2, h', l' / 2);
      XorHalves(Shl(h, k - 1), l, Shl(h', k - 1), l');
      XorUnfold(l, l');
    } else {
      XorZero(0);
    }
  }

  lemma HalvesOf(p: nat, l: nat)
    ensures (2 * p + l) / 2 == p + l / 2
  {}

  lemma ParityOf(p: nat, l: nat, q: nat, l': nat)
    ensures (2 * p + l + (2 * q + l')) % 2 == (l + l') % 2
  {}

  lemma {:induction false} XorHalves(p: nat, l: nat, q: nat, l': nat)
    ensures Xor(2 * p + l, 2 * q + l') == 2 * Xor(p + l / 2, q + l' / 2) + (l + l') % 2
  {
    XorUnfold(2 * p + l, 2 * q + l');
    HalvesOf(p, l);
    HalvesOf(q, l');
    ParityOf(p, l, q, l');
  }

  lemma {:induction false} XorBit(a: nat, b: nat, i: nat)
    ensures Bit(Xor(a, b), i) <==> (Bit(a, i) != Bit(b, i))
  {
    XorParts(a, b);
    if i > 0 { XorBit(a / 2, b / 2, i - 1); }
  }

  /** Element-wise xor of two symbol strings. */
  function XorAll(x: seq<nat>, y: seq<nat>): (r: seq<nat>)
    requires |x| == |y|
    ensures |r| == |x| && forall i :: 0 <= i < |r| ==> r[i] == Xor(x[i], y[i])
  {
    seq(|x|, i requires 0 <= i < |x| => Xor(x[i], y[i]))
  }
}
