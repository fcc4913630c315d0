/** Positional numerals: what `int.to_bytes`, `int.from_bytes` and digit loops compute. */
module Digits {

  type byte = b: nat | b < 256

  function Pow(b: nat, k: nat): nat {
    if k == 0 then 1 else b * Pow(b, k - 1)
  }

  lemma PowPositive(b: nat, k: nat)
    requires b > 0
    ensures Pow(b, k) > 0
  {
    if k > 0 { PowPositive(b, k - 1); }
  }

  lemma PowAdd(b: nat, j: nat, k: nat)
    ensures Pow(b, j + k) == Pow(b, j) * Pow(b, k)
  {
    if j > 0 {
      PowAdd(b, j - 1, k);
      MulAssoc(b, Pow(b, j - 1), Pow(b, k));
    }
  }

  lemma MulAssoc(a: int, b: int, c: int)
    ensures (a * b) * c == a * (b * c)
  {}

  /** `b^j` written once per digit: `k` digits of base `b^j` are `j * k` digits of base `b`. */
  lemma PowOfPow(b: nat, j: nat, k: nat, jk: nat)
    requires jk == j * k
    ensures Pow(Pow(b, j), k) == Pow(b, jk)
  {
    if k > 0 {
      assert j * (k - 1) == jk - j && jk - j >= 0 by { MulLess(j, k); }
      PowOfPow(b, j, k - 1, jk - j);
      PowAdd(b, j, jk - j);
    }
  }

  lemma MulLess(j: nat, k: nat)
    requires k > 0
    ensures j * (k - 1) == j * k - j >= 0
  {}

  lemma PowMonotone(b: nat, j: nat, k: nat)
    requires b > 0 && j <= k
    ensures Pow(b, j) <= Pow(b, k)
  {
    PowAdd(b, j, k - j);
    PowPositive(b, k - j);
    PowPositive(b, j);
    MulAtLeast(Pow(b, j), Pow(b, k - j));
  }

  lemma MulAtLeast(a: nat, b: nat)
    requires b > 0
    ensures a <= a * b
  {}

  /** Python's `divmod`: the quotient and the last digit of `n` in base `b`. */
  function DivMod(n: nat, b: nat): (r: (nat, nat))
    requires b > 0
    ensures n == b * r.0 + r.1 && r.1 < b
    ensures b > 1 && n > 0 ==> r.0 < n
    decreases n
  {
    if n < b then (0, n) else (DivMod(n - b, b).0 + 1, DivMod(n - b, b).1)
  }

  /** The built-in operators agree with `DivMod` for the literal bases the source uses. */
  lemma DivModOperators(n: nat)
    ensures DivMod(n, 2) == (n / 2, n % 2)
    ensures DivMod(n, 32) == (n / 32, n % 32)
    ensures DivMod(n, 256) == (n / 256, n % 256)
  {
    DivModIs(n, 2, n / 2, n % 2);
    DivModIs(n, 32, n / 32, n % 32);
    DivModIs(n, 256, n / 256, n % 256);
  }

  lemma DivModIs(n: nat, b: nat, q: nat, r: nat)
    requires n == b * q + r && r < b
    ensures DivMod(n, b) == (q, r)
  {
    DivUnique(n, b, q, r, DivMod(n, b).0, DivMod(n, b).1);
  }

  lemma DivModOfDigit(q: nat, b: nat, d: nat)
    requires d < b
    ensures DivMod(b * q + d, b) == (q, d)
  {
    var r := DivMod(b * q + d, b);
    DivUnique(b * q + d, b, q, d, r.0, r.1);
  }

  lemma DivUnique(x: int, b: nat, q: int, r: int, q': int, r': int)
    requires x == b * q + r && x == b * q' + r'
    requires 0 <= r < b && 0 <= r' < b
    ensures q == q' && r == r'
  {
    if q < q' {
      MulStep(b, q, q');
    } else if q' < q {
      MulStep(b, q', q);
    }
  }

  lemma MulMonotone(b: nat, x: int, y: int)
    requires x <= y
    ensures b * x <= b * y
  {}

  lemma MulStep(b: nat, q: int, q': int)
    requires q < q'
    ensures b * q + b <= b * q'
  {
    assert b * q' == b * q + b * (q' - q);
    MulAtLeast(b, q' - q);
  }

  lemma DivModLess(x: nat, b: nat, y: nat)
    requires b > 0 && x < b * y
    ensures DivMod(x, b).0 < y
  {
    var q := DivMod(x, b).0;
    if q > y {
      MulStep(b, y, q);
    }
  }

  // ---------- big-endian numerals of any length ----------

  ghost predicate DigitsIn(ds: seq<nat>, b: nat) {
    forall i :: 0 <= i < |ds| ==> ds[i] < b
  }

  function Zeros(k: nat): (z: seq<byte>)
    ensures |z| == k && forall i :: 0 <= i < k ==> z[i] == 0
  {
    seq(k, i => 0)
  }

  /** The number a digit loop `n = n * b + d` accumulates, most significant digit first. */
  function Value(b: nat, ds: seq<nat>): nat {
    if ds == [] then 0 else b * Value(b, ds[..|ds| - 1]) + ds[|ds| - 1]
  }

  /** `k` digits of `n`, most significant first: `n.to_bytes(k, "big")` when `b` is 256. */
  function Fixed(b: nat, n: nat, k: nat): (ds: seq<nat>)
    requires b > 0
    ensures |ds| == k
    ensures forall i :: 0 <= i < |ds| ==> ds[i] < b
  {
    if k == 0 then [] else Fixed(b, DivMod(n, b).0, k - 1) + [DivMod(n, b).1]
  }

  lemma ValueOfAppend(b: nat, ds: seq<nat>, d: nat)
    ensures Value(b, ds + [d]) == b * Value(b, ds) + d
  {
    assert (ds + [d])[..|ds|] == ds;
  }

  lemma {:induction false} ValueBound(b: nat, ds: seq<nat>)
    requires b > 0 && DigitsIn(ds, b)
    ensures Value(b, ds) < Pow(b, |ds|)
  {
    if ds != [] {
      var k := |ds| - 1;
      ValueBound(b, ds[..k]);
      MulStep(b, Value(b, ds[..k]), Pow(b, k));
    }
  }

  /** `Fixed` writes every number that fits, and reading it back gives the number. */
  lemma {:induction false} ValueOfFixed(b: nat, n: nat, k: nat)
    requires b > 0 && n < Pow(b, k)
    ensures Value(b, Fixed(b, n, k)) == n
  {
    if k > 0 {
      DivModLess(n, b, Pow(b, k - 1));
      ValueOfFixed(b, DivMod(n, b).0, k - 1);
      ValueOfAppend(b, Fixed(b, DivMod(n, b).0, k - 1), DivMod(n, b).1);
    }
  }

  /** A digit string is the fixed-width numeral of its value. */
  lemma {:induction false} FixedOfValue(b: nat, ds: seq<nat>)
    requires b > 0 && DigitsIn(ds, b)
    ensures Fixed(b, Value(b, ds), |ds|) == ds
  {
    if ds != [] {
      var k := |ds| - 1;
      FixedOfValue(b, ds[..k]);
      DivModOfDigit(Value(b, ds[..k]), b, ds[k]);
      assert ds == ds[..k] + [ds[k]];
    }
  }

  lemma {:induction false} ValueOfZeros(b: nat, k: nat)
    ensures Value(b, Zeros(k)) == 0
  {
    if k > 0 {
      assert Zeros(k)[..k - 1] == Zeros(k - 1);
      ValueOfZeros(b, k - 1);
    }
  }

  lemma {:induction false} ValueConcat(b: nat, x: seq<nat>, y: seq<nat>)
    ensures Value(b, x + y) == Value(b, x) * Pow(b, |y|) + Value(b, y)
  {
    if y == [] {
      assert x + y == x;
    } else {
      var k := |y| - 1;
      ValueConcat(b, x, y[..k]);
      assert x + y == (x + y[..k]) + [y[k]];
      ValueOfAppend(b, x + y[..k], y[k]);
      ShiftDistributes(Value(b, x), Pow(b, k), Value(b, y[..k]), b);
    }
  }

  lemma ShiftDistributes(v: int, p: int, w: int, b: int)
    ensures b * (v * p + w) == v * (b * p) + b * w
  {
    assert b * (v * p) == v * (b * p) by { MulAssoc(v, p, b); MulAssoc(v, b, p); }
  }

  // ---------- numerals without leading zeros ----------

  /** The shortest digit string of `n`; zero has no digits. */
  function Canonical(b: nat, n: nat): (ds: seq<nat>)
    requires b > 1
    ensures forall i :: 0 <= i < |ds| ==> ds[i] < b
    ensures ds == [] <==> n == 0
  {
    if n == 0 then [] else Canonical(b, DivMod(n, b).0) + [DivMod(n, b).1]
  }

  lemma {:induction false} CanonicalValue(b: nat, n: nat)
    requires b > 1
    ensures Value(b, Canonical(b, n)) == n
    ensures n > 0 ==> Canonical(b, n)[0] != 0
  {
    if n > 0 {
      CanonicalValue(b, DivMod(n, b).0);
      ValueOfAppend(b, Canonical(b, DivMod(n, b).0), DivMod(n, b).1);
    }
  }

  lemma {:induction false} ValuePositive(b: nat, ds: seq<nat>)
    requires b > 0 && ds != [] && ds[0] != 0
    ensures Value(b, ds) > 0
  {
    if |ds| > 1 {
      ValuePositive(b, ds[..|ds| - 1]);
      MulAtLeast(Value(b, ds[..|ds| - 1]), b);
    }
  }

  lemma {:induction false} CanonicalOfValue(b: nat, ds: seq<nat>)
    requires b > 1 && DigitsIn(ds, b)
    requires ds != [] ==> ds[0] != 0
    ensures Canonical(b, Value(b, ds)) == ds
    ensures ds != [] ==> Value(b, ds) > 0
  {
    if ds != [] {
      var k := |ds| - 1;
      CanonicalOfValue(b, ds[..k]);
      DivModOfDigit(Value(b, ds[..k]), b, ds[k]);
      assert ds == ds[..k] + [ds[k]];
      ValuePositive(b, ds);
    }
  }

  /** `int.bit_length`. */
  function BitLength(n: nat): nat {
    if n == 0 then 0 else 1 + BitLength(n / 2)
  }

  /** `n.to_bytes((n.bit_length() + 7) // 8, "big")` is the byte string without leading zeros. */
  lemma {:induction false} MinimalBytes(n: nat)
    ensures Fixed(256, n, (BitLength(n) + 7) / 8) == Canonical(256, n)
  {
    if n > 0 {
      DivModOperators(n);
      MinimalBytes(n / 256);
      BitLengthOfByteShift(n);
    }
  }

  lemma BitLengthOfByteShift(n: nat)
    requires n > 0
    ensures (BitLength(n) + 7) / 8 == (BitLength(n / 256) + 7) / 8 + 1
  {
    if n < 256 {
      BitLengthSmall(n, 8);
    } else {
      BitLengthOfLong(n);
    }
  }

  lemma BitLengthOfLong(n: nat)
    requires n >= 256
    ensures BitLength(n) == 8 + BitLength(n / 256)
  {
    BitLengthQuarter(n);
    BitLengthQuarter(n / 4);
    assert n / 4 / 4 == n / 16;
    BitLengthQuarter(n / 16);
    assert n / 16 / 4 == n / 64;
    BitLengthQuarter(n / 64);
    assert n / 64 / 4 == n / 256;
  }

  lemma BitLengthQuarter(n: nat)
    requires n >= 4
    ensures BitLength(n) == 2 + BitLength(n / 4)
  {
    assert n / 2 / 2 == n / 4;
  }

  lemma BitLengthSmall(n: nat, k: nat)
    requires 0 < n < Pow(2, k)
    ensures 1 <= BitLength(n) <= k
  {
    if n > 1 {
      assert n / 2 < Pow(2, k - 1);
      BitLengthSmall(n / 2, k - 1);
    }
  }

  // ---------- little-endian numerals of fixed width ----------

  /** `n.to_bytes(k, "little")` for a number that fits. */
  function LittleEndian(n: nat, k: nat): (s: seq<byte>)
    ensures |s| == k
  {
    if k == 0 then [] else [n % 256] + LittleEndian(n / 256, k - 1)
  }

  /** `int.from_bytes(s, "little")`. */
  function FromLittleEndian(s: seq<byte>): nat {
    if s == [] then 0 else s[0] + 256 * FromLittleEndian(s[1..])
  }

  lemma {:induction false} LittleEndianRoundTrip(n: nat, k: nat)
    requires n < Pow(256, k)
    ensures FromLittleEndian(LittleEndian(n, k)) == n
  {
    if k > 0 {
      assert n / 256 < Pow(256, k - 1);
      LittleEndianRoundTrip(n / 256, k - 1);
    }
  }
}
