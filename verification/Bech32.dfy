/** Bech32 and Bech32m segwit addresses (src/wallet_agent/domain/addresses.py). */
module Bech32 {
  import opened Digits
  import opened Bits
  import opened Alphabets

  const CHARSET: string := "qpzry9x8gf2tvdw0s3jn54khce6mua7l"
  const GENERATORS: seq<nat> := [0x3B6A57B2, 0x26508E6D, 0x1EA119FA, 0x3D4233DD, 0x2A1462B3]
  const MAX_WITNESS_VERSION: nat := 16
  const HRP: seq<nat> := [3, 3, 0, 2, 3]
  const LOW25: nat := 0x2000000
  const LIMIT30: nat := 0x40000000

  lemma CharsetDistinct()
    ensures |CHARSET| == 32 && Distinct(CHARSET)
  {}

  lemma PowerConstants()
    ensures Pow(2, 5) == 32 && Pow(2, 25) == LOW25 && Pow(2, 30) == LIMIT30
  {
    PowAdd(2, 5, 5);
    PowAdd(2, 10, 10);
    PowAdd(2, 20, 5);
    PowAdd(2, 25, 5);
  }

  // ---------- the checksum as a machine on 30-bit states ----------

  /** Xor of the first `i` generators whose bit is set in `high`. */
  function Feed(high: nat, i: nat): nat
    requires i <= 5
  {
    if i == 0 then 0
    else if Bit(high, i - 1) then Xor(Feed(high, i - 1), GENERATORS[i - 1])
    else Feed(high, i - 1)
  }

  function Step(c: nat, symbol: nat): nat {
    Xor(Xor((c % LOW25) * 32, symbol), Feed(c / LOW25, 5))
  }

  function Poly(c: nat, symbols: seq<nat>): nat {
    if symbols == [] then c else Step(Poly(c, symbols[..|symbols| - 1]), symbols[|symbols| - 1])
  }

  lemma {:induction false} PolyConcat(c: nat, x: seq<nat>, y: seq<nat>)
    ensures Poly(c, x + y) == Poly(Poly(c, x), y)
  {
    if y == [] {
      assert x + y == x;
    } else {
      var k := |y| - 1;
      assert (x + y)[..|x + y| - 1] == x + y[..k];
      PolyConcat(c, x, y[..k]);
    }
  }

  lemma {:induction false} FeedLinear(a: nat, b: nat, i: nat)
    requires i <= 5
    ensures Feed(Xor(a, b), i) == Xor(Feed(a, i), Feed(b, i))
  {
    if i == 0 {
      XorZero(0);
    } else {
      FeedLinear(a, b, i - 1);
      XorBit(a, b, i - 1);
      var x, y, g := Feed(a, i - 1), Feed(b, i - 1), GENERATORS[i - 1];
      XorSwap(x, g, y, g);
      XorSelf(g);
      XorZero(Xor(x, y));
      XorSwap(x, g, y, 0);
      XorSwap(x, 0, y, g);
      XorZero(x);
      XorZero(y);
      XorZero(g);
    }
  }

  lemma {:induction false} SplitState(a: nat, b: nat)
    ensures Xor(a, b) / LOW25 == Xor(a / LOW25, b / LOW25)
    ensures Xor(a, b) % LOW25 == Xor(a % LOW25, b % LOW25)
  {
    PowerConstants();
    ShlIsProduct(a / LOW25, 25);
    ShlIsProduct(b / LOW25, 25);
    ShlIsProduct(Xor(a / LOW25, b / LOW25), 25);
    XorDigit(25, a / LOW25, a % LOW25, b / LOW25, b % LOW25);
  }

  lemma ShiftFive(a: nat, b: nat, l: nat, m: nat)
    requires l < 32 && m < 32
    ensures Xor(a * 32 + l, b * 32 + m) == Xor(a, b) * 32 + Xor(l, m)
    ensures Xor(l, m) < 32
  {
    PowerConstants();
    ShlIsProduct(a, 5);
    ShlIsProduct(b, 5);
    ShlIsProduct(Xor(a, b), 5);
    XorDigit(5, a, l, b, m);
  }

  /** One checksum step is linear over xor, in the state and in the symbol together. */
  lemma {:induction false} StepLinear(a: nat, b: nat, s: nat, t: nat)
    ensures Step(Xor(a, b), Xor(s, t)) == Xor(Step(a, s), Step(b, t))
  {
    SplitState(a, b);
    FeedLinear(a / LOW25, b / LOW25, 5);
    var p, q := (a % LOW25) * 32, (b % LOW25) * 32;
    ShiftFive(a % LOW25, b % LOW25, 0, 0);
    XorZero(0);
    XorSwap(p, s, q, t);
    XorSwap(Xor(p, s), Feed(a / LOW25, 5), Xor(q, t), Feed(b / LOW25, 5));
  }

  lemma {:induction false} PolyLinear(a: nat, b: nat, x: seq<nat>, y: seq<nat>)
    requires |x| == |y|
    ensures Poly(Xor(a, b), XorAll(x, y)) == Xor(Poly(a, x), Poly(b, y))
  {
    if x != [] {
      var k := |x| - 1;
      PolyLinear(a, b, x[..k], y[..k]);
      assert XorAll(x, y)[..k] == XorAll(x[..k], y[..k]);
      StepLinear(Poly(a, x[..k]), Poly(b, y[..k]), x[k], y[k]);
    }
  }

  lemma XorBound(k: nat, a: nat, b: nat)
    requires a < Pow(2, k) && b < Pow(2, k)
    ensures Xor(a, b) < Pow(2, k)
  {
    XorDigit(k, 0, a, 0, b);
  }

  lemma {:induction false} FeedBound(high: nat, i: nat)
    requires i <= 5
    ensures Feed(high, i) < LIMIT30
  {
    PowerConstants();
    if i > 0 {
      FeedBound(high, i - 1);
      XorBound(30, Feed(high, i - 1), GENERATORS[i - 1]);
    }
  }

  lemma StepBound(c: nat, s: nat)
    requires s < 32
    ensures Step(c, s) < LIMIT30
  {
    PowerConstants();
    FeedBound(c / LOW25, 5);
    XorBound(30, (c % LOW25) * 32, s);
    XorBound(30, Xor((c % LOW25) * 32, s), Feed(c / LOW25, 5));
  }

  lemma PolyBound(c: nat, x: seq<nat>)
    requires c < LIMIT30 && DigitsIn(x, 32)
    ensures Poly(c, x) < LIMIT30
  {
    if x != [] {
      StepBound(Poly(c, x[..|x| - 1]), x[|x| - 1]);
    }
  }

  // ---------- the step has no kernel ----------

  /** Bit `j` of what the generators feed back, as a parity over the bits of `high`. */
  predicate FeedParity(high: nat, i: nat, j: nat)
    requires i <= 5
  {
    i > 0 && (FeedParity(high, i - 1, j) != (Bit(high, i - 1) && Bit(GENERATORS[i - 1], j)))
  }

  lemma {:induction false} FeedBit(high: nat, i: nat, j: nat)
    requires i <= 5
    ensures Bit(Feed(high, i), j) == FeedParity(high, i, j)
  {
    if i == 0 {
      ZeroBit(j);
    } else {
      FeedBit(high, i - 1, j);
      XorBit(Feed(high, i - 1), GENERATORS[i - 1], j);
    }
  }

  lemma {:induction false} ZeroBit(j: nat)
    ensures !Bit(0, j)
  {
    if j > 0 { ZeroBit(j - 1); }
  }

  lemma GeneratorLowBits()
    ensures !Bit(GENERATORS[0], 0) && Bit(GENERATORS[0], 1) && !Bit(GENERATORS[0], 2)
            && !Bit(GENERATORS[0], 3) && Bit(GENERATORS[0], 4)
    ensures Bit(GENERATORS[1], 0) && !Bit(GENERATORS[1], 1) && Bit(GENERATORS[1], 2)
            && Bit(GENERATORS[1], 3) && !Bit(GENERATORS[1], 4)
    ensures !Bit(GENERATORS[2], 0) && Bit(GENERATORS[2], 1) && !Bit(GENERATORS[2], 2)
            && Bit(GENERATORS[2], 3) && Bit(GENERATORS[2], 4)
    ensures Bit(GENERATORS[3], 0) && !Bit(GENERATORS[3], 1) && Bit(GENERATORS[3], 2)
            && Bit(GENERATORS[3], 3) && Bit(GENERATORS[3], 4)
    ensures Bit(GENERATORS[4], 0) && Bit(GENERATORS[4], 1) && !Bit(GENERATORS[4], 2)
            && !Bit(GENERATORS[4], 3) && Bit(GENERATORS[4], 4)
  {}

  lemma ParityUnfolds(high: nat, j: nat)
    ensures FeedParity(high, 5, j) ==
      (((((Bit(high, 0) && Bit(GENERATORS[0], j)) != (Bit(high, 1) && Bit(GENERATORS[1], j)))
         != (Bit(high, 2) && Bit(GENERATORS[2], j))) != (Bit(high, 3) && Bit(GENERATORS[3], j)))
       != (Bit(high, 4) && Bit(GENERATORS[4], j)))
  {
    assert FeedParity(high, 0, j) == false;
    assert FeedParity(high, 1, j) == (Bit(high, 0) && Bit(GENERATORS[0], j));
    assert FeedParity(high, 3, j) == (FeedParity(high, 2, j) != (Bit(high, 2) && Bit(GENERATORS[2], j)));
  }

  /** The low five bits of the five generators are linearly independent. */
  lemma FeedInjective(high: nat)
    requires high < 32
    requires forall j: nat :: j < 5 ==> !Bit(Feed(high, 5), j)
    ensures high == 0
  {
    forall j: nat | j < 5 ensures !FeedParity(high, 5, j) {
      FeedBit(high, 5, j);
    }
    ParityUnfolds(high, 0);
    ParityUnfolds(high, 1);
    ParityUnfolds(high, 2);
    ParityUnfolds(high, 3);
    ParityUnfolds(high, 4);
    GeneratorLowBits();
    assert Pow(2, 5) == 32;
    NoBits(high, 5);
  }

  lemma {:induction false} NoBits(n: nat, k: nat)
    requires n < Pow(2, k)
    requires forall j: nat :: j < k ==> !Bit(n, j)
    ensures n == 0
  {
    if k > 0 {
      assert !Bit(n, 0);
      forall j: nat | j < k - 1 ensures !Bit(n / 2, j) {
        assert !Bit(n, j + 1);
      }
      NoBits(n / 2, k - 1);
    }
  }

  lemma LowBitsOfShift(n: nat, j: nat)
    requires j < 5
    ensures !Bit(n * 32, j)
  {
    LowBitsOfShl(n, 5, j);
    ShlIsProduct(n, 5);
    PowerConstants();
  }

  lemma {:induction false} LowBitsOfShl(n: nat, k: nat, j: nat)
    requires j < k
    ensures !Bit(Shl(n, k), j)
  {
    assert Shl(n, k) / 2 == Shl(n, k - 1);
    if j > 0 { LowBitsOfShl(n, k - 1, j - 1); }
  }

  lemma StepInjective(c: nat)
    requires c < LIMIT30 && Step(c, 0) == 0
    ensures c == 0
  {
    var shifted := (c % LOW25) * 32;
    XorZero(shifted);
    XorCancel(shifted, Feed(c / LOW25, 5));
    forall j: nat | j < 5 ensures !Bit(Feed(c / LOW25, 5), j) {
      LowBitsOfShift(c % LOW25, j);
    }
    FeedInjective(c / LOW25);
  }

  // ---------- six checksum symbols ----------

  lemma {:induction false} FeedOfZero(i: nat)
    requires i <= 5
    ensures Feed(0, i) == 0
  {
    if i > 0 {
      FeedOfZero(i - 1);
      ZeroBit(i - 1);
    }
  }

  lemma PowersOf32()
    ensures Pow(32, 5) == LOW25 && Pow(32, 6) == LIMIT30
  {
    PowerConstants();
    PowOfPow(2, 5, 5, 25);
    PowOfPow(2, 5, 6, 30);
  }

  lemma Appended(c: nat, symbol: nat, none: nat)
    requires symbol < 32 && none == 0
    ensures Xor(c * 32, symbol) == 32 * c + symbol
  {
    ShiftFive(c, none, none, symbol);
    XorZero(c);
    XorZero(symbol);
  }

  lemma BelowLow25(c: nat)
    requires c < LOW25
    ensures c % LOW25 == c && c / LOW25 == 0
  {}

  /** A step out of a state below 2^25 only shifts the symbol in. */
  lemma StepShifts(c: nat, symbol: nat)
    requires c < LOW25 && symbol < 32
    ensures Step(c, symbol) == 32 * c + symbol
  {
    BelowLow25(c);
    FeedOfZero(5);
    Appended(c, symbol, 0);
    XorZero(32 * c + symbol);
  }

  /** From the zero state, up to six symbols are simply written into the state. */
  lemma {:induction false} PolyPacks(w: seq<nat>)
    requires DigitsIn(w, 32) && |w| <= 6
    ensures Poly(0, w) == Value(32, w) < LIMIT30
  {
    PowersOf32();
    ValueBound(32, w);
    PowMonotone(32, |w|, 6);
    if w != [] {
      var k := |w| - 1;
      PolyPacks(w[..k]);
      ValueBound(32, w[..k]);
      PowMonotone(32, k, 5);
      StepShifts(Value(32, w[..k]), w[k]);
    }
  }

  lemma {:induction false} ZeroStepsInjective(c: nat, k: nat)
    requires c < LIMIT30 && Poly(c, Zeros(k)) == 0
    ensures c == 0
  {
    if k > 0 {
      assert Zeros(k)[..k - 1] == Zeros(k - 1);
      PolyBound(c, Zeros(k - 1));
      StepInjective(Poly(c, Zeros(k - 1)));
      ZeroStepsInjective(c, k - 1);
    }
  }

  lemma {:induction false} PolyOfZeros(k: nat)
    ensures Poly(0, Zeros(k)) == 0
  {
    if k > 0 {
      assert Zeros(k)[..k - 1] == Zeros(k - 1);
      PolyOfZeros(k - 1);
      FeedOfZero(5);
      XorZero(0);
    }
  }

  /** A word that is zero outside six symbols and has a zero checksum is zero. */
  lemma NoShortKernel(before: nat, w: seq<nat>, after: nat)
    requires DigitsIn(w, 32) && |w| == 6
    requires Poly(0, Zeros(before) + w + Zeros(after)) == 0
    ensures w == Zeros(6)
  {
    PolyConcat(0, Zeros(before) + w, Zeros(after));
    PolyConcat(0, Zeros(before), w);
    PolyOfZeros(before);
    PolyPacks(w);
    ZeroStepsInjective(Poly(0, w), after);
    FixedOfValue(32, w);
    FixedOfValue(32, Zeros(6));
    PolyPacks(Zeros(6));
    PolyOfZeros(6);
  }

  lemma XorIsZero(x: seq<nat>, y: seq<nat>, i: nat)
    requires |x| == |y| && i < |x| && XorAll(x, y)[i] == 0
    ensures x[i] == y[i]
  {
    XorCancel(x[i], y[i]);
  }

  lemma XorAllDigits(x: seq<nat>, y: seq<nat>)
    requires |x| == |y| && DigitsIn(x, 32) && DigitsIn(y, 32)
    ensures DigitsIn(XorAll(x, y), 32)
  {
    PowerConstants();
    forall i | 0 <= i < |x| ensures XorAll(x, y)[i] < 32 {
      XorBound(5, x[i], y[i]);
    }
  }

  /**
   * Burst detection: two symbol strings of equal length and equal checksum that differ only
   * inside a window of six consecutive symbols are the same string, at any length.
   */
  lemma {:induction false} EqualUpToBurst(x: seq<nat>, y: seq<nat>, at: nat)
    requires |x| == |y| && at + 6 <= |x| && DigitsIn(x, 32) && DigitsIn(y, 32)
    requires forall i :: 0 <= i < |x| && !(at <= i < at + 6) ==> x[i] == y[i]
    requires Poly(1, HRP + x) == Poly(1, HRP + y)
    ensures x == y
  {
    var d := XorAll(x, y);
    ChecksumDifference(HRP, x, y);
    XorSelf(Poly(1, HRP + x));
    XorAllDigits(x, y);
    forall i | 0 <= i < |x| && !(at <= i < at + 6) ensures d[i] == 0 {
      XorSelf(x[i]);
    }
    var w := d[at..at + 6];
    assert d == Zeros(at) + w + Zeros(|x| - at - 6);
    NoShortKernel(at, w, |x| - at - 6);
    forall i | 0 <= i < |x| ensures x[i] == y[i] {
      if at <= i < at + 6 {
        assert d[i] == w[i - at];
        XorIsZero(x, y, i);
      }
    }
  }

  /** The checksum of a difference is the difference of the checksums. */
  lemma ChecksumDifference(prefix: seq<nat>, x: seq<nat>, y: seq<nat>)
    requires |x| == |y|
    ensures Poly(0, XorAll(x, y)) == Xor(Poly(1, prefix + x), Poly(1, prefix + y))
  {
    PolyConcat(1, prefix, x);
    PolyConcat(1, prefix, y);
    var c := Poly(1, prefix);
    PolyLinear(c, c, x, y);
    XorSelf(c);
  }

  /** The six symbols that bring the checksum of `body` to `target`. */
  function Checksum(body: seq<nat>, target: nat): (w: seq<nat>)
    ensures |w| == 6 && DigitsIn(w, 32)
  {
    Fixed(32, Xor(Poly(1, HRP + body + Zeros(6)), target), 6)
  }

  lemma ChecksumReachesTarget(body: seq<nat>, target: nat)
    requires DigitsIn(body, 32) && target < LIMIT30
    ensures Poly(1, HRP + body + Checksum(body, target)) == target
  {
    var zeros: seq<nat> := Zeros(6);
    var c := Poly(1, HRP + body);
    PolyConcat(1, HRP + body, zeros);
    PolyBound(1, HRP + body + zeros);
    PolyConcat(1, HRP + body, Checksum(body, target));
    PowersOf32();
    PowerConstants();
    XorBound(30, Poly(c, zeros), target);
    SixSymbolsAdjust(c, Xor(Poly(c, zeros), target));
    XorCancel(Poly(c, zeros), target);
  }

  /** Replacing six zero symbols by the digits of `n` adds `n` to the checksum. */
  lemma SixSymbolsAdjust(c: nat, n: nat)
    requires n < LIMIT30
    ensures Poly(c, Fixed(32, n, 6)) == Xor(Poly(c, Zeros(6)), n)
  {
    var zeros: seq<nat> := Zeros(6);
    var w := Fixed(32, n, 6);
    PowersOf32();
    ValueOfFixed(32, n, 6);
    PolyPacks(w);
    PolyLinear(c, 0, zeros, w);
    XorZero(c);
    forall i | 0 <= i < 6 ensures XorAll(zeros, w)[i] == w[i] {
      XorZero(w[i]);
    }
    assert XorAll(zeros, w) == w;
  }

  /** The checksum of a body is unique. */
  lemma ChecksumUnique(body: seq<nat>, w: seq<nat>, target: nat)
    requires DigitsIn(body, 32) && DigitsIn(w, 32) && |w| == 6 && target < LIMIT30
    requires Poly(1, HRP + (body + w)) == target
    ensures w == Checksum(body, target)
  {
    ChecksumReachesTarget(body, target);
    var w' := Checksum(body, target);
    assert HRP + (body + w') == HRP + body + w';
    EqualUpToBurst(body + w, body + w', |body|);
    assert w == (body + w)[|body|..] && w' == (body + w')[|body|..];
  }
}
