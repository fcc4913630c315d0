/** The checksum machine of `Bech32` on thirty flags: a fast form that agrees with it step for step. */
module FastChecksum {
  import opened Digits
  import opened Bits
  import opened Bech32

  // ---------- bits of quotients, remainders and multiples ----------

  function Flag(b: bool): nat {
    if b then 1 else 0
  }

  lemma BitOfDouble(p: nat, d: bool, i: nat)
    ensures Bit(2 * p + Flag(d), i) <==> if i == 0 then d else Bit(p, i - 1)
  {}

  lemma {:induction false} BitOfShl(n: nat, k: nat, j: nat)
    ensures Bit(Shl(n, k), j) <==> j >= k && Bit(n, j - k)
  {
    if k > 0 {
      BitOfDouble(Shl(n, k - 1), false, j);
      if j > 0 { BitOfShl(n, k - 1, j - 1); }
    }
  }

  /** The bits of `high * 2^k + low`. */
  lemma {:induction false} BitOfParts(high: nat, low: nat, k: nat, j: nat)
    requires low < Pow(2, k)
    ensures Bit(Shl(high, k) + low, j) <==> if j < k then Bit(low, j) else Bit(high, j - k)
  {
    if k > 0 {
      var half := Shl(high, k - 1) + low / 2;
      assert Shl(high, k) + low == 2 * half + Flag(low % 2 == 1);
      BitOfDouble(half, low % 2 == 1, j);
      BitOfDouble(low / 2, low % 2 == 1, j);
      if j > 0 { BitOfParts(high, low / 2, k - 1, j - 1); }
    }
  }

  lemma {:induction false} SameBits(x: nat, y: nat, k: nat)
    requires x < Pow(2, k) && y < Pow(2, k)
    requires forall j: nat :: j < k ==> (Bit(x, j) <==> Bit(y, j))
    ensures x == y
  {
    if k > 0 {
      forall j: nat | j < k - 1 ensures Bit(x / 2, j) <==> Bit(y / 2, j) {
        assert Bit(x, j + 1) <==> Bit(y, j + 1);
      }
      SameBits(x / 2, y / 2, k - 1);
      assert Bit(x, 0) <==> Bit(y, 0);
    }
  }

  /** What one bit of the next state depends on, when a zero symbol is fed. */
  predicate NextBit(c: nat, j: nat) {
    (j >= 5 && Bit(c, j - 5)) != FeedParity(c / LOW25, 5, j)
  }

  lemma {:induction false} StateBits(c: nat, j: nat)
    ensures Bit(c, j) <==> if j < 25 then Bit(c % LOW25, j) else Bit(c / LOW25, j - 25)
  {
    PowerConstants();
    ShlIsProduct(c / LOW25, 25);
    BitOfParts(c / LOW25, c % LOW25, 25, j);
  }

  lemma {:induction false} BitOfStep(c: nat, j: nat)
    requires j < 30
    ensures Bit(Step(c, 0), j) <==> NextBit(c, j)
  {
    var low := c % LOW25;
    XorZero(low * 32);
    XorBit(low * 32, Feed(c / LOW25, 5), j);
    FeedBit(c / LOW25, 5, j);
    PowerConstants();
    ShlIsProduct(low, 5);
    BitOfShl(low, 5, j);
    if j >= 5 { StateBits(c, j - 5); }
  }

  // ---------- the state as thirty flags ----------

  /** The flags of a state, each zero or one. */
  datatype Word = Word(
    b29: nat, b28: nat, b27: nat, b26: nat, b25: nat, b24: nat, b23: nat, b22: nat, b21: nat, b20: nat,
    b19: nat, b18: nat, b17: nat, b16: nat, b15: nat, b14: nat, b13: nat, b12: nat, b11: nat, b10: nat,
    b9: nat, b8: nat, b7: nat, b6: nat, b5: nat, b4: nat, b3: nat, b2: nat, b1: nat, b0: nat)

  function Pick(i: nat, a: nat, b: nat, c: nat, d: nat, e: nat): nat {
    if i == 0 then a else if i == 1 then b else if i == 2 then c else if i == 3 then d else e
  }

  function At(w: Word, j: nat): nat {
    if j < 5 then Pick(j, w.b0, w.b1, w.b2, w.b3, w.b4)
    else if j < 10 then Pick(j - 5, w.b5, w.b6, w.b7, w.b8, w.b9)
    else if j < 15 then Pick(j - 10, w.b10, w.b11, w.b12, w.b13, w.b14)
    else if j < 20 then Pick(j - 15, w.b15, w.b16, w.b17, w.b18, w.b19)
    else if j < 25 then Pick(j - 20, w.b20, w.b21, w.b22, w.b23, w.b24)
    else if j < 30 then Pick(j - 25, w.b25, w.b26, w.b27, w.b28, w.b29)
    else 0
  }

  /** Exclusive or of flags. */
  function Add(a: nat, b: nat): nat {
    if a == b then 0 else 1
  }

  function Times(a: nat, b: nat): nat {
    if a == 0 then 0 else b
  }

  function Flags(w: Word): (f: seq<nat>)
    ensures |f| == 30 && forall j: nat :: j < 30 ==> f[j] == At(w, j)
  {
    seq(30, j requires 0 <= j < 30 => At(w, j))
  }

  ghost predicate Binary(f: seq<nat>) {
    forall j :: 0 <= j < |f| ==> f[j] < 2
  }

  /** The number spelled by the flags from `j` up, lowest first. */
  function Spelled(f: seq<nat>, j: nat): nat
    decreases |f| - j
  {
    if j >= |f| then 0 else 2 * Spelled(f, j + 1) + f[j]
  }

  lemma {:induction false} BitOfSpelled(f: seq<nat>, j: nat, i: nat)
    requires Binary(f) && j + i < |f|
    ensures Bit(Spelled(f, j), i) <==> f[j + i] == 1
    decreases i
  {
    BitOfDouble(Spelled(f, j + 1), f[j] == 1, i);
    if i > 0 { BitOfSpelled(f, j + 1, i - 1); }
  }

  function Number(w: Word): nat {
    Spelled(Flags(w), 0)
  }

  lemma SpelledFive(f: seq<nat>, j: nat)
    requires j + 5 <= |f|
    ensures Spelled(f, j) == f[j] + 2 * f[j + 1] + 4 * f[j + 2] + 8 * f[j + 3] + 16 * f[j + 4] + 32 * Spelled(f, j + 5)
  {
    assert Spelled(f, j + 4) == 2 * Spelled(f, j + 5) + f[j + 4];
    assert Spelled(f, j + 3) == 2 * Spelled(f, j + 4) + f[j + 3];
    assert Spelled(f, j + 2) == 2 * Spelled(f, j + 3) + f[j + 2];
    assert Spelled(f, j + 1) == 2 * Spelled(f, j + 2) + f[j + 1];
    assert Spelled(f, j) == 2 * Spelled(f, j + 1) + f[j];
  }

  function UpperHalf(w: Word): nat {
    w.b15 + 0x2 * w.b16 + 0x4 * w.b17 + 0x8 * w.b18 + 0x10 * w.b19
    + 0x20 * w.b20 + 0x40 * w.b21 + 0x80 * w.b22 + 0x100 * w.b23 + 0x200 * w.b24
    + 0x400 * w.b25 + 0x800 * w.b26 + 0x1000 * w.b27 + 0x2000 * w.b28 + 0x4000 * w.b29
  }

  lemma WrittenUpper(w: Word)
    ensures Spelled(Flags(w), 15) == UpperHalf(w)
  {
    var f := Flags(w);
    SpelledFive(f, 15);
    SpelledFive(f, 20);
    SpelledFive(f, 25);
  }

  function WordNumber(w: Word): nat {
    w.b0 + 0x2 * w.b1 + 0x4 * w.b2 + 0x8 * w.b3 + 0x10 * w.b4
    + 0x20 * w.b5 + 0x40 * w.b6 + 0x80 * w.b7 + 0x100 * w.b8 + 0x200 * w.b9
    + 0x400 * w.b10 + 0x800 * w.b11 + 0x1000 * w.b12 + 0x2000 * w.b13 + 0x4000 * w.b14
    + 0x8000 * UpperHalf(w)
  }

  /** The number of a word. */
  lemma Written(w: Word)
    ensures Number(w) == WordNumber(w)
  {
    var f := Flags(w);
    SpelledFive(f, 0);
    SpelledFive(f, 5);
    SpelledFive(f, 10);
    WrittenUpper(w);
  }

  predicate Small(w: Word) {
    && w.b29 < 2 && w.b28 < 2 && w.b27 < 2 && w.b26 < 2 && w.b25 < 2
    && w.b24 < 2 && w.b23 < 2 && w.b22 < 2 && w.b21 < 2 && w.b20 < 2
    && w.b19 < 2 && w.b18 < 2 && w.b17 < 2 && w.b16 < 2 && w.b15 < 2
    && w.b14 < 2 && w.b13 < 2 && w.b12 < 2 && w.b11 < 2 && w.b10 < 2
    && w.b9 < 2 && w.b8 < 2 && w.b7 < 2 && w.b6 < 2 && w.b5 < 2
    && w.b4 < 2 && w.b3 < 2 && w.b2 < 2 && w.b1 < 2 && w.b0 < 2
  }

  lemma SmallBinary(w: Word)
    requires Small(w)
    ensures Binary(Flags(w))
  {}

  lemma BitOfNumber(w: Word, j: nat)
    requires Binary(Flags(w)) && j < 30
    ensures Bit(Number(w), j) <==> Flags(w)[j] == 1
  {
    BitOfSpelled(Flags(w), 0, j);
  }

  // ---------- one step with a zero symbol ----------

  function Next(w: Word): Word {
    Word(Add(w.b24, Add(Add(Add(w.b25, w.b26), w.b28), w.b29)), Add(w.b23, Add(Add(w.b25, w.b27), w.b28)),
         Add(w.b22, Add(Add(Add(w.b25, w.b27), w.b28), w.b29)), Add(w.b21, Add(Add(w.b26, w.b27), w.b28)),
         Add(w.b20, Add(Add(Add(w.b25, w.b26), w.b27), w.b29)), Add(w.b19, Add(w.b25, w.b28)),
         Add(w.b18, w.b27), Add(w.b17, Add(Add(w.b25, w.b26), w.b28)),
         Add(w.b16, Add(w.b25, w.b27)), Add(w.b15, Add(w.b26, w.b29)),
         Add(w.b14, w.b25), Add(w.b13, w.b29),
         Add(w.b12, Add(w.b25, w.b28)), Add(w.b11, w.b27),
         Add(w.b10, w.b26), Add(w.b9, Add(w.b25, w.b29)),
         Add(w.b8, Add(w.b28, w.b29)), Add(w.b7, Add(Add(w.b25, w.b27), w.b28)),
         Add(w.b6, Add(w.b26, w.b27)), Add(w.b5, Add(w.b25, w.b26)),
         Add(w.b4, Add(Add(Add(w.b25, w.b26), w.b28), w.b29)), Add(w.b3, Add(Add(w.b25, w.b27), w.b28)),
         Add(w.b2, Add(Add(Add(w.b25, w.b27), w.b28), w.b29)), Add(w.b1, Add(Add(w.b26, w.b27), w.b28)),
         Add(w.b0, Add(Add(Add(w.b25, w.b26), w.b27), w.b29)), Add(Add(Add(w.b25, w.b27), w.b28), w.b29),
         Add(Add(w.b26, w.b27), w.b28), Add(w.b26, w.b28),
         Add(Add(w.b25, w.b27), w.b29), Add(Add(w.b26, w.b28), w.b29))
  }

  const GENERATOR0: Word :=
    Word(1, 1, 1, 0, 1, 1, 0, 1, 1, 0, 1, 0, 1, 0, 0,
         1, 0, 1, 0, 1, 1, 1, 1, 0, 1, 1, 0, 0, 1, 0)
  const GENERATOR1: Word :=
    Word(1, 0, 0, 1, 1, 0, 0, 1, 0, 1, 0, 0, 0, 0, 1,
         0, 0, 0, 1, 1, 1, 0, 0, 1, 1, 0, 1, 1, 0, 1)
  const GENERATOR2: Word :=
    Word(0, 1, 1, 1, 1, 0, 1, 0, 1, 0, 0, 0, 0, 1, 0,
         0, 0, 1, 1, 0, 0, 1, 1, 1, 1, 1, 1, 0, 1, 0)
  const GENERATOR3: Word :=
    Word(1, 1, 1, 1, 0, 1, 0, 1, 0, 0, 0, 0, 1, 0, 0,
         0, 1, 1, 0, 0, 1, 1, 1, 1, 0, 1, 1, 1, 0, 1)
  const GENERATOR4: Word :=
    Word(1, 0, 1, 0, 1, 0, 0, 0, 0, 1, 0, 1, 0, 0, 0,
         1, 1, 0, 0, 0, 1, 0, 1, 0, 1, 1, 0, 0, 1, 1)

  /** Bit `j` of what is fed back, over the flags. */
  function FlagParity(w: Word, j: nat): nat {
    Add(Add(Add(Add(Times(At(GENERATOR0, j), w.b25), Times(At(GENERATOR1, j), w.b26)),
                Times(At(GENERATOR2, j), w.b27)), Times(At(GENERATOR3, j), w.b28)),
        Times(At(GENERATOR4, j), w.b29))
  }

  /** The flag that is shifted into place `j`. */
  function Before(w: Word, j: nat): nat {
    if j >= 5 then At(w, j - 5) else 0
  }

  lemma FlagBinary(w: Word, j: nat)
    requires Binary(Flags(w)) && j < 30
    ensures At(w, j) < 2
  {
    assert Flags(w)[j] < 2;
  }

  lemma NextFlags0(w: Word, j: nat)
    requires w.b25 < 2 && w.b26 < 2 && w.b27 < 2 && w.b28 < 2 && w.b29 < 2
    requires 0 <= j < 3 && Before(w, j) < 2
    ensures At(Next(w), j) == Add(Before(w, j), FlagParity(w, j))
  {}

  lemma NextFlags3(w: Word, j: nat)
    requires w.b25 < 2 && w.b26 < 2 && w.b27 < 2 && w.b28 < 2 && w.b29 < 2
    requires 3 <= j < 6 && Before(w, j) < 2
    ensures At(Next(w), j) == Add(Before(w, j), FlagParity(w, j))
  {}

  lemma NextFlags6(w: Word, j: nat)
    requires w.b25 < 2 && w.b26 < 2 && w.b27 < 2 && w.b28 < 2 && w.b29 < 2
    requires 6 <= j < 9 && Before(w, j) < 2
    ensures At(Next(w), j) == Add(Before(w, j), FlagParity(w, j))
  {}

  lemma NextFlags9(w: Word, j: nat)
    requires w.b25 < 2 && w.b26 < 2 && w.b27 < 2 && w.b28 < 2 && w.b29 < 2
    requires 9 <= j < 12 && Before(w, j) < 2
    ensures At(Next(w), j) == Add(Before(w, j), FlagParity(w, j))
  {}

  lemma NextFlags12(w: Word, j: nat)
    requires w.b25 < 2 && w.b26 < 2 && w.b27 < 2 && w.b28 < 2 && w.b29 < 2
    requires 12 <= j < 15 && Before(w, j) < 2
    ensures At(Next(w), j) == Add(Before(w, j), FlagParity(w, j))
  {}

  lemma NextFlags15(w: Word, j: nat)
    requires w.b25 < 2 && w.b26 < 2 && w.b27 < 2 && w.b28 < 2 && w.b29 < 2
    requires 15 <= j < 18 && Before(w, j) < 2
    ensures At(Next(w), j) == Add(Before(w, j), FlagParity(w, j))
  {}

  lemma NextFlags18(w: Word, j: nat)
    requires w.b25 < 2 && w.b26 < 2 && w.b27 < 2 && w.b28 < 2 && w.b29 < 2
    requires 18 <= j < 21 && Before(w, j) < 2
    ensures At(Next(w), j) == Add(Before(w, j), FlagParity(w, j))
  {}

  lemma NextFlags21(w: Word, j: nat)
    requires w.b25 < 2 && w.b26 < 2 && w.b27 < 2 && w.b28 < 2 && w.b29 < 2
    requires 21 <= j < 24 && Before(w, j) < 2
    ensures At(Next(w), j) == Add(Before(w, j), FlagParity(w, j))
  {}

  lemma NextFlags24(w: Word, j: nat)
    requires w.b25 < 2 && w.b26 < 2 && w.b27 < 2 && w.b28 < 2 && w.b29 < 2
    requires 24 <= j < 27 && Before(w, j) < 2
    ensures At(Next(w), j) == Add(Before(w, j), FlagParity(w, j))
  {}

  lemma NextFlags27(w: Word, j: nat)
    requires w.b25 < 2 && w.b26 < 2 && w.b27 < 2 && w.b28 < 2 && w.b29 < 2
    requires 27 <= j < 30 && Before(w, j) < 2
    ensures At(Next(w), j) == Add(Before(w, j), FlagParity(w, j))
  {}

  lemma HighFlags(w: Word, i: nat)
    requires Small(w) && i < 5
    ensures Bit(Number(w) / LOW25, i) <==> At(w, 25 + i) == 1
  {
    SmallBinary(w);
    StateBits(Number(w), 25 + i);
    BitOfNumber(w, 25 + i);
  }

  /** The generators as words. */
  function GeneratorWord(i: nat): Word
    requires i < 5
  {
    if i == 0 then GENERATOR0 else if i == 1 then GENERATOR1 else if i == 2 then GENERATOR2
    else if i == 3 then GENERATOR3 else GENERATOR4
  }

  lemma LowGenerators(i: nat)
    requires i < 3
    ensures Small(GeneratorWord(i)) && WordNumber(GeneratorWord(i)) == GENERATORS[i]
  {}

  lemma HighGenerators(i: nat)
    requires 3 <= i < 5
    ensures Small(GeneratorWord(i)) && WordNumber(GeneratorWord(i)) == GENERATORS[i]
  {}

  lemma {:induction false} BitOfWord(w: Word, n: nat, j: nat)
    requires Small(w) && WordNumber(w) == n && j < 30
    ensures Bit(n, j) <==> At(w, j) == 1
  {
    Written(w);
    SmallBinary(w);
    BitOfNumber(w, j);
  }

  lemma GeneratorBit(i: nat, j: nat)
    requires i < 5 && j < 30
    ensures Bit(GENERATORS[i], j) <==> At(GeneratorWord(i), j) == 1
  {
    if i < 3 {
      LowGenerators(i);
    } else {
      HighGenerators(i);
    }
    BitOfWord(GeneratorWord(i), GENERATORS[i], j);
  }

  lemma HighBits(w: Word)
    requires Small(w)
    ensures Bit(Number(w) / LOW25, 0) <==> w.b25 == 1
    ensures Bit(Number(w) / LOW25, 1) <==> w.b26 == 1
    ensures Bit(Number(w) / LOW25, 2) <==> w.b27 == 1
    ensures Bit(Number(w) / LOW25, 3) <==> w.b28 == 1
    ensures Bit(Number(w) / LOW25, 4) <==> w.b29 == 1
  {
    HighFlags(w, 0);
    HighFlags(w, 1);
    HighFlags(w, 2);
    HighFlags(w, 3);
    HighFlags(w, 4);
  }

  lemma {:induction false} FedFlag(w: Word, j: nat)
    requires Small(w) && j < 30
    ensures FeedParity(Number(w) / LOW25, 5, j) <==> FlagParity(w, j) == 1
  {
    ParityUnfolds(Number(w) / LOW25, j);
    HighBits(w);
    GeneratorBit(0, j);
    GeneratorBit(1, j);
    GeneratorBit(2, j);
    GeneratorBit(3, j);
    GeneratorBit(4, j);
  }

  lemma NextSmall(w: Word)
    ensures Small(Next(w))
  {}

  lemma NumberBound(w: Word)
    requires Small(w)
    ensures Number(w) < LIMIT30
  {
    Written(w);
  }

  lemma {:induction false} NextBitOf(w: Word, j: nat)
    requires Small(w) && j < 30
    ensures Bit(Number(Next(w)), j) <==> Bit(Step(Number(w), 0), j)
  {
    NextSmall(w);
    SmallBinary(w);
    SmallBinary(Next(w));
    BitOfNumber(Next(w), j);
    if j >= 5 {
      BitOfNumber(w, j - 5);
      FlagBinary(w, j - 5);
    }
    if j < 3 {
      NextFlags0(w, j);
    } else if j < 6 {
      NextFlags3(w, j);
    } else if j < 9 {
      NextFlags6(w, j);
    } else if j < 12 {
      NextFlags9(w, j);
    } else if j < 15 {
      NextFlags12(w, j);
    } else if j < 18 {
      NextFlags15(w, j);
    } else if j < 21 {
      NextFlags18(w, j);
    } else if j < 24 {
      NextFlags21(w, j);
    } else if j < 27 {
      NextFlags24(w, j);
    } else {
      NextFlags27(w, j);
    }
    BitOfStep(Number(w), j);
    FedFlag(w, j);
  }

  /** The fast step is the step of the checksum. */
  lemma {:induction false} NextRefines(w: Word)
    requires Small(w)
    ensures Number(Next(w)) == Step(Number(w), 0)
  {
    NextSmall(w);
    NumberBound(Next(w));
    StepBound(Number(w), 0);
    PowerConstants();
    forall j: nat | j < 30 ensures Bit(Number(Next(w)), j) <==> Bit(Step(Number(w), 0), j) {
      NextBitOf(w, j);
    }
    SameBits(Number(Next(w)), Step(Number(w), 0), 30);
  }

  lemma OneZeroFirst(c: nat, n: nat)
    ensures Poly(c, Zeros(n + 1)) == Poly(Step(c, 0), Zeros(n))
  {
    assert Zeros(n + 1) == [0] + Zeros(n);
    PolyConcat(c, [0], Zeros(n));
    assert [0][..0] == [];
  }

  function Run(w: Word, n: nat): Word
    decreases n
  {
    if n == 0 then w else Run(Next(w), n - 1)
  }

  /** Feeding zero symbols to the checksum is running the fast steps. */
  lemma {:induction false} RunRefines(w: Word, n: nat)
    requires Small(w)
    ensures Number(Run(w, n)) == Poly(Number(w), Zeros(n))
    decreases n
  {
    if n > 0 {
      NextSmall(w);
      RunRefines(Next(w), n - 1);
      NextRefines(w);
      OneZeroFirst(Number(w), n - 1);
    }
  }
}
