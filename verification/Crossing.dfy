/** Bursts that turn an address of witness version zero into one of another version, and back. */
module Crossing {
  import opened Wrappers
  import opened Digits
  import opened Bits
  import opened Alphabets
  import opened Bech32
  import opened Segwit
  import opened ChecksumRuns

  /** The difference between the two targets a checksum is compared with. */
  const GAP: nat := 0x2BC830A2

  lemma XorLowest(one: nat, q: nat)
    requires one == 1
    ensures Xor(one, 2 * q) == 2 * q + 1 && Xor(one, 2 * q + 1) == 2 * q
  {
    XorHalves(0, one, q, 0);
    XorHalves(0, one, q, one);
    XorZero(q);
  }

  lemma TargetGap(zero: nat, other: nat)
    requires zero == 1 && other == 0x2BC830A3
    ensures Xor(zero, other) == GAP && Xor(other, zero) == GAP && Xor(zero, GAP) == other
  {
    XorLowest(zero, 0x15E41851);
    XorComm(zero, other);
  }

  /** At the two lengths of version-zero addresses, the one change of six symbols that bridges the gap. */
  function Bridge(symbols: nat): (w: seq<nat>)
    ensures |w| == 6 && DigitsIn(w, 32)
  {
    if symbols == 39 then [2, 4, 16, 20, 15, 2] else [14, 12, 2, 17, 11, 8]
  }

  lemma PackedSix(w: seq<nat>, v: nat)
    requires |w| == 6 && DigitsIn(w, 32)
    requires v == ((((w[0] * 32 + w[1]) * 32 + w[2]) * 32 + w[3]) * 32 + w[4]) * 32 + w[5]
    ensures Poly(0, w) == v
  {
    PolyPacks(w);
    assert w == w[..5] + [w[5]] && w[..5] == w[..4] + [w[4]] && w[..4] == w[..3] + [w[3]];
    assert w[..3] == w[..2] + [w[2]] && w[..2] == w[..1] + [w[1]] && w[..1] == [] + [w[0]];
    ValueOfAppend(32, w[..5], w[5]);
    ValueOfAppend(32, w[..4], w[4]);
    ValueOfAppend(32, w[..3], w[3]);
    ValueOfAppend(32, w[..2], w[2]);
    ValueOfAppend(32, w[..1], w[1]);
    ValueOfAppend(32, [], w[0]);
  }

  lemma PackedBridge(symbols: nat)
    requires symbols == 39 || symbols == 59
    ensures Poly(0, Bridge(symbols)) == if symbols == 39 then 0x44851e2 else 0x1cc14568
  {
    PackedSix(Bridge(symbols), if symbols == 39 then 0x44851e2 else 0x1cc14568);
  }

  lemma BridgeReaches(symbols: nat)
    requires symbols == 39 || symbols == 59
    ensures Poly(0, Bridge(symbols) + Zeros(symbols - 6)) == GAP
  {
    PackedBridge(symbols);
    PolyConcat(0, Bridge(symbols), Zeros(symbols - 6));
    Run42();
    Run62();
  }

  /** Two changes of six symbols with the same effect on the checksum are the same change. */
  lemma ChangeUnique(u: seq<nat>, v: seq<nat>, after: nat)
    requires |u| == |v| == 6 && DigitsIn(u, 32) && DigitsIn(v, 32)
    requires Poly(0, u + Zeros(after)) == Poly(0, v + Zeros(after))
    ensures u == v
  {
    var d := XorAll(u, v);
    PolyLinear(0, 0, u + Zeros(after), v + Zeros(after));
    XorSelf(0);
    XorSelf(Poly(0, u + Zeros(after)));
    assert XorAll(u + Zeros(after), v + Zeros(after)) == Zeros(0) + d + Zeros(after);
    XorAllDigits(u, v);
    NoShortKernel(0, d, after);
    forall i | 0 <= i < 6 ensures u[i] == v[i] {
      XorIsZero(u, v, i);
    }
  }

  /** Symbol strings that agree after six symbols have checksums a gap apart exactly across the bridge. */
  lemma GapExactly(x: seq<nat>, y: seq<nat>)
    requires |x| == |y| && (|x| == 39 || |x| == 59) && DigitsIn(x, 32) && DigitsIn(y, 32) && x[6..] == y[6..]
    ensures Xor(Poly(1, HRP + x), Poly(1, HRP + y)) == GAP <==> XorAll(x[..6], y[..6]) == Bridge(|x|)
  {
    var u := XorAll(x[..6], y[..6]);
    ChecksumDifference(HRP, x, y);
    XorAllDigits(x[..6], y[..6]);
    forall i | 6 <= i < |x| ensures XorAll(x, y)[i] == 0 {
      assert x[6..][i - 6] == y[6..][i - 6];
      XorSelf(x[i]);
    }
    assert XorAll(x, y) == u + Zeros(|x| - 6);
    BridgeReaches(|x|);
    if Poly(0, u + Zeros(|x| - 6)) == GAP {
      ChangeUnique(u, Bridge(|x|), |x| - 6);
    }
  }

  // ---------- accepted addresses ----------

  /** Lower-case texts of 42 or 62 characters that differ by the bridge right after the prefix. */
  ghost predicate Bridged(x: string, y: string) {
    && |x| == |y| && (|x| == 42 || |x| == 62) && x[..3] == y[..3] && x[9..] == y[9..]
    && Over(CHARSET, x[3..9]) && Over(CHARSET, y[3..9])
    && XorAll(Indices(CHARSET, x[3..9]), Indices(CHARSET, y[3..9])) == Bridge(|x| - 3)
  }

  /** What the decoder's checks say about the symbols of an accepted text. */
  lemma Spelled(x: string, v: Witness) returns (d: seq<nat>)
    requires Standard(v) && x == Encode(v)
    ensures Over(CHARSET, x[3..]) && d == Indices(CHARSET, x[3..]) && SymbolsSpell(d, v)
    ensures x[..3] == "bc1" && |d| == |x| - 3
    ensures v.version == 0 ==> |d| == 39 || |d| == 59
  {
    TextIsEncoding(x, v);
    CharsetDistinct();
    d := Indices(CHARSET, x[3..]);
  }

  lemma BridgedSymbols(x: string, y: string, d: seq<nat>, e: seq<nat>)
    requires |x| == |y| && (|x| == 42 || |x| == 62) && x[..3] == y[..3]
    requires Over(CHARSET, x[3..]) && d == Indices(CHARSET, x[3..])
    requires Over(CHARSET, y[3..]) && e == Indices(CHARSET, y[3..])
    requires d[6..] == e[6..]
    ensures Bridged(x, y) <==> XorAll(d[..6], e[..6]) == Bridge(|d|)
  {
    CharsetDistinct();
    assert x[3..][..6] == x[3..9] && y[3..][..6] == y[3..9];
    assert Indices(CHARSET, x[3..9]) == d[..6] && Indices(CHARSET, y[3..9]) == e[..6];
    forall i | 9 <= i < |x| ensures x[i] == y[i] {
      assert d[6..][i - 9] == e[6..][i - 9];
      assert x[3..][i - 3] == CHARSET[d[i - 3]] && y[3..][i - 3] == CHARSET[e[i - 3]];
    }
    assert x[9..] == y[9..];
  }

  lemma NotBridgedToItself(x: string)
    ensures !Bridged(x, x)
  {
    if |x| >= 9 && Over(CHARSET, x[3..9]) {
      var s := Indices(CHARSET, x[3..9]);
      XorSelf(s[0]);
      assert XorAll(s, s)[0] == Xor(s[0], s[0]);
    }
  }

  /**
   * Burst errors, exactly: two accepted addresses of one length that differ only inside six consecutive
   * characters after the prefix are the same address if and only if they do not differ by the bridge.
   */
  lemma BurstExactly(py: TextMethods, a: string, v: Witness, b: string, w: Witness, at: nat)
    requires Accepts(py, a, v) && Accepts(py, b, w)
    requires var (x, y) := (py.lower(py.strip(a)), py.lower(py.strip(b)));
      |x| == |y| && forall i :: 3 <= i < |x| && !(at <= i < at + 6) ==> x[i] == y[i]
    ensures v == w <==> !Bridged(py.lower(py.strip(a)), py.lower(py.strip(b)))
    ensures v == w <==> py.lower(py.strip(a)) == py.lower(py.strip(b))
    ensures v != w ==> (v.version == 0) != (w.version == 0)
  {
    var x, y := py.lower(py.strip(a)), py.lower(py.strip(b));
    if v.version == 0 <==> w.version == 0 {
      BurstDetected(py, a, v, b, w, at);
      NotBridgedToItself(x);
    } else {
      Across(x, v, y, w, at);
      NotBridgedToItself(x);
    }
  }

  lemma Across(x: string, v: Witness, y: string, w: Witness, at: nat)
    requires Standard(v) && Standard(w) && x == Encode(v) && y == Encode(w)
    requires (v.version == 0) != (w.version == 0)
    requires |x| == |y| && forall i :: 3 <= i < |x| && !(at <= i < at + 6) ==> x[i] == y[i]
    ensures Bridged(x, y)
  {
    var d := Spelled(x, v);
    var e := Spelled(y, w);
    var from := if at < 3 then 0 else if at - 3 > |x| - 9 then |x| - 9 else at - 3;
    SymbolsAgree(x, y, at, from);
    FromTheStart(d, e, from);
    TargetsApart(v.version, w.version);
    GapExactly(d, e);
    BridgedSymbols(x, y, d, e);
  }

  lemma TargetsApart(m: nat, n: nat)
    requires (m == 0) != (n == 0)
    ensures Xor(Target(m), Target(n)) == GAP
  {
    TargetGap(1, 0x2BC830A3);
  }

  lemma FromTheStart(d: seq<nat>, e: seq<nat>, from: nat)
    requires |d| == |e| >= 6 && d[0] != e[0]
    requires forall i :: 0 <= i < |d| && !(from <= i < from + 6) ==> d[i] == e[i]
    ensures d[6..] == e[6..]
  {
    assert from == 0;
  }

  /** The two versions the wallet can pay to are always told apart. */
  lemma PayableVersionsApart(py: TextMethods, a: string, v: Witness, b: string, w: Witness, at: nat)
    requires Accepts(py, a, v) && Accepts(py, b, w) && v.version <= 1 && w.version <= 1
    requires var (x, y) := (py.lower(py.strip(a)), py.lower(py.strip(b)));
      |x| == |y| && forall i :: 3 <= i < |x| && !(at <= i < at + 6) ==> x[i] == y[i]
    ensures v == w
  {
    var x, y := py.lower(py.strip(a)), py.lower(py.strip(b));
    BurstExactly(py, a, v, b, w, at);
    if Bridged(x, y) {
      BridgeVersion(x, v, y, w);
      XorOfFlags(v.version, w.version);
    }
  }

  lemma XorOfFlags(a: nat, b: nat)
    requires a <= 1 && b <= 1
    ensures Xor(a, b) <= 1
  {
    XorUnfold(a, b);
    XorZero(0);
  }

  /** Across the bridge the first symbols, which are the versions, differ by 2 or by 14. */
  lemma BridgeVersion(x: string, v: Witness, y: string, w: Witness)
    requires Standard(v) && Standard(w) && x == Encode(v) && y == Encode(w) && Bridged(x, y)
    ensures Xor(v.version, w.version) == Bridge(|x| - 3)[0]
  {
    var d := Spelled(x, v);
    var e := Spelled(y, w);
    var s, t := Indices(CHARSET, x[3..9]), Indices(CHARSET, y[3..9]);
    assert x[3..9][0] == x[3..][0] && y[3..9][0] == y[3..][0];
    assert XorAll(s, t)[0] == Xor(s[0], t[0]);
  }

  // ---------- every version-zero address has a neighbour across the bridge ----------

  /** The symbols on the other side. */
  function Crossed(d: seq<nat>): (e: seq<nat>)
    requires |d| == 39 || |d| == 59
    ensures |e| == |d| && e[6..] == d[6..]
  {
    XorAll(d[..6], Bridge(|d|)) + d[6..]
  }

  lemma CrossedDiffers(d: seq<nat>)
    requires (|d| == 39 || |d| == 59) && DigitsIn(d, 32)
    ensures DigitsIn(Crossed(d), 32) && XorAll(d[..6], Crossed(d)[..6]) == Bridge(|d|)
  {
    var w := Bridge(|d|);
    XorAllDigits(d[..6], w);
    assert Crossed(d)[..6] == XorAll(d[..6], w);
    forall i | 0 <= i < 6 ensures Xor(d[..6][i], Crossed(d)[..6][i]) == w[i] {
      XorCancel(d[i], w[i]);
    }
  }

  lemma LowDigit(a: nat, last: nat, b: nat, k: nat)
    requires b * k == 32 && b > 0
    ensures DivMod(32 * a + last, b).1 == DivMod(last, b).1
  {
    var (q, r) := DivMod(last, b);
    Redistribute(a, b, k, q);
    DivModOfDigit(k * a + q, b, r);
  }

  lemma Redistribute(a: nat, b: nat, k: nat, q: nat)
    requires b * k == 32
    ensures b * (k * a + q) == 32 * a + b * q
  {
    MulAssoc(b, k, a);
    assert b * (k * a + q) == b * (k * a) + b * q;
  }

  /** Whether symbols regroup depends only on how many there are and on the last one. */
  lemma StillRegroups(g: seq<nat>, h: seq<nat>)
    requires DigitsIn(g, 32) && DigitsIn(h, 32) && |g| == |h| > 0 && g[|g| - 1] == h[|g| - 1]
    requires Regrouped(g).Some?
    ensures Regrouped(h).Some?
  {
    var bits, k := 5 * |g| % 8, |g| - 1;
    PowPositive(2, bits);
    PowAdd(2, bits, 5 - bits);
    PowerConstants();
    LowDigit(Value(32, g[..k]), g[k], Pow(2, bits), Pow(2, 5 - bits));
    LowDigit(Value(32, h[..k]), g[k], Pow(2, bits), Pow(2, 5 - bits));
  }

  lemma CrossedChecksum(d: seq<nat>, zero: nat, other: nat)
    requires (|d| == 39 || |d| == 59) && DigitsIn(d, 32)
    requires zero == 1 && other == 0x2BC830A3 && Poly(1, HRP + d) == zero
    ensures Poly(1, HRP + Crossed(d)) == other
  {
    CrossedDiffers(d);
    GapExactly(d, Crossed(d));
    TargetGap(zero, other);
    XorCancel(zero, Poly(1, HRP + Crossed(d)));
  }

  lemma CrossedSpells(d: seq<nat>, v: Witness) returns (w: Witness)
    requires SymbolsSpell(d, v) && v.version == 0 && (|d| == 39 || |d| == 59)
    ensures SymbolsSpell(Crossed(d), w) && w.version == Bridge(|d|)[0]
  {
    var e, n := Crossed(d), |d| - 6;
    CrossedDiffers(d);
    CrossedChecksum(d, 1, 0x2BC830A3);
    XorZero(Bridge(|d|)[0]);
    assert e[0] == Bridge(|d|)[0];
    assert e[n - 1] == e[6..][n - 7] == d[6..][n - 7] == d[n - 1];
    StillRegroups(d[1..n], e[1..n]);
    w := Witness(e[0], Regrouped(e[1..n]).value);
  }

  lemma SpelledText(e: seq<nat>, w: Witness)
    requires SymbolsSpell(e, w)
    ensures |CHARSET| == 32 && Encode(w) == "bc1" + Symbols(CHARSET, e)
  {
    CharsetDistinct();
    SpellingIsEncoding(e, w);
  }

  lemma TextsBridged(x: string, y: string, d: seq<nat>)
    requires (|d| == 39 || |d| == 59) && DigitsIn(d, 32) && |CHARSET| == 32 && DigitsIn(Crossed(d), 32)
    requires |x| == |d| + 3 && x[..3] == "bc1" && Over(CHARSET, x[3..]) && d == Indices(CHARSET, x[3..])
    requires y == "bc1" + Symbols(CHARSET, Crossed(d))
    ensures Bridged(x, y)
  {
    CharsetDistinct();
    IndicesOfSymbols(CHARSET, Crossed(d));
    assert y[3..] == Symbols(CHARSET, Crossed(d));
    CrossedDiffers(d);
    BridgedSymbols(x, y, d, Crossed(d));
  }

  /** Every accepted address of version zero has one neighbour across the bridge, of version 2 or 14. */
  lemma CrossingAccepted(v: Witness) returns (w: Witness)
    requires Standard(v) && v.version == 0
    ensures Standard(w) && Bridged(Encode(v), Encode(w))
    ensures w.version == if |v.program| == 20 then 2 else 14
  {
    var d := Spelled(Encode(v), v);
    CrossedDiffers(d);
    w := CrossedSpells(d, v);
    SpelledText(Crossed(d), w);
    TextsBridged(Encode(v), Encode(w), d);
  }

  // ---------- one such pair ----------

  lemma GroupsOfZeros()
    ensures Groups(Zeros(20)) == Zeros(32)
  {
    ValueOfZeros(256, 20);
    ValueOfZeros(32, 32);
    FixedOfValue(32, Zeros(32));
    assert Pow(2, 0) * 0 == 0;
  }

  const TAIL: seq<nat> := [5, 25, 30, 20, 3, 16]

  lemma OneMore(start: nat, h: seq<nat>, k: nat, c: nat, d: nat)
    requires k < |h| && Poly(start, h[..k]) == c < LOW25 && h[k] < 32 && d == 32 * c + h[k]
    ensures Poly(start, h[..k + 1]) == d
  {
    assert h[..k + 1][..k] == h[..k];
    StepShifts(c, h[k]);
  }

  /** The state after the prefix `bc`. */
  lemma PrefixState(start: nat, h: seq<nat>)
    requires start == 1 && |h| == 5 && h[0] == h[1] == h[4] == 3 && h[2] == 0 && h[3] == 2
    ensures Poly(start, h) == 0x2318043
  {
    OneMore(start, h, 0, 1, 35);
    OneMore(start, h, 1, 35, 1123);
    OneMore(start, h, 2, 1123, 35936);
    OneMore(start, h, 3, 35936, 1149954);
    OneMore(start, h, 4, 1149954, 0x2318043);
    assert h[..5] == h;
  }

  lemma XorWithNext(n: nat, one: nat)
    requires n % 2 == 0 && one == 1
    ensures Xor(n + 1, n) == one
  {
    XorHalves(n / 2, one, n / 2, 0);
    XorSelf(n / 2);
  }

  lemma TailOfZeros(n: nat)
    requires n == 0xb9f5070
    ensures Fixed(32, n, 6) == TAIL
  {
    var w := TAIL;
    PackedSix(w, n);
    PolyPacks(w);
    FixedOfValue(32, w);
  }

  lemma ZerosChecksum(n: nat)
    requires n == 0xb9f5070
    ensures Poly(1, HRP + (Zeros(33) + TAIL)) == 1
  {
    PrefixState(1, HRP);
    PolyConcat(1, HRP, Zeros(33) + TAIL);
    var c := Poly(0x2318043, Zeros(33));
    PolyConcat(0x2318043, Zeros(33), TAIL);
    PolyConcat(0x2318043, Zeros(33), Zeros(6));
    assert Zeros(33) + Zeros(6) == Zeros(39);
    RunEmpty();
    TailOfZeros(n);
    SixSymbolsAdjust(c, n);
    XorWithNext(n, 1);
  }

  lemma ZerosSpelled()
    ensures SymbolsSpell(Zeros(33) + TAIL, Witness(0, Zeros(20)))
  {
    ZerosChecksum(0xb9f5070);
    ZerosRegroup(Zeros(33) + TAIL);
  }

  lemma ZerosRegroup(d: seq<nat>)
    requires d == Zeros(33) + TAIL
    ensures DigitsIn(d, 32) && |d| == 39 && d[0] == 0 && Regrouped(d[1..33]) == Some(Zeros(20))
  {
    assert d[1..33] == Zeros(32);
    ZerosBack(d[1..33]);
  }

  lemma ZerosBack(g: seq<nat>)
    requires g == Zeros(32)
    ensures Regrouped(g) == Some(Zeros(20))
  {
    GroupsOfZeros();
    RegroupOfGroups(Zeros(20));
  }

  lemma CrossedZeros()
    ensures Crossed(Zeros(33) + TAIL) == [2, 4, 16, 20, 15, 2] + Zeros(27) + TAIL
  {
    var d, w := Zeros(33) + TAIL, Bridge(39);
    forall i | 0 <= i < 6 ensures XorAll(d[..6], w)[i] == w[i] {
      XorZero(w[i]);
    }
    assert d[6..] == Zeros(27) + TAIL;
  }

  function Repeated(c: char, k: nat): (s: string)
    ensures |s| == k && forall i :: 0 <= i < k ==> s[i] == c
  {
    seq(k, i => c)
  }

  lemma SymbolsJoin(x: seq<nat>, y: seq<nat>)
    requires |CHARSET| == 32 && DigitsIn(x, 32) && DigitsIn(y, 32)
    ensures Symbols(CHARSET, x + y) == Symbols(CHARSET, x) + Symbols(CHARSET, y)
  {}

  lemma PairSymbols()
    ensures |CHARSET| == 32
    ensures Symbols(CHARSET, Zeros(33)) == Repeated('q', 33) && Symbols(CHARSET, Zeros(27)) == Repeated('q', 27)
    ensures Symbols(CHARSET, [2, 4, 16, 20, 15, 2]) == "zys50z" && Symbols(CHARSET, TAIL) == "9e75rs"
  {
    CharsetDistinct();
    var s, t := Symbols(CHARSET, [2, 4, 16, 20, 15, 2]), Symbols(CHARSET, TAIL);
    assert s == [s[0], s[1], s[2], s[3], s[4], s[5]];
    assert t == [t[0], t[1], t[2], t[3], t[4], t[5]];
  }

  /** The address of a program of twenty zero bytes, and its neighbour of version 2. */
  lemma CrossingPair() returns (w: Witness)
    ensures Standard(w) && w.version == 2
    ensures Encode(Witness(0, Zeros(20))) == "bc1" + Repeated('q', 33) + "9e75rs"
    ensures Encode(w) == "bc1" + "zys50z" + Repeated('q', 27) + "9e75rs"
  {
    var d, v := Zeros(33) + TAIL, Witness(0, Zeros(20));
    ZerosSpelled();
    w := CrossedSpells(d, v);
    SpelledText(d, v);
    SpelledText(Crossed(d), w);
    CrossedZeros();
    PairTexts();
    Regrouping("bc1", Repeated('q', 33), "9e75rs", []);
    Regrouping("bc1", "zys50z", Repeated('q', 27), "9e75rs");
  }

  lemma Regrouping(a: string, b: string, c: string, d: string)
    ensures a + (b + c) == a + b + c && a + (b + c + d) == a + b + c + d
  {}

  lemma PairTexts()
    ensures |CHARSET| == 32
    ensures Symbols(CHARSET, Zeros(33) + TAIL) == Repeated('q', 33) + "9e75rs"
    ensures Symbols(CHARSET, [2, 4, 16, 20, 15, 2] + Zeros(27) + TAIL) == "zys50z" + Repeated('q', 27) + "9e75rs"
  {
    PairSymbols();
    SymbolsJoin(Zeros(33), TAIL);
    SymbolsJoin([2, 4, 16, 20, 15, 2] + Zeros(27), TAIL);
    SymbolsJoin([2, 4, 16, 20, 15, 2], Zeros(27));
  }
}
