/** `decode_bech32_segwit` of src/wallet_agent/domain/addresses.py, against its inverse encoder. */
module Segwit {
  import opened Wrappers
  import opened Digits
  import opened Bits
  import opened Alphabets
  import opened Bech32

  /** Python's `str.strip`, `str.lower` and `str.upper`; their Unicode tables are parameters. */
  datatype TextMethods = TextMethods(strip: string -> string, lower: string -> string, upper: string -> string)

  datatype Witness = Witness(version: nat, program: seq<byte>)

  /** The program sizes and versions the decoder lets through. */
  predicate Standard(w: Witness) {
    && w.version <= MAX_WITNESS_VERSION
    && 2 <= |w.program| <= 40
    && (w.version == 0 ==> |w.program| == 20 || |w.program| == 32)
  }

  function Target(version: nat): nat {
    if version == 0 then 1 else 0x2BC830A3
  }

  // ---------- regrouping: 8-bit program bytes and 5-bit symbols ----------

  /** Symbols of a program: its bits in groups of five, zero-padded at the end. */
  function Groups(program: seq<byte>): (g: seq<nat>)
    ensures |g| == (8 * |program| + 4) / 5 && DigitsIn(g, 32)
  {
    var m := (8 * |program| + 4) / 5;
    Fixed(32, Pow(2, 5 * m - 8 * |program|) * Value(256, program), m)
  }

  /** Bytes of a symbol string; refused when five or more bits, or a set bit, are left over. */
  function Regrouped(g: seq<nat>): (p: Option<seq<byte>>)
    requires DigitsIn(g, 32)
    ensures p.Some? ==> |p.value| == 5 * |g| / 8
  {
    var bits := 5 * |g| % 8;
    PowPositive(2, bits);
    var (q, r) := DivMod(Value(32, g), Pow(2, bits));
    if bits >= 5 || r != 0 then None else Some(Fixed(256, q, 5 * |g| / 8))
  }

  lemma PowerOfWidths(m: nat, n: nat, bits: nat)
    requires 5 * m == 8 * n + bits
    ensures Pow(32, m) == Pow(2, bits) * Pow(256, n)
  {
    PowerConstants();
    PowOfPow(2, 5, m, 5 * m);
    assert Pow(2, 8) == 256;
    PowOfPow(2, 8, n, 8 * n);
    PowAdd(2, bits, 8 * n);
  }

  lemma GroupWidth(n: nat, m: nat)
    requires m == (8 * n + 4) / 5
    ensures 0 <= 5 * m - 8 * n < 5 && 5 * m % 8 == 5 * m - 8 * n && 5 * m / 8 == n
  {}

  lemma RegroupedIs(g: seq<nat>, b: nat, v: nat, bits: nat, n: nat)
    requires DigitsIn(g, 32) && bits == 5 * |g| % 8 && bits < 5 && n == 5 * |g| / 8
    requires b == Pow(2, bits) && b > 0 && Value(32, g) == b * v
    ensures Regrouped(g) == Some(Fixed(256, v, n))
  {
    DivModOfDigit(v, b, 0);
  }

  /** Regrouping the symbols of a program gives the program back. */
  lemma RegroupOfGroups(program: seq<byte>)
    ensures Regrouped(Groups(program)) == Some(program)
  {
    var n := |program|;
    var m := (8 * n + 4) / 5;
    GroupWidth(n, m);
    var bits := 5 * m - 8 * n;
    var v, b := Value(256, program), Pow(2, bits);
    ValueBound(256, program);
    PowPositive(2, bits);
    PowerOfWidths(m, n, bits);
    MulStep(b, v, Pow(256, n));
    ValueOfFixed(32, b * v, m);
    RegroupedIs(Groups(program), b, v, bits, n);
    FixedOfValue(256, program);
  }

  /** What an accepted regrouping says about the value of the symbols. */
  lemma RegroupedParts(g: seq<nat>, program: seq<byte>, bits: nat) returns (q: nat)
    requires DigitsIn(g, 32) && bits == 5 * |g| % 8 && Regrouped(g) == Some(program)
    ensures bits < 5 && Pow(2, bits) > 0 && Value(32, g) == Pow(2, bits) * q
    ensures program == Fixed(256, q, 5 * |g| / 8)
  {
    PowPositive(2, bits);
    q := DivMod(Value(32, g), Pow(2, bits)).0;
  }

  lemma GroupWidthBack(m: nat, n: nat, bits: nat)
    requires n == 5 * m / 8 && bits == 5 * m % 8 && bits < 5
    ensures 5 * m == 8 * n + bits && m == (8 * n + 4) / 5
  {}

  lemma QuotientFits(g: seq<nat>, n: nat, bits: nat, q: nat)
    requires DigitsIn(g, 32) && 5 * |g| == 8 * n + bits && Value(32, g) == Pow(2, bits) * q
    ensures q < Pow(256, n)
  {
    ValueBound(32, g);
    PowerOfWidths(|g|, n, bits);
    FactorBelow(Pow(2, bits), q, Pow(256, n));
  }

  /** Accepted symbol strings are exactly the groups of what they regroup to. */
  lemma GroupsOfRegroup(g: seq<nat>)
    requires DigitsIn(g, 32) && Regrouped(g).Some?
    ensures Groups(Regrouped(g).value) == g
  {
    var program := Regrouped(g).value;
    var m, n, bits := |g|, 5 * |g| / 8, 5 * |g| % 8;
    var q := RegroupedParts(g, program, bits);
    GroupWidthBack(m, n, bits);
    QuotientFits(g, n, bits, q);
    ValueOfFixed(256, q, n);
    GroupsBack(program, g, q, m, bits);
  }

  lemma GroupsBack(program: seq<byte>, g: seq<nat>, q: nat, m: nat, bits: nat)
    requires DigitsIn(g, 32) && m == |g| == (8 * |program| + 4) / 5 && bits == 5 * m - 8 * |program|
    requires Value(256, program) == q && Value(32, g) == Pow(2, bits) * q
    ensures Groups(program) == g
  {
    FixedOfValue(32, g);
  }

  lemma FactorBelow(b: nat, q: nat, limit: nat)
    requires b * q < b * limit
    ensures q < limit
  {
    if q >= limit {
      MulMonotone(b, limit, q);
    }
  }

  // ---------- the encoder the decoder is compared with ----------

  /** The lower-case address of a witness program, as BIP 173 and BIP 350 print it. */
  function Encode(w: Witness): string
    requires Standard(w)
  {
    var body := [w.version] + Groups(w.program);
    CharsetDistinct();
    "bc1" + Symbols(CHARSET, body + Checksum(body, Target(w.version)))
  }

  /** What the decoder accepts: one letter case whose lower-case form is the encoding of `w`. */
  ghost predicate Accepts(py: TextMethods, address: string, w: Witness) {
    var value := py.strip(address);
    && Standard(w)
    && value != ""
    && (value == py.lower(value) || value == py.upper(value))
    && py.lower(value) == Encode(w)
  }

  /** The checks on the symbols after the prefix, as one condition. */
  ghost predicate SymbolsSpell(data: seq<nat>, w: Witness) {
    && DigitsIn(data, 32) && |data| >= 7 && data[0] == w.version
    && w.version <= MAX_WITNESS_VERSION
    && Poly(1, HRP + data) == Target(w.version)
    && Regrouped(data[1..|data| - 6]) == Some(w.program)
    && Standard(w)
  }

  /** The decoder's own checks on a lower-case text. */
  ghost predicate Checked(text: string, w: Witness) {
    && |text| >= 3 && text[..3] == "bc1" && |text| <= 90
    && Over(CHARSET, text[3..])
    && SymbolsSpell(Indices(CHARSET, text[3..]), w)
  }

  lemma ChecksumTail(data: seq<nat>, body: seq<nat>, tail: seq<nat>, target: nat)
    requires DigitsIn(data, 32) && data == body + tail && |tail| == 6 && target < LIMIT30
    requires Poly(1, HRP + data) == target
    ensures tail == Checksum(body, target)
  {
    assert forall i :: 0 <= i < |body| ==> body[i] == data[i];
    assert forall i :: 0 <= i < 6 ==> tail[i] == data[|body| + i];
    ChecksumUnique(body, tail, target);
  }

  lemma HeadAndMiddle(data: seq<nat>, n: nat)
    requires 0 < n <= |data| && DigitsIn(data, 32)
    ensures data == data[..n] + data[n..] && data[..n] == [data[0]] + data[1..n] && DigitsIn(data[1..n], 32)
  {}

  lemma SpelledIsEncoded(data: seq<nat>, w: Witness, body: seq<nat>)
    requires SymbolsSpell(data, w) && body == [w.version] + Groups(w.program)
    ensures data == body + Checksum(body, Target(w.version))
  {
    var n := |data| - 6;
    HeadAndMiddle(data, n);
    assert body == data[..n] by {
      GroupsOfRegroup(data[1..n]);
    }
    ChecksumTail(data, body, data[n..], Target(w.version));
  }

  lemma EncodedIsSpelled(w: Witness, body: seq<nat>, whole: seq<nat>)
    requires Standard(w) && body == [w.version] + Groups(w.program)
    requires whole == body + Checksum(body, Target(w.version))
    ensures SymbolsSpell(whole, w)
  {
    ChecksumReachesTarget(body, Target(w.version));
    assert HRP + whole == HRP + body + Checksum(body, Target(w.version));
    assert whole[1..|whole| - 6] == Groups(w.program);
    RegroupOfGroups(w.program);
  }

  /** The checks of the decoder hold of exactly one symbol string for each witness program. */
  lemma SpellingIsEncoding(data: seq<nat>, w: Witness)
    requires Standard(w)
    ensures var body := [w.version] + Groups(w.program);
      SymbolsSpell(data, w) <==> data == body + Checksum(body, Target(w.version))
  {
    var body := [w.version] + Groups(w.program);
    if SymbolsSpell(data, w) {
      SpelledIsEncoded(data, w, body);
    }
    EncodedIsSpelled(w, body, body + Checksum(body, Target(w.version)));
  }

  /** The checks pass on a lower-case text exactly when it is the encoding of the program. */
  lemma TextIsEncoding(text: string, w: Witness)
    requires Standard(w)
    ensures text == Encode(w) <==> Checked(text, w)
  {
    CharsetDistinct();
    var body := [w.version] + Groups(w.program);
    var whole := body + Checksum(body, Target(w.version));
    IndicesOfSymbols(CHARSET, whole);
    assert Encode(w)[3..] == Symbols(CHARSET, whole);
    if |text| >= 3 && text[..3] == "bc1" && Over(CHARSET, text[3..]) {
      SpellingIsEncoding(Indices(CHARSET, text[3..]), w);
      SymbolsOfIndices(CHARSET, text[3..]);
      assert text == text[..3] + text[3..];
    }
  }

  // ---------- the decoder ----------

  lemma FeedOneMore(shifted: nat, high: nat, index: nat)
    requires index < 5
    ensures Xor(shifted, Feed(high, index + 1)) ==
      if Bit(high, index) then Xor(Xor(shifted, Feed(high, index)), GENERATORS[index]) else Xor(shifted, Feed(high, index))
  {
    XorAssoc(shifted, Feed(high, index), GENERATORS[index]);
  }

  method PolyMod(symbols: seq<nat>) returns (checksum: nat)
    ensures checksum == Poly(1, symbols)
  {
    checksum := 1;
    for k := 0 to |symbols|
      invariant checksum == Poly(1, symbols[..k])
    {
      assert symbols[..k + 1][..k] == symbols[..k];
      var high := checksum / LOW25;
      checksum := Xor((checksum % LOW25) * 32, symbols[k]);
      ghost var shifted := checksum;
      XorZero(shifted);
      for index := 0 to 5
        invariant checksum == Xor(shifted, Feed(high, index))
      {
        FeedOneMore(shifted, high, index);
        if Bit(high, index) {
          checksum := Xor(checksum, GENERATORS[index]);
        }
      }
    }
    assert symbols[..|symbols|] == symbols;
  }

  /** One more symbol in the accumulator moves `bits` on by five and leaves the bytes alone. */
  lemma AccumulatorStep(acc: nat, part: nat, bits: nat)
    requires part < 32
    ensures Pow(2, bits) > 0 && Pow(2, bits + 5) > 0
    ensures DivMod(acc * 32 + part, Pow(2, bits + 5)).0 == DivMod(acc, Pow(2, bits)).0
  {
    var b := Pow(2, bits);
    PowPositive(2, bits);
    PowPositive(2, bits + 5);
    PowAdd(2, 5, bits);
    PowerConstants();
    var (q, r) := DivMod(acc, b);
    var (q', r') := DivMod(acc * 32 + part, 32 * b);
    assert acc * 32 + part == (32 * b) * q + (32 * r + part) by {
      MulAssoc(32, b, q);
    }
    DivUnique(acc * 32 + part, 32 * b, q, 32 * r + part, q', r');
  }

  /** Splitting off eight more bits: the quotient by 2^bits ends in the new byte. */
  lemma ByteSplit(acc: nat, bits: nat)
    ensures Pow(2, bits) > 0 && Pow(2, bits + 8) > 0
    ensures DivMod(DivMod(acc, Pow(2, bits)).0, 256).0 == DivMod(acc, Pow(2, bits + 8)).0
  {
    var b := Pow(2, bits);
    PowPositive(2, bits);
    PowPositive(2, bits + 8);
    PowAdd(2, 8, bits);
    assert Pow(2, 8) == 256;
    var (q, r) := DivMod(acc, b);
    var (q2, r2) := DivMod(q, 256);
    var (q', r') := DivMod(acc, 256 * b);
    NestedSplit(acc, b, q, r, q2, r2);
    DivUnique(acc, 256 * b, q2, b * r2 + r, q', r');
  }

  lemma NestedSplit(acc: nat, b: nat, q: nat, r: nat, q2: nat, r2: nat)
    requires acc == b * q + r && r < b
    requires q == 256 * q2 + r2 && r2 < 256
    ensures acc == (256 * b) * q2 + (b * r2 + r)
    ensures 0 <= b * r2 + r < 256 * b
  {
    assert b * q == b * (256 * q2) + b * r2;
    assert b * (256 * q2) == (256 * b) * q2;
    MulStep(b, r2, 256);
  }

  lemma PaddingSplit(acc: nat, b: nat, c: nat, q: nat, r: nat)
    requires acc == b * q + r && c * b == 256
    ensures c * acc == 256 * q + c * r
  {
    assert c * acc == c * (b * q) + c * r;
    MulAssoc(c, b, q);
  }

  lemma PaddingRest(acc: nat, b: nat, c: nat, q: nat, r: nat)
    requires acc == b * q + r && c * b == 256 && c > 0 && r < b
    ensures c * acc % 256 == 0 <==> r == 0
  {
    PaddingSplit(acc, b, c, q, r);
    MulStep(c, r, b);
    DivModOfDigit(q, 256, c * r);
    DivModOperators(c * acc);
    if r > 0 { MulAtLeast(c, r); }
  }

  /** `(acc << (8 - bits)) & 255` is zero exactly when the `bits` low bits of `acc` are. */
  lemma PaddingTest(acc: nat, bits: nat)
    requires bits < 5
    ensures Pow(2, bits) > 0
    ensures (Shl(acc, 8 - bits) % 256 == 0) <==> DivMod(acc, Pow(2, bits)).1 == 0
  {
    PowPositive(2, bits);
    PowPositive(2, 8 - bits);
    var (q, r) := DivMod(acc, Pow(2, bits));
    ShlIsProduct(acc, 8 - bits);
    PowAdd(2, 8 - bits, bits);
    assert Pow(2, 8) == 256;
    PaddingRest(acc, Pow(2, bits), Pow(2, 8 - bits), q, r);
  }

  /** `(acc >> bits) & 255`. */
  function ByteAt(acc: nat, bits: nat): byte {
    PowPositive(2, bits);
    DivMod(acc, Pow(2, bits)).0 % 256
  }

  /** The bytes cut off the accumulator so far, when `bits` bits are still waiting in it. */
  ghost predicate Emitted(acc: nat, bits: nat, program: seq<byte>) {
    Pow(2, bits) > 0 && program == Fixed(256, DivMod(acc, Pow(2, bits)).0, |program|)
  }

  lemma EmitWaits(acc: nat, part: nat, bits: nat, program: seq<byte>)
    requires part < 32 && Emitted(acc, bits, program)
    ensures Emitted(acc * 32 + part, bits + 5, program)
  {
    AccumulatorStep(acc, part, bits);
  }

  lemma EmitByte(acc: nat, bits: nat, program: seq<byte>)
    requires Emitted(acc, bits + 8, program)
    ensures Emitted(acc, bits, program + [ByteAt(acc, bits)])
  {
    ByteSplit(acc, bits);
    DivModOperators(DivMod(acc, Pow(2, bits)).0);
  }

  lemma EmittedAtEnd(g: seq<nat>, bits: nat, program: seq<byte>)
    requires DigitsIn(g, 32) && bits < 8 && 5 * |g| == 8 * |program| + bits
    requires Emitted(Value(32, g), bits, program)
    ensures bits >= 5 ==> Regrouped(g).None?
    ensures bits < 5 && Shl(Value(32, g), 8 - bits) % 256 != 0 ==> Regrouped(g).None?
    ensures bits < 5 && Shl(Value(32, g), 8 - bits) % 256 == 0 ==> Regrouped(g) == Some(program)
  {
    assert bits == 5 * |g| % 8 && |program| == 5 * |g| / 8;
    if bits < 5 {
      PaddingTest(Value(32, g), bits);
    }
  }

  method Regroup(g: seq<nat>) returns (p: Option<seq<byte>>)
    requires DigitsIn(g, 32)
    ensures p == Regrouped(g)
  {
    var bits, accumulator := 0, 0;
    var program: seq<byte> := [];
    for k := 0 to |g|
      invariant accumulator == Value(32, g[..k])
      invariant 0 <= bits < 8 && 5 * k == 8 * |program| + bits
      invariant Emitted(accumulator, bits, program)
    {
      assert g[..k + 1] == g[..k] + [g[k]];
      ValueOfAppend(32, g[..k], g[k]);
      EmitWaits(accumulator, g[k], bits, program);
      accumulator := accumulator * 32 + g[k];
      bits := bits + 5;
      if bits >= 8 {
        bits := bits - 8;
        EmitByte(accumulator, bits, program);
        program := program + [ByteAt(accumulator, bits)];
      }
    }
    assert g[..|g|] == g;
    EmittedAtEnd(g, bits, program);
    if bits >= 5 || Shl(accumulator, 8 - bits) % 256 != 0 {
      return None;
    }
    return Some(program);
  }

  method Decode(py: TextMethods, address: string) returns (r: Option<Witness>)
    ensures forall w :: r == Some(w) <==> Accepts(py, address, w)
  {
    var value := py.strip(address);
    var text := py.lower(value);
    forall w | Standard(w) ensures text == Encode(w) <==> Checked(text, w) {
      TextIsEncoding(text, w);
    }
    if value == "" {
      return None;
    }
    if value != py.lower(value) && value != py.upper(value) {
      return None;
    }
    if !("bc1" <= text) || |text| > 90 {
      return None;
    }
    var data := LookUp(text[3..]);
    if data.None? {
      return None;
    }
    r := DecodeSymbols(data.value);
  }

  method LookUp(s: string) returns (data: Option<seq<nat>>)
    ensures data.Some? <==> Over(CHARSET, s)
    ensures data.Some? ==> data.value == Indices(CHARSET, s) && DigitsIn(data.value, 32)
  {
    CharsetDistinct();
    var found: seq<nat> := [];
    for k := 0 to |s|
      invariant Over(CHARSET, s[..k]) && found == Indices(CHARSET, s[..k])
    {
      var index := IndexIn(CHARSET, s[k]);
      if index.None? {
        return None;
      }
      IndicesExtend(CHARSET, s, k);
      found := found + [index.value];
    }
    assert s[..|s|] == s;
    return Some(found);
  }

  method DecodeSymbols(data: seq<nat>) returns (r: Option<Witness>)
    requires DigitsIn(data, 32)
    ensures forall w :: r == Some(w) <==> SymbolsSpell(data, w)
  {
    if |data| < 7 || data[0] > MAX_WITNESS_VERSION {
      return None;
    }
    var checksum := PolyMod(HRP + data);
    if checksum != Target(data[0]) {
      return None;
    }
    var program := Regroup(data[1..|data| - 6]);
    if program.None? {
      return None;
    }
    if !(2 <= |program.value| <= 40) {
      return None;
    }
    if data[0] == 0 && |program.value| != 20 && |program.value| != 32 {
      return None;
    }
    return Some(Witness(data[0], program.value));
  }

  // ---------- what follows for addresses ----------

  /** Canonicity: the checks pass on exactly one lower-case text for each witness program. */
  lemma OneSpelling(a: string, b: string, w: Witness)
    requires Checked(a, w) && Checked(b, w)
    ensures a == b
  {
    TextIsEncoding(a, w);
    TextIsEncoding(b, w);
  }

  /** Two different programs never share a spelling. */
  lemma EncodeInjective(v: Witness, w: Witness)
    requires Standard(v) && Standard(w) && Encode(v) == Encode(w)
    ensures v == w
  {
    TextIsEncoding(Encode(v), v);
    TextIsEncoding(Encode(v), w);
  }

  /** The characters after the prefix differ where the symbols do. */
  lemma SymbolsAgree(x: string, y: string, at: nat, from: nat)
    requires |x| == |y| && |x| >= 9 && Over(CHARSET, x[3..]) && Over(CHARSET, y[3..])
    requires forall i :: 3 <= i < |x| && !(at <= i < at + 6) ==> x[i] == y[i]
    requires from == if at < 3 then 0 else if at - 3 > |x| - 9 then |x| - 9 else at - 3
    ensures var d, e := Indices(CHARSET, x[3..]), Indices(CHARSET, y[3..]);
      |d| == |e| && forall i :: 0 <= i < |d| && !(from <= i < from + 6) ==> d[i] == e[i]
  {
    var d, e := Indices(CHARSET, x[3..]), Indices(CHARSET, y[3..]);
    forall i | 0 <= i < |d| && !(from <= i < from + 6) ensures d[i] == e[i] {
      assert x[3..][i] == x[i + 3] && y[3..][i] == y[i + 3];
    }
  }

  /**
   * Burst errors: accepted addresses of one length, both version 0 or both not, that differ only
   * inside a window of six consecutive characters after the prefix are equal.
   */
  lemma BurstDetected(py: TextMethods, a: string, v: Witness, b: string, w: Witness, at: nat)
    requires Accepts(py, a, v) && Accepts(py, b, w)
    requires v.version == 0 <==> w.version == 0
    requires var (x, y) := (py.lower(py.strip(a)), py.lower(py.strip(b)));
      |x| == |y| && forall i :: 3 <= i < |x| && !(at <= i < at + 6) ==> x[i] == y[i]
    ensures v == w && py.lower(py.strip(a)) == py.lower(py.strip(b))
  {
    var x, y := py.lower(py.strip(a)), py.lower(py.strip(b));
    TextIsEncoding(x, v);
    TextIsEncoding(y, w);
    CharsetDistinct();
    var d, e := Indices(CHARSET, x[3..]), Indices(CHARSET, y[3..]);
    var from := if at < 3 then 0 else if at - 3 > |x| - 9 then |x| - 9 else at - 3;
    SymbolsAgree(x, y, at, from);
    EqualUpToBurst(d, e, from);
    SymbolsOfIndices(CHARSET, x[3..]);
    SymbolsOfIndices(CHARSET, y[3..]);
    assert x == "bc1" + x[3..] && y == "bc1" + y[3..];
    EncodeInjective(v, w);
  }
}
