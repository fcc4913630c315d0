/** Base58 and Base58Check (src/wallet_agent/domain/addresses.py). */
module Base58 {
  import opened Wrappers
  import opened Digits
  import opened Alphabets

  const ALPHABET: string := "123456789ABCDEFGHJKLMNPQRSTUVWXYZ" + "abcdefghijkmnopqrstuvwxyz"

  /** Character code of every symbol, which makes the 58 symbols pairwise distinct. */
  function CodeOf(i: nat): int {
    if i < 9 then 49 + i else if i < 17 then 56 + i else if i < 22 then 57 + i
    else if i < 33 then 58 + i else if i < 44 then 64 + i else 65 + i
  }

  lemma AlphabetCode(i: nat)
    requires i < 58
    ensures |ALPHABET| == 58 && ALPHABET[i] as int == CodeOf(i)
  {}

  lemma AlphabetDistinct()
    ensures |ALPHABET| == 58 && Distinct(ALPHABET)
  {
    forall i, j | 0 <= i < j < |ALPHABET| ensures ALPHABET[i] != ALPHABET[j] {
      AlphabetCode(i);
      AlphabetCode(j);
    }
  }

  ghost predicate InAlphabet(s: string) {
    Over(ALPHABET, s)
  }

  // ---------- conversion between bases, leading zeros kept one for one ----------

  function LeadingZeros(ds: seq<nat>): (k: nat)
    ensures k <= |ds| && ds[..k] == Zeros(k) && (k < |ds| ==> ds[k] != 0)
  {
    if ds == [] || ds[0] != 0 then 0
    else
      var k := LeadingZeros(ds[1..]);
      assert forall i :: 0 <= i < k ==> ds[i + 1] == ds[1..][..k][i];
      k + 1
  }

  function Convert(a: nat, b: nat, ds: seq<nat>): (r: seq<nat>)
    requires b > 1
    ensures DigitsIn(r, b)
  {
    Zeros(LeadingZeros(ds)) + Canonical(b, Value(a, ds))
  }

  lemma {:induction false} LeadingZerosUnique(k: nat, ds: seq<nat>)
    requires ds != [] ==> ds[0] != 0
    ensures LeadingZeros(Zeros(k) + ds) == k
  {
    if k > 0 {
      LeadingZerosUnique(k - 1, ds);
      assert (Zeros(k) + ds)[1..] == Zeros(k - 1) + ds;
    } else {
      assert Zeros(0) + ds == ds;
    }
  }

  /** Converting from base `a` to base `b` and back loses nothing, leading zeros included. */
  lemma ConvertBack(a: nat, b: nat, ds: seq<nat>)
    requires a > 1 && b > 1 && DigitsIn(ds, a)
    ensures Convert(b, a, Convert(a, b, ds)) == ds
  {
    var k := LeadingZeros(ds);
    var tail := ds[k..];
    assert ds == Zeros(k) + tail;
    ValueConcat(a, Zeros(k), tail);
    ValueOfZeros(a, k);
    var n := Value(a, tail);
    assert Value(a, ds) == n;
    CanonicalOfValue(a, tail);
    CanonicalValue(b, n);
    var r := Zeros(k) + Canonical(b, n);
    ValueConcat(b, Zeros(k), Canonical(b, n));
    ValueOfZeros(b, k);
    LeadingZerosUnique(k, Canonical(b, n));
  }

  // ---------- the decoder ----------

  /** What decoding means: `None` for a foreign character, otherwise the byte numeral. */
  ghost function Decoded(s: string): (r: Option<seq<byte>>)
    ensures r.Some? <==> InAlphabet(s)
  {
    if InAlphabet(s) then Some(Convert(58, 256, Indices(ALPHABET, s))) else None
  }

  /** The usual encoder, used only to state that the decoder is its inverse. */
  function Encoded(raw: seq<byte>): string {
    Symbols(ALPHABET, Convert(256, 58, raw))
  }

  /** Every byte string, leading zero bytes included, is the decoding of its encoding. */
  lemma DecodeOfEncode(raw: seq<byte>)
    ensures Decoded(Encoded(raw)) == Some(raw)
  {
    var ds := Convert(256, 58, raw);
    AlphabetDistinct();
    IndicesOfSymbols(ALPHABET, ds);
    ConvertBack(256, 58, raw);
  }

  /** Every string over the alphabet, leading '1's included, is the encoding of its decoding. */
  lemma EncodeOfDecode(s: string)
    requires InAlphabet(s)
    ensures Encoded(Decoded(s).value) == s
  {
    ConvertBack(58, 256, Indices(ALPHABET, s));
    SymbolsOfIndices(ALPHABET, s);
  }

  function LeadingOnes(s: string): (k: nat)
    ensures k <= |s|
  {
    if s == [] || s[0] != '1' then 0 else 1 + LeadingOnes(s[1..])
  }

  lemma {:induction false} LeadingOnesAreZeros(s: string)
    requires InAlphabet(s)
    ensures LeadingOnes(s) == LeadingZeros(Indices(ALPHABET, s))
  {
    if s != [] {
      AlphabetDistinct();
      assert ALPHABET[0] == '1';
      assert Indices(ALPHABET, s)[1..] == Indices(ALPHABET, s[1..]);
      LeadingOnesAreZeros(s[1..]);
    }
  }

  lemma DecodeStep(s: string, i: nat)
    requires i < |s| && InAlphabet(s[..i]) && IndexIn(ALPHABET, s[i]).Some?
    ensures InAlphabet(s[..i + 1])
    ensures Value(58, Indices(ALPHABET, s[..i + 1])) == Value(58, Indices(ALPHABET, s[..i])) * 58 + IndexIn(ALPHABET, s[i]).value
  {
    var d := IndexIn(ALPHABET, s[i]).value;
    IndicesExtend(ALPHABET, s, i);
    ValueOfAppend(58, Indices(ALPHABET, s[..i]), d);
  }

  method Decode(s: string) returns (r: Option<seq<byte>>)
    ensures r == Decoded(s)
  {
    var number := 0;
    var i := 0;
    while i < |s|
      invariant 0 <= i <= |s|
      invariant InAlphabet(s[..i])
      invariant number == Value(58, Indices(ALPHABET, s[..i]))
    {
      var index := IndexIn(ALPHABET, s[i]);
      if index.None? {
        return None;
      }
      DecodeStep(s, i);
      number := number * 58 + index.value;
      i := i + 1;
    }
    assert s[..|s|] == s;
    var raw := Minimal(number);
    LeadingOnesAreZeros(s);
    r := Some(Zeros(LeadingOnes(s)) + raw);
  }

  /** The bytes of a number, by its bit length: none for zero. */
  function Minimal(number: nat): (raw: seq<byte>)
    ensures raw == Canonical(256, number)
  {
    MinimalBytes(number);
    if number != 0 then Fixed(256, number, (BitLength(number) + 7) / 8) else []
  }

  // ---------- Base58Check ----------

  /** The checksum is a parameter: the first four bytes of a double SHA-256. */
  method CheckPayload(s: string, version: Option<byte>, checksum: seq<byte> -> seq<byte>)
    returns (r: Option<seq<byte>>)
    ensures forall p: seq<byte> :: r == Some(p) <==>
      (|p| == 21 && |checksum(p)| == 4 && (version.Some? ==> p[0] == version.value)
       && s == Encoded(p + checksum(p)))
  {
    forall p: seq<byte> | s == Encoded(p + checksum(p)) ensures Decoded(s) == Some(p + checksum(p)) {
      DecodeOfEncode(p + checksum(p));
    }
    var raw := Decode(s);
    if raw.None? || |raw.value| != 25 {
      return None;
    }
    EncodeOfDecode(s);
    var payload := raw.value[..21];
    assert raw.value == payload + raw.value[21..];
    assert forall p: seq<byte> | |p| == 21 && |checksum(p)| == 4 && raw.value == p + checksum(p) ::
        p == payload;
    if checksum(payload) != raw.value[21..] {
      return None;
    }
    if version.Some? && raw.value[0] != version.value {
      return None;
    }
    return Some(payload);
  }
}
