/** Head/tail ABI argument encoding (src/wallet_agent/abi.py), with a decoder. */
module Abi {
  import opened Wrappers
  import opened Digits
  import opened Framing

  const WORD: nat := 32

  /** Parsed type names. Sizes are unchecked here: the encoder refuses the bad ones. */
  datatype AbiType =
    | Uint(bits: int)
    | Int(bits: int)
    | Address
    | Bool
    | FixedBytes(size: int)
    | String
    | Bytes
    | Array(element: AbiType)

  /** Values after text conversion: integers, flags, byte strings and lists. */
  datatype AbiValue = Number(n: int) | Flag(b: bool) | Raw(data: bytes) | Items(items: seq<AbiValue>)

  predicate IsDynamic(t: AbiType) {
    t.String? || t.Bytes? || t.Array?
  }

  /** 2^256. */
  const MODULUS: nat := Pow(256, 32)

  /** `n.to_bytes(32, "big")`, an `OverflowError` outside the unsigned range. */
  function Word(n: int): (r: Option<bytes>)
    ensures r.Some? <==> 0 <= n < MODULUS
    ensures r.Some? ==> |r.value| == WORD
  {
    if 0 <= n < MODULUS then Some(Fixed(256, n, WORD)) else None
  }

  /** Two's complement of a 256-bit signed integer. */
  function SignedWord(n: int): (r: Option<bytes>)
    ensures r.Some? <==> -(MODULUS as int) <= 2 * n < MODULUS
    ensures r.Some? ==> |r.value| == WORD
  {
    if -(MODULUS as int) <= 2 * n < MODULUS then Word(if n < 0 then n + MODULUS else n) else None
  }

  function JustifyRight(s: bytes): bytes {
    if |s| < WORD then Zeros(WORD - |s|) + s else s
  }

  function JustifyLeft(s: bytes): bytes {
    if |s| < WORD then s + Zeros(WORD - |s|) else s
  }

  predicate ValidBits(bits: int) {
    0 < bits <= 256 && bits % 8 == 0
  }

  /** `_encode_static`; every raised error is `None`. */
  function EncodeStatic(t: AbiType, v: AbiValue): Option<bytes> {
    match (t, v)
    case (Uint(bits), Number(n)) => if ValidBits(bits) then Word(n) else None
    case (Int(bits), Number(n)) => if ValidBits(bits) then SignedWord(n) else None
    case (Address, Raw(data)) => Some(JustifyRight(data))
    case (Bool, Flag(b)) => Word(if b then 1 else 0)
    case (FixedBytes(size), Raw(data)) =>
      if 1 <= size <= 32 && |data| <= size then Some(JustifyLeft(data)) else None
    case _ => None
  }

  function PadRight(data: bytes): (r: bytes)
    ensures |r| % WORD == 0 && |data| <= |r| && r[..|data|] == data
  {
    var remainder := |data| % WORD;
    if remainder != 0 then data + Zeros(WORD - remainder) else data
  }

  function EncodeItems(t: AbiType, items: seq<AbiValue>): (r: Option<seq<bytes>>)
    ensures r.Some? ==> |r.value| == |items|
    ensures r.Some? ==> forall i :: 0 <= i < |items| ==> EncodeStatic(t, items[i]) == Some(r.value[i])
  {
    if items == [] then Some([])
    else
      var k := |items| - 1;
      match (EncodeItems(t, items[..k]), EncodeStatic(t, items[k]))
      case (Some(words), Some(word)) => Some(words + [word])
      case _ => None
  }

  /** `_encode_tail`. */
  function EncodeTail(t: AbiType, v: AbiValue): Option<bytes> {
    match (t, v)
    case (String, Raw(data)) => Sized(|data|, PadRight(data))
    case (Bytes, Raw(data)) => Sized(|data|, PadRight(data))
    case (Array(element), Items(items)) =>
      if IsDynamic(element) || EncodeItems(element, items).None? then None
      else Sized(|items|, Join(EncodeItems(element, items).value))
    case _ => None
  }

  function Sized(n: nat, body: bytes): (r: Option<bytes>) {
    match Word(n)
    case None => None
    case Some(word) => Some(word + body)
  }

  /** One argument: a static head word, or a dynamic tail. */
  datatype Slot = Head(word: bytes) | Tail(tail: bytes)

  function EncodeSlot(t: AbiType, v: AbiValue): (r: Option<Slot>)
    ensures r.Some? ==> (r.value.Tail? <==> IsDynamic(t))
  {
    if IsDynamic(t) then
      match EncodeTail(t, v)
      case None => None
      case Some(tail) => Some(Tail(tail))
    else
      match EncodeStatic(t, v)
      case None => None
      case Some(word) => Some(Head(word))
  }

  function TailOf(slot: Slot): bytes {
    if slot.Tail? then slot.tail else []
  }

  /** Number of bytes before the tail of argument `i`, by the formal specification. */
  function Offset(slots: seq<Slot>, i: nat): nat
    requires i <= |slots|
  {
    if i == 0 then WORD * |slots| else Offset(slots, i - 1) + |TailOf(slots[i - 1])|
  }

  function HeadOf(slots: seq<Slot>, i: nat): Option<bytes>
    requires i < |slots|
  {
    if slots[i].Tail? then Word(Offset(slots, i)) else Some(slots[i].word)
  }

  ghost predicate HeadsFit(slots: seq<Slot>, k: nat)
    requires k <= |slots|
  {
    forall i :: 0 <= i < k ==> HeadOf(slots, i).Some?
  }

  ghost function Heads(slots: seq<Slot>, k: nat): (r: seq<bytes>)
    requires k <= |slots| && HeadsFit(slots, k)
    ensures |r| == k && forall i :: 0 <= i < k ==> HeadOf(slots, i) == Some(r[i])
  {
    seq(k, i requires 0 <= i < k => HeadOf(slots, i).value)
  }

  function Tails(slots: seq<Slot>, k: nat): (r: seq<bytes>)
    requires k <= |slots|
    ensures |r| == k && forall i :: 0 <= i < k ==> r[i] == TailOf(slots[i])
  {
    seq(k, i requires 0 <= i < k => TailOf(slots[i]))
  }

  ghost predicate SlotsOf(types: seq<AbiType>, values: seq<AbiValue>, slots: seq<Slot>) {
    && |types| == |values| == |slots|
    && forall i :: 0 <= i < |slots| ==> EncodeSlot(types[i], values[i]) == Some(slots[i])
  }

  ghost predicate Encodes(types: seq<AbiType>, values: seq<AbiValue>, data: bytes) {
    exists slots :: SlotsOf(types, values, slots) && HeadsFit(slots, |slots|)
      && data == Join(Heads(slots, |slots|)) + Join(Tails(slots, |slots|))
  }

  method EncodeArguments(types: seq<AbiType>, values: seq<AbiValue>) returns (r: Option<bytes>)
    ensures r.Some? ==> Encodes(types, values, r.value)
    ensures r.None? ==> forall data :: !Encodes(types, values, data)
  {
    if |types| != |values| {
      return None;
    }
    var slots: seq<Slot> := [];
    for i := 0 to |types|
      invariant |slots| == i
      invariant forall j :: 0 <= j < i ==> EncodeSlot(types[j], values[j]) == Some(slots[j])
    {
      var slot := EncodeSlot(types[i], values[i]);
      if slot.None? {
        return None;
      }
      slots := slots + [slot.value];
    }
    var laid := LayOut(slots);
    forall other | SlotsOf(types, values, other) ensures other == slots {
      assert forall j :: 0 <= j < |slots| ==> Some(other[j]) == Some(slots[j]);
    }
    assert SlotsOf(types, values, slots);
    return laid;
  }

  method LayOut(slots: seq<Slot>) returns (r: Option<bytes>)
    ensures r.Some? <==> HeadsFit(slots, |slots|)
    ensures r.Some? ==> r.value == Join(Heads(slots, |slots|)) + Join(Tails(slots, |slots|))
  {
    var cursor := WORD * |slots|;
    var head: bytes := [];
    var tails: bytes := [];
    for i := 0 to |slots|
      invariant cursor == Offset(slots, i) && HeadsFit(slots, i)
      invariant head == Join(Heads(slots, i)) && tails == Join(Tails(slots, i))
    {
      TailsStep(slots, i);
      match slots[i] {
        case Tail(tail) =>
          var word := Word(cursor);
          assert HeadOf(slots, i) == word;
          if word.None? {
            return None;
          }
          HeadsStep(slots, i, word.value);
          head := head + word.value;
          cursor := cursor + |tail|;
          tails := tails + tail;
        case Head(word) =>
          HeadsStep(slots, i, word);
          head := head + word;
      }
    }
    return Some(head + tails);
  }

  lemma TailsStep(slots: seq<Slot>, i: nat)
    requires i < |slots|
    ensures Join(Tails(slots, i + 1)) == Join(Tails(slots, i)) + TailOf(slots[i])
    ensures slots[i].Head? ==> Join(Tails(slots, i + 1)) == Join(Tails(slots, i))
  {
    assert Tails(slots, i + 1) == Tails(slots, i) + [TailOf(slots[i])];
    JoinSnoc(Tails(slots, i), TailOf(slots[i]));
  }

  lemma HeadsStep(slots: seq<Slot>, i: nat, word: bytes)
    requires i < |slots| && HeadsFit(slots, i) && HeadOf(slots, i) == Some(word)
    ensures HeadsFit(slots, i + 1) && Join(Heads(slots, i + 1)) == Join(Heads(slots, i)) + word
  {
    assert Heads(slots, i + 1) == Heads(slots, i) + [word];
    JoinSnoc(Heads(slots, i), word);
  }

  // ---------- the decoder ----------

  function WordAt(data: bytes, at: nat): Option<bytes> {
    if at + WORD <= |data| then Some(data[at..at + WORD]) else None
  }

  function NumberAt(data: bytes, at: nat): Option<nat> {
    match WordAt(data, at)
    case None => None
    case Some(word) => Some(Value(256, word))
  }

  predicate FitsUnsigned(bits: int, n: int) {
    bits > 0 && 0 <= n < Pow(2, bits)
  }

  predicate FitsSigned(bits: int, n: int) {
    bits > 0 && -(Pow(2, bits) as int) <= 2 * n < Pow(2, bits)
  }

  function Signed(n: nat): int {
    if 2 * n < MODULUS then n else n - MODULUS
  }

  /** Reads one word; an integer that its type is too narrow for is refused. */
  function DecodeStatic(t: AbiType, word: bytes): Option<AbiValue>
    requires |word| == WORD
  {
    var n := Value(256, word);
    match t
    case Uint(bits) => if FitsUnsigned(bits, n) then Some(Number(n)) else None
    case Int(bits) => if FitsSigned(bits, Signed(n)) then Some(Number(Signed(n))) else None
    case Bool => Some(Flag(n != 0))
    case Address => Some(Raw(word[12..]))
    case FixedBytes(size) => Some(Raw(if 0 <= size <= 32 then word[..size] else word))
    case _ => Some(Raw(word))
  }

  function DecodeTail(t: AbiType, data: bytes, at: nat): Option<AbiValue> {
    match NumberAt(data, at)
    case None => None
    case Some(n) =>
      var body := at + WORD;
      if t.Array? then
        if body + WORD * n <= |data| then
          match ItemsAt(t.element, data, body, n)
          case None => None
          case Some(items) => Some(Items(items))
        else None
      else if body + n <= |data| then Some(Raw(data[body..body + n])) else None
  }

  function ItemsAt(t: AbiType, data: bytes, body: nat, n: nat): (items: Option<seq<AbiValue>>)
    requires body + WORD * n <= |data|
    ensures items.Some? ==>
      |items.value| == n && forall i :: 0 <= i < n ==> ItemAt(t, data, body, i) == Some(items.value[i])
  {
    if n == 0 then Some([])
    else
      match (ItemsAt(t, data, body, n - 1), ItemAt(t, data, body, n - 1))
      case (Some(items), Some(item)) => Some(items + [item])
      case _ => None
  }

  function ItemAt(t: AbiType, data: bytes, body: nat, i: nat): Option<AbiValue>
    requires body + WORD * i + WORD <= |data|
  {
    DecodeStatic(t, data[body + WORD * i..body + WORD * i + WORD])
  }

  function DecodeArgument(t: AbiType, data: bytes, i: nat): Option<AbiValue> {
    match WordAt(data, WORD * i)
    case None => None
    case Some(word) =>
      if IsDynamic(t) then DecodeTail(t, data, Value(256, word)) else DecodeStatic(t, word)
  }

  // ---------- the decoder inverts the encoder ----------

  /** Values a type can carry without loss: integers of its width, 20-byte addresses, full-width byte strings. */
  predicate InRange(t: AbiType, v: AbiValue) {
    match (t, v)
    case (Uint(bits), Number(n)) => FitsUnsigned(bits, n)
    case (Int(bits), Number(n)) => FitsSigned(bits, n)
    case (Address, Raw(data)) => |data| == 20
    case (FixedBytes(size), Raw(data)) => |data| == size
    case (Array(element), Items(items)) =>
      forall i :: 0 <= i < |items| ==> !element.Array? && InRange(element, items[i])
    case _ => true
  }

  lemma ReadWord(n: int)
    requires 0 <= n < MODULUS
    ensures Value(256, Word(n).value) == n
  {
    ValueOfFixed(256, n, WORD);
  }

  /** A static word has 32 bytes and decodes to its value; a longer address breaks the first part. */
  lemma StaticRoundTrip(t: AbiType, v: AbiValue)
    requires EncodeStatic(t, v).Some? && InRange(t, v)
    ensures |EncodeStatic(t, v).value| == WORD
    ensures DecodeStatic(t, EncodeStatic(t, v).value) == Some(v)
  {
    assert MODULUS > 2 by { PowMonotone(256, 1, 32); assert Pow(256, 1) == 256; }
    match (t, v)
    case (Uint(_), Number(n)) => ReadWord(n);
    case (Int(_), Number(n)) => ReadWord(if n < 0 then n + MODULUS else n);
    case (Bool, Flag(b)) => ReadWord(if b then 1 else 0);
    case (Address, Raw(data)) => assert JustifyRight(data)[12..] == data;
    case (FixedBytes(size), Raw(data)) => assert JustifyLeft(data)[..size] == data;
  }

  /**
   * An encodable static value survives exactly when it is in range: an integer wider than its type, an
   * address longer than 20 bytes (shorter hexadecimal text is zero-filled before it gets here), or a
   * byte string shorter than its type, is encoded but does not read back.
   */
  lemma StaticExactly(t: AbiType, v: AbiValue)
    requires EncodeStatic(t, v).Some?
    ensures var word := EncodeStatic(t, v).value;
      |word| == WORD && DecodeStatic(t, word) == Some(v) <==> InRange(t, v)
    ensures t == Address ==> (|EncodeStatic(t, v).value| == WORD <==> |v.data| <= WORD)
  {
    if InRange(t, v) {
      StaticRoundTrip(t, v);
    } else {
      var word := EncodeStatic(t, v).value;
      if |word| == WORD && DecodeStatic(t, word) == Some(v) {
        StaticInRange(t, word);
      }
    }
  }

  /** 256 is encoded as an 8-bit integer, and the word is refused by a decoder. */
  lemma WideInteger()
    ensures var word := EncodeStatic(Uint(8), Number(256));
      word.Some? && |word.value| == WORD && DecodeStatic(Uint(8), word.value).None?
  {
    PowMonotone(256, 2, 32);
    assert Pow(256, 2) == 65536 && Pow(2, 8) == 256;
    ReadWord(256);
  }

  /** An address of 21 bytes is encoded into one word and loses its first byte. */
  lemma LongAddress(first: byte, rest: bytes)
    requires |rest| == 20
    ensures var word := EncodeStatic(Address, Raw([first] + rest));
      word.Some? && |word.value| == WORD && DecodeStatic(Address, word.value) == Some(Raw(rest))
  {
    var word := JustifyRight([first] + rest);
    assert word == Zeros(11) + [first] + rest;
    assert word[12..] == rest;
  }

  lemma {:induction false} JoinedChunkAt(chunks: seq<bytes>, i: nat)
    requires i < |chunks|
    ensures |Join(chunks[..i])| + |chunks[i]| <= |Join(chunks)|
    ensures Join(chunks)[|Join(chunks[..i])|..|Join(chunks[..i])| + |chunks[i]|] == chunks[i]
  {
    var k := |chunks| - 1;
    if i < k {
      JoinedChunkAt(chunks[..k], i);
      assert chunks[..k][..i] == chunks[..i];
    }
  }

  lemma {:induction false} OffsetIsLength(slots: seq<Slot>, i: nat)
    requires i <= |slots|
    ensures Offset(slots, i) == WORD * |slots| + |Join(Tails(slots, |slots|)[..i])|
  {
    var all := Tails(slots, |slots|);
    if i > 0 {
      OffsetIsLength(slots, i - 1);
      JoinTake(all, i - 1);
    } else {
      assert all[..0] == [];
    }
  }

  /** `tail` lies in `data` from byte `at` on. */
  ghost predicate Placed(data: bytes, at: nat, tail: bytes) {
    at + |tail| <= |data| && data[at..at + |tail|] == tail
  }

  lemma PlacedPart(data: bytes, at: nat, tail: bytes, from: nat, to: nat)
    requires Placed(data, at, tail) && from <= to <= |tail|
    ensures at + to <= |data| && data[at + from..at + to] == tail[from..to]
  {
    forall i | 0 <= i < to - from ensures data[at + from..at + to][i] == tail[from..to][i] {
      assert data[at..at + |tail|][from + i] == data[at + from + i];
    }
  }

  lemma PlacedNumber(data: bytes, at: nat, n: nat, body: bytes)
    requires n < MODULUS && Placed(data, at, Word(n).value + body)
    ensures NumberAt(data, at) == Some(n) && Placed(data, at + WORD, body)
  {
    var tail := Word(n).value + body;
    ReadWord(n);
    PlacedPart(data, at, tail, 0, WORD);
    assert tail[..WORD] == Word(n).value;
    PlacedPart(data, at, tail, WORD, |tail|);
    assert tail[WORD..] == body;
  }

  lemma WordOfJoin(words: seq<bytes>, i: nat)
    requires i < |words| && forall j :: 0 <= j < |words| ==> |words[j]| == WORD
    ensures |Join(words)| == WORD * |words| && Join(words)[WORD * i..WORD * i + WORD] == words[i]
  {
    JoinLength(words, WORD);
    JoinLength(words[..i], WORD);
    JoinedChunkAt(words, i);
  }

  lemma PlacedItem(t: AbiType, words: seq<bytes>, data: bytes, body: nat, i: nat)
    requires i < |words| && forall j :: 0 <= j < |words| ==> |words[j]| == WORD
    requires Placed(data, body, Join(words))
    ensures body + WORD * |words| <= |data|
    ensures ItemAt(t, data, body, i) == DecodeStatic(t, words[i])
  {
    WordOfJoin(words, i);
    PlacedPart(data, body, Join(words), WORD * i, WORD * i + WORD);
  }

  lemma ItemWords(t: AbiType, items: seq<AbiValue>, words: seq<bytes>)
    requires EncodeItems(t, items) == Some(words)
    requires forall i :: 0 <= i < |items| ==> InRange(t, items[i])
    ensures |words| == |items|
    ensures forall i :: 0 <= i < |items| ==> |words[i]| == WORD && DecodeStatic(t, words[i]) == Some(items[i])
  {
    forall i | 0 <= i < |items| ensures |words[i]| == WORD && DecodeStatic(t, words[i]) == Some(items[i]) {
      StaticRoundTrip(t, items[i]);
    }
  }

  lemma {:induction false} ItemsRead(t: AbiType, items: seq<AbiValue>, data: bytes, body: nat, n: nat)
    requires body + WORD * n <= |data| && n <= |items|
    requires forall i :: 0 <= i < n ==> ItemAt(t, data, body, i) == Some(items[i])
    ensures ItemsAt(t, data, body, n) == Some(items[..n])
  {
    if n > 0 {
      ItemsRead(t, items, data, body, n - 1);
      assert items[..n] == items[..n - 1] + [items[n - 1]];
    }
  }

  lemma ItemsDecode(t: AbiType, items: seq<AbiValue>, words: seq<bytes>, data: bytes, at: nat)
    requires |words| == |items| < MODULUS
    requires forall i :: 0 <= i < |items| ==> |words[i]| == WORD && DecodeStatic(t, words[i]) == Some(items[i])
    requires Placed(data, at, Word(|items|).value + Join(words))
    ensures DecodeTail(Array(t), data, at) == Some(Items(items))
  {
    var n := |items|;
    JoinLength(words, WORD);
    PlacedNumber(data, at, n, Join(words));
    forall i | 0 <= i < n ensures ItemAt(t, data, at + WORD, i) == Some(items[i]) {
      PlacedItem(t, words, data, at + WORD, i);
    }
    ItemsRead(t, items, data, at + WORD, n);
    assert items[..n] == items;
  }

  lemma ItemsRoundTrip(t: AbiType, items: seq<AbiValue>, words: seq<bytes>, data: bytes, at: nat)
    requires EncodeItems(t, items) == Some(words) && |items| < MODULUS
    requires forall i :: 0 <= i < |items| ==> InRange(t, items[i])
    requires Placed(data, at, Word(|items|).value + Join(words))
    ensures DecodeTail(Array(t), data, at) == Some(Items(items))
    ensures |Word(|items|).value + Join(words)| % WORD == 0
  {
    ItemWords(t, items, words);
    ItemsDecode(t, items, words, data, at);
    CountedLength(|items|, words);
  }

  lemma CountedLength(n: nat, words: seq<bytes>)
    requires n < MODULUS && forall i :: 0 <= i < |words| ==> |words[i]| == WORD
    ensures |Word(n).value + Join(words)| % WORD == 0
  {
    JoinLength(words, WORD);
  }

  /** A dynamic tail is whole words long and decodes wherever it is placed. */
  lemma TailRoundTrip(t: AbiType, v: AbiValue, tail: bytes, data: bytes, at: nat)
    requires IsDynamic(t) && EncodeTail(t, v) == Some(tail) && InRange(t, v)
    requires Placed(data, at, tail)
    ensures |tail| % WORD == 0
    ensures DecodeTail(t, data, at) == Some(v)
  {
    if t.Array? {
      var words := TailOfArray(t.element, v.items, tail);
      ItemsRoundTrip(t.element, v.items, words, data, at);
    } else {
      BlobRoundTrip(t, v.data, data, at, PadRight(v.data));
    }
  }

  lemma TailOfArray(element: AbiType, items: seq<AbiValue>, tail: bytes) returns (words: seq<bytes>)
    requires EncodeTail(Array(element), Items(items)) == Some(tail)
    ensures EncodeItems(element, items) == Some(words) && |items| < MODULUS
    ensures tail == Word(|items|).value + Join(words)
  {
    words := EncodeItems(element, items).value;
  }

  lemma BlobRead(t: AbiType, blob: bytes, data: bytes, at: nat)
    requires !t.Array? && NumberAt(data, at) == Some(|blob|) && Placed(data, at + WORD, blob)
    ensures DecodeTail(t, data, at) == Some(Raw(blob))
  {}

  lemma {:induction false} BlobRoundTrip(t: AbiType, blob: bytes, data: bytes, at: nat, padded: bytes)
    requires !t.Array? && |blob| < MODULUS && padded == PadRight(blob)
    requires Placed(data, at, Word(|blob|).value + padded)
    ensures DecodeTail(t, data, at) == Some(Raw(blob))
  {
    PlacedNumber(data, at, |blob|, padded);
    PlacedPart(data, at + WORD, padded, 0, |blob|);
    BlobRead(t, blob, data, at);
  }

  lemma {:induction false} JoinedWords(chunks: seq<bytes>)
    requires forall i :: 0 <= i < |chunks| ==> |chunks[i]| % WORD == 0
    ensures |Join(chunks)| % WORD == 0
  {
    if chunks != [] { JoinedWords(chunks[..|chunks| - 1]); }
  }

  ghost predicate AllInRange(types: seq<AbiType>, values: seq<AbiValue>) {
    |types| == |values| && forall i :: 0 <= i < |types| ==> InRange(types[i], values[i])
  }

  lemma HeadIsWord(types: seq<AbiType>, values: seq<AbiValue>, slots: seq<Slot>, i: nat)
    requires SlotsOf(types, values, slots) && AllInRange(types, values) && HeadsFit(slots, |slots|)
    requires i < |slots|
    ensures |Heads(slots, |slots|)[i]| == WORD
    ensures |Tails(slots, |slots|)[i]| % WORD == 0
  {
    assert EncodeSlot(types[i], values[i]) == Some(slots[i]);
    assert HeadOf(slots, i) == Some(Heads(slots, |slots|)[i]);
    if IsDynamic(types[i]) {
      var tail := EncodeTail(types[i], values[i]).value;
      TailRoundTrip(types[i], values[i], tail, tail, 0);
    } else {
      StaticRoundTrip(types[i], values[i]);
    }
  }

  /** Argument `i` decodes, and a dynamic one lies at the byte offset its head word holds. */
  ghost predicate Recovered(t: AbiType, v: AbiValue, data: bytes, i: nat) {
    && DecodeArgument(t, data, i) == Some(v)
    && (IsDynamic(t) ==>
          EncodeTail(t, v).Some? && NumberAt(data, WORD * i).Some?
          && Placed(data, NumberAt(data, WORD * i).value, EncodeTail(t, v).value))
  }

  /**
   * Round trip of a whole argument list: the encoding is whole words long, the head word of every
   * dynamic argument is the byte offset of its tail, and the decoder recovers every value.
   */
  lemma ArgumentsRoundTrip(types: seq<AbiType>, values: seq<AbiValue>, data: bytes)
    requires Encodes(types, values, data) && AllInRange(types, values)
    ensures |data| % WORD == 0
    ensures forall i :: 0 <= i < |types| ==> Recovered(types[i], values[i], data, i)
  {
    var slots: seq<Slot> :| SlotsOf(types, values, slots) && HeadsFit(slots, |slots|)
      && data == Join(Heads(slots, |slots|)) + Join(Tails(slots, |slots|));
    WholeWords(types, values, slots);
    forall i | 0 <= i < |types| ensures Recovered(types[i], values[i], data, i) {
      Layout(slots, Heads(slots, |slots|), data, i);
      SlotDecodes(types[i], values[i], slots, data, i);
    }
  }

  lemma StaticInRange(t: AbiType, word: bytes)
    requires |word| == WORD && !IsDynamic(t) && (t.FixedBytes? ==> 0 <= t.size <= 32)
    ensures DecodeStatic(t, word).Some? ==> InRange(t, DecodeStatic(t, word).value)
  {}

  /** The decoder returns nothing out of range for a type that can be encoded. */
  lemma DecodedInRange(t: AbiType, v: AbiValue, data: bytes, i: nat)
    requires EncodeSlot(t, v).Some? && DecodeArgument(t, data, i) == Some(v)
    ensures InRange(t, v)
  {
    if t.Array? {
      ArrayInRange(t.element, v, data, Value(256, WordAt(data, WORD * i).value));
    } else if !IsDynamic(t) {
      StaticInRange(t, WordAt(data, WORD * i).value);
    }
  }

  lemma ArrayInRange(element: AbiType, v: AbiValue, data: bytes, at: nat)
    requires EncodeTail(Array(element), v).Some? && DecodeTail(Array(element), data, at) == Some(v)
    ensures InRange(Array(element), v)
  {
    forall i | 0 <= i < |v.items| ensures !element.Array? && InRange(element, v.items[i]) {
      var from := at + WORD + WORD * i;
      assert EncodeStatic(element, v.items[i]).Some?;
      assert ItemAt(element, data, at + WORD, i) == Some(v.items[i]);
      StaticInRange(element, data[from..from + WORD]);
    }
  }

  /** An encoded argument list reads back if and only if every value is in range for its type. */
  lemma ArgumentsExactly(types: seq<AbiType>, values: seq<AbiValue>, data: bytes)
    requires Encodes(types, values, data)
    ensures (forall i :: 0 <= i < |types| ==> Recovered(types[i], values[i], data, i)) <==> AllInRange(types, values)
  {
    if AllInRange(types, values) {
      ArgumentsRoundTrip(types, values, data);
    } else if forall i :: 0 <= i < |types| ==> Recovered(types[i], values[i], data, i) {
      var slots: seq<Slot> :| SlotsOf(types, values, slots) && HeadsFit(slots, |slots|);
      forall i | 0 <= i < |types| ensures InRange(types[i], values[i]) {
        assert EncodeSlot(types[i], values[i]) == Some(slots[i]);
        DecodedInRange(types[i], values[i], data, i);
      }
    }
  }

  lemma HeadLies(slots: seq<Slot>, heads: seq<bytes>, data: bytes, i: nat)
    requires i < |slots| && HeadsFit(slots, |slots|) && heads == Heads(slots, |slots|)
    requires forall j :: 0 <= j < |slots| ==> |heads[j]| == WORD
    requires data == Join(heads) + Join(Tails(slots, |slots|))
    ensures HeadOf(slots, i).Some? && WordAt(data, WORD * i) == HeadOf(slots, i)
  {
    HeadPlaced(heads, Join(Tails(slots, |slots|)), i);
  }

  lemma {:induction false} TailLies(slots: seq<Slot>, front: bytes, data: bytes, i: nat)
    requires i < |slots| && |front| == WORD * |slots| && data == front + Join(Tails(slots, |slots|))
    ensures Placed(data, Offset(slots, i), TailOf(slots[i]))
  {
    TailPlaced(front, Tails(slots, |slots|), i);
    OffsetIsLength(slots, i);
  }

  /** Where the parts of an argument lie when every head is one word. */
  lemma {:induction false} Layout(slots: seq<Slot>, heads: seq<bytes>, data: bytes, i: nat)
    requires i < |slots| && HeadsFit(slots, |slots|) && heads == Heads(slots, |slots|)
    requires forall j :: 0 <= j < |slots| ==> |heads[j]| == WORD
    requires |Join(heads)| == WORD * |slots| && data == Join(heads) + Join(Tails(slots, |slots|))
    ensures HeadOf(slots, i).Some? && WordAt(data, WORD * i) == HeadOf(slots, i)
    ensures Placed(data, Offset(slots, i), TailOf(slots[i]))
  {
    HeadLies(slots, heads, data, i);
    TailLies(slots, Join(heads), data, i);
  }

  lemma WholeWords(types: seq<AbiType>, values: seq<AbiValue>, slots: seq<Slot>)
    requires SlotsOf(types, values, slots) && AllInRange(types, values) && HeadsFit(slots, |slots|)
    ensures forall j :: 0 <= j < |slots| ==> |Heads(slots, |slots|)[j]| == WORD
    ensures |Join(Heads(slots, |slots|))| == WORD * |slots|
    ensures |Join(Heads(slots, |slots|)) + Join(Tails(slots, |slots|))| % WORD == 0
  {
    forall j | 0 <= j < |slots|
      ensures |Heads(slots, |slots|)[j]| == WORD && |Tails(slots, |slots|)[j]| % WORD == 0 {
      HeadIsWord(types, values, slots, j);
    }
    JoinLength(Heads(slots, |slots|), WORD);
    JoinedWords(Tails(slots, |slots|));
  }

  lemma SlotDecodes(t: AbiType, v: AbiValue, slots: seq<Slot>, data: bytes, i: nat)
    requires i < |slots| && EncodeSlot(t, v) == Some(slots[i]) && InRange(t, v)
    requires HeadOf(slots, i).Some? && WordAt(data, WORD * i) == HeadOf(slots, i)
    requires Placed(data, Offset(slots, i), TailOf(slots[i]))
    ensures Recovered(t, v, data, i)
  {
    if IsDynamic(t) {
      ReadWord(Offset(slots, i));
      TailRoundTrip(t, v, slots[i].tail, data, Offset(slots, i));
    } else {
      StaticRoundTrip(t, v);
    }
  }

  lemma HeadPlaced(heads: seq<bytes>, rest: bytes, i: nat)
    requires i < |heads| && forall j :: 0 <= j < |heads| ==> |heads[j]| == WORD
    ensures WordAt(Join(heads) + rest, WORD * i) == Some(heads[i])
  {
    WordOfJoin(heads, i);
    var from := WORD * i;
    assert (Join(heads) + rest)[from..from + WORD] == Join(heads)[from..from + WORD];
  }

  lemma TailPlaced(before: bytes, tails: seq<bytes>, i: nat)
    requires i < |tails|
    ensures Placed(before + Join(tails), |before| + |Join(tails[..i])|, tails[i])
  {
    JoinedChunkAt(tails, i);
    var from, at := |Join(tails[..i])|, |before| + |Join(tails[..i])|;
    assert (before + Join(tails))[at..at + |tails[i]|] == Join(tails)[from..from + |tails[i]|];
  }
}
