/** Reading back what was written: cutting byte strings and repeated records. */
module Framing {
  import opened Wrappers
  import opened Digits

  type bytes = seq<byte>

  const U16: nat := 0x1_0000
  const U32: nat := 0x1_0000_0000
  const U64: nat := 0x1_0000_0000_0000_0000

  lemma Widths()
    ensures Pow(256, 2) == U16 && Pow(256, 4) == U32 && Pow(256, 8) == U64
  {
    PowAdd(256, 2, 2);
    PowAdd(256, 4, 4);
  }

  /** Bitcoin's compact size; a value of 2^64 or more is an `OverflowError` in the source. */
  function Varint(n: nat): (s: bytes)
    requires n < U64
    ensures |s| == (if n < 0xFD then 1 else if n < U16 then 3 else if n < U32 then 5 else 9)
    ensures s[0] == 0 <==> n == 0
  {
    if n < 0xFD then [n]
    else if n < U16 then [0xFD] + LittleEndian(n, 2)
    else if n < U32 then [0xFE] + LittleEndian(n, 4)
    else [0xFF] + LittleEndian(n, 8)
  }

  function Cut(s: bytes, k: nat): Option<(bytes, bytes)> {
    if |s| < k then None else Some((s[..k], s[k..]))
  }

  function ReadNumber(s: bytes, k: nat): (r: Option<(nat, bytes)>)
    ensures r.Some? ==> |r.value.1| + k == |s|
  {
    var (head, rest) :- Cut(s, k);
    Some((FromLittleEndian(head), rest))
  }

  function ReadVarint(s: bytes): (r: Option<(nat, bytes)>)
    ensures r.Some? ==> |r.value.1| < |s|
  {
    if s == [] then None
    else if s[0] < 0xFD then Some((s[0], s[1..]))
    else ReadNumber(s[1..], if s[0] == 0xFD then 2 else if s[0] == 0xFE then 4 else 8)
  }

  /** A length-prefixed byte string. */
  function ReadString(s: bytes): (r: Option<(bytes, bytes)>)
    ensures r.Some? ==> |r.value.1| < |s|
  {
    var (n, rest) :- ReadVarint(s);
    Cut(rest, n)
  }

  lemma CutConcat(x: bytes, y: bytes)
    ensures Cut(x + y, |x|) == Some((x, y))
  {}

  lemma ReadWrittenNumber(n: nat, k: nat, rest: bytes)
    requires n < Pow(256, k)
    ensures ReadNumber(LittleEndian(n, k) + rest, k) == Some((n, rest))
  {
    CutConcat(LittleEndian(n, k), rest);
    LittleEndianRoundTrip(n, k);
  }

  lemma ReadWrittenLong(n: nat, k: nat, rest: bytes)
    requires 0xFD <= n < U64 && k == if n < U16 then 2 else if n < U32 then 4 else 8
    ensures ReadVarint(Varint(n) + rest) == Some((n, rest))
  {
    Widths();
    assert (Varint(n) + rest)[1..] == LittleEndian(n, k) + rest;
    ReadWrittenNumber(n, k, rest);
  }

  lemma ReadWrittenVarint(n: nat, rest: bytes)
    requires n < U64
    ensures ReadVarint(Varint(n) + rest) == Some((n, rest))
  {
    if n >= 0xFD {
      ReadWrittenLong(n, if n < U16 then 2 else if n < U32 then 4 else 8, rest);
    } else {
      assert (Varint(n) + rest)[1..] == rest;
    }
  }

  lemma ReadWrittenString(x: bytes, rest: bytes)
    requires |x| < U64
    ensures ReadString(Varint(|x|) + x + rest) == Some((x, rest))
  {
    assert Varint(|x|) + x + rest == Varint(|x|) + (x + rest);
    ReadWrittenVarint(|x|, x + rest);
    CutConcat(x, rest);
  }

  // ---------- repeated records ----------

  function Join(chunks: seq<bytes>): bytes {
    if chunks == [] then [] else Join(chunks[..|chunks| - 1]) + chunks[|chunks| - 1]
  }

  lemma JoinSnoc(chunks: seq<bytes>, chunk: bytes)
    ensures Join(chunks + [chunk]) == Join(chunks) + chunk
  {
    assert (chunks + [chunk])[..|chunks|] == chunks;
  }

  lemma JoinTake(chunks: seq<bytes>, k: nat)
    requires k < |chunks|
    ensures Join(chunks[..k + 1]) == Join(chunks[..k]) + chunks[k]
  {
    assert chunks[..k + 1] == chunks[..k] + [chunks[k]];
    JoinSnoc(chunks[..k], chunks[k]);
  }

  lemma {:induction false} JoinFront(chunks: seq<bytes>)
    requires chunks != []
    ensures Join(chunks) == chunks[0] + Join(chunks[1..])
  {
    var k := |chunks| - 1;
    if k > 0 {
      JoinFront(chunks[..k]);
      assert chunks[1..] == chunks[..k][1..] + [chunks[k]];
      JoinSnoc(chunks[..k][1..], chunks[k]);
    }
  }

  lemma {:induction false} JoinLength(chunks: seq<bytes>, size: nat)
    requires forall i :: 0 <= i < |chunks| ==> |chunks[i]| == size
    ensures |Join(chunks)| == size * |chunks|
  {
    if chunks != [] {
      JoinLength(chunks[..|chunks| - 1], size);
    }
  }

  function ReadMany<T>(read: bytes -> Option<(T, bytes)>, s: bytes, n: nat): Option<(seq<T>, bytes)> {
    if n == 0 then Some(([], s))
    else
      match ReadMany(read, s, n - 1)
      case None => None
      case Some((most, s1)) =>
        match read(s1)
        case None => None
        case Some((last, s2)) => Some((most + [last], s2))
  }

  /** If each chunk reads back as its item whatever follows, so does their concatenation. */
  lemma {:induction false} ReadWrittenMany<T>(read: bytes -> Option<(T, bytes)>, chunks: seq<bytes>,
                                              items: seq<T>, rest: bytes)
    requires |chunks| == |items|
    requires forall i, r :: 0 <= i < |chunks| ==> read(chunks[i] + r) == Some((items[i], r))
    ensures ReadMany(read, Join(chunks) + rest, |chunks|) == Some((items, rest))
  {
    if chunks == [] {
      assert Join(chunks) + rest == rest;
    } else {
      var k := |chunks| - 1;
      var last := chunks[k] + rest;
      assert Join(chunks) + rest == Join(chunks[..k]) + last;
      forall i, r | 0 <= i < k ensures read(chunks[..k][i] + r) == Some((items[..k][i], r)) {
        assert read(chunks[i] + r) == Some((items[i], r));
      }
      ReadWrittenMany(read, chunks[..k], items[..k], last);
      assert read(last) == Some((items[k], rest));
      assert items == items[..k] + [items[k]];
    }
  }
}
