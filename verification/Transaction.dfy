/** Legacy transaction serialisation of src/wallet_agent/chains/btc.py, with a parser. */
module Transaction {
  import opened Wrappers
  import opened Digits
  import opened Framing

  const DEFAULT_SEQUENCE: int := 0xFFFFFFFF

  /** `txid` is the decoded hexadecimal id in display order. */
  datatype TxIn = TxIn(txid: bytes, vout: int)
  datatype TxOut = TxOut(script: bytes, amount: int)

  // ---------- writing ----------

  function Reversed(s: bytes): (r: bytes)
    ensures |r| == |s| && forall i :: 0 <= i < |s| ==> r[i] == s[|s| - 1 - i]
  {
    seq(|s|, i requires 0 <= i < |s| => s[|s| - 1 - i])
  }

  lemma ReversedTwice(s: bytes)
    ensures Reversed(Reversed(s)) == s
  {}

  predicate InFits(input: TxIn) {
    0 <= input.vout < U32
  }

  predicate OutFits(output: TxOut) {
    0 <= output.amount < U64 && |output.script| < U64
  }

  /** Exactly the arguments for which no `to_bytes` call overflows. */
  predicate Encodable(inputs: seq<TxIn>, outputs: seq<TxOut>, sequence: int) {
    && 0 <= sequence < U32
    && |inputs| < U64 && |outputs| < U64
    && (forall i :: 0 <= i < |inputs| ==> InFits(inputs[i]))
    && (forall i :: 0 <= i < |outputs| ==> OutFits(outputs[i]))
  }

  function InBytes(input: TxIn, sequence: nat): (s: bytes)
    requires InFits(input) && sequence < U32
    ensures |s| == |input.txid| + 9
  {
    Reversed(input.txid) + LittleEndian(input.vout, 4) + [0] + LittleEndian(sequence, 4)
  }

  function OutBytes(output: TxOut): (s: bytes)
    requires OutFits(output)
    ensures |s| == 8 + |Varint(|output.script|)| + |output.script|
  {
    LittleEndian(output.amount, 8) + Varint(|output.script|) + output.script
  }

  function InChunks(inputs: seq<TxIn>, sequence: nat): (r: seq<bytes>)
    requires sequence < U32 && forall i :: 0 <= i < |inputs| ==> InFits(inputs[i])
    ensures |r| == |inputs| && forall i :: 0 <= i < |r| ==> r[i] == InBytes(inputs[i], sequence)
  {
    seq(|inputs|, i requires 0 <= i < |inputs| => InBytes(inputs[i], sequence))
  }

  function OutChunks(outputs: seq<TxOut>): (r: seq<bytes>)
    requires forall i :: 0 <= i < |outputs| ==> OutFits(outputs[i])
    ensures |r| == |outputs| && forall i :: 0 <= i < |r| ==> r[i] == OutBytes(outputs[i])
  {
    seq(|outputs|, i requires 0 <= i < |outputs| => OutBytes(outputs[i]))
  }

  function TxBytes(inputs: seq<TxIn>, outputs: seq<TxOut>, sequence: int): bytes
    requires Encodable(inputs, outputs, sequence)
  {
    LittleEndian(2, 4) + Varint(|inputs|) + Join(InChunks(inputs, sequence))
    + Varint(|outputs|) + Join(OutChunks(outputs)) + [0, 0, 0, 0]
  }

  method Serialize(inputs: seq<TxIn>, outputs: seq<TxOut>, sequence: Option<int>) returns (r: Option<bytes>)
    requires |inputs| < U64 && |outputs| < U64
    requires forall i :: 0 <= i < |outputs| ==> |outputs[i].script| < U64
    ensures var n := if sequence.None? then DEFAULT_SEQUENCE else sequence.value;
      if Encodable(inputs, outputs, n) then r == Some(TxBytes(inputs, outputs, n)) else r == None
  {
    var n := if sequence.None? then DEFAULT_SEQUENCE else sequence.value;
    if !(0 <= n < U32) {
      return None;
    }
    var head := AppendInputs(LittleEndian(2, 4) + Varint(|inputs|), inputs, n);
    if head.None? {
      return None;
    }
    var body := AppendOutputs(head.value + Varint(|outputs|), outputs);
    if body.None? {
      return None;
    }
    r := Some(body.value + [0, 0, 0, 0]);
  }

  lemma OneMoreInput(inputs: seq<TxIn>, sequence: nat, k: nat, start: bytes)
    requires k < |inputs| && sequence < U32 && forall i :: 0 <= i <= k ==> InFits(inputs[i])
    ensures start + Join(InChunks(inputs[..k + 1], sequence))
      == start + Join(InChunks(inputs[..k], sequence)) + InBytes(inputs[k], sequence)
  {
    var before, entry := InChunks(inputs[..k], sequence), InBytes(inputs[k], sequence);
    assert InChunks(inputs[..k + 1], sequence) == before + [entry];
    JoinSnoc(before, entry);
    AppendAssoc(start, Join(before), entry);
  }

  lemma OneMoreOutput(outputs: seq<TxOut>, k: nat, start: bytes)
    requires k < |outputs| && forall i :: 0 <= i <= k ==> OutFits(outputs[i])
    ensures start + Join(OutChunks(outputs[..k + 1])) == start + Join(OutChunks(outputs[..k])) + OutBytes(outputs[k])
  {
    var before, entry := OutChunks(outputs[..k]), OutBytes(outputs[k]);
    assert OutChunks(outputs[..k + 1]) == before + [entry];
    JoinSnoc(before, entry);
    AppendAssoc(start, Join(before), entry);
  }

  lemma AppendAssoc(a: bytes, b: bytes, c: bytes)
    ensures a + (b + c) == a + b + c
  {}

  method AppendInputs(start: bytes, inputs: seq<TxIn>, sequence: nat) returns (r: Option<bytes>)
    requires sequence < U32
    ensures r.Some? <==> forall i :: 0 <= i < |inputs| ==> InFits(inputs[i])
    ensures r.Some? ==> r.value == start + Join(InChunks(inputs, sequence))
  {
    var payload := start;
    for k := 0 to |inputs|
      invariant forall i :: 0 <= i < k ==> InFits(inputs[i])
      invariant payload == start + Join(InChunks(inputs[..k], sequence))
    {
      if !(0 <= inputs[k].vout < U32) {
        return None;
      }
      OneMoreInput(inputs, sequence, k, start);
      payload := payload + (Reversed(inputs[k].txid) + LittleEndian(inputs[k].vout, 4) + [0] + LittleEndian(sequence, 4));
    }
    assert inputs[..|inputs|] == inputs;
    r := Some(payload);
  }

  method AppendOutputs(start: bytes, outputs: seq<TxOut>) returns (r: Option<bytes>)
    requires forall i :: 0 <= i < |outputs| ==> |outputs[i].script| < U64
    ensures r.Some? <==> forall i :: 0 <= i < |outputs| ==> OutFits(outputs[i])
    ensures r.Some? ==> r.value == start + Join(OutChunks(outputs))
  {
    var payload := start;
    for k := 0 to |outputs|
      invariant forall i :: 0 <= i < k ==> OutFits(outputs[i])
      invariant payload == start + Join(OutChunks(outputs[..k]))
    {
      if !(0 <= outputs[k].amount < U64) {
        return None;
      }
      OneMoreOutput(outputs, k, start);
      payload := payload + (LittleEndian(outputs[k].amount, 8) + Varint(|outputs[k].script|) + outputs[k].script);
    }
    assert outputs[..|outputs|] == outputs;
    r := Some(payload);
  }

  // ---------- reading ----------

  datatype ParsedIn = ParsedIn(txid: bytes, vout: nat, scriptSig: bytes, sequence: nat)
  datatype Parsed = Parsed(version: nat, inputs: seq<ParsedIn>, outputs: seq<TxOut>, lockTime: nat)

  function ReadIn(s: bytes): Option<(ParsedIn, bytes)> {
    var (id, s1) :- Cut(s, 32);
    var (vout, s2) :- ReadNumber(s1, 4);
    var (script, s3) :- ReadString(s2);
    var (sequence, s4) :- ReadNumber(s3, 4);
    Some((ParsedIn(Reversed(id), vout, script, sequence), s4))
  }

  function ReadOut(s: bytes): Option<(TxOut, bytes)> {
    var (amount, s1) :- ReadNumber(s, 8);
    var (script, s2) :- ReadString(s1);
    Some((TxOut(script, amount), s2))
  }

  function ReadInList(s: bytes): Option<(seq<ParsedIn>, bytes)> {
    var (n, rest) :- ReadVarint(s);
    ReadMany(ReadIn, rest, n)
  }

  function ReadOutList(s: bytes): Option<(seq<TxOut>, bytes)> {
    var (n, rest) :- ReadVarint(s);
    ReadMany(ReadOut, rest, n)
  }

  function Parse(s: bytes): Option<Parsed> {
    match ReadNumber(s, 4)
    case None => None
    case Some((version, s1)) =>
      match ReadInList(s1)
      case None => None
      case Some((inputs, s2)) =>
        match ReadOutList(s2)
        case None => None
        case Some((outputs, s3)) =>
          match ReadNumber(s3, 4)
          case None => None
          case Some((lockTime, s4)) =>
            if s4 == [] then Some(Parsed(version, inputs, outputs, lockTime)) else None
  }

  // ---------- reading what was written ----------

  function AsParsed(input: TxIn, sequence: nat): ParsedIn
    requires InFits(input)
  {
    ParsedIn(input.txid, input.vout, [], sequence)
  }

  lemma ReadWrittenIn(input: TxIn, sequence: nat, rest: bytes)
    requires InFits(input) && sequence < U32 && |input.txid| == 32
    ensures ReadIn(InBytes(input, sequence) + rest) == Some((AsParsed(input, sequence), rest))
  {
    Widths();
    var id, v, q := Reversed(input.txid), LittleEndian(input.vout, 4), LittleEndian(sequence, 4);
    assert InBytes(input, sequence) + rest == id + (v + ([0] + (q + rest)));
    CutConcat(id, v + ([0] + (q + rest)));
    ReadWrittenNumber(input.vout, 4, [0] + (q + rest));
    assert Varint(0) + [] + (q + rest) == [0] + (q + rest);
    ReadWrittenString([], q + rest);
    ReadWrittenNumber(sequence, 4, rest);
    ReversedTwice(input.txid);
  }

  lemma ReadWrittenOut(output: TxOut, rest: bytes)
    requires OutFits(output)
    ensures ReadOut(OutBytes(output) + rest) == Some((output, rest))
  {
    Widths();
    var a, l := LittleEndian(output.amount, 8), Varint(|output.script|);
    assert OutBytes(output) + rest == a + (l + output.script + rest);
    ReadWrittenNumber(output.amount, 8, l + output.script + rest);
    ReadWrittenString(output.script, rest);
  }

  function AllParsed(inputs: seq<TxIn>, sequence: nat): (r: seq<ParsedIn>)
    requires forall i :: 0 <= i < |inputs| ==> InFits(inputs[i])
    ensures |r| == |inputs| && forall i :: 0 <= i < |r| ==> r[i] == AsParsed(inputs[i], sequence)
  {
    seq(|inputs|, i requires 0 <= i < |inputs| => AsParsed(inputs[i], sequence))
  }

  /**
   * Nothing of a transaction is lost or ambiguous in its serialisation: the parser recovers every
   * input with its id in display order, every output, the version and the lock time.
   */
  lemma ParseOfSerialized(inputs: seq<TxIn>, outputs: seq<TxOut>, sequence: nat)
    requires Encodable(inputs, outputs, sequence)
    requires forall i :: 0 <= i < |inputs| ==> |inputs[i].txid| == 32
    ensures Parse(TxBytes(inputs, outputs, sequence))
         == Some(Parsed(2, AllParsed(inputs, sequence), outputs, 0))
  {
    var lock: bytes := [0, 0, 0, 0];
    var outs := Varint(|outputs|) + Join(OutChunks(outputs)) + lock;
    var ins := Varint(|inputs|) + Join(InChunks(inputs, sequence)) + outs;
    var version := LittleEndian(2, 4);
    TxLayout(version, Varint(|inputs|), Join(InChunks(inputs, sequence)), Varint(|outputs|), Join(OutChunks(outputs)), lock);
    Widths();
    ReadWrittenNumber(2, 4, ins);
    ReadWrittenInList(inputs, sequence, outs);
    ReadWrittenOutList(outputs, lock);
    ReadLockTime();
    ParseSteps(version + ins, 2, ins, AllParsed(inputs, sequence), outs, outputs, lock);
  }

  lemma TxLayout(version: bytes, n: bytes, ins: bytes, m: bytes, outs: bytes, lock: bytes)
    ensures version + n + ins + m + outs + lock == version + (n + ins + (m + outs + lock))
  {}

  lemma ReadLockTime()
    ensures ReadNumber([0, 0, 0, 0], 4) == Some((0, []))
  {
    ReadWrittenNumber(0, 4, []);
    assert LittleEndian(0, 4) + [] == [0, 0, 0, 0];
  }

  lemma ParseSteps(s: bytes, version: nat, s1: bytes, inputs: seq<ParsedIn>, s2: bytes,
                   outputs: seq<TxOut>, s3: bytes)
    requires ReadNumber(s, 4) == Some((version, s1))
    requires ReadInList(s1) == Some((inputs, s2)) && ReadOutList(s2) == Some((outputs, s3))
    requires ReadNumber(s3, 4) == Some((0, []))
    ensures Parse(s) == Some(Parsed(version, inputs, outputs, 0))
  {}

  lemma ReadWrittenInList(inputs: seq<TxIn>, sequence: nat, rest: bytes)
    requires sequence < U32 && |inputs| < U64
    requires forall i :: 0 <= i < |inputs| ==> InFits(inputs[i]) && |inputs[i].txid| == 32
    ensures ReadInList(Varint(|inputs|) + Join(InChunks(inputs, sequence)) + rest)
         == Some((AllParsed(inputs, sequence), rest))
  {
    var x, y := Varint(|inputs|), Join(InChunks(inputs, sequence));
    assert x + y + rest == x + (y + rest);
    ReadWrittenVarint(|inputs|, y + rest);
    forall i, r | 0 <= i < |inputs|
      ensures ReadIn(InChunks(inputs, sequence)[i] + r) == Some((AllParsed(inputs, sequence)[i], r)) {
      ReadWrittenIn(inputs[i], sequence, r);
    }
    ReadWrittenMany(ReadIn, InChunks(inputs, sequence), AllParsed(inputs, sequence), rest);
  }

  lemma ReadWrittenOutList(outputs: seq<TxOut>, rest: bytes)
    requires |outputs| < U64 && forall i :: 0 <= i < |outputs| ==> OutFits(outputs[i])
    ensures ReadOutList(Varint(|outputs|) + Join(OutChunks(outputs)) + rest) == Some((outputs, rest))
  {
    var x, y := Varint(|outputs|), Join(OutChunks(outputs));
    assert x + y + rest == x + (y + rest);
    ReadWrittenVarint(|outputs|, y + rest);
    forall i, r | 0 <= i < |outputs| ensures ReadOut(OutChunks(outputs)[i] + r) == Some((outputs[i], r)) {
      ReadWrittenOut(outputs[i], r);
    }
    ReadWrittenMany(ReadOut, OutChunks(outputs), outputs, rest);
  }
}
