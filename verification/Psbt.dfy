/** The PSBT wrapper of src/wallet_agent/chains/btc.py, with a parser for BIP 174 maps. */
module Psbt {
  import opened Wrappers
  import opened Digits
  import opened Framing
  import opened Transaction

  const PSBT_MAGIC: bytes := [0x70, 0x73, 0x62, 0x74, 0xFF]
  const PSBT_GLOBAL_UNSIGNED_TX: byte := 0x00
  const PSBT_OUT_SCRIPT: byte := 0x00

  datatype Entry = Entry(keyType: byte, keyData: bytes, value: bytes)

  /** Lengths the compact size can write. */
  predicate EntryFits(e: Entry) {
    |e.keyData| + 1 < U64 && |e.value| < U64
  }

  predicate MapFits(entries: seq<Entry>) {
    forall i :: 0 <= i < |entries| ==> EntryFits(entries[i])
  }

  predicate MapsFit(maps: seq<seq<Entry>>) {
    forall i :: 0 <= i < |maps| ==> MapFits(maps[i])
  }

  // ---------- writing ----------

  function KeyValue(e: Entry): (s: bytes)
    requires EntryFits(e)
  {
    var key := [e.keyType] + e.keyData;
    Varint(|key|) + key + Varint(|e.value|) + e.value
  }

  function Chunks(entries: seq<Entry>): (r: seq<bytes>)
    requires MapFits(entries)
    ensures |r| == |entries| && forall i :: 0 <= i < |r| ==> r[i] == KeyValue(entries[i])
  {
    seq(|entries|, i requires 0 <= i < |entries| => KeyValue(entries[i]))
  }

  function MapBytes(entries: seq<Entry>): bytes
    requires MapFits(entries)
  {
    Join(Chunks(entries)) + [0]
  }

  function MapChunks(maps: seq<seq<Entry>>): (r: seq<bytes>)
    requires MapsFit(maps)
    ensures |r| == |maps| && forall i :: 0 <= i < |r| ==> r[i] == MapBytes(maps[i])
  {
    seq(|maps|, i requires 0 <= i < |maps| => MapBytes(maps[i]))
  }

  function Extra(metadata: seq<seq<Entry>>, i: nat): seq<Entry> {
    if i < |metadata| then metadata[i] else []
  }

  /** The map of each output: its script, then the metadata supplied for that position. */
  function OutputMaps(scripts: seq<bytes>, metadata: seq<seq<Entry>>): (r: seq<seq<Entry>>)
    ensures |r| == |scripts|
    ensures forall i :: 0 <= i < |r| ==>
      r[i] == [Entry(PSBT_OUT_SCRIPT, [], scripts[i])] + Extra(metadata, i)
  {
    seq(|scripts|, i requires 0 <= i < |scripts| =>
      [Entry(PSBT_OUT_SCRIPT, [], scripts[i])] + Extra(metadata, i))
  }

  function PsbtBytes(unsignedTx: bytes, inputs: seq<seq<Entry>>, outputs: seq<seq<Entry>>): bytes
    requires |unsignedTx| < U64 && MapsFit(inputs) && MapsFit(outputs)
  {
    PSBT_MAGIC + MapBytes([Entry(PSBT_GLOBAL_UNSIGNED_TX, [], unsignedTx)])
    + Join(MapChunks(inputs)) + Join(MapChunks(outputs))
  }

  /** Base64 is left to the caller: the result is the payload before it is encoded. */
  method Build(unsignedTx: bytes, inputMetadata: seq<seq<Entry>>, outputScripts: seq<bytes>,
               outputMetadata: seq<seq<Entry>>) returns (payload: bytes)
    requires |unsignedTx| < U64 && MapsFit(inputMetadata) && MapsFit(OutputMaps(outputScripts, outputMetadata))
    ensures payload == PsbtBytes(unsignedTx, inputMetadata, OutputMaps(outputScripts, outputMetadata))
  {
    payload := AppendMap(PSBT_MAGIC, Entry(PSBT_GLOBAL_UNSIGNED_TX, [], unsignedTx), []);
    payload := AppendInputMaps(payload, inputMetadata);
    payload := AppendOutputMaps(payload, outputScripts, outputMetadata);
  }

  method AppendMap(start: bytes, first: Entry, more: seq<Entry>) returns (payload: bytes)
    requires EntryFits(first) && MapFits(more)
    ensures MapFits([first] + more) && payload == start + MapBytes([first] + more)
  {
    payload := AppendEntries(start + KeyValue(first), more);
    payload := payload + [0];
    MapFront(first, more, [first] + more);
  }

  method AppendInputMaps(start: bytes, metadata: seq<seq<Entry>>) returns (payload: bytes)
    requires MapsFit(metadata)
    ensures payload == start + Join(MapChunks(metadata))
  {
    ghost var all := MapChunks(metadata);
    payload := start;
    for k := 0 to |metadata|
      invariant payload == start + Join(all[..k])
    {
      InputStep(metadata, k, start);
      payload := AppendEntries(payload, metadata[k]);
      payload := payload + [0];
    }
    assert all[..|metadata|] == all;
  }

  lemma InputStep(metadata: seq<seq<Entry>>, k: nat, start: bytes)
    requires MapsFit(metadata) && k < |metadata|
    ensures MapFits(metadata[k])
    ensures var all := MapChunks(metadata);
      start + Join(all[..k + 1]) == start + Join(all[..k]) + Join(Chunks(metadata[k])) + [0]
  {
    var all := MapChunks(metadata);
    JoinTake(all, k);
    assert all[k] == Join(Chunks(metadata[k])) + [0];
    Nested(start, Join(all[..k]), Join(Chunks(metadata[k])), [0]);
  }

  lemma Nested(a: bytes, b: bytes, c: bytes, d: bytes)
    ensures a + (b + (c + d)) == a + b + c + d
  {}

  method AppendOutputMaps(start: bytes, scripts: seq<bytes>, metadata: seq<seq<Entry>>)
    returns (payload: bytes)
    requires MapsFit(OutputMaps(scripts, metadata))
    ensures payload == start + Join(MapChunks(OutputMaps(scripts, metadata)))
  {
    ghost var all := MapChunks(OutputMaps(scripts, metadata));
    payload := start;
    for k := 0 to |scripts|
      invariant payload == start + Join(all[..k])
    {
      OutputStep(scripts, metadata, k, start);
      payload := AppendMap(payload, Entry(PSBT_OUT_SCRIPT, [], scripts[k]), Extra(metadata, k));
    }
    assert all[..|scripts|] == all;
  }

  lemma OutputStep(scripts: seq<bytes>, metadata: seq<seq<Entry>>, k: nat, start: bytes)
    requires k < |scripts| && MapsFit(OutputMaps(scripts, metadata))
    ensures EntryFits(Entry(PSBT_OUT_SCRIPT, [], scripts[k])) && MapFits(Extra(metadata, k))
    ensures MapFits([Entry(PSBT_OUT_SCRIPT, [], scripts[k])] + Extra(metadata, k))
    ensures var all := MapChunks(OutputMaps(scripts, metadata));
      start + Join(all[..k + 1]) == start + Join(all[..k]) + MapBytes([Entry(PSBT_OUT_SCRIPT, [], scripts[k])] + Extra(metadata, k))
  {
    var maps := OutputMaps(scripts, metadata);
    var all := MapChunks(maps);
    PartsFit(Entry(PSBT_OUT_SCRIPT, [], scripts[k]), Extra(metadata, k), maps[k]);
    JoinTake(all, k);
    Nested(start, Join(all[..k]), all[k], []);
    assert all[k] + [] == all[k];
  }

  lemma PartsFit(first: Entry, more: seq<Entry>, entries: seq<Entry>)
    requires MapFits(entries) && entries == [first] + more
    ensures MapFits(more) && EntryFits(first)
  {
    assert entries[0] == first;
    assert forall i :: 0 <= i < |more| ==> more[i] == entries[i + 1];
  }

  lemma MapFront(first: Entry, more: seq<Entry>, entries: seq<Entry>)
    requires MapFits(entries) && entries == [first] + more
    ensures MapFits(more) && EntryFits(first)
    ensures MapBytes(entries) == KeyValue(first) + Join(Chunks(more)) + [0]
  {
    assert entries[0] == first;
    assert entries[1..] == more;
    assert forall i :: 0 <= i < |more| ==> more[i] == entries[i + 1];
    ChunksFront(entries);
    JoinFront(Chunks(entries));
  }

  lemma ChunksFront(entries: seq<Entry>)
    requires entries != [] && MapFits(entries) && MapFits(entries[1..])
    ensures Chunks(entries)[0] == KeyValue(entries[0])
    ensures Chunks(entries)[1..] == Chunks(entries[1..])
  {}

  method AppendEntries(start: bytes, entries: seq<Entry>) returns (payload: bytes)
    requires MapFits(entries)
    ensures payload == start + Join(Chunks(entries))
  {
    ghost var all := Chunks(entries);
    payload := start;
    for k := 0 to |entries|
      invariant payload == start + Join(all[..k])
    {
      JoinTake(all, k);
      payload := payload + KeyValue(entries[k]);
    }
    assert all[..|entries|] == all;
  }

  // ---------- reading ----------

  /** One key-value map; a zero key length is the separator that ends it. */
  function ReadMap(s: bytes): Option<(seq<Entry>, bytes)>
    decreases |s|
  {
    match ReadVarint(s)
    case None => None
    case Some((n, s1)) =>
      if n == 0 then Some(([], s1))
      else
        match ReadEntry(s1, n)
        case None => None
        case Some((entry, s2)) =>
          match ReadMap(s2)
          case None => None
          case Some((more, rest)) => Some(([entry] + more, rest))
  }

  function ReadEntry(s: bytes, keySize: nat): (r: Option<(Entry, bytes)>)
    requires keySize > 0
    ensures r.Some? ==> |r.value.1| < |s|
  {
    match Cut(s, keySize)
    case None => None
    case Some((key, s1)) =>
      match ReadString(s1)
      case None => None
      case Some((value, rest)) => Some((Entry(key[0], key[1..], value), rest))
  }

  datatype ParsedPsbt = ParsedPsbt(tx: Parsed, inputs: seq<seq<Entry>>, outputs: seq<seq<Entry>>)

  /** Magic, global map with the transaction, then one map per input and one per output. */
  function ParsePsbt(s: bytes): Option<ParsedPsbt> {
    match Cut(s, 5)
    case None => None
    case Some((magic, s1)) =>
      if magic != PSBT_MAGIC then None else
      match ReadMap(s1)
      case None => None
      case Some((global, s2)) =>
        if |global| != 1 || global[0].keyType != PSBT_GLOBAL_UNSIGNED_TX || global[0].keyData != [] then None
        else
          match Parse(global[0].value)
          case None => None
          case Some(tx) => ReadBody(tx, s2)
  }

  function ReadBody(tx: Parsed, s: bytes): Option<ParsedPsbt> {
    match ReadMany(ReadMap, s, |tx.inputs|)
    case None => None
    case Some((inputs, s1)) =>
      match ReadMany(ReadMap, s1, |tx.outputs|)
      case None => None
      case Some((outputs, s2)) => if s2 == [] then Some(ParsedPsbt(tx, inputs, outputs)) else None
  }

  // ---------- reading what was written ----------

  /** What follows the key length. */
  function EntryTail(e: Entry): bytes
    requires EntryFits(e)
  {
    [e.keyType] + e.keyData + (Varint(|e.value|) + e.value)
  }

  lemma ReadWrittenEntry(e: Entry, rest: bytes)
    requires EntryFits(e)
    ensures ReadEntry(EntryTail(e) + rest, |e.keyData| + 1) == Some((e, rest))
  {
    var key := [e.keyType] + e.keyData;
    var tail := Varint(|e.value|) + e.value + rest;
    assert EntryTail(e) + rest == key + tail;
    CutConcat(key, tail);
    ReadWrittenString(e.value, rest);
    assert key[0] == e.keyType && key[1..] == e.keyData;
  }

  lemma ReadMapHead(s: bytes, n: nat, s1: bytes, e: Entry, s2: bytes, more: seq<Entry>, rest: bytes)
    requires n > 0 && ReadVarint(s) == Some((n, s1)) && ReadEntry(s1, n) == Some((e, s2))
    requires ReadMap(s2) == Some((more, rest))
    ensures ReadMap(s) == Some(([e] + more, rest))
  {}

  lemma ReadMapStep(e: Entry, s: bytes, more: seq<Entry>, rest: bytes)
    requires EntryFits(e) && ReadMap(s) == Some((more, rest))
    ensures ReadMap(KeyValue(e) + s) == Some(([e] + more, rest))
  {
    var n := |e.keyData| + 1;
    assert KeyValue(e) + s == Varint(n) + (EntryTail(e) + s);
    ReadWrittenVarint(n, EntryTail(e) + s);
    ReadWrittenEntry(e, s);
    ReadMapHead(KeyValue(e) + s, n, EntryTail(e) + s, e, s, more, rest);
  }

  lemma ReadEmptyMap(rest: bytes)
    ensures ReadMap([0] + rest) == Some(([], rest))
  {
    ReadWrittenVarint(0, rest);
    assert Varint(0) == [0];
  }

  /** No entry can begin with the separator, so a map reads back whatever follows it. */
  lemma {:induction false} ReadWrittenMap(entries: seq<Entry>, rest: bytes)
    requires MapFits(entries)
    ensures ReadMap(MapBytes(entries) + rest) == Some((entries, rest))
  {
    if entries == [] {
      assert MapBytes(entries) + rest == [0] + rest;
      ReadEmptyMap(rest);
    } else {
      assert entries == [entries[0]] + entries[1..];
      MapFront(entries[0], entries[1..], entries);
      assert MapBytes(entries) + rest == KeyValue(entries[0]) + (MapBytes(entries[1..]) + rest);
      ReadWrittenMap(entries[1..], rest);
      ReadMapStep(entries[0], MapBytes(entries[1..]) + rest, entries[1..], rest);
    }
  }

  lemma ReadWrittenMaps(maps: seq<seq<Entry>>, rest: bytes)
    requires MapsFit(maps)
    ensures ReadMany(ReadMap, Join(MapChunks(maps)) + rest, |maps|) == Some((maps, rest))
  {
    forall i, r | 0 <= i < |maps| ensures ReadMap(MapChunks(maps)[i] + r) == Some((maps[i], r)) {
      ReadWrittenMap(maps[i], r);
    }
    ReadWrittenMany(ReadMap, MapChunks(maps), maps, rest);
  }

  /**
   * A PSBT built around a serialised transaction parses back to that transaction and to every
   * entry of every input and output map.
   */
  lemma ParseOfBuilt(inputs: seq<TxIn>, outputs: seq<TxOut>, sequence: nat,
                     inputMaps: seq<seq<Entry>>, outputMaps: seq<seq<Entry>>)
    requires Encodable(inputs, outputs, sequence) && |TxBytes(inputs, outputs, sequence)| < U64
    requires forall i :: 0 <= i < |inputs| ==> |inputs[i].txid| == 32
    requires |inputMaps| == |inputs| && |outputMaps| == |outputs|
    requires MapsFit(inputMaps) && MapsFit(outputMaps)
    ensures ParsePsbt(PsbtBytes(TxBytes(inputs, outputs, sequence), inputMaps, outputMaps))
         == Some(ParsedPsbt(Parsed(2, AllParsed(inputs, sequence), outputs, 0), inputMaps, outputMaps))
  {
    var tx := TxBytes(inputs, outputs, sequence);
    var global := [Entry(PSBT_GLOBAL_UNSIGNED_TX, [], tx)];
    var ins, outs := Join(MapChunks(inputMaps)), Join(MapChunks(outputMaps));
    Layout(PSBT_MAGIC, MapBytes(global), ins, outs);
    ReadWrittenMap(global, ins + outs);
    ParseOfSerialized(inputs, outputs, sequence);
    ReadWrittenBody(Parsed(2, AllParsed(inputs, sequence), outputs, 0), inputMaps, outputMaps);
  }

  lemma Layout(magic: bytes, global: bytes, ins: bytes, outs: bytes)
    ensures Cut(magic + global + ins + outs, |magic|) == Some((magic, global + (ins + outs)))
  {
    assert magic + global + ins + outs == magic + (global + (ins + outs));
    CutConcat(magic, global + (ins + outs));
  }

  lemma ReadWrittenBody(tx: Parsed, inputMaps: seq<seq<Entry>>, outputMaps: seq<seq<Entry>>)
    requires |inputMaps| == |tx.inputs| && |outputMaps| == |tx.outputs|
    requires MapsFit(inputMaps) && MapsFit(outputMaps)
    ensures ReadBody(tx, Join(MapChunks(inputMaps)) + Join(MapChunks(outputMaps)))
         == Some(ParsedPsbt(tx, inputMaps, outputMaps))
  {
    var outs := Join(MapChunks(outputMaps));
    ReadWrittenMaps(inputMaps, outs);
    ReadWrittenMaps(outputMaps, []);
    assert outs + [] == outs;
  }
}
