/** The PSBT that `build_native_transfer` of src/wallet_agent/chains/btc.py returns around its transaction. */
module TransferPayload {
  import opened Wrappers
  import opened Framing
  import opened Transaction
  import opened Psbt
  import opened Scripts
  import opened CoinSelection
  import opened TransferBuilder

  function ScriptsOf(outputs: seq<TxOut>): (scripts: seq<bytes>)
    ensures |scripts| == |outputs| && forall i :: 0 <= i < |scripts| ==> scripts[i] == outputs[i].script
  {
    seq(|outputs|, i requires 0 <= i < |outputs| => outputs[i].script)
  }

  /** Only the change output, always the last, carries fields. */
  function OutputFields(t: Transfer, changeFields: seq<Entry>): (fields: seq<seq<Entry>>)
    ensures |fields| == |t.outputs|
    ensures forall i :: 0 <= i < |fields| ==>
      fields[i] == if t.change > 0 && i == |fields| - 1 then changeFields else []
  {
    seq(|t.outputs|, i => if t.change > 0 && i == |t.outputs| - 1 then changeFields else [])
  }

  function OutputsOf(t: Transfer, changeFields: seq<Entry>): seq<seq<Entry>> {
    OutputMaps(ScriptsOf(t.outputs), OutputFields(t, changeFields))
  }

  ghost predicate Wrappable(t: Transfer, inputFields: seq<seq<Entry>>, changeFields: seq<Entry>) {
    && |t.unsignedTx| < U64 && |inputFields| == |t.inputs| && MapsFit(inputFields) && MapFits(changeFields)
    && (forall i :: 0 <= i < |t.outputs| ==> |t.outputs[i].script| < U64)
  }

  lemma OutputsFit(t: Transfer, inputFields: seq<seq<Entry>>, changeFields: seq<Entry>)
    requires Wrappable(t, inputFields, changeFields)
    ensures MapsFit(OutputsOf(t, changeFields))
  {
    var maps := OutputsOf(t, changeFields);
    forall i | 0 <= i < |maps| ensures MapFits(maps[i]) {
      assert maps[i] == [Entry(PSBT_OUT_SCRIPT, [], t.outputs[i].script)] + OutputFields(t, changeFields)[i];
    }
  }

  /** `inputFields` describe the coins spent, `changeFields` the key of the change output if it is the wallet's own. */
  method Wrap(t: Transfer, inputFields: seq<seq<Entry>>, changeFields: seq<Entry>) returns (payload: bytes)
    requires Wrappable(t, inputFields, changeFields)
    ensures MapsFit(OutputsOf(t, changeFields))
    ensures payload == PsbtBytes(t.unsignedTx, inputFields, OutputsOf(t, changeFields))
  {
    OutputsFit(t, inputFields, changeFields);
    payload := Build(t.unsignedTx, inputFields, ScriptsOf(t.outputs), OutputFields(t, changeFields));
  }

  predicate ShowsInput(parsed: ParsedIn, coin: Utxo, sequence: nat) {
    parsed.txid == coin.txid && parsed.vout == coin.vout && parsed.scriptSig == [] && parsed.sequence == sequence
  }

  /** What a parser finds in the payload of a transfer: its coins, its outputs, and the fields that came with them. */
  ghost predicate Shows(p: ParsedPsbt, t: Transfer, sequence: nat, inputFields: seq<seq<Entry>>, changeFields: seq<Entry>) {
    && p.tx.version == 2 && p.tx.lockTime == 0 && p.tx.outputs == t.outputs && p.inputs == inputFields
    && |p.tx.inputs| == |t.inputs| && |p.outputs| == |t.outputs|
    && (forall i :: 0 <= i < |t.inputs| ==>
      ShowsInput(p.tx.inputs[i], t.inputs[i], sequence))
    && (forall i :: 0 <= i < |t.outputs| ==>
      p.outputs[i] == [Entry(PSBT_OUT_SCRIPT, [], t.outputs[i].script)] + OutputFields(t, changeFields)[i])
  }

  /** The payload around a built transfer parses back to every coin it spends and every output it pays. */
  lemma {:induction false} TransferRecovered(coins: seq<Utxo>, amount: int, memo: Option<bytes>, rate: real, rbf: bool,
                                             to: (Family, bytes), from: (Family, bytes), t: Transfer,
                                             inputFields: seq<seq<Entry>>, changeFields: seq<Entry>)
    requires Built(coins, amount, memo, rate, rbf, to, from, t) && Wrappable(t, inputFields, changeFields)
    requires forall i :: 0 <= i < |t.inputs| ==> |t.inputs[i].txid| == 32
    ensures MapsFit(OutputsOf(t, changeFields))
    ensures var p := ParsePsbt(PsbtBytes(t.unsignedTx, inputFields, OutputsOf(t, changeFields)));
      p.Some? && Shows(p.value, t, SequenceOf(rbf), inputFields, changeFields)
  {
    OutputsFit(t, inputFields, changeFields);
    ParseOfBuilt(Spent(t.inputs), t.outputs, SequenceOf(rbf), inputFields, OutputsOf(t, changeFields));
    ParsedShows(t, SequenceOf(rbf), inputFields, changeFields);
  }

  lemma ParsedShows(t: Transfer, sequence: nat, inputFields: seq<seq<Entry>>, changeFields: seq<Entry>)
    requires Encodable(Spent(t.inputs), t.outputs, sequence)
    ensures Shows(ParsedPsbt(Parsed(2, AllParsed(Spent(t.inputs), sequence), t.outputs, 0), inputFields,
                             OutputsOf(t, changeFields)), t, sequence, inputFields, changeFields)
  {}
}
