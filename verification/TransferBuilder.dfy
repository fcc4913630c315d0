/** `build_native_transfer` of src/wallet_agent/chains/btc.py, from fetched coins to the unsigned bytes. */
module TransferBuilder {
  import opened Wrappers
  import opened Framing
  import opened Transaction
  import opened Scripts
  import opened CoinSelection

  const RBF_SEQUENCE: int := 0xFFFFFFFD

  // ---------- spendable addresses ----------

  /** The address a candidate stands for, when it is usable. */
  function Usable(strip: string -> string, valid: string -> bool, candidate: string): Option<string> {
    var address := strip(candidate);
    if address != "" && valid(address) then Some(address) else None
  }

  function FirstAppearances(strip: string -> string, valid: string -> bool, candidates: seq<string>): seq<string> {
    if candidates == [] then []
    else
      var k := |candidates| - 1;
      var earlier := FirstAppearances(strip, valid, candidates[..k]);
      match Usable(strip, valid, candidates[k])
      case None => earlier
      case Some(address) => if address in earlier then earlier else earlier + [address]
  }

  method SpendableAddresses(strip: string -> string, valid: string -> bool, from: string, others: seq<string>)
    returns (ordered: seq<string>)
    ensures ordered == FirstAppearances(strip, valid, [from] + others)
  {
    var candidates := [from] + others;
    ordered := [];
    for k := 0 to |candidates|
      invariant ordered == FirstAppearances(strip, valid, candidates[..k])
    {
      assert candidates[..k + 1][..k] == candidates[..k];
      var address := strip(candidates[k]);
      if address != "" && address !in ordered && valid(address) {
        ordered := ordered + [address];
      }
    }
    assert candidates[..|candidates|] == candidates;
  }

  lemma {:induction false} AppearancesListed(strip: string -> string, valid: string -> bool, c: seq<string>, a: string)
    ensures a in FirstAppearances(strip, valid, c) <==> exists i :: 0 <= i < |c| && Usable(strip, valid, c[i]) == Some(a)
  {
    if c != [] {
      var init := c[..|c| - 1];
      AppearancesListed(strip, valid, init, a);
      if a in FirstAppearances(strip, valid, init) {
        var i :| 0 <= i < |init| && Usable(strip, valid, init[i]) == Some(a);
        assert init[i] == c[i];
      }
      if i :| 0 <= i < |c| && Usable(strip, valid, c[i]) == Some(a) {
        assert i < |init| ==> init[i] == c[i];
      }
    }
  }

  lemma {:induction false} AppearancesGrow(strip: string -> string, valid: string -> bool, c: seq<string>, m: nat)
    requires m <= |c|
    ensures FirstAppearances(strip, valid, c[..m]) <= FirstAppearances(strip, valid, c)
  {
    if m == |c| {
      assert c[..m] == c;
    } else {
      var init := c[..|c| - 1];
      AppearancesGrow(strip, valid, init, m);
      assert init[..m] == c[..m];
      PrefixOfPrefix(FirstAppearances(strip, valid, c[..m]), FirstAppearances(strip, valid, init), FirstAppearances(strip, valid, c));
    }
  }

  lemma PrefixOfPrefix(a: seq<string>, b: seq<string>, c: seq<string>)
    requires a <= b <= c
    ensures a <= c
  {}

  predicate NoRepeats(s: seq<string>) {
    forall i, j :: 0 <= i < j < |s| ==> s[i] != s[j]
  }

  lemma NewAtEnd(s: seq<string>, a: string)
    requires a !in s && NoRepeats(s)
    ensures NoRepeats(s + [a])
  {
    assert forall i :: 0 <= i < |s| ==> s[i] in s;
  }

  lemma {:induction false} AppearancesDistinct(strip: string -> string, valid: string -> bool, c: seq<string>)
    ensures NoRepeats(FirstAppearances(strip, valid, c))
  {
    if c != [] {
      AppearancesDistinct(strip, valid, c[..|c| - 1]);
      var earlier, r := FirstAppearances(strip, valid, c[..|c| - 1]), FirstAppearances(strip, valid, c);
      var last := Usable(strip, valid, c[|c| - 1]);
      if last.Some? && last.value !in earlier {
        assert r == earlier + [last.value];
        NewAtEnd(earlier, last.value);
      } else {
        assert r == earlier;
      }
    }
  }

  /** Every usable address is listed exactly once, and later candidates only append. */
  lemma AppearancesOnce(strip: string -> string, valid: string -> bool, c: seq<string>, m: nat)
    requires m <= |c|
    ensures var r := FirstAppearances(strip, valid, c);
      && NoRepeats(r)
      && (forall a :: a in r <==> exists i :: 0 <= i < |c| && Usable(strip, valid, c[i]) == Some(a))
      && FirstAppearances(strip, valid, c[..m]) <= r
  {
    AppearancesDistinct(strip, valid, c);
    AppearancesGrow(strip, valid, c, m);
    forall a ensures a in FirstAppearances(strip, valid, c) <==> exists i :: 0 <= i < |c| && Usable(strip, valid, c[i]) == Some(a) {
      AppearancesListed(strip, valid, c, a);
    }
  }

  // ---------- the transaction ----------

  datatype Transfer = Transfer(inputs: seq<Utxo>, outputs: seq<TxOut>, fee: int, change: int, unsignedTx: bytes)

  function Spent(inputs: seq<Utxo>): (r: seq<TxIn>)
    ensures |r| == |inputs| && forall i :: 0 <= i < |r| ==> r[i] == TxIn(inputs[i].txid, inputs[i].vout)
  {
    seq(|inputs|, i requires 0 <= i < |inputs| => TxIn(inputs[i].txid, inputs[i].vout))
  }

  /** No output is spent by two inputs. */
  ghost predicate SpendsOnce(inputs: seq<TxIn>) {
    forall i, j :: 0 <= i < j < |inputs| ==> inputs[i] != inputs[j]
  }

  lemma PrefixSpendsOnce(coins: seq<Utxo>, inputs: seq<Utxo>)
    requires inputs <= LargestFirst(coins) && DistinctOutpoints(coins)
    ensures SpendsOnce(Spent(inputs))
  {
    var sorted := LargestFirst(coins);
    if coins != [] {
      LargestFirstOutpoints(coins, coins[0]);
    }
    forall i, j | 0 <= i < j < |inputs| ensures Spent(inputs)[i] != Spent(inputs)[j] {
      assert !SameOutpoint(sorted[i], sorted[j]);
    }
  }

  function Sum(outputs: seq<TxOut>): int {
    if outputs == [] then 0 else Sum(outputs[..|outputs| - 1]) + outputs[|outputs| - 1].amount
  }

  /** The outputs in order: the recipient, the memo if any, the change if any. */
  ghost predicate Pays(t: Transfer, toScript: bytes, amount: int, memoScript: Option<bytes>, changeScript: bytes) {
    t.outputs == [TxOut(toScript, amount)]
      + (if memoScript.Some? then [TxOut(memoScript.value, 0)] else [])
      + (if t.change > 0 then [TxOut(changeScript, t.change)] else [])
  }

  /** Fee and change of a finished transfer, by the coins it spends and the outputs it writes. */
  ghost predicate Balanced(t: Transfer, rate: real, changeSize: nat) {
    var paid := Total(t.inputs, |t.inputs|) - Sum(t.outputs);
    && (t.change == 0 || t.change >= DUST_LIMIT)
    && (t.change > 0 ==> paid == t.fee)
    && (t.change == 0 ==> t.fee <= paid < t.fee + DUST_LIMIT + Price(changeSize, rate))
  }

  /** The reported fee pays at least the rate for every byte of the unsigned transaction. */
  ghost predicate PaysForItsSize(t: Transfer, rate: real) {
    (forall i :: 0 <= i < |t.inputs| ==> |t.inputs[i].txid| == 32) ==>
      t.fee as real >= |t.unsignedTx| as real * rate
  }

  function SequenceOf(rbf: bool): nat {
    if rbf then 0xFFFFFFFD else 0xFFFFFFFF
  }

  /** What a successful build promises; scripts and families are those of the two addresses. */
  ghost predicate Built(coins: seq<Utxo>, amount: int, memo: Option<bytes>, rate: real, rbf: bool,
                        to: (Family, bytes), from: (Family, bytes), t: Transfer) {
    && amount > 0
    && t.inputs <= LargestFirst(coins) && t.inputs != []
    && (DistinctOutpoints(coins) ==> SpendsOnce(Spent(t.inputs)))
    && (memo.Some? ==> |memo.value| < U32)
    && Pays(t, to.1, amount, if memo.None? then None else OpReturnScript(memo.value), from.1)
    && Encodable(Spent(t.inputs), t.outputs, SequenceOf(rbf))
    && t.unsignedTx == TxBytes(Spent(t.inputs), t.outputs, SequenceOf(rbf))
    && Balanced(t, rate, OutputVbytes(from.0))
    && PaysForItsSize(t, rate)
  }

  function RequestOf(amount: int, memo: Option<bytes>, rate: real, to: Family, from: Family): Request
    requires memo.Some? ==> |memo.value| < U32
  {
    Request(amount, rate, to, from, if memo.None? then 0 else OutputSize(OpReturnScript(memo.value).value))
  }

  /** A number that does not fit its field in the serialised transaction. */
  predicate Overflows(inputs: seq<Utxo>, amount: int, change: int) {
    amount >= U64 || change >= U64 || exists i :: 0 <= i < |inputs| && !(0 <= inputs[i].vout < U32)
  }

  /** The only reasons to refuse a transfer between two addresses with known scripts. */
  ghost predicate Refused(coins: seq<Utxo>, amount: int, memo: Option<bytes>, rate: real, to: Family, from: Family) {
    || amount <= 0
    || (memo.Some? && |memo.value| >= U32)
    || coins == []
    || exists o :: Selects(LargestFirst(coins), RequestOf(amount, memo, rate, to, from), o)
                   && (o.Selected? ==> Overflows(o.inputs, amount, o.change))
  }

  /**
   * `memo` is `None` for an empty hint; every error of the source is `None`. The families and scripts
   * of the two addresses are returned beside the transfer that uses them.
   */
  method BuildNativeTransfer(env: Env, fromAddress: string, toAddress: string, amount: int,
                             memo: Option<bytes>, coins: seq<Utxo>, rate: real, rbf: bool)
    returns (r: Option<Transfer>, to: (Family, bytes), from: (Family, bytes))
    requires rate >= 0.0 && |coins| < U64
    ensures r.Some? ==>
      && ScriptOf(env, toAddress, to.0, to.1) && ScriptOf(env, fromAddress, from.0, from.1)
      && Built(coins, amount, memo, rate, rbf, to, from, r.value)
    ensures r.None? ==>
      || (forall f, s :: !ScriptOf(env, toAddress, f, s)) || (forall f, s :: !ScriptOf(env, fromAddress, f, s))
      || (ScriptOf(env, toAddress, to.0, to.1) && ScriptOf(env, fromAddress, from.0, from.1)
          && Refused(coins, amount, memo, rate, to.0, from.0))
  {
    to, from := (P2wpkh, []), (P2wpkh, []);
    var fromScript := ScriptPubkey(env, fromAddress);
    var toScript := ScriptPubkey(env, toAddress);
    if fromScript.None? || toScript.None? {
      return None, to, from;
    }
    to, from := toScript.value, fromScript.value;
    OutputTableExact(env, toAddress, to.0, to.1, 0);
    OutputTableExact(env, fromAddress, from.0, from.1, 0);
    assert |OutBytes(TxOut(to.1, 0))| == 9 + |to.1| && |OutBytes(TxOut(from.1, 0))| == 9 + |from.1|;
    r := PayFromScripts(amount, memo, coins, rate, rbf, toScript.value, fromScript.value);
  }

  method PayFromScripts(amount: int, memo: Option<bytes>, coins: seq<Utxo>, rate: real, rbf: bool,
                        to: (Family, bytes), from: (Family, bytes)) returns (r: Option<Transfer>)
    requires rate >= 0.0 && |coins| < U64
    requires |to.1| < 253 && 9 + |to.1| == OutputVbytes(to.0)
    requires |from.1| < 253 && 9 + |from.1| == OutputVbytes(from.0)
    ensures r.Some? ==> Built(coins, amount, memo, rate, rbf, to, from, r.value)
    ensures r.None? ==> Refused(coins, amount, memo, rate, to.0, from.0)
  {
    if amount <= 0 || (memo.Some? && OpReturnScript(memo.value).None?) || coins == [] {
      return None;
    }
    var memoScript := if memo.None? then None else OpReturnScript(memo.value);
    var extra := if memoScript.None? then 0 else OutputSize(memoScript.value);
    var req := Request(amount, rate, to.0, from.0, extra);
    assert req == RequestOf(amount, memo, rate, to.0, from.0);
    var sorted := LargestFirst(coins);
    SameCount(coins);
    var outcome := Select(sorted, req);
    if !outcome.Selected? {
      return None;
    }
    SelectedPrefix(sorted, req, outcome);
    if DistinctOutpoints(coins) {
      PrefixSpendsOnce(coins, outcome.inputs);
    }
    r := Assemble(sorted, req, outcome.inputs, outcome.fee, outcome.change, to.1, memoScript, from.1, rbf);
  }

  lemma SameCount(coins: seq<Utxo>)
    ensures |LargestFirst(coins)| == |coins|
  {
    LargestFirstSorts(coins);
    assert |LargestFirst(coins)| == |multiset(LargestFirst(coins))| == |multiset(coins)|;
  }

  lemma SelectedPrefix(coins: seq<Utxo>, req: Request, outcome: Outcome)
    requires outcome.Selected? && Selects(coins, req, outcome)
    ensures outcome.inputs != [] && outcome.inputs <= coins
  {}

  method Assemble(coins: seq<Utxo>, req: Request, inputs: seq<Utxo>, fee: int, change: int, toScript: bytes,
                  memoScript: Option<bytes>, changeScript: bytes, rbf: bool) returns (r: Option<Transfer>)
    requires req.rate >= 0.0 && req.amount > 0 && |coins| < U64
    requires Selects(coins, req, Selected(inputs, fee, change))
    requires Estimates(req, toScript, memoScript, changeScript)
    ensures r.None? ==> Overflows(inputs, req.amount, change)
    ensures r.Some? ==>
      var t := r.value;
      && t.inputs == inputs
      && Pays(t, toScript, req.amount, memoScript, changeScript)
      && Encodable(Spent(t.inputs), t.outputs, SequenceOf(rbf))
      && t.unsignedTx == TxBytes(Spent(t.inputs), t.outputs, SequenceOf(rbf))
      && Balanced(t, req.rate, OutputVbytes(req.change))
      && PaysForItsSize(t, req.rate)
  {
    var outputs := OutputList(toScript, req.amount, memoScript, changeScript, change);
    var tx := Serialize(Spent(inputs), outputs, if rbf then Some(RBF_SEQUENCE) else None);
    var t := Transfer(inputs, outputs, fee, change, if tx.Some? then tx.value else []);
    ghost var inputSize := SizeBehindFee(coins, req, t, EstimatedOutputs(t, req));
    FitsUnlessOverflow(t, toScript, req, memoScript, changeScript, SequenceOf(rbf));
    if tx.None? {
      return None;
    }
    AssembledSoundly(coins, req, t, toScript, memoScript, changeScript, SequenceOf(rbf));
    return Some(t);
  }

  method OutputList(toScript: bytes, amount: int, memoScript: Option<bytes>, changeScript: bytes, change: int)
    returns (outputs: seq<TxOut>)
    requires change >= 0
    ensures outputs == [TxOut(toScript, amount)]
      + (if memoScript.Some? then [TxOut(memoScript.value, 0)] else [])
      + (if change > 0 then [TxOut(changeScript, change)] else [])
    ensures |toScript| < U64 && |changeScript| < U64 && (memoScript.Some? ==> |memoScript.value| < U64) ==>
      forall i :: 0 <= i < |outputs| ==> |outputs[i].script| < U64
  {
    outputs := [TxOut(toScript, amount)];
    if memoScript.Some? {
      outputs := outputs + [TxOut(memoScript.value, 0)];
    }
    if change != 0 {
      outputs := outputs + [TxOut(changeScript, change)];
    }
  }

  lemma FitsUnlessOverflow(t: Transfer, toScript: bytes, req: Request, memoScript: Option<bytes>,
                           changeScript: bytes, sequence: nat)
    requires t.change >= 0 && req.amount > 0 && |t.inputs| < U64 && sequence < U32
    requires Pays(t, toScript, req.amount, memoScript, changeScript)
    requires Estimates(req, toScript, memoScript, changeScript)
    ensures Overflows(t.inputs, req.amount, t.change) || Encodable(Spent(t.inputs), t.outputs, sequence)
  {}

  lemma AssembledSoundly(coins: seq<Utxo>, req: Request, t: Transfer, toScript: bytes,
                         memoScript: Option<bytes>, changeScript: bytes, sequence: nat)
    requires req.rate >= 0.0 && Selects(coins, req, Selected(t.inputs, t.fee, t.change))
    requires Pays(t, toScript, req.amount, memoScript, changeScript)
    requires Estimates(req, toScript, memoScript, changeScript)
    requires Encodable(Spent(t.inputs), t.outputs, sequence)
    requires t.unsignedTx == TxBytes(Spent(t.inputs), t.outputs, sequence)
    ensures Balanced(t, req.rate, OutputVbytes(req.change)) && PaysForItsSize(t, req.rate)
  {
    SelectionBalanced(coins, req, t, toScript, memoScript, changeScript);
    var inputSize := SizeBehindFee(coins, req, t, EstimatedOutputs(t, req));
    LengthEstimate(t, req, toScript, memoScript, changeScript, sequence, inputSize);
    FeePaysForSize(t, req, inputSize, EstimatedOutputs(t, req));
  }

  lemma SumOfOutputs(t: Transfer, toScript: bytes, amount: int, memoScript: Option<bytes>,
                     changeScript: bytes)
    requires Pays(t, toScript, amount, memoScript, changeScript) && t.change >= 0
    ensures Sum(t.outputs) == amount + t.change
  {
    var first := [TxOut(toScript, amount)];
    assert Sum(first) == amount;
    var second := if memoScript.Some? then first + [TxOut(memoScript.value, 0)] else first;
    assert memoScript.Some? ==> second[..1] == first;
    assert Sum(second) == amount;
    if t.change > 0 {
      assert t.outputs == second + [TxOut(changeScript, t.change)];
      assert t.outputs[..|second|] == second;
    } else {
      assert t.outputs == second;
    }
  }

  /** The output part of the virtual size behind the reported fee. */
  function EstimatedOutputs(t: Transfer, req: Request): nat {
    OutputVbytes(req.to) + (if t.change > 0 then OutputVbytes(req.change) else 0) + req.extra
  }

  /** Size estimates of the scripts of a request: exact for addresses, at most 4 bytes short for a memo. */
  ghost predicate Estimates(req: Request, toScript: bytes, memoScript: Option<bytes>, changeScript: bytes) {
    && |toScript| < 253 && 9 + |toScript| == OutputVbytes(req.to)
    && |changeScript| < 253 && 9 + |changeScript| == OutputVbytes(req.change)
    && (memoScript.None? ==> req.extra == 0)
    && (memoScript.Some? ==> |memoScript.value| < U64 && req.extra == OutputSize(memoScript.value))
  }

  lemma SelectionBalanced(coins: seq<Utxo>, req: Request, t: Transfer, toScript: bytes,
                          memoScript: Option<bytes>, changeScript: bytes)
    requires Selects(coins, req, Selected(t.inputs, t.fee, t.change))
    requires Pays(t, toScript, req.amount, memoScript, changeScript)
    ensures Balanced(t, req.rate, OutputVbytes(req.change))
  {
    SamePrefix(coins, t.inputs, |t.inputs|);
    SumOfOutputs(t, toScript, req.amount, memoScript, changeScript);
  }

  lemma FeePaysForSize(t: Transfer, req: Request, inputSize: int, estimate: int)
    requires req.rate >= 0.0 && t.fee == Price(TX_OVERHEAD_VBYTES + inputSize + estimate, req.rate)
    requires (forall i :: 0 <= i < |t.inputs| ==> |t.inputs[i].txid| == 32) ==>
      |t.unsignedTx| <= TX_OVERHEAD_VBYTES + inputSize + estimate
    ensures PaysForItsSize(t, req.rate)
  {
    if forall i :: 0 <= i < |t.inputs| ==> |t.inputs[i].txid| == 32 {
      FeePaysForLength(req, t.fee, TX_OVERHEAD_VBYTES + inputSize + estimate, |t.unsignedTx|);
    }
  }

  lemma LengthEstimate(t: Transfer, req: Request, toScript: bytes, memoScript: Option<bytes>,
                       changeScript: bytes, sequence: nat, inputSize: int)
    requires t.change >= 0 && Pays(t, toScript, req.amount, memoScript, changeScript)
    requires Estimates(req, toScript, memoScript, changeScript)
    requires Encodable(Spent(t.inputs), t.outputs, sequence)
    requires t.unsignedTx == TxBytes(Spent(t.inputs), t.outputs, sequence)
    requires t.inputs != [] && inputSize >= 58 * |t.inputs|
    ensures (forall i :: 0 <= i < |t.inputs| ==> |t.inputs[i].txid| == 32) ==>
      |t.unsignedTx| <= TX_OVERHEAD_VBYTES + inputSize + EstimatedOutputs(t, req)
  {
    if forall i :: 0 <= i < |t.inputs| ==> |t.inputs[i].txid| == 32 {
      OutputsLength(t, req, toScript, memoScript, changeScript);
      TransactionLength(t, sequence, inputSize, EstimatedOutputs(t, req));
    }
  }

  lemma SizeBehindFee(coins: seq<Utxo>, req: Request, t: Transfer, estimate: int)
    returns (inputSize: int)
    requires Selects(coins, req, Selected(t.inputs, t.fee, t.change))
    requires estimate == EstimatedOutputs(t, req)
    ensures t.change >= 0 && t.inputs != [] && inputSize >= 58 * |t.inputs|
    ensures t.fee == Price(TX_OVERHEAD_VBYTES + inputSize + estimate, req.rate)
  {
    inputSize := InputSize(coins, |t.inputs|);
  }

  lemma FeePaysForLength(req: Request, fee: int, size: int, length: int)
    requires req.rate >= 0.0 && fee == Price(size, req.rate) && length <= size
    ensures fee as real >= length as real * req.rate
  {
    MulMonotoneReal(length as real, size as real, req.rate);
    CeilBounds(size as real * req.rate);
  }

  lemma OutputsLength(t: Transfer, req: Request, toScript: bytes, memoScript: Option<bytes>,
                      changeScript: bytes)
    requires t.change >= 0 && Pays(t, toScript, req.amount, memoScript, changeScript)
    requires Estimates(req, toScript, memoScript, changeScript)
    requires forall i :: 0 <= i < |t.outputs| ==> OutFits(t.outputs[i])
    ensures |Join(OutChunks(t.outputs))|
         <= EstimatedOutputs(t, req) + 4
    ensures 1 <= |t.outputs| <= 3
  {
    var chunks := OutChunks(t.outputs);
    JoinUpToThree(chunks);
  }

  lemma {:induction false} JoinUpToThree(chunks: seq<bytes>)
    requires 1 <= |chunks| <= 3
    ensures |Join(chunks)| == |chunks[0]| + (if |chunks| > 1 then |chunks[1]| else 0)
                              + (if |chunks| > 2 then |chunks[2]| else 0)
  {
    if |chunks| > 1 {
      JoinUpToThree(chunks[..|chunks| - 1]);
    } else {
      assert chunks[..0] == [];
    }
  }

  /** Legacy serialisation is never longer than the virtual size the fee is computed from. */
  lemma TransactionLength(t: Transfer, sequence: nat, inputSize: int, estimate: int)
    requires Encodable(Spent(t.inputs), t.outputs, sequence)
    requires t.unsignedTx == TxBytes(Spent(t.inputs), t.outputs, sequence)
    requires forall i :: 0 <= i < |t.inputs| ==> |t.inputs[i].txid| == 32
    requires t.inputs != [] && inputSize >= 58 * |t.inputs| && |t.outputs| <= 3
    requires |Join(OutChunks(t.outputs))| <= estimate + 4
    ensures |t.unsignedTx| <= TX_OVERHEAD_VBYTES + inputSize + estimate
  {
    JoinLength(InChunks(Spent(t.inputs), sequence), 41);
  }
}
