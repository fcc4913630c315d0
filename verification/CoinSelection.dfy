/** Largest-first coin selection with a selection-dependent fee (src/wallet_agent/chains/btc.py). */
module CoinSelection {
  import opened Wrappers
  import opened Framing
  import opened Scripts

  const DUST_LIMIT: int := 546
  const TX_OVERHEAD_VBYTES: int := 11

  /** `family` is `None` for an address whose witness version `address_family` rejects. */
  datatype Utxo = Utxo(txid: bytes, vout: int, value: int, family: Option<Family>)

  /** What one selection is asked for: the fee rate is an exact number of satoshi per vbyte. */
  datatype Request = Request(amount: int, rate: real, to: Family, change: Family, extra: nat)

  function Ceil(x: real): int {
    -((-x).Floor)
  }

  lemma CeilBounds(x: real)
    ensures x <= Ceil(x) as real < x + 1.0
  {}

  lemma CeilMonotone(x: real, y: real)
    requires x <= y
    ensures Ceil(x) <= Ceil(y)
  {
    CeilBounds(x);
    CeilBounds(y);
  }

  lemma CeilSum(x: real, y: real)
    ensures Ceil(x + y) <= Ceil(x) + Ceil(y)
  {
    CeilBounds(x);
    CeilBounds(y);
    CeilBounds(x + y);
  }

  lemma MulMonotoneReal(a: real, b: real, r: real)
    requires a <= b && r >= 0.0
    ensures a * r <= b * r
  {}

  // ---------- the fee of a selection ----------

  predicate Known(utxos: seq<Utxo>, k: nat)
    requires k <= |utxos|
  {
    forall i :: 0 <= i < k ==> utxos[i].family.Some?
  }

  function Total(utxos: seq<Utxo>, k: nat): int
    requires k <= |utxos|
  {
    if k == 0 then 0 else Total(utxos, k - 1) + utxos[k - 1].value
  }

  function InputSize(utxos: seq<Utxo>, k: nat): (n: int)
    requires k <= |utxos| && Known(utxos, k)
    ensures 58 * k <= n
  {
    if k == 0 then 0 else InputSize(utxos, k - 1) + InputVbytes(utxos[k - 1].family.value)
  }

  /** `_fee_for` with the change output, or without it. */
  function Fee(req: Request, inputSize: int, withChange: bool): int {
    var outputs := OutputVbytes(req.to) + (if withChange then OutputVbytes(req.change) else 0);
    Price(TX_OVERHEAD_VBYTES + inputSize + outputs + req.extra, req.rate)
  }

  /** `int(math.ceil(Decimal(size) * rate))`. */
  function Price(size: int, rate: real): int {
    Ceil(size as real * rate)
  }

  /** The change output never lowers the fee and costs at most its own share, rounded up. */
  lemma ChangeOutputCost(req: Request, inputSize: int)
    requires req.rate >= 0.0
    ensures Fee(req, inputSize, false) <= Fee(req, inputSize, true)
    ensures Fee(req, inputSize, true)
         <= Fee(req, inputSize, false) + Price(OutputVbytes(req.change), req.rate)
  {
    var size := TX_OVERHEAD_VBYTES + inputSize + OutputVbytes(req.to) + req.extra;
    var x, y := size as real * req.rate, OutputVbytes(req.change) as real * req.rate;
    assert (size + OutputVbytes(req.change)) as real * req.rate == x + y;
    MulMonotoneReal(0.0, OutputVbytes(req.change) as real, req.rate);
    CeilMonotone(x, x + y);
    CeilSum(x, y);
  }

  /** The first `k` coins pay the amount and the fee of a transaction without change. */
  predicate Covers(utxos: seq<Utxo>, req: Request, k: nat)
    requires k <= |utxos| && Known(utxos, k)
  {
    Total(utxos, k) >= req.amount + Fee(req, InputSize(utxos, k), false)
  }

  // ---------- the loops of the source ----------

  datatype Outcome = Selected(inputs: seq<Utxo>, fee: int, change: int) | Insufficient | UnsupportedAddress

  method FeeFor(utxos: seq<Utxo>, k: nat, req: Request, withChange: bool) returns (r: Option<int>)
    requires k <= |utxos|
    ensures r.Some? <==> Known(utxos, k)
    ensures r.Some? ==> r.value == Fee(req, InputSize(utxos, k), withChange)
  {
    var size := TX_OVERHEAD_VBYTES;
    for i := 0 to k
      invariant Known(utxos, i) && size == TX_OVERHEAD_VBYTES + InputSize(utxos, i)
    {
      if utxos[i].family.None? {
        return None;
      }
      size := size + InputVbytes(utxos[i].family.value);
    }
    size := size + OutputVbytes(req.to) + (if withChange then OutputVbytes(req.change) else 0);
    size := size + req.extra;
    return Some(Price(size, req.rate));
  }

  /** `_settle`: the fee and change of the current selection, dust change left to the fee. */
  function Settle(total: int, amount: int, withChange: int, withoutChange: int): (int, int) {
    var change := total - amount - withChange;
    if change >= DUST_LIMIT then (withChange, change)
    else if total - amount - withoutChange >= 0 then (withoutChange, 0)
    else (withChange, 0)
  }

  /** The first covering prefix, when every coin up to it is of a known family. */
  predicate FirstCover(utxos: seq<Utxo>, req: Request, k: nat)
    requires k <= |utxos|
  {
    && 1 <= k && Known(utxos, k) && Covers(utxos, req, k)
    && forall j :: 1 <= j < k ==> !Covers(utxos, req, j)
  }

  predicate NoCover(utxos: seq<Utxo>, req: Request, k: nat)
    requires k <= |utxos|
  {
    Known(utxos, k) && forall j :: 1 <= j <= k ==> !Covers(utxos, req, j)
  }

  /** What a selection promises about its request, for every list of coins. */
  ghost predicate Selects(utxos: seq<Utxo>, req: Request, r: Outcome) {
    match r
    case Selected(inputs, fee, change) =>
      var k := |inputs|;
      && k <= |utxos| && inputs == utxos[..k] && FirstCover(utxos, req, k)
      && Accounts(req, Total(utxos, k), InputSize(utxos, k), fee, change)
    case Insufficient => NoCover(utxos, req, |utxos|)
    case UnsupportedAddress =>
      exists k :: 0 <= k < |utxos| && NoCover(utxos, req, k) && utxos[k].family.None?
  }

  /**
   * Value conservation with a bounded overpayment: what the inputs hold beyond amount and change
   * is the reported fee when there is change, and exceeds it by less than the dust limit plus the
   * price of a change output otherwise.
   */
  ghost predicate Accounts(req: Request, total: int, inputSize: int, fee: int, change: int) {
    var paid := total - req.amount - change;
    && (change == 0 || change >= DUST_LIMIT)
    && (change > 0 ==> fee == Fee(req, inputSize, true) && paid == fee)
    && (change == 0 ==> fee == Fee(req, inputSize, false))
    && (change == 0 ==> fee <= paid < fee + DUST_LIMIT + Price(OutputVbytes(req.change), req.rate))
  }

  /** A selection stops at a prefix exactly when the prefix covers the fee without change. */
  lemma SettleStops(utxos: seq<Utxo>, req: Request, k: nat)
    requires req.rate >= 0.0 && k <= |utxos| && Known(utxos, k)
    ensures var total, size := Total(utxos, k), InputSize(utxos, k);
      var (fee, change) := Settle(total, req.amount, Fee(req, size, true), Fee(req, size, false));
      && (total >= req.amount + fee <==> Covers(utxos, req, k))
      && (Covers(utxos, req, k) ==> Accounts(req, total, size, fee, change))
  {
    ChangeOutputCost(req, InputSize(utxos, k));
  }

  method Select(utxos: seq<Utxo>, req: Request) returns (r: Outcome)
    requires req.rate >= 0.0
    ensures Selects(utxos, req, r)
  {
    var total := 0;
    var selected: seq<Utxo> := [];
    for k := 0 to |utxos|
      invariant selected == utxos[..k] && total == Total(utxos, k)
      invariant NoCover(utxos, req, k)
    {
      selected := selected + [utxos[k]];
      total := total + utxos[k].value;
      var withChange := FeeFor(utxos, k + 1, req, true);
      if withChange.None? {
        return UnsupportedAddress;
      }
      var withoutChange := FeeFor(utxos, k + 1, req, false);
      var (fee, change) := Settle(total, req.amount, withChange.value, withoutChange.value);
      SettleStops(utxos, req, k + 1);
      if total >= req.amount + fee {
        return Selected(selected, fee, change);
      }
    }
    return Insufficient;
  }

  // ---------- largest first ----------

  predicate Descending(utxos: seq<Utxo>) {
    forall i, j :: 0 <= i < j < |utxos| ==> utxos[i].value >= utxos[j].value
  }

  function InsertStable(utxos: seq<Utxo>, u: Utxo): seq<Utxo> {
    if utxos == [] || utxos[|utxos| - 1].value >= u.value then utxos + [u]
    else InsertStable(utxos[..|utxos| - 1], u) + [utxos[|utxos| - 1]]
  }

  /** `sorted(..., key=value, reverse=True)`: equal values keep their order. */
  function LargestFirst(utxos: seq<Utxo>): seq<Utxo> {
    if utxos == [] then []
    else InsertStable(LargestFirst(utxos[..|utxos| - 1]), utxos[|utxos| - 1])
  }

  predicate AtLeast(utxos: seq<Utxo>, v: int) {
    forall i :: 0 <= i < |utxos| ==> utxos[i].value >= v
  }

  lemma {:induction false} InsertKeepsOrder(utxos: seq<Utxo>, u: Utxo, v: int)
    requires Descending(utxos)
    ensures Descending(InsertStable(utxos, u))
    ensures AtLeast(utxos, v) && u.value >= v ==> AtLeast(InsertStable(utxos, u), v)
  {
    if utxos != [] && utxos[|utxos| - 1].value < u.value {
      InsertKeepsOrder(utxos[..|utxos| - 1], u, utxos[|utxos| - 1].value);
      InsertKeepsOrder(utxos[..|utxos| - 1], u, v);
    }
  }

  lemma {:induction false} InsertKeepsCoins(utxos: seq<Utxo>, u: Utxo)
    ensures multiset(InsertStable(utxos, u)) == multiset(utxos) + multiset{u}
  {
    if utxos != [] && utxos[|utxos| - 1].value < u.value {
      InsertKeepsCoins(utxos[..|utxos| - 1], u);
      assert utxos == utxos[..|utxos| - 1] + [utxos[|utxos| - 1]];
    }
  }

  lemma {:induction false} LargestFirstSorts(utxos: seq<Utxo>)
    ensures Descending(LargestFirst(utxos)) && multiset(LargestFirst(utxos)) == multiset(utxos)
  {
    if utxos != [] {
      var k := |utxos| - 1;
      LargestFirstSorts(utxos[..k]);
      InsertKeepsOrder(LargestFirst(utxos[..k]), utxos[k], 0);
      InsertKeepsCoins(LargestFirst(utxos[..k]), utxos[k]);
      assert utxos == utxos[..k] + [utxos[k]];
    }
  }

  /** No output is listed twice. */
  ghost predicate DistinctOutpoints(utxos: seq<Utxo>) {
    forall i, j :: 0 <= i < j < |utxos| ==> !SameOutpoint(utxos[i], utxos[j])
  }

  predicate SameOutpoint(u: Utxo, v: Utxo) {
    u.txid == v.txid && u.vout == v.vout
  }

  ghost predicate Lists(utxos: seq<Utxo>, u: Utxo) {
    exists i :: 0 <= i < |utxos| && SameOutpoint(utxos[i], u)
  }

  lemma ListsSnoc(utxos: seq<Utxo>, last: Utxo, u: Utxo)
    ensures Lists(utxos + [last], u) <==> Lists(utxos, u) || SameOutpoint(last, u)
    ensures DistinctOutpoints(utxos + [last]) <==> DistinctOutpoints(utxos) && !Lists(utxos, last)
  {
    var all := utxos + [last];
    assert forall i :: 0 <= i < |utxos| ==> all[i] == utxos[i];
    assert all[|utxos|] == last;
  }

  lemma {:induction false} InsertOutpoints(utxos: seq<Utxo>, u: Utxo, v: Utxo)
    ensures Lists(InsertStable(utxos, u), v) <==> Lists(utxos, v) || SameOutpoint(u, v)
    ensures DistinctOutpoints(InsertStable(utxos, u)) <==> DistinctOutpoints(utxos) && !Lists(utxos, u)
  {
    if utxos == [] || utxos[|utxos| - 1].value >= u.value {
      ListsSnoc(utxos, u, v);
    } else {
      var k := |utxos| - 1;
      InsertOutpoints(utxos[..k], u, v);
      InsertOutpoints(utxos[..k], u, utxos[k]);
      assert utxos == utxos[..k] + [utxos[k]];
      ListsSnoc(utxos[..k], utxos[k], v);
      ListsSnoc(utxos[..k], utxos[k], u);
      ListsSnoc(InsertStable(utxos[..k], u), utxos[k], v);
    }
  }

  /** Sorting neither adds nor merges repeated outputs. */
  lemma {:induction false} LargestFirstOutpoints(utxos: seq<Utxo>, v: Utxo)
    ensures Lists(LargestFirst(utxos), v) <==> Lists(utxos, v)
    ensures DistinctOutpoints(LargestFirst(utxos)) <==> DistinctOutpoints(utxos)
  {
    if utxos != [] {
      var k := |utxos| - 1;
      LargestFirstOutpoints(utxos[..k], v);
      LargestFirstOutpoints(utxos[..k], utxos[k]);
      InsertOutpoints(LargestFirst(utxos[..k]), utxos[k], v);
      ListsSnoc(utxos[..k], utxos[k], v);
      assert utxos == utxos[..k] + [utxos[k]];
    }
  }

  // ---------- completeness and minimality ----------

  /** A choice from a list: strictly increasing positions in it. */
  predicate Choice<T>(items: seq<T>, pick: seq<nat>) {
    && (forall i :: 0 <= i < |pick| ==> pick[i] < |items|)
    && (forall i, j :: 0 <= i < j < |pick| ==> pick[i] < pick[j])
  }

  function Chosen<T>(items: seq<T>, pick: seq<nat>): (r: seq<T>)
    requires Choice(items, pick)
    ensures |r| == |pick| && forall i :: 0 <= i < |r| ==> r[i] == items[pick[i]]
  {
    seq(|pick|, i requires 0 <= i < |pick| => items[pick[i]])
  }

  ghost predicate ChoiceCovers(utxos: seq<Utxo>, req: Request, pick: seq<nat>) {
    && Choice(utxos, pick) && pick != []
    && Known(Chosen(utxos, pick), |pick|)
    && Covers(Chosen(utxos, pick), req, |pick|)
  }

  lemma {:induction false} ChoiceSpread(utxos: seq<Utxo>, pick: seq<nat>, i: nat)
    requires Choice(utxos, pick) && i < |pick|
    ensures i <= pick[i]
  {
    if i > 0 {
      ChoiceSpread(utxos, pick, i - 1);
      assert pick[i - 1] < pick[i];
    }
  }

  /** No `k` coins hold more than the first `k` of a descending list. */
  lemma {:induction false} PrefixIsRichest(utxos: seq<Utxo>, pick: seq<nat>, k: nat)
    requires Descending(utxos) && Choice(utxos, pick) && k <= |pick|
    ensures k <= |utxos| && Total(Chosen(utxos, pick), k) <= Total(utxos, k)
  {
    if k > 0 {
      PrefixIsRichest(utxos, pick, k - 1);
      ChoiceSpread(utxos, pick, k - 1);
    }
  }

  predicate OneFamily(utxos: seq<Utxo>, f: Family) {
    forall i :: 0 <= i < |utxos| ==> utxos[i].family == Some(f)
  }

  lemma {:induction false} OneFamilySize(utxos: seq<Utxo>, f: Family, k: nat)
    requires OneFamily(utxos, f) && k <= |utxos|
    ensures Known(utxos, k) && InputSize(utxos, k) == InputVbytes(f) * k
  {
    if k > 0 { OneFamilySize(utxos, f, k - 1); }
  }

  lemma ChoiceBoundsPrefix(utxos: seq<Utxo>, req: Request, f: Family, pick: seq<nat>)
    requires Descending(utxos) && OneFamily(utxos, f) && ChoiceCovers(utxos, req, pick)
    ensures |pick| <= |utxos| && Known(utxos, |pick|) && Covers(utxos, req, |pick|)
  {
    PrefixIsRichest(utxos, pick, |pick|);
    OneFamilySize(utxos, f, |pick|);
    OneFamilySize(Chosen(utxos, pick), f, |pick|);
  }

  function FirstPositions(k: nat): (pick: seq<nat>)
    ensures |pick| == k && forall i :: 0 <= i < k ==> pick[i] == i
  {
    seq(k, i => i)
  }

  lemma PrefixIsChoice(utxos: seq<Utxo>, req: Request, k: nat)
    requires 1 <= k <= |utxos| && Known(utxos, k) && Covers(utxos, req, k)
    ensures ChoiceCovers(utxos, req, FirstPositions(k))
  {
    SamePrefix(utxos, Chosen(utxos, FirstPositions(k)), k);
  }

  lemma {:induction false} SamePrefix(x: seq<Utxo>, y: seq<Utxo>, k: nat)
    requires k <= |x| && k <= |y| && x[..k] == y[..k] && Known(x, k)
    ensures Known(y, k) && Total(x, k) == Total(y, k) && InputSize(x, k) == InputSize(y, k)
  {
    assert forall i :: 0 <= i < k ==> x[i] == x[..k][i] == y[i];
    if k > 0 {
      assert x[..k - 1] == x[..k][..k - 1] && y[..k - 1] == y[..k][..k - 1];
      SamePrefix(x, y, k - 1);
    }
  }

  /**
   * When every coin is of one family, a largest-first selection succeeds exactly when some set of
   * coins could pay, and no paying set is smaller.
   */
  lemma CompleteAndMinimal(utxos: seq<Utxo>, req: Request, f: Family, r: Outcome)
    requires Descending(utxos) && OneFamily(utxos, f) && Selects(utxos, req, r)
    ensures r.Selected? <==> exists pick :: ChoiceCovers(utxos, req, pick)
    ensures r.Selected? ==> forall pick :: ChoiceCovers(utxos, req, pick) ==> |r.inputs| <= |pick|
  {
    if r.Selected? {
      PrefixIsChoice(utxos, req, |r.inputs|);
    }
    forall pick | ChoiceCovers(utxos, req, pick)
      ensures r.Selected? && |r.inputs| <= |pick|
    {
      ChoiceBoundsPrefix(utxos, req, f, pick);
    }
  }

  lemma AtTen(size: int)
    ensures Price(size, 10.0) == 10 * size
  {
    assert size as real * 10.0 == (10 * size) as real;
  }

  /** Over mixed families the guarantee fails: here the smaller coin alone could pay. */
  lemma MixedFamiliesMiss()
    ensures var utxos := [Utxo([], 0, 1450, Some(P2pkh)), Utxo([], 1, 1400, Some(P2wpkh))];
      var req := Request(300, 10.0, P2wpkh, P2wpkh, 0);
      && Descending(utxos)
      && Selects(utxos, req, Insufficient)
      && ChoiceCovers(utxos, req, [1])
  {
    var utxos := [Utxo([], 0, 1450, Some(P2pkh)), Utxo([], 1, 1400, Some(P2wpkh))];
    var req := Request(300, 10.0, P2wpkh, P2wpkh, 0);
    assert Total(utxos, 1) == 1450 && Total(utxos, 2) == 2850;
    assert InputSize(utxos, 1) == 148 && InputSize(utxos, 2) == 216;
    AtTen(190);
    AtTen(258);
    AtTen(110);
    assert Fee(req, 148, false) == 1900 && Fee(req, 216, false) == 2580;
    assert Chosen(utxos, [1]) == [utxos[1]];
    assert Total([utxos[1]], 1) == 1400 && InputSize([utxos[1]], 1) == 68;
    assert Fee(req, 68, false) == 1100;
  }

  /** Over mixed families a selection can be larger than needed: here the second coin alone could pay. */
  lemma MixedFamiliesWaste()
    ensures var utxos := [Utxo([], 0, 1950, Some(P2pkh)), Utxo([], 1, 1900, Some(P2wpkh))];
      var req := Request(300, 10.0, P2wpkh, P2wpkh, 0);
      && Descending(utxos)
      && Selects(utxos, req, Selected(utxos, 2890, 660))
      && ChoiceCovers(utxos, req, [1])
  {
    var utxos := [Utxo([], 0, 1950, Some(P2pkh)), Utxo([], 1, 1900, Some(P2wpkh))];
    var req := Request(300, 10.0, P2wpkh, P2wpkh, 0);
    assert Total(utxos, 1) == 1950 && Total(utxos, 2) == 3850;
    assert InputSize(utxos, 1) == 148 && InputSize(utxos, 2) == 216;
    AtTen(190);
    AtTen(258);
    AtTen(289);
    AtTen(110);
    assert Fee(req, 148, false) == 1900 && Fee(req, 216, false) == 2580;
    assert Fee(req, 216, true) == 2890;
    assert utxos[..2] == utxos;
    assert Chosen(utxos, [1]) == [utxos[1]];
    assert Total([utxos[1]], 1) == 1900 && InputSize([utxos[1]], 1) == 68;
    assert Fee(req, 68, false) == 1100;
  }
}
