/** Which sets of coins can pay a request at all, and when a largest-first selection misses them. */
module PayableSets {
  import opened Scripts
  import opened CoinSelection

  // ---------- what coins bring in ----------

  /** The price of a number of bytes, before it is rounded up. */
  function Cost(rate: real): int -> real {
    (size: int) => size as real * rate
  }

  ghost predicate Additive(cost: int -> real) {
    forall a, b :: cost(a + b) == cost(a) + cost(b)
  }

  lemma CostAdditive(rate: real)
    ensures Additive(Cost(rate))
  {}

  /** What a coin is worth to a transaction: its value less the price of spending it. */
  function Net(u: Utxo, cost: int -> real): real {
    if u.family.None? then 0.0 else u.value as real - cost(InputVbytes(u.family.value))
  }

  function Nets(utxos: seq<Utxo>, cost: int -> real): (nets: seq<real>)
    ensures |nets| == |utxos| && forall i :: 0 <= i < |nets| ==> nets[i] == Net(utxos[i], cost)
  {
    seq(|utxos|, i requires 0 <= i < |utxos| => Net(utxos[i], cost))
  }

  /** The bytes of a transaction without change and without inputs. */
  function BaseSize(req: Request): int {
    TX_OVERHEAD_VBYTES + OutputVbytes(req.to) + req.extra
  }

  /** What a request asks for before any input: the amount and the price of the rest of the transaction. */
  function Bare(req: Request): real {
    req.amount as real + Cost(req.rate)(BaseSize(req))
  }

  function Sum(nets: seq<real>): real {
    if nets == [] then 0.0 else Sum(nets[..|nets| - 1]) + nets[|nets| - 1]
  }

  function Positive(x: real): real {
    if x > 0.0 then x else 0.0
  }

  /** The most that up to `m` of the numbers add up to. */
  function Best(nets: seq<real>, m: nat): real {
    if nets == [] || m == 0 then 0.0
    else
      var rest := nets[..|nets| - 1];
      var with := Best(rest, m - 1) + nets[|nets| - 1];
      if with > Best(rest, m) then with else Best(rest, m)
  }

  /** The sum of the positive numbers. */
  function Gain(nets: seq<real>): real {
    if nets == [] then 0.0 else Gain(nets[..|nets| - 1]) + Positive(nets[|nets| - 1])
  }

  /** A limit that does not bind leaves every positive number in. */
  lemma {:induction false} BestOfAll(nets: seq<real>, m: nat)
    requires m >= |nets|
    ensures Best(nets, m) == Gain(nets)
  {
    if nets != [] {
      var rest := nets[..|nets| - 1];
      BestOfAll(rest, m);
      BestOfAll(rest, m - 1);
    }
  }

  /** No choice of at most `m` numbers adds up to more. */
  lemma {:induction false} NoneBetter(nets: seq<real>, pick: seq<nat>, m: nat)
    requires Choice(nets, pick) && |pick| <= m
    ensures Sum(Chosen(nets, pick)) <= Best(nets, m)
    decreases |nets|
  {
    if nets != [] && m > 0 {
      var n := |nets| - 1;
      var rest := nets[..n];
      if pick != [] && pick[|pick| - 1] == n {
        var fewer := pick[..|pick| - 1];
        NoneBetter(rest, fewer, m - 1);
        assert Chosen(nets, pick)[..|pick| - 1] == Chosen(rest, fewer);
      } else {
        Below(nets, pick);
        NoneBetter(rest, pick, m);
        assert Chosen(nets, pick) == Chosen(rest, pick);
      }
    }
  }

  lemma Below(nets: seq<real>, pick: seq<nat>)
    requires Choice(nets, pick) && nets != [] && (pick != [] ==> pick[|pick| - 1] != |nets| - 1)
    ensures Choice(nets[..|nets| - 1], pick)
  {}

  /** Some choice of at most `m` numbers, none of them zero, reaches it. */
  lemma {:induction false} SomeBest(nets: seq<real>, m: nat) returns (pick: seq<nat>)
    ensures Choice(nets, pick) && |pick| <= m && Sum(Chosen(nets, pick)) == Best(nets, m)
    ensures forall i :: 0 <= i < |pick| ==> nets[pick[i]] != 0.0
    decreases |nets|
  {
    pick := [];
    if nets != [] && m > 0 {
      var n := |nets| - 1;
      var rest := nets[..n];
      if Best(rest, m - 1) + nets[n] > Best(rest, m) {
        var fewer := SomeBest(rest, m - 1);
        pick := fewer + [n];
        assert Chosen(nets, pick)[..|pick| - 1] == Chosen(rest, fewer);
        BestGrows(rest, m - 1);
      } else {
        pick := SomeBest(rest, m);
        assert Chosen(nets, pick) == Chosen(rest, pick);
      }
    }
  }

  lemma {:induction false} BestGrows(nets: seq<real>, m: nat)
    ensures 0.0 <= Best(nets, m) <= Best(nets, m + 1)
  {
    if nets != [] {
      BestGrows(nets[..|nets| - 1], m);
      if m > 0 { BestGrows(nets[..|nets| - 1], m - 1); }
    }
  }

  // ---------- paying, in terms of nets ----------

  lemma {:induction false} NetOfPrefix(utxos: seq<Utxo>, cost: int -> real, k: nat)
    requires k <= |utxos| && Known(utxos, k) && Additive(cost)
    ensures Sum(Nets(utxos, cost)[..k]) == Total(utxos, k) as real - cost(InputSize(utxos, k))
  {
    if k == 0 {
      assert cost(0 + 0) == cost(0) + cost(0);
    } else {
      NetOfPrefix(utxos, cost, k - 1);
      assert Nets(utxos, cost)[..k][..k - 1] == Nets(utxos, cost)[..k - 1];
    }
  }

  /** Rounding the fee up makes no difference to what can be paid: the amounts are whole. */
  lemma CeilWhole(n: int, x: real)
    ensures n >= Ceil(x) <==> n as real >= x
  {
    CeilBounds(x);
  }

  lemma PaysByNet(total: int, size: int, base: int, amount: int, cost: int -> real)
    requires Additive(cost)
    ensures total >= amount + Ceil(cost(size + base)) <==> total as real - cost(size) >= amount as real + cost(base)
  {
    CeilWhole(total - amount, cost(size + base));
  }

  lemma FeeIsCost(req: Request, size: int)
    ensures Fee(req, size, false) == Ceil(Cost(req.rate)(size + BaseSize(req)))
  {
    var whole := size + BaseSize(req);
    assert TX_OVERHEAD_VBYTES + size + (OutputVbytes(req.to) + 0) + req.extra == whole;
    assert Fee(req, size, false) == Price(whole, req.rate);
  }

  lemma CoversByNet(utxos: seq<Utxo>, req: Request, k: nat)
    requires k <= |utxos| && Known(utxos, k)
    ensures Covers(utxos, req, k) <==> Sum(Nets(utxos, Cost(req.rate))[..k]) >= Bare(req)
  {
    CostAdditive(req.rate);
    FeeIsCost(req, InputSize(utxos, k));
    NetOfPrefix(utxos, Cost(req.rate), k);
    PaysByNet(Total(utxos, k), InputSize(utxos, k), BaseSize(req), req.amount, Cost(req.rate));
  }

  lemma ChoiceByNet(utxos: seq<Utxo>, req: Request, pick: seq<nat>)
    requires Choice(utxos, pick) && Known(Chosen(utxos, pick), |pick|)
    ensures Covers(Chosen(utxos, pick), req, |pick|) <==> Sum(Chosen(Nets(utxos, Cost(req.rate)), pick)) >= Bare(req)
  {
    var coins := Chosen(utxos, pick);
    CoversByNet(coins, req, |pick|);
    assert Nets(coins, Cost(req.rate))[..|pick|] == Chosen(Nets(utxos, Cost(req.rate)), pick);
  }

  lemma BareAbove(req: Request)
    requires req.amount > 0 && req.rate >= 0.0
    ensures Bare(req) > 0.0
  {
    MulMonotoneReal(0.0, (TX_OVERHEAD_VBYTES + OutputVbytes(req.to) + req.extra) as real, req.rate);
  }

  /**
   * Over any mix of families: some set of at most `m` coins can pay a request if and only if the best
   * `m` nets add up to what the request asks for before its inputs.
   */
  lemma PayableWithin(utxos: seq<Utxo>, req: Request, m: nat)
    requires req.amount > 0 && req.rate >= 0.0
    ensures (exists pick :: ChoiceCovers(utxos, req, pick) && |pick| <= m)
      <==> Best(Nets(utxos, Cost(req.rate)), m) >= Bare(req)
  {
    var nets := Nets(utxos, Cost(req.rate));
    BareAbove(req);
    forall pick | ChoiceCovers(utxos, req, pick) && |pick| <= m ensures Best(nets, m) >= Bare(req) {
      ChoiceByNet(utxos, req, pick);
      NoneBetter(nets, pick, m);
    }
    if Best(nets, m) >= Bare(req) {
      var pick := SomeBest(nets, m);
      ChoiceByNet(utxos, req, pick);
      assert ChoiceCovers(utxos, req, pick);
    }
  }

  /** Some set of coins can pay if and only if the coins worth more than they cost to spend can. */
  lemma PayableExactly(utxos: seq<Utxo>, req: Request)
    requires req.amount > 0 && req.rate >= 0.0
    ensures (exists pick :: ChoiceCovers(utxos, req, pick)) <==> Gain(Nets(utxos, Cost(req.rate))) >= Bare(req)
  {
    var n := |utxos|;
    PayableWithin(utxos, req, n);
    BestOfAll(Nets(utxos, Cost(req.rate)), n);
    forall pick | ChoiceCovers(utxos, req, pick) ensures |pick| <= n {
      ChoiceSpread(utxos, pick, |pick| - 1);
    }
  }

  /** No run of coins from the front brings in what the request asks for. */
  ghost predicate NoPrefixPays(utxos: seq<Utxo>, req: Request) {
    forall k :: 1 <= k <= |utxos| && Known(utxos, k) ==> Sum(Nets(utxos, Cost(req.rate))[..k]) < Bare(req)
  }

  lemma SelectedExactly(utxos: seq<Utxo>, req: Request, r: Outcome)
    requires Selects(utxos, req, r)
    ensures r.Selected? <==> !NoPrefixPays(utxos, req)
  {
    forall k | 1 <= k <= |utxos| && Known(utxos, k)
      ensures Covers(utxos, req, k) <==> Sum(Nets(utxos, Cost(req.rate))[..k]) >= Bare(req)
    {
      CoversByNet(utxos, req, k);
    }
    if r.UnsupportedAddress? {
      var k :| 0 <= k < |utxos| && NoCover(utxos, req, k) && utxos[k].family.None?;
      assert forall j :: k < j <= |utxos| ==> !Known(utxos, j);
    }
  }

  /**
   * Selection misses a set of coins that could pay if and only if the nets worth having add up to what
   * is asked, and those of no run of coins from the front do.
   */
  lemma MissesExactly(utxos: seq<Utxo>, req: Request, r: Outcome)
    requires Selects(utxos, req, r) && req.amount > 0 && req.rate >= 0.0
    ensures !r.Selected? && (exists pick :: ChoiceCovers(utxos, req, pick))
      <==> Gain(Nets(utxos, Cost(req.rate))) >= Bare(req) && NoPrefixPays(utxos, req)
  {
    PayableExactly(utxos, req);
    SelectedExactly(utxos, req, r);
  }

  /** What selection returns, as far as the number of coins goes, is the first covering prefix. */
  lemma SelectedSize(utxos: seq<Utxo>, req: Request, r: Outcome, k: nat)
    requires Selects(utxos, req, r) && k <= |utxos| && FirstCover(utxos, req, k)
    ensures r.Selected? && |r.inputs| == k
  {}

  lemma NoneSmaller(utxos: seq<Utxo>, req: Request, k: nat)
    requires k > 0 && req.amount > 0 && req.rate >= 0.0
    ensures (forall pick :: ChoiceCovers(utxos, req, pick) ==> k <= |pick|)
      <==> Best(Nets(utxos, Cost(req.rate)), k - 1) < Bare(req)
  {
    PayableWithin(utxos, req, k - 1);
  }

  /**
   * The first covering prefix, which is what selection takes, is as small as any payable set if and only
   * if the best nets of one coin fewer do not add up to what is asked.
   */
  lemma {:induction false} SmallestExactly(utxos: seq<Utxo>, req: Request, r: Outcome, k: nat)
    requires Selects(utxos, req, r) && k <= |utxos| && FirstCover(utxos, req, k)
    requires req.amount > 0 && req.rate >= 0.0
    ensures r.Selected? && |r.inputs| == k
    ensures (forall pick :: ChoiceCovers(utxos, req, pick) ==> k <= |pick|)
      <==> Best(Nets(utxos, Cost(req.rate)), k - 1) < Bare(req)
  {
    SelectedSize(utxos, req, r, k);
    NoneSmaller(utxos, req, k);
  }
}
