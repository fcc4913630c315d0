/** `_address_utxos` of src/wallet_agent/chains/btc.py: the coins of all addresses of a wallet in one list. */
module CoinPool {
  import opened Framing
  import opened Segwit
  import opened Scripts
  import opened CoinSelection
  import opened TransferBuilder
  import Base58
  import Wrappers

  /** The coins of each address in turn; `fetch` is what the explorer answers for an address. */
  function Pooled(fetch: string -> seq<Utxo>, addresses: seq<string>): seq<Utxo> {
    if addresses == [] then []
    else Pooled(fetch, addresses[..|addresses| - 1]) + fetch(addresses[|addresses| - 1])
  }

  method AddressUtxos(fetch: string -> seq<Utxo>, addresses: seq<string>) returns (coins: seq<Utxo>)
    ensures coins == LargestFirst(Pooled(fetch, addresses))
    ensures Descending(coins) && multiset(coins) == multiset(Pooled(fetch, addresses))
  {
    var utxos: seq<Utxo> := [];
    for k := 0 to |addresses|
      invariant utxos == Pooled(fetch, addresses[..k])
    {
      ghost var before := utxos;
      var items := fetch(addresses[k]);
      for i := 0 to |items|
        invariant utxos == before + items[..i]
      {
        utxos := utxos + [items[i]];
      }
      assert items[..|items|] == items && addresses[..k + 1][..k] == addresses[..k];
    }
    assert addresses[..|addresses|] == addresses;
    LargestFirstSorts(utxos);
    coins := LargestFirst(utxos);
  }

  // ---------- when no output is listed twice ----------

  ghost predicate Overlap(x: seq<Utxo>, y: seq<Utxo>) {
    exists i :: 0 <= i < |y| && Lists(x, y[i])
  }

  lemma {:induction false} DistinctConcat(x: seq<Utxo>, y: seq<Utxo>)
    ensures DistinctOutpoints(x + y) <==> DistinctOutpoints(x) && DistinctOutpoints(y) && !Overlap(x, y)
  {
    if y == [] {
      assert x + y == x;
    } else {
      var k := |y| - 1;
      var z := y[..k];
      DistinctConcat(x, z);
      assert x + y == x + z + [y[k]] && y == z + [y[k]];
      ListsSnoc(x + z, y[k], y[k]);
      ListsSnoc(z, y[k], y[k]);
      ListsConcat(x, z, y[k]);
      OverlapSnoc(x, z, y[k]);
    }
  }

  lemma ListsConcat(x: seq<Utxo>, y: seq<Utxo>, u: Utxo)
    ensures Lists(x + y, u) <==> Lists(x, u) || Lists(y, u)
  {
    assert forall i :: 0 <= i < |x| ==> (x + y)[i] == x[i];
    assert forall i :: 0 <= i < |y| ==> (x + y)[|x| + i] == y[i];
  }

  lemma OverlapSnoc(x: seq<Utxo>, z: seq<Utxo>, u: Utxo)
    ensures Overlap(x, z + [u]) <==> Overlap(x, z) || Lists(x, u)
  {
    assert forall i :: 0 <= i < |z| ==> (z + [u])[i] == z[i];
    assert (z + [u])[|z|] == u;
  }

  /** The addresses share no output, and none of them lists one twice. */
  ghost predicate Disjoint(fetch: string -> seq<Utxo>, addresses: seq<string>) {
    && (forall i :: 0 <= i < |addresses| ==> DistinctOutpoints(fetch(addresses[i])))
    && (forall i, j :: 0 <= i < j < |addresses| ==> !Overlap(fetch(addresses[i]), fetch(addresses[j])))
  }

  lemma {:induction false} PooledLists(fetch: string -> seq<Utxo>, addresses: seq<string>, u: Utxo)
    ensures Lists(Pooled(fetch, addresses), u) <==> exists i :: 0 <= i < |addresses| && Lists(fetch(addresses[i]), u)
  {
    if addresses != [] {
      var k := |addresses| - 1;
      PooledLists(fetch, addresses[..k], u);
      ListsConcat(Pooled(fetch, addresses[..k]), fetch(addresses[k]), u);
      assert forall i :: 0 <= i < k ==> addresses[..k][i] == addresses[i];
    }
  }

  lemma OverlapPooled(fetch: string -> seq<Utxo>, addresses: seq<string>, coins: seq<Utxo>)
    ensures Overlap(Pooled(fetch, addresses), coins)
      <==> exists i :: 0 <= i < |addresses| && Overlap(fetch(addresses[i]), coins)
  {
    forall c | 0 <= c < |coins|
      ensures Lists(Pooled(fetch, addresses), coins[c])
        <==> exists i :: 0 <= i < |addresses| && Lists(fetch(addresses[i]), coins[c])
    {
      PooledLists(fetch, addresses, coins[c]);
    }
  }

  /** The pool lists every output once if and only if no address repeats one and no two addresses share one. */
  lemma {:induction false} PooledDistinct(fetch: string -> seq<Utxo>, addresses: seq<string>)
    ensures DistinctOutpoints(Pooled(fetch, addresses)) <==> Disjoint(fetch, addresses)
  {
    if addresses != [] {
      var k := |addresses| - 1;
      var earlier := addresses[..k];
      PooledDistinct(fetch, earlier);
      DistinctConcat(Pooled(fetch, earlier), fetch(addresses[k]));
      OverlapPooled(fetch, earlier, fetch(addresses[k]));
      DisjointSnoc(fetch, earlier, addresses[k]);
      assert addresses == earlier + [addresses[k]];
    }
  }

  lemma DisjointSnoc(fetch: string -> seq<Utxo>, earlier: seq<string>, last: string)
    ensures Disjoint(fetch, earlier + [last]) <==>
      && Disjoint(fetch, earlier) && DistinctOutpoints(fetch(last))
      && !exists i :: 0 <= i < |earlier| && Overlap(fetch(earlier[i]), fetch(last))
  {
    var all := earlier + [last];
    assert forall i :: 0 <= i < |earlier| ==> all[i] == earlier[i];
    assert all[|earlier|] == last;
  }

  // ---------- what an address stands for ----------

  /** The 21-byte payload of a Base58Check address, or the witness program of any other. */
  datatype Destination = Payload(p: bytes) | Program(w: Witness)

  predicate Legacy(text: string) {
    StartsWith(text, '1') || StartsWith(text, '3')
  }

  ghost predicate Destined(env: Env, address: string, d: Destination) {
    var text := env.text.strip(address);
    match d
    case Payload(p) => Legacy(text) && SpellsPayload(env, text, p, if text[0] == '1' then 0 else 5)
    case Program(w) => text != "" && !Legacy(text) && Accepts(env.text, text, w)
  }

  method ValidBitcoinAddress(env: Env, address: string) returns (valid: bool)
    ensures valid <==> exists d :: Destined(env, address, d)
  {
    var text := env.text.strip(address);
    if text == "" {
      return false;
    }
    if Legacy(text) {
      var version: nat := if text[0] == '1' then 0 else 5;
      var p := Base58.CheckPayload(text, Wrappers.Some(version), env.checksum);
      assert p.Some? ==> Destined(env, address, Payload(p.value));
      return p.Some?;
    }
    var w := Decode(env.text, text);
    assert w.Some? ==> Destined(env, address, Program(w.value));
    return w.Some?;
  }

  /** `valid` is the check above, and stripping a text twice is stripping it once. */
  ghost predicate Checks(env: Env, valid: string -> bool) {
    && (forall x :: valid(x) <==> exists d :: Destined(env, x, d))
    && (forall x :: env.text.strip(env.text.strip(x)) == env.text.strip(x))
  }

  /** Two texts of one witness address: they differ in letter case alone. */
  predicate TwoCases(env: Env, a: string, b: string) {
    a != b && !Legacy(a) && !Legacy(b) && env.text.lower(a) == env.text.lower(b)
  }

  /** The destination of an address is fixed by its text. */
  lemma OneDestination(env: Env, a: string, d: Destination, e: Destination)
    requires Destined(env, a, d) && Destined(env, a, e)
    ensures d == e
  {
    var text := env.text.strip(a);
    if Legacy(text) {
      SamePayloads(env, text, d.p, e.p);
    } else {
      EncodeInjective(d.w, e.w);
    }
  }

  lemma SamePayloads(env: Env, text: string, p: bytes, q: bytes)
    requires |p| == |q| == 21 && |env.checksum(p)| == |env.checksum(q)| == 4
    requires text == Base58.Encoded(p + env.checksum(p)) == Base58.Encoded(q + env.checksum(q))
    ensures p == q
  {
    Base58.DecodeOfEncode(p + env.checksum(p));
    Base58.DecodeOfEncode(q + env.checksum(q));
    assert p == (p + env.checksum(p))[..21] == (q + env.checksum(q))[..21] == q;
  }

  /** Two listed texts stand for one destination exactly when they are one text, or one witness address in two cases. */
  lemma SameDestination(env: Env, a: string, b: string, d: Destination, e: Destination)
    requires Destined(env, a, d) && Destined(env, b, e) && env.text.strip(a) == a && env.text.strip(b) == b
    ensures d == e <==> a == b || TwoCases(env, a, b)
  {
    if a == b {
      OneDestination(env, a, d, e);
    } else if TwoCases(env, a, b) {
      EncodeInjective(d.w, e.w);
    }
  }

  // ---------- when a wallet lists no output twice ----------

  /** The explorer answers by destination: every output has one owner, and is listed once for it. */
  ghost predicate Ledger(env: Env, fetch: string -> seq<Utxo>, owner: (bytes, int) -> Destination) {
    && (forall a, d :: Destined(env, a, d) ==>
      DistinctOutpoints(fetch(a)) && forall i :: 0 <= i < |fetch(a)| ==> owner(fetch(a)[i].txid, fetch(a)[i].vout) == d)
    && (forall a, b, d :: Destined(env, a, d) && Destined(env, b, d) ==> fetch(a) == fetch(b))
  }

  lemma SharedExactly(env: Env, fetch: string -> seq<Utxo>, owner: (bytes, int) -> Destination, a: string, b: string,
                      d: Destination, e: Destination)
    requires Ledger(env, fetch, owner) && Destined(env, a, d) && Destined(env, b, e) && a != b
    requires env.text.strip(a) == a && env.text.strip(b) == b
    ensures Overlap(fetch(a), fetch(b)) <==> TwoCases(env, a, b) && fetch(a) != []
  {
    SameDestination(env, a, b, d, e);
    if i, j :| 0 <= i < |fetch(a)| && 0 <= j < |fetch(b)| && SameOutpoint(fetch(a)[i], fetch(b)[j]) {
      assert d == e;
    }
    if TwoCases(env, a, b) && fetch(a) != [] {
      assert SameOutpoint(fetch(a)[0], fetch(b)[0]);
    }
  }

  lemma ListedText(env: Env, valid: string -> bool, candidates: seq<string>, i: nat) returns (d: Destination)
    requires Checks(env, valid) && i < |FirstAppearances(env.text.strip, valid, candidates)|
    ensures var a := FirstAppearances(env.text.strip, valid, candidates)[i];
      env.text.strip(a) == a && Destined(env, a, d)
  {
    var a := FirstAppearances(env.text.strip, valid, candidates)[i];
    AppearancesListed(env.text.strip, valid, candidates, a);
    var k :| 0 <= k < |candidates| && Usable(env.text.strip, valid, candidates[k]) == Wrappers.Some(a);
    d :| Destined(env, a, d);
  }

  /**
   * The coins of a wallet hold no output twice if and only if no two of its listed texts are one witness
   * address in two letter cases that holds coins.
   */
  lemma ListedOnce(env: Env, valid: string -> bool, fetch: string -> seq<Utxo>, owner: (bytes, int) -> Destination,
                   candidates: seq<string>)
    requires Checks(env, valid) && Ledger(env, fetch, owner)
    ensures var listed := FirstAppearances(env.text.strip, valid, candidates);
      DistinctOutpoints(Pooled(fetch, listed)) <==>
        forall i, j :: 0 <= i < j < |listed| && TwoCases(env, listed[i], listed[j]) ==> fetch(listed[i]) == []
  {
    var listed := FirstAppearances(env.text.strip, valid, candidates);
    PooledDistinct(fetch, listed);
    AppearancesDistinct(env.text.strip, valid, candidates);
    forall i | 0 <= i < |listed| ensures DistinctOutpoints(fetch(listed[i])) {
      var d := ListedText(env, valid, candidates, i);
    }
    forall i, j | 0 <= i < j < |listed|
      ensures Overlap(fetch(listed[i]), fetch(listed[j])) <==> TwoCases(env, listed[i], listed[j]) && fetch(listed[i]) != []
    {
      var d := ListedText(env, valid, candidates, i);
      var e := ListedText(env, valid, candidates, j);
      SharedExactly(env, fetch, owner, listed[i], listed[j], d, e);
    }
  }

  /** The lower-case and the upper-case text of a witness address are both valid, and both stay listed. */
  lemma BothCasesListed(env: Env, valid: string -> bool, w: Witness, a: string, b: string)
    requires Checks(env, valid) && Standard(w) && a == Encode(w) && b == env.text.upper(a) != a
    requires env.text.strip(a) == a && env.text.strip(b) == b != "" && !Legacy(b)
    requires env.text.lower(a) == env.text.lower(b) == a && env.text.upper(b) == b
    ensures FirstAppearances(env.text.strip, valid, [a, b]) == [a, b] && TwoCases(env, a, b)
  {
    assert a[..3] == "bc1";
    assert Destined(env, a, Program(w)) && Destined(env, b, Program(w));
    assert [a, b][..1] == [a] && [a][..0] == [];
    assert FirstAppearances(env.text.strip, valid, [a]) == [a];
  }

  /** A coin fetched for both is spent twice exactly when it cannot pay alone and twice its value would pay. */
  lemma CountedTwice(fetch: string -> seq<Utxo>, a: string, b: string, u: Utxo, req: Request, r: Outcome)
    requires fetch(a) == fetch(b) == [u] && u.family.Some?
    requires Selects(LargestFirst(Pooled(fetch, [a, b])), req, r)
    ensures r.Selected? && r.inputs == [u, u] <==> !Covers([u, u], req, 1) && Covers([u, u], req, 2)
  {
    PooledTwo(fetch, [a, b]);
    SameTwice([u, u]);
  }

  lemma PooledTwo(fetch: string -> seq<Utxo>, addresses: seq<string>)
    requires |addresses| == 2
    ensures Pooled(fetch, addresses) == fetch(addresses[0]) + fetch(addresses[1])
  {
    assert addresses[..1][..0] == [];
    assert Pooled(fetch, addresses[..1]) == [] + fetch(addresses[0]);
  }

  lemma SameTwice(pair: seq<Utxo>)
    requires |pair| == 2 && pair[0] == pair[1]
    ensures LargestFirst(pair) == pair
  {
    assert pair[..1][..0] == [];
    assert LargestFirst(pair[..1]) == pair[..1];
  }
}
