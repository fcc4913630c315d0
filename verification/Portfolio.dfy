/** Aggregating balances into portfolio rows, as `query_portfolio` of src/wallet_agent/portfolio.py does. */
module Portfolio {
  import opened Wrappers

  // ---------- inputs ----------

  /** The naming rules of the domain layer. */
  datatype Names = Names(chain: string -> string, symbol: string -> string, lower: string -> string, evm: string -> bool)

  /** One balance as the wallet service reports it; the address is empty for a native coin. */
  datatype Balance = Balance(chain: string, symbol: string, address: string, amount: real, raw: int, usd: Option<real>)

  datatype PriceKey = PriceKey(chain: string, symbol: string, address: string)

  /** One account queried, with the balances it answered (none if it failed) and the prices found for them. */
  datatype Job = Job(chain: string, address: string, balances: seq<Balance>, prices: map<PriceKey, real>)

  datatype Identity = Identity(chain: string, symbol: string, address: string)

  /** `usd` is unknown if any balance in the row is unpriced. */
  datatype Row = Row(amount: real, raw: int, usd: Option<real>, addresses: seq<string>, unitPrice: Option<real>)

  // ---------- which balances count, and as what ----------

  datatype Share = Share(id: Identity, amount: real, raw: int, usd: Option<real>, address: string, price: Option<real>)

  function PriceOf(names: Names, job: Job, b: Balance): Option<real> {
    var key := PriceKey(job.chain, names.symbol(b.symbol), b.address);
    if key in job.prices then Some(job.prices[key]) else None
  }

  function ValueOf(names: Names, job: Job, b: Balance): Option<real> {
    if b.usd.Some? then b.usd
    else
      var price := PriceOf(names, job, b);
      if price.Some? then Some(b.amount * price.value) else None
  }

  /** A balance counts if it is on the queried chain, of the wanted symbol, positive, and not worthless. */
  predicate Counts(names: Names, wanted: string, job: Job, b: Balance) {
    && names.chain(b.chain) == job.chain
    && (wanted == "" || names.symbol(b.symbol) == wanted)
    && b.amount > 0.0
    && (ValueOf(names, job, b).Some? ==> ValueOf(names, job, b).value > 0.0)
  }

  function IdentityOf(names: Names, job: Job, b: Balance): Identity {
    Identity(job.chain, names.symbol(b.symbol), if names.evm(job.chain) then names.lower(b.address) else b.address)
  }

  function ShareOf(names: Names, job: Job, b: Balance): Share {
    Share(IdentityOf(names, job, b), b.amount, b.raw, ValueOf(names, job, b), job.address, PriceOf(names, job, b))
  }

  function SharesOfJob(names: Names, wanted: string, job: Job, balances: seq<Balance>): seq<Share> {
    if balances == [] then []
    else
      var b := balances[|balances| - 1];
      SharesOfJob(names, wanted, job, balances[..|balances| - 1])
      + (if Counts(names, wanted, job, b) then [ShareOf(names, job, b)] else [])
  }

  /** Everything that counts, in the order it is met. */
  function Shares(names: Names, wanted: string, jobs: seq<Job>): seq<Share> {
    if jobs == [] then []
    else
      var job := jobs[|jobs| - 1];
      Shares(names, wanted, jobs[..|jobs| - 1]) + SharesOfJob(names, wanted, job, job.balances)
  }

  // ---------- what a row should hold ----------

  datatype Sums = Sums(count: nat, amount: real, raw: int, usd: real, unpriced: nat)

  const NONE := Sums(0, 0.0, 0, 0.0, 0)

  function Plus(a: Sums, b: Sums): Sums {
    Sums(a.count + b.count, a.amount + b.amount, a.raw + b.raw, a.usd + b.usd, a.unpriced + b.unpriced)
  }

  function Part(s: Share, id: Identity): Sums {
    if s.id != id then NONE
    else Sums(1, s.amount, s.raw, if s.usd.Some? then s.usd.value else 0.0, if s.usd.Some? then 0 else 1)
  }

  function SumOf(shares: seq<Share>, id: Identity): Sums {
    if shares == [] then NONE
    else Plus(SumOf(shares[..|shares| - 1], id), Part(shares[|shares| - 1], id))
  }

  /** The row holds exactly the sums of the balances counted for it. */
  predicate Holds(row: Row, sums: Sums) {
    && row.amount == sums.amount && row.raw == sums.raw
    && row.usd == (if sums.unpriced > 0 then None else Some(sums.usd))
    && |row.addresses| == sums.count
  }

  ghost predicate Aggregates(rows: map<Identity, Row>, shares: seq<Share>) {
    forall id :: (id in rows <==> SumOf(shares, id).count > 0) && (id in rows ==> Holds(rows[id], SumOf(shares, id)))
  }

  /** Some of the first `n` balances of the account belong to another chain. */
  predicate Mismatch(names: Names, job: Job, n: nat)
    requires n <= |job.balances|
  {
    n > 0 && (Mismatch(names, job, n - 1) || names.chain(job.balances[n - 1].chain) != job.chain)
  }

  // ---------- the loops ----------

  function Added(row: Row, s: Share): Row {
    Row(row.amount + s.amount, row.raw + s.raw,
        if row.usd.Some? && s.usd.Some? then Some(row.usd.value + s.usd.value) else None,
        row.addresses + [s.address],
        if row.unitPrice.None? then s.price else row.unitPrice)
  }

  lemma SumOfMore(shares: seq<Share>, s: Share, id: Identity)
    ensures SumOf(shares + [s], id) == Plus(SumOf(shares, id), Part(s, id))
  {
    assert (shares + [s])[..|shares|] == shares;
  }

  lemma PlusKeeps(a: Sums)
    ensures Plus(a, NONE) == a
  {
  }

  lemma RowAdded(row: Row, sums: Sums, s: Share)
    requires Holds(row, sums)
    ensures Holds(Added(row, s), Plus(sums, Part(s, s.id)))
  {
  }

  lemma AddedHolds(rows: map<Identity, Row>, shares: seq<Share>, s: Share, row: Row)
    requires Aggregates(rows, shares)
    requires row == if s.id in rows then rows[s.id] else Row(0.0, 0, Some(0.0), [], s.price)
    ensures Aggregates(rows[s.id := Added(row, s)], shares + [s])
  {
    CountsNothing(shares, s.id);
    assert Holds(row, SumOf(shares, s.id));
    RowAdded(row, SumOf(shares, s.id), s);
    forall id ensures id != s.id ==> SumOf(shares + [s], id) == SumOf(shares, id) {
      SumOfMore(shares, s, id);
      PlusKeeps(SumOf(shares, id));
    }
    SumOfMore(shares, s, s.id);
  }

  lemma {:induction false} CountsNothing(shares: seq<Share>, id: Identity)
    ensures SumOf(shares, id).count == 0 ==> SumOf(shares, id) == NONE
  {
    if shares != [] {
      var init, last := shares[..|shares| - 1], shares[|shares| - 1];
      CountsNothing(init, id);
      if last.id != id {
        PlusKeeps(SumOf(init, id));
      } else {
        assert Part(last, id).count == 1;
      }
    }
  }

  /**
   * The nested loops over accounts and balances. `order` is the order in which rows were opened, and
   * `mismatched` the accounts that answered with a balance of another chain.
   */
  method Aggregate(names: Names, wanted: string, jobs: seq<Job>)
    returns (rows: map<Identity, Row>, order: seq<Identity>, mismatched: set<nat>)
    ensures Aggregates(rows, Shares(names, wanted, jobs))
    ensures Lists(order, rows.Keys)
    ensures forall j: nat :: j in mismatched <==> j < |jobs| && Mismatch(names, jobs[j], |jobs[j].balances|)
  {
    rows, order, mismatched := map[], [], {};
    var j := 0;
    while j < |jobs|
      invariant 0 <= j <= |jobs|
      invariant Aggregates(rows, Shares(names, wanted, jobs[..j]))
      invariant Lists(order, rows.Keys)
      invariant forall i: nat :: i in mismatched <==> i < j && Mismatch(names, jobs[i], |jobs[i].balances|)
    {
      ghost var before := Shares(names, wanted, jobs[..j]);
      var account: bool;
      rows, order, account := AggregateJob(names, wanted, jobs[j], rows, order, before);
      if account {
        mismatched := mismatched + {j};
      }
      assert jobs[..j + 1][..j] == jobs[..j];
      j := j + 1;
    }
    assert jobs[..j] == jobs;
  }

  method AddShare(rows0: map<Identity, Row>, order0: seq<Identity>, s: Share, ghost met: seq<Share>)
    returns (rows: map<Identity, Row>, order: seq<Identity>)
    requires Aggregates(rows0, met) && Lists(order0, rows0.Keys)
    ensures Aggregates(rows, met + [s]) && Lists(order, rows.Keys)
  {
    order := order0;
    var row := Row(0.0, 0, Some(0.0), [], s.price);
    if s.id in rows0 {
      row := rows0[s.id];
    } else {
      order := order + [s.id];
    }
    AddedHolds(rows0, met, s, row);
    rows := rows0[s.id := Added(row, s)];
    assert rows.Keys == rows0.Keys + {s.id};
  }

  method AggregateJob(names: Names, wanted: string, job: Job, rows0: map<Identity, Row>, order0: seq<Identity>,
                      ghost before: seq<Share>)
    returns (rows: map<Identity, Row>, order: seq<Identity>, mismatched: bool)
    requires Aggregates(rows0, before) && Lists(order0, rows0.Keys)
    ensures Aggregates(rows, before + SharesOfJob(names, wanted, job, job.balances))
    ensures Lists(order, rows.Keys)
    ensures mismatched <==> Mismatch(names, job, |job.balances|)
  {
    rows, order, mismatched := rows0, order0, false;
    ghost var met := before;
    var n := 0;
    while n < |job.balances|
      invariant 0 <= n <= |job.balances|
      invariant met == before + SharesOfJob(names, wanted, job, job.balances[..n])
      invariant Aggregates(rows, met) && Lists(order, rows.Keys)
      invariant mismatched <==> Mismatch(names, job, n)
    {
      var b := job.balances[n];
      assert job.balances[..n + 1][..n] == job.balances[..n];
      if names.chain(b.chain) != job.chain {
        mismatched := true;
      } else if Counts(names, wanted, job, b) {
        var s := ShareOf(names, job, b);
        rows, order := AddShare(rows, order, s, met);
        met := met + [s];
      }
      n := n + 1;
    }
    assert job.balances[..n] == job.balances;
  }

  /** `order` names every key once. */
  ghost predicate Lists(order: seq<Identity>, keys: set<Identity>) {
    && (forall i :: 0 <= i < |order| ==> order[i] in keys)
    && (forall id :: id in keys ==> id in order)
    && (forall i, j :: 0 <= i < j < |order| ==> order[i] != order[j])
  }

  // ---------- total ----------

  function Worth(row: Row): real {
    if row.usd.Some? then row.usd.value else 0.0
  }

  /** The sum of the priced rows, whatever their order. */
  ghost function TotalOf(rows: map<Identity, Row>, keys: set<Identity>): real
    requires keys <= rows.Keys
  {
    if keys == {} then 0.0
    else
      var id :| id in keys;
      Worth(rows[id]) + TotalOf(rows, keys - {id})
  }

  lemma {:induction false} TotalWithout(rows: map<Identity, Row>, keys: set<Identity>, id: Identity)
    requires keys <= rows.Keys && id in keys
    ensures TotalOf(rows, keys) == Worth(rows[id]) + TotalOf(rows, keys - {id})
    decreases |keys|
  {
    var first :| first in keys && TotalOf(rows, keys) == Worth(rows[first]) + TotalOf(rows, keys - {first});
    if first != id {
      TotalWithout(rows, keys - {first}, id);
      TotalWithout(rows, keys - {id}, first);
      assert keys - {first} - {id} == keys - {id} - {first};
    }
  }

  /** The total over the rows in any order, such as by falling value. */
  method Total(rows: map<Identity, Row>, assets: seq<Identity>) returns (total: real)
    requires Lists(assets, rows.Keys)
    ensures total == TotalOf(rows, rows.Keys)
  {
    total := 0.0;
    ghost var seen: set<Identity> := {};
    var n := 0;
    while n < |assets|
      invariant 0 <= n <= |assets|
      invariant seen == (set i | 0 <= i < n :: assets[i]) && seen <= rows.Keys
      invariant total == TotalOf(rows, seen)
    {
      var id := assets[n];
      if rows[id].usd.Some? {
        total := total + rows[id].usd.value;
      }
      assert id !in seen;
      TotalWithout(rows, seen + {id}, id);
      assert seen + {id} - {id} == seen;
      seen := seen + {id};
      n := n + 1;
    }
    assert seen == rows.Keys;
  }

  // ---------- order does not matter ----------

  lemma {:induction false} SumOfSplit(a: seq<Share>, x: Share, b: seq<Share>, id: Identity)
    ensures SumOf(a + [x] + b, id) == Plus(SumOf(a + b, id), Part(x, id))
  {
    if b == [] {
      assert a + [x] + b == a + [x] && a + b == a;
      SumOfMore(a, x, id);
    } else {
      var init, last := b[..|b| - 1], b[|b| - 1];
      assert a + [x] + b == (a + [x] + init) + [last] && a + b == (a + init) + [last];
      SumOfMore(a + [x] + init, last, id);
      SumOfMore(a + init, last, id);
      SumOfSplit(a, x, init, id);
      PlusSwap(SumOf(a + init, id), Part(x, id), Part(last, id));
    }
  }

  lemma PlusSwap(a: Sums, b: Sums, c: Sums)
    ensures Plus(Plus(a, b), c) == Plus(Plus(a, c), b)
  {
  }

  lemma WithoutLast<T>(a: seq<T>)
    requires a != []
    ensures multiset(a[..|a| - 1]) == multiset(a) - multiset{a[|a| - 1]}
  {
    assert a == a[..|a| - 1] + [a[|a| - 1]];
  }

  lemma WithoutOne<T>(b: seq<T>, i: nat)
    requires i < |b|
    ensures b == b[..i] + [b[i]] + b[i + 1..]
    ensures multiset(b[..i] + b[i + 1..]) == multiset(b) - multiset{b[i]}
  {
    assert b == b[..i] + [b[i]] + b[i + 1..];
    assert multiset(b) == multiset(b[..i] + [b[i]]) + multiset(b[i + 1..]);
  }

  /** Where the last element of `a` sits in a permutation of it. */
  lemma Elsewhere<T>(a: seq<T>, b: seq<T>) returns (i: nat)
    requires a != [] && multiset(a) == multiset(b)
    ensures i < |b| && b == b[..i] + [a[|a| - 1]] + b[i + 1..]
    ensures multiset(a[..|a| - 1]) == multiset(b[..i] + b[i + 1..])
  {
    assert a[|a| - 1] in multiset(b);
    i :| 0 <= i < |b| && b[i] == a[|a| - 1];
    WithoutLast(a);
    WithoutOne(b, i);
  }

  lemma {:induction false} SumPermuted(a: seq<Share>, b: seq<Share>, id: Identity)
    requires multiset(a) == multiset(b)
    ensures SumOf(a, id) == SumOf(b, id)
  {
    if a == [] {
      assert |b| == |multiset(b)| == 0;
    } else {
      var init, last := a[..|a| - 1], a[|a| - 1];
      var i := Elsewhere(a, b);
      var rest := b[..i] + b[i + 1..];
      SumPermuted(init, rest, id);
      SumOfSplit(b[..i], last, b[i + 1..], id);
    }
  }

  /** The same assets with the same amounts, raw amounts and values. */
  ghost predicate SameFigures(rows: map<Identity, Row>, others: map<Identity, Row>) {
    && rows.Keys == others.Keys
    && (forall id :: id in rows ==>
      rows[id].amount == others[id].amount && rows[id].raw == others[id].raw && rows[id].usd == others[id].usd)
  }

  /** Rows built from the same balances in another order agree on amounts, values and total. */
  lemma OrderIrrelevant(a: seq<Share>, b: seq<Share>, rows: map<Identity, Row>,
                        others: map<Identity, Row>)
    requires multiset(a) == multiset(b) && Aggregates(rows, a) && Aggregates(others, b)
    ensures SameFigures(rows, others)
    ensures TotalOf(rows, rows.Keys) == TotalOf(others, others.Keys)
  {
    forall id ensures SumOf(a, id) == SumOf(b, id) {
      SumPermuted(a, b, id);
    }
    SameTotal(rows, others, rows.Keys);
  }

  lemma {:induction false} SameTotal(rows: map<Identity, Row>, others: map<Identity, Row>, keys: set<Identity>)
    requires keys <= rows.Keys && keys <= others.Keys
    requires forall id :: id in keys ==> rows[id].usd == others[id].usd
    ensures TotalOf(rows, keys) == TotalOf(others, keys)
    decreases |keys|
  {
    if keys != {} {
      var id :| id in keys;
      SameTotal(rows, others, keys - {id});
      TotalWithout(rows, keys, id);
      TotalWithout(others, keys, id);
    }
  }

  lemma SharesOfMore(names: Names, wanted: string, jobs: seq<Job>, job: Job)
    ensures Shares(names, wanted, jobs + [job]) == Shares(names, wanted, jobs) + SharesOfJob(names, wanted, job, job.balances)
  {
    assert (jobs + [job])[..|jobs|] == jobs;
  }

  lemma {:induction false} SharesSplit(names: Names, wanted: string, a: seq<Job>, x: Job, b: seq<Job>)
    ensures multiset(Shares(names, wanted, a + [x] + b))
      == multiset(Shares(names, wanted, a + b)) + multiset(SharesOfJob(names, wanted, x, x.balances))
  {
    if b == [] {
      assert a + [x] + b == a + [x] && a + b == a;
      SharesOfMore(names, wanted, a, x);
    } else {
      var init, last := b[..|b| - 1], b[|b| - 1];
      assert a + [x] + b == (a + [x] + init) + [last] && a + b == (a + init) + [last];
      SharesOfMore(names, wanted, a + [x] + init, last);
      SharesOfMore(names, wanted, a + init, last);
      SharesSplit(names, wanted, a, x, init);
    }
  }

  /** Querying the accounts in another order counts the same balances. */
  lemma {:induction false} AccountsPermuted(names: Names, wanted: string, jobs: seq<Job>, others: seq<Job>)
    requires multiset(jobs) == multiset(others)
    ensures multiset(Shares(names, wanted, jobs)) == multiset(Shares(names, wanted, others))
  {
    if jobs == [] {
      assert |others| == |multiset(others)| == 0;
    } else {
      var init, last := jobs[..|jobs| - 1], jobs[|jobs| - 1];
      var i := Elsewhere(jobs, others);
      var rest := others[..i] + others[i + 1..];
      AccountsPermuted(names, wanted, init, rest);
      SharesSplit(names, wanted, others[..i], last, others[i + 1..]);
      SharesOfMore(names, wanted, init, last);
    }
  }

  lemma {:induction false} SharesOfJobSplit(names: Names, wanted: string, job: Job, a: seq<Balance>, x: Balance, b: seq<Balance>)
    ensures multiset(SharesOfJob(names, wanted, job, a + [x] + b))
      == multiset(SharesOfJob(names, wanted, job, a + b)) + multiset(SharesOfJob(names, wanted, job, [x]))
  {
    if b == [] {
      assert a + [x] + b == a + [x] && a + b == a;
      SharesOfJobMore(names, wanted, job, a, x);
    } else {
      var init, last := b[..|b| - 1], b[|b| - 1];
      assert a + [x] + b == (a + [x] + init) + [last] && a + b == (a + init) + [last];
      SharesOfJobMore(names, wanted, job, a + [x] + init, last);
      SharesOfJobMore(names, wanted, job, a + init, last);
      SharesOfJobSplit(names, wanted, job, a, x, init);
    }
  }

  lemma SharesOfJobMore(names: Names, wanted: string, job: Job, a: seq<Balance>, x: Balance)
    ensures SharesOfJob(names, wanted, job, a + [x])
      == SharesOfJob(names, wanted, job, a) + SharesOfJob(names, wanted, job, [x])
  {
    assert (a + [x])[..|a|] == a && [x][..0] == [];
  }

  /** An account answering the same balances in another order counts the same. */
  lemma {:induction false} BalancesPermuted(names: Names, wanted: string, job: Job, a: seq<Balance>, b: seq<Balance>)
    requires multiset(a) == multiset(b)
    ensures multiset(SharesOfJob(names, wanted, job, a)) == multiset(SharesOfJob(names, wanted, job, b))
  {
    if a == [] {
      assert |b| == |multiset(b)| == 0;
    } else {
      var init, last := a[..|a| - 1], a[|a| - 1];
      var i := Elsewhere(a, b);
      var rest := b[..i] + b[i + 1..];
      BalancesPermuted(names, wanted, job, init, rest);
      SharesOfJobSplit(names, wanted, job, b[..i], last, b[i + 1..]);
      SharesOfJobMore(names, wanted, job, init, last);
    }
  }

  /** The same accounts, each with its balances in some other order. */
  ghost predicate SameBalances(jobs: seq<Job>, others: seq<Job>) {
    && |jobs| == |others|
    && (forall i :: 0 <= i < |jobs| ==>
      others[i] == jobs[i].(balances := others[i].balances) && multiset(others[i].balances) == multiset(jobs[i].balances))
  }

  lemma {:induction false} SharesOfJobSame(names: Names, wanted: string, job: Job, other: Job, balances: seq<Balance>)
    requires other == job.(balances := other.balances)
    ensures SharesOfJob(names, wanted, job, balances) == SharesOfJob(names, wanted, other, balances)
  {
    if balances != [] {
      SharesOfJobSame(names, wanted, job, other, balances[..|balances| - 1]);
    }
  }

  lemma {:induction false} BalancesReordered(names: Names, wanted: string, jobs: seq<Job>, others: seq<Job>)
    requires SameBalances(jobs, others)
    ensures multiset(Shares(names, wanted, jobs)) == multiset(Shares(names, wanted, others))
  {
    if jobs != [] {
      var job, other := jobs[|jobs| - 1], others[|jobs| - 1];
      BalancesReordered(names, wanted, jobs[..|jobs| - 1], others[..|jobs| - 1]);
      BalancesPermuted(names, wanted, job, job.balances, other.balances);
      SharesOfJobSame(names, wanted, job, other, other.balances);
    }
  }

  /**
   * Whatever the order of the accounts and of the balances each of them answered, the rows cover the
   * same assets with the same amounts and values, and the total is the same.
   */
  lemma PortfolioOrderIrrelevant(names: Names, wanted: string, jobs: seq<Job>, mid: seq<Job>,
                                 others: seq<Job>, rows: map<Identity, Row>, rows': map<Identity, Row>)
    requires SameBalances(jobs, mid) && multiset(mid) == multiset(others)
    requires Aggregates(rows, Shares(names, wanted, jobs)) && Aggregates(rows', Shares(names, wanted, others))
    ensures SameFigures(rows, rows')
    ensures TotalOf(rows, rows.Keys) == TotalOf(rows', rows'.Keys)
  {
    BalancesReordered(names, wanted, jobs, mid);
    AccountsPermuted(names, wanted, mid, others);
    OrderIrrelevant(Shares(names, wanted, jobs), Shares(names, wanted, others), rows, rows');
  }

  /** A row's value is unknown exactly when some balance counted for it is unpriced. */
  lemma UnpricedExactly(rows: map<Identity, Row>, shares: seq<Share>, id: Identity)
    requires Aggregates(rows, shares) && id in rows
    ensures rows[id].usd.None? <==> exists i :: 0 <= i < |shares| && shares[i].id == id && shares[i].usd.None?
  {
    UnpricedCount(shares, id);
  }

  lemma {:induction false} UnpricedCount(shares: seq<Share>, id: Identity)
    ensures SumOf(shares, id).unpriced > 0 <==> exists i :: 0 <= i < |shares| && shares[i].id == id && shares[i].usd.None?
  {
    if shares != [] {
      var init, last := shares[..|shares| - 1], shares[|shares| - 1];
      UnpricedCount(init, id);
      if i :| 0 <= i < |shares| && shares[i].id == id && shares[i].usd.None? {
        assert i < |init| ==> init[i] == shares[i];
      }
    }
  }
}
