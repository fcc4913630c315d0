/** Quote batches of which the second clears the list (src/wallet_agent/graph/state.py). */
module QuoteBatches {
  import opened Wrappers
  import opened StateReducers

  /** The keys of a table, in the order of their first appearance. */
  function Ids<V>(table: seq<Turn<Item<V>>>): (r: seq<Option<string>>)
    ensures |r| == |table| && forall i :: 0 <= i < |r| ==> r[i] == table[i].id
  {
    seq(|table|, i requires 0 <= i < |table| => table[i].id)
  }

  /** How many quotes have no key of their own. */
  function Nameless<V>(items: seq<Item<V>>): nat {
    if items == [] then 0
    else Nameless(items[..|items| - 1]) + (if OwnKey(items[|items| - 1]).None? then 1 else 0)
  }

  lemma {:induction false} NamelessJoin<V>(x: seq<Item<V>>, y: seq<Item<V>>)
    ensures Nameless(x + y) == Nameless(x) + Nameless(y)
  {
    if y == [] {
      assert x + y == x;
    } else {
      NamelessJoin(x, y[..|y| - 1]);
      assert (x + y)[..|x + y| - 1] == x + y[..|y| - 1];
    }
  }

  lemma {:induction false} NamelessReplaced<V>(items: seq<Item<V>>, p: nat, item: Item<V>)
    requires p < |items| && OwnKey(items[p]).Some? && OwnKey(item).Some?
    ensures Nameless(items[p := item]) == Nameless(items)
  {
    var k := |items| - 1;
    if p < k {
      NamelessReplaced(items[..k], p, item);
      assert items[p := item][..k] == items[..k][p := item];
    } else {
      assert items[p := item][..k] == items[..k];
    }
  }

  lemma {:induction false} NoneNameless<V>(items: seq<Item<V>>, i: nat)
    requires Nameless(items) == 0 && i < |items|
    ensures OwnKey(items[i]).Some?
  {
    if i < |items| - 1 {
      NoneNameless(items[..|items| - 1], i);
    }
  }

  lemma NoNumeralsPart<V>(x: seq<Item<V>>, y: seq<Item<V>>)
    requires NoNumerals(x + y)
    ensures NoNumerals(x) && NoNumerals(y)
  {
    forall i, n: nat | 0 <= i < |x| ensures OwnKey(x[i]) != Some(Decimal(n)) {
      assert (x + y)[i] == x[i];
    }
    forall i, n: nat | 0 <= i < |y| ensures OwnKey(y[i]) != Some(Decimal(n)) {
      assert (x + y)[|x| + i] == y[i];
    }
  }

  lemma NoNumeralsPrefix<V>(items: seq<Item<V>>, k: nat)
    requires NoNumerals(items) && k <= |items|
    ensures NoNumerals(items[..k]) && (k < |items| ==> NoNumerals([items[k]]))
  {
    assert items == items[..k] + items[k..];
    NoNumeralsPart(items[..k], items[k..]);
    forall i, n: nat | 0 <= i < 1 && k < |items| ensures OwnKey([items[k]][i]) != Some(Decimal(n)) {
      assert OwnKey(items[k]) != Some(Decimal(n));
    }
  }

  // ---------- filing one more quote ----------

  function Filing<V>(table: seq<Turn<Item<V>>>, item: Item<V>): seq<Turn<Item<V>>> {
    Put(table, Turn(Some(Key(item, |table|)), item))
  }

  lemma FilingOwn<V>(table: seq<Turn<Item<V>>>, item: Item<V>, p: nat)
    requires InPlace(table) && p < |table| && OwnKey(item).Some? && table[p].id == OwnKey(item)
    ensures Filing(table, item) == table[p := Turn(OwnKey(item), item)]
  {}

  lemma FilingNew<V>(table: seq<Turn<Item<V>>>, item: Item<V>)
    requires InPlace(table) && NoNumerals([item])
    requires forall i :: 0 <= i < |table| ==> table[i].id != OwnKey(item)
    ensures Filing(table, item) == table + [Turn(Some(Key(item, |table|)), item)]
  {
    if OwnKey(item).None? {
      PutInPlace(table, item);
    }
  }

  lemma IdsOfFiling<V>(table: seq<Turn<Item<V>>>, item: Item<V>)
    ensures Ids(table) <= Ids(Filing(table, item))
  {}

  /** What is filed later leaves the order of the keys as it is. */
  lemma {:induction false} IdsGrow<V>(a: seq<Item<V>>, b: seq<Item<V>>)
    ensures Ids(Table(a)) <= Ids(Table(a + b))
  {
    if b == [] {
      assert a + b == a;
    } else {
      var init, last := b[..|b| - 1], b[|b| - 1];
      IdsGrow(a, init);
      AppendLast(a, b);
      TableOfMore(a + init, last);
      IdsOfFiling(Table(a + init), last);
    }
  }

  lemma {:induction false} NamelessKept<V>(items: seq<Item<V>>)
    requires NoNumerals(items)
    ensures Nameless(Values(Table(items))) == Nameless(items)
  {
    if items != [] {
      var k := |items| - 1;
      var table, item := Table(items[..k]), items[k];
      NoNumeralsPrefix(items, k);
      NamelessKept(items[..k]);
      TableInPlace(items[..k]);
      NamelessFiled(table, item);
    }
  }

  lemma NamelessFiled<V>(table: seq<Turn<Item<V>>>, item: Item<V>)
    requires InPlace(table) && NoNumerals([item])
    ensures Nameless(Values(Filing(table, item)))
         == Nameless(Values(table)) + (if OwnKey(item).None? then 1 else 0)
  {
    if p :| 0 <= p < |table| && OwnKey(item).Some? && table[p].id == OwnKey(item) {
      FilingOwn(table, item, p);
      assert OwnKey([item][0]) == OwnKey(item);
      assert Values(table)[p] == table[p].body;
      NamelessReplaced(Values(table), p, item);
      assert Values(Filing(table, item)) == Values(table)[p := item];
    } else {
      FilingNew(table, item);
      NamelessJoin(Values(table), [item]);
      assert Values(Filing(table, item)) == Values(table) + [item];
      assert [item][..0] == [];
    }
  }

  /** A list filed in place is known from its values alone. */
  lemma SameValues<V>(s: seq<Turn<Item<V>>>, t: seq<Turn<Item<V>>>)
    requires InPlace(s) && InPlace(t) && Values(s) == Values(t)
    ensures s == t
  {
    assert |s| == |Values(s)| == |t|;
    forall i | 0 <= i < |s| ensures s[i] == t[i] {
      assert Values(s)[i] == s[i].body && Values(t)[i] == t[i].body;
    }
  }

  // ---------- filing a batch behind another ----------

  /** `s` is filed from the second batch so far, `t` from both; the first batch has `n` keys. */
  ghost predicate CatchesUp<V>(s: seq<Turn<Item<V>>>, t: seq<Turn<Item<V>>>, n: nat) {
    && |s| <= |t| && s == t[..|s|]
    && (if |s| < n then |t| == n else |s| == |t|)
  }

  lemma CatchUpStep<V>(s: seq<Turn<Item<V>>>, t: seq<Turn<Item<V>>>, n: nat, item: Item<V>)
    requires InPlace(s) && InPlace(t) && NoNumerals([item]) && CatchesUp(s, t, n)
    requires |s| < n && |Filing(s, item)| > |s| ==> OwnKey(item).Some? && t[|s|].id == OwnKey(item)
    ensures CatchesUp(Filing(s, item), Filing(t, item), n)
  {
    if |s| >= n {
      assert s == t;
    } else if p :| 0 <= p < |s| && OwnKey(item).Some? && s[p].id == OwnKey(item) {
      FilingOwn(s, item, p);
      FilingOwn(t, item, p);
    } else {
      FilingNew(s, item);
      FilingOwn(t, item, |s|);
    }
  }

  lemma NextKey<V>(tp: seq<Turn<Item<V>>>, s: seq<Turn<Item<V>>>, tq: seq<Turn<Item<V>>>, item: Item<V>)
    requires InPlace(tp) && |s| < |tp| && OwnKey(tp[|s|].body).Some?
    requires |Filing(s, item)| > |s| && Ids(Filing(s, item)) <= Ids(tq) && Ids(tp) <= Ids(tq)
    ensures OwnKey(item).Some? && tp[|s|].id == OwnKey(item)
  {
    NewIsLast(s, item);
    assert Ids(Filing(s, item))[|s|] == Ids(tq)[|s|] == Ids(tp)[|s|];
    assert Values(tp)[|s|] == tp[|s|].body;
  }

  lemma SplitAt<T>(q: seq<T>, k: nat)
    requires k < |q|
    ensures q[..k] + [q[k]] + q[k + 1..] == q
  {}

  lemma {:induction false} FiledSoFar<V>(a: seq<Item<V>>, item: Item<V>, rest: seq<Item<V>>)
    ensures Ids(Filing(Table(a), item)) <= Ids(Table(a + [item] + rest))
  {
    TableOfMore(a, item);
    IdsGrow(a + [item], rest);
  }

  lemma NamedEntry<V>(p: seq<Item<V>>, i: nat)
    requires NoNumerals(p) && Nameless(p) == 0 && i < |Table(p)|
    ensures OwnKey(Table(p)[i].body).Some?
  {
    NamelessKept(p);
    NoneNameless(Values(Table(p)), i);
  }

  /** A quote new to the second batch is the next one the first batch listed. */
  lemma {:induction false} NextListed<V>(p: seq<Item<V>>, q: seq<Item<V>>, k: nat, s: seq<Turn<Item<V>>>)
    requires NoNumerals(p + q) && Nameless(p) == 0 && Ids(Table(p)) <= Ids(Table(q)) && k < |q|
    requires s == Table(q[..k]) && |s| < |Table(p)| && |Filing(s, q[k])| > |s|
    ensures OwnKey(q[k]).Some? && Table(p)[|s|].id == OwnKey(q[k])
  {
    NoNumeralsPart(p, q);
    TableInPlace(p);
    NamedEntry(p, |s|);
    SplitAt(q, k);
    FiledSoFar(q[..k], q[k], q[k + 1..]);
    NextKey(Table(p), s, Table(q), q[k]);
  }

  lemma NewIsLast<V>(table: seq<Turn<Item<V>>>, item: Item<V>)
    requires |Filing(table, item)| > |table|
    ensures Filing(table, item) == table + [Turn(Some(Key(item, |table|)), item)]
  {}

  lemma {:induction false} CatchUpMore<V>(p: seq<Item<V>>, q: seq<Item<V>>, k: nat,
                                          s: seq<Turn<Item<V>>>, t: seq<Turn<Item<V>>>)
    requires NoNumerals(p + q) && Nameless(p) == 0 && Ids(Table(p)) <= Ids(Table(q)) && k < |q|
    requires s == Table(q[..k]) && t == Table(p + q[..k]) && CatchesUp(s, t, |Table(p)|)
    ensures CatchesUp(Filing(s, q[k]), Filing(t, q[k]), |Table(p)|)
  {
    BothInPlace(p, q, k);
    if |s| < |Table(p)| && |Filing(s, q[k])| > |s| {
      NextListed(p, q, k, s);
      IdsGrow(p, q[..k]);
      assert Ids(t)[|s|] == Ids(Table(p))[|s|];
    }
    CatchUpStep(s, t, |Table(p)|, q[k]);
  }

  lemma {:induction false} CatchUp<V>(p: seq<Item<V>>, q: seq<Item<V>>, k: nat)
    requires NoNumerals(p + q) && Nameless(p) == 0 && Ids(Table(p)) <= Ids(Table(q)) && k <= |q|
    ensures CatchesUp(Table(q[..k]), Table(p + q[..k]), |Table(p)|)
  {
    if k == 0 {
      assert p + q[..0] == p;
    } else {
      CatchUp(p, q, k - 1);
      CatchUpMore(p, q, k - 1, Table(q[..k - 1]), Table(p + q[..k - 1]));
      OneMoreFiled(p, q, k - 1);
    }
  }

  lemma OneMoreFiled<V>(p: seq<Item<V>>, q: seq<Item<V>>, k: nat)
    requires k < |q|
    ensures Table(q[..k + 1]) == Filing(Table(q[..k]), q[k])
    ensures Table(p + q[..k + 1]) == Filing(Table(p + q[..k]), q[k])
  {
    assert q[..k + 1] == q[..k] + [q[k]] && p + q[..k + 1] == p + q[..k] + [q[k]];
    TableOfMore(q[..k], q[k]);
    TableOfMore(p + q[..k], q[k]);
  }

  lemma BothInPlace<V>(p: seq<Item<V>>, q: seq<Item<V>>, k: nat)
    requires NoNumerals(p + q) && k < |q|
    ensures InPlace(Table(q[..k])) && InPlace(Table(p + q[..k])) && NoNumerals([q[k]])
  {
    NoNumeralsPart(p, q);
    NoNumeralsPrefix(q, k);
    assert (p + q)[..|p| + k] == p + q[..k];
    NoNumeralsPrefix(p + q, |p| + k);
    TableInPlace(q[..k]);
    TableInPlace(p + q[..k]);
  }

  /** Quotes filed before a batch leave no trace exactly when they are all named, and the batch names them first. */
  lemma NoTrace<V>(p: seq<Item<V>>, q: seq<Item<V>>)
    requires NoNumerals(p + q)
    ensures Values(Table(p + q)) == Values(Table(q)) <==> Nameless(p) == 0 && Ids(Table(p)) <= Ids(Table(q))
  {
    NoNumeralsPart(p, q);
    TableInPlace(p + q);
    TableInPlace(q);
    if Values(Table(p + q)) == Values(Table(q)) {
      SameValues(Table(p + q), Table(q));
      IdsGrow(p, q);
      NamelessKept(p + q);
      NamelessKept(q);
      NamelessJoin(p, q);
    }
    if Nameless(p) == 0 && Ids(Table(p)) <= Ids(Table(q)) {
      CatchUp(p, q, |q|);
      assert q[..|q|] == q;
    }
  }

  /**
   * Two fan-out batches of which the second clears the list merge as one exactly when every quote of the
   * first is named, and the second names them first and in the same order.
   */
  lemma ClearedInTurn<V>(existing: seq<Item<V>>, x: seq<Item<V>>, y: seq<Item<V>>)
    requires Clears(y) && NoNumerals(Plain(x) + Plain(y))
    ensures Quotes(Quotes(existing, x), y) == Quotes(existing, x + y) <==>
      Nameless(Plain(x)) == 0 && Ids(Table(Plain(x))) <= Ids(Table(Plain(y)))
  {
    PlainJoin(x, y);
    NoTrace(Plain(x), Plain(y));
    assert [] + Plain(y) == Plain(y) && [] + Plain(x + y) == Plain(x) + Plain(y);
  }

  // ---------- a second batch that clears nothing ----------

  lemma {:induction false} RefiledOrdered<V>(items: seq<Item<V>>)
    ensures |Table(items)| <= |items|
    ensures |Table(items)| == |items| ==> Ordered(Table(items))
  {
    if items != [] {
      RefiledOrdered(items[..|items| - 1]);
    }
  }

  /** A quote like no other under a key the first list has. */
  function Probe<V>(shown: Item<V>, key: string): (r: Item<V>)
    ensures OwnKey(r) == Some(key) && !r.clear && r != shown
  {
    Item(Some(key), Some(if shown.provider == Some("0") then "1" else "0"), false, shown.body)
  }

  lemma ProbeShows<V>(s: seq<Turn<Item<V>>>, t: seq<Turn<Item<V>>>, p: nat)
    requires DistinctIds(s) && DistinctIds(t) && Values(s) == Values(t) && p < |t| == |s|
    requires t[p].id.Some?
    requires var r := Probe(t[p].body, t[p].id.value); Values(Filing(s, r)) == Values(Filing(t, r))
    ensures s[p].id == t[p].id
  {
    var r := Probe(t[p].body, t[p].id.value);
    assert Filing(t, r) == t[p := Turn(OwnKey(r), r)];
    assert Values(Filing(t, r))[p] == r;
    assert Values(Filing(s, r))[p] == r && Values(s)[p] == s[p].body && Values(t)[p] == t[p].body;
  }

  lemma FiledAfter<V>(items: seq<Item<V>>, r: Item<V>)
    requires !r.clear
    ensures !Clears([r]) && Values(Table(items + Plain([r]))) == Values(Filing(Table(items), r))
  {
    PlainOne([r]);
    TableOfMore(items, r);
  }

  /** The entries of a list keep their keys when the list is stored and filed again. */
  lemma {:induction false} Refiles<V>(first: seq<Item<V>>)
    requires forall y :: !Clears(y) ==>
      Values(Table(Values(Table(first)) + Plain(y))) == Values(Table(first + Plain(y)))
    ensures Ordered(Table(first))
  {
    var t := Table(first);
    var s := Table(Values(t));
    LastQuoteShown(first, "");
    LastQuoteShown(Values(t), "");
    var none: seq<Item<V>> := [];
    assert !Clears(none) && Values(t) + Plain(none) == Values(t) && first + Plain(none) == first;
    assert |s| == |Values(s)| == |Values(t)| == |t|;
    RefiledOrdered(Values(t));
    forall p | 0 <= p < |t| ensures t[p].id == Some(Key(t[p].body, p)) {
      FiledAlways(first, p);
      var r := Probe(t[p].body, t[p].id.value);
      FiledAfter(first, r);
      FiledAfter(Values(t), r);
      ProbeShows(s, t, p);
      assert Values(s)[p] == s[p].body && Values(t)[p] == t[p].body;
    }
  }

  lemma {:induction false} FiledAlways<V>(items: seq<Item<V>>, p: nat)
    requires p < |Table(items)|
    ensures Table(items)[p].id.Some?
  {
    var init := items[..|items| - 1];
    if p < |Table(init)| {
      FiledAlways(init, p);
    }
  }

  /**
   * Whatever second batch comes without clearing, it merges as one with the first if and only if every
   * nameless quote of the first list stands at the place whose number it is filed under.
   */
  lemma ExtendsExactly<V>(existing: seq<Item<V>>, x: seq<Item<V>>)
    ensures (forall y :: !Clears(y) ==> Quotes(Quotes(existing, x), y) == Quotes(existing, x + y)) <==>
      Ordered(Table(Considered(existing, x)))
  {
    var first := Considered(existing, x);
    var shown := Values(Table(first));
    forall y | !Clears(y)
      ensures Quotes(shown, y) == Values(Table(shown + Plain(y)))
      ensures Quotes(existing, x + y) == Values(Table(first + Plain(y)))
    {
      ConsideredInTurn(existing, x, y, shown);
    }
    if Ordered(Table(first)) {
      LastQuoteShown(first, "");
      Refiled(Table(first));
      forall y | !Clears(y) ensures Quotes(Quotes(existing, x), y) == Quotes(existing, x + y) {
        TableFrom(first, shown, Plain(y));
      }
    }
    if forall y :: !Clears(y) ==> Quotes(Quotes(existing, x), y) == Quotes(existing, x + y) {
      Refiles(first);
    }
  }

  // ---------- a list that does not extend faithfully ----------

  ghost predicate Unmarked<V>(x: seq<Item<V>>) {
    !Clears(x) && Plain(x) == x
  }

  lemma {:induction false} AllUnmarked<V>(x: seq<Item<V>>)
    requires forall i :: 0 <= i < |x| ==> !x[i].clear
    ensures Unmarked(x)
  {
    if x != [] {
      AllUnmarked(x[..|x| - 1]);
    }
  }

  lemma {:induction false} OverwrittenTable<V>(named: Item<V>, nameless: Item<V>, last: Item<V>)
    requires OwnKey(named) == OwnKey(last) == Some("1") && OwnKey(nameless).None?
    ensures Table([named] + [nameless]) == [Turn(Some("1"), nameless)]
    ensures Table([named] + [nameless] + [last]) == [Turn(Some("1"), last)]
  {
    TableOfMore([], named);
    assert [] + [named] == [named];
    TableOfMore([named], nameless);
    assert Decimal(1) == "1";
    TableOfMore([named] + [nameless], last);
  }

  lemma {:induction false} RenumberedTable<V>(nameless: Item<V>, last: Item<V>)
    requires OwnKey(last) == Some("1") && OwnKey(nameless).None?
    ensures Table([nameless] + [last]) == [Turn(Some("0"), nameless), Turn(Some("1"), last)]
  {
    TableOfMore([], nameless);
    assert [] + [nameless] == [nameless];
    TableOfMore([nameless], last);
    assert Decimal(0) == "0";
  }

  lemma {:induction false} OverwrittenValues<V>(first: seq<Item<V>>, last: seq<Item<V>>)
    requires |first| == 2 && |last| == 1 && OwnKey(first[1]).None?
    requires OwnKey(first[0]) == OwnKey(last[0]) == Some("1")
    ensures Values(Table(first)) == [first[1]] && Values(Table(first + last)) == last
  {
    assert first == [first[0]] + [first[1]] && last == [last[0]];
    OverwrittenTable(first[0], first[1], last[0]);
  }

  lemma {:induction false} RenumberedValues<V>(nameless: Item<V>, last: seq<Item<V>>)
    requires |last| == 1 && OwnKey(last[0]) == Some("1") && OwnKey(nameless).None?
    ensures Values(Table([nameless] + last)) == [nameless] + last
  {
    assert last == [last[0]];
    RenumberedTable(nameless, last[0]);
  }

  lemma QuotesOfUnmarked<V>(shown: seq<Item<V>>, x: seq<Item<V>>)
    requires Unmarked(x)
    ensures Quotes(shown, x) == Values(Table(shown + x))
    ensures shown == [] ==> Quotes(shown, x) == Values(Table(x))
  {
    assert [] + x == x;
  }

  /**
   * A nameless quote that overwrote a quote called "1" survives the next quote of that name in a second
   * batch, and is lost to it in the same one.
   */
  lemma {:induction false} NumberedApart<V>(first: seq<Item<V>>, last: seq<Item<V>>)
    requires |first| == 2 && |last| == 1 && OwnKey(first[1]).None?
    requires OwnKey(first[0]) == OwnKey(last[0]) == Some("1")
    requires !first[0].clear && !first[1].clear && !last[0].clear
    ensures Quotes(Quotes([], first), last) == [first[1]] + last && Quotes([], first + last) == last
  {
    AllUnmarked(first);
    AllUnmarked(last);
    AllUnmarked(first + last);
    OverwrittenValues(first, last);
    RenumberedValues(first[1], last);
    QuotesOfUnmarked([], first);
    QuotesOfUnmarked([], first + last);
    QuotesOfUnmarked([first[1]], last);
  }
}
