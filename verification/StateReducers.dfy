/** The checkpoint reducers of src/wallet_agent/graph/state.py. */
module StateReducers {
  import opened Wrappers

  // ---------- conversation history ----------

  /** One transcript row; `id` is the text of its identifier when it carries a usable one. */
  datatype Turn<V> = Turn(id: Option<string>, body: V)

  /** The last position holding `id`. */
  function Position<V>(rows: seq<Turn<V>>, id: string): (r: Option<nat>)
    ensures r.Some? ==> r.value < |rows| && rows[r.value].id == Some(id)
    ensures r.Some? ==> forall i :: r.value < i < |rows| ==> rows[i].id != Some(id)
    ensures r.None? ==> forall i :: 0 <= i < |rows| ==> rows[i].id != Some(id)
  {
    if rows == [] then None
    else if rows[|rows| - 1].id == Some(id) then Some(|rows| - 1)
    else Position(rows[..|rows| - 1], id)
  }

  function Put<V>(rows: seq<Turn<V>>, row: Turn<V>): seq<Turn<V>> {
    if row.id.Some? && Position(rows, row.id.value).Some? then rows[Position(rows, row.id.value).value := row]
    else rows + [row]
  }

  function Merged<V>(existing: seq<Turn<V>>, incoming: seq<Turn<V>>): seq<Turn<V>> {
    if incoming == [] then existing
    else Put(Merged(existing, incoming[..|incoming| - 1]), incoming[|incoming| - 1])
  }

  /** The index dictionary points every known identifier at its last row. */
  ghost predicate Indexes<V>(index: map<string, nat>, rows: seq<Turn<V>>) {
    forall id :: Position(rows, id) == if id in index then Some(index[id]) else None
  }

  lemma PositionAfter<V>(rows: seq<Turn<V>>, row: Turn<V>, id: string)
    ensures Position(rows + [row], id) == if row.id == Some(id) then Some(|rows|) else Position(rows, id)
  {
    assert (rows + [row])[..|rows|] == rows;
  }

  lemma PositionIs<V>(rows: seq<Turn<V>>, id: string, p: nat)
    requires p < |rows| && rows[p].id == Some(id)
    requires forall i :: p < i < |rows| ==> rows[i].id != Some(id)
    ensures Position(rows, id) == Some(p)
  {
  }

  lemma PositionKept<V>(rows: seq<Turn<V>>, at: nat, row: Turn<V>, id: string)
    requires at < |rows| && rows[at].id == row.id
    ensures Position(rows[at := row], id) == Position(rows, id)
  {
    var updated := rows[at := row];
    var p := Position(rows, id);
    if p.Some? {
      PositionIs(updated, id, p.value);
    }
  }

  function Noted(index: map<string, nat>, id: Option<string>, at: nat): map<string, nat> {
    if id.Some? then index[id.value := at] else index
  }

  lemma IndexesAppended<V>(index: map<string, nat>, rows: seq<Turn<V>>, row: Turn<V>)
    requires Indexes(index, rows)
    ensures Indexes(Noted(index, row.id, |rows|), rows + [row])
  {
    forall id ensures Position(rows + [row], id) == if row.id == Some(id) then Some(|rows|) else Position(rows, id) {
      PositionAfter(rows, row, id);
    }
  }

  lemma IndexesReplaced<V>(index: map<string, nat>, rows: seq<Turn<V>>, row: Turn<V>)
    requires Indexes(index, rows) && row.id.Some? && row.id.value in index
    ensures Position(rows, row.id.value) == Some(index[row.id.value])
    ensures Indexes(index, rows[index[row.id.value] := row])
  {
    var at := index[row.id.value];
    assert Position(rows, row.id.value) == Some(at);
    forall id ensures Position(rows[at := row], id) == Position(rows, id) {
      PositionKept(rows, at, row, id);
    }
  }

  method IndexRows<V>(rows: seq<Turn<V>>) returns (index: map<string, nat>)
    ensures Indexes(index, rows)
  {
    index := map[];
    var n := 0;
    while n < |rows|
      invariant 0 <= n <= |rows|
      invariant Indexes(index, rows[..n])
    {
      assert rows[..n + 1] == rows[..n] + [rows[n]];
      IndexesAppended(index, rows[..n], rows[n]);
      if rows[n].id.Some? {
        index := index[rows[n].id.value := n];
      }
      n := n + 1;
    }
    assert rows[..n] == rows;
  }

  method Merge<V>(existing: seq<Turn<V>>, incoming: seq<Turn<V>>) returns (merged: seq<Turn<V>>)
    ensures merged == Merged(existing, incoming)
  {
    merged := existing;
    var index: map<string, nat> := IndexRows(merged);
    var n := 0;
    while n < |incoming|
      invariant 0 <= n <= |incoming|
      invariant merged == Merged(existing, incoming[..n])
      invariant Indexes(index, merged)
    {
      var entry := incoming[n];
      assert incoming[..n + 1][..n] == incoming[..n];
      if entry.id.Some? && entry.id.value in index {
        IndexesReplaced(index, merged, entry);
        merged := merged[index[entry.id.value] := entry];
      } else {
        assert entry.id.Some? ==> Position(merged, entry.id.value).None?;
        IndexesAppended(index, merged, entry);
        merged := merged + [entry];
        if entry.id.Some? {
          var last: nat := |merged| - 1;
          index := index[entry.id.value := last];
        }
      }
      n := n + 1;
    }
    assert incoming[..n] == incoming;
  }

  // Laws of the history reducer.

  /** Merging two batches one after the other is merging them joined. */
  lemma {:induction false} MergeInTurn<V>(existing: seq<Turn<V>>, x: seq<Turn<V>>, y: seq<Turn<V>>)
    ensures Merged(Merged(existing, x), y) == Merged(existing, x + y)
  {
    if y == [] {
      assert x + y == x;
    } else {
      var init := y[..|y| - 1];
      MergeInTurn(existing, x, init);
      assert (x + y)[..|x + y| - 1] == x + init;
    }
  }

  ghost predicate DistinctIds<V>(rows: seq<Turn<V>>) {
    forall i, j :: 0 <= i < j < |rows| && rows[i].id.Some? ==> rows[i].id != rows[j].id
  }

  /** Rows already stored keep their place and identifier, and no identifier is ever duplicated. */
  lemma {:induction false} PlacesKept<V>(existing: seq<Turn<V>>, incoming: seq<Turn<V>>)
    ensures var merged := Merged(existing, incoming);
      && |existing| <= |merged| <= |existing| + |incoming|
      && (forall i :: 0 <= i < |existing| ==> merged[i].id == existing[i].id)
      && (DistinctIds(existing) ==> DistinctIds(merged))
  {
    if incoming != [] {
      PlacesKept(existing, incoming[..|incoming| - 1]);
    }
  }

  function Anonymous<V>(rows: seq<Turn<V>>): seq<Turn<V>> {
    if rows == [] then []
    else Anonymous(rows[..|rows| - 1]) + (if rows[|rows| - 1].id.None? then [rows[|rows| - 1]] else [])
  }

  lemma {:induction false} AnonymousAfterUpdate<V>(rows: seq<Turn<V>>, at: nat, row: Turn<V>)
    requires at < |rows| && row.id.Some? && rows[at].id == row.id
    ensures Anonymous(rows[at := row]) == Anonymous(rows)
  {
    var updated := rows[at := row];
    var init := rows[..|rows| - 1];
    if at == |rows| - 1 {
      assert updated[..|rows| - 1] == init;
    } else {
      AnonymousAfterUpdate(init, at, row);
      assert updated[..|rows| - 1] == init[at := row];
    }
  }

  /** Rows without an identifier are all kept, in order. */
  lemma {:induction false} AnonymousKept<V>(existing: seq<Turn<V>>, incoming: seq<Turn<V>>)
    ensures Anonymous(Merged(existing, incoming)) == Anonymous(existing) + Anonymous(incoming)
  {
    if incoming != [] {
      var row := incoming[|incoming| - 1];
      var before := Merged(existing, incoming[..|incoming| - 1]);
      AnonymousKept(existing, incoming[..|incoming| - 1]);
      if row.id.Some? && Position(before, row.id.value).Some? {
        AnonymousAfterUpdate(before, Position(before, row.id.value).value, row);
      } else {
        assert (before + [row])[..|before|] == before;
      }
    }
  }

  /** The row now shown for `id` is the one written last, in the batch or before it. */
  lemma {:induction false} LastWriteShown<V>(existing: seq<Turn<V>>, incoming: seq<Turn<V>>, id: string)
    ensures var merged := Merged(existing, incoming);
      var p := Position(merged, id);
      var late := Position(incoming, id);
      var early := Position(existing, id);
      && (p.Some? <==> late.Some? || early.Some?)
      && (late.Some? ==> merged[p.value] == incoming[late.value])
      && (late.None? && early.Some? ==> merged[p.value] == existing[early.value])
      && (early.Some? ==> p == early)
  {
    if incoming != [] {
      var init, row := incoming[..|incoming| - 1], incoming[|incoming| - 1];
      var before := Merged(existing, init);
      LastWriteShown(existing, init, id);
      if row.id.Some? && Position(before, row.id.value).Some? {
        PositionKept(before, Position(before, row.id.value).value, row, id);
      } else {
        PositionAfter(before, row, id);
      }
    }
  }

  /** A row that is not the last of its identifier is never rewritten. */
  lemma {:induction false} ShadowedKept<V>(existing: seq<Turn<V>>, incoming: seq<Turn<V>>, i: nat)
    requires i < |existing|
    requires existing[i].id.Some? ==> Position(existing, existing[i].id.value) != Some(i)
    ensures i < |Merged(existing, incoming)| && Merged(existing, incoming)[i] == existing[i]
  {
    if incoming != [] {
      var init, row := incoming[..|incoming| - 1], incoming[|incoming| - 1];
      ShadowedKept(existing, init, i);
      if existing[i].id.Some? {
        LastWriteShown(existing, init, existing[i].id.value);
      }
    }
  }

  predicate AllIdentified<V>(rows: seq<Turn<V>>) {
    forall i :: 0 <= i < |rows| ==> rows[i].id.Some?
  }

  lemma {:induction false} NoNewRows<V>(rows: seq<Turn<V>>, batch: seq<Turn<V>>)
    requires AllIdentified(batch)
    requires forall i :: 0 <= i < |batch| ==> Position(rows, batch[i].id.value).Some?
    ensures |Merged(rows, batch)| == |rows|
  {
    if batch != [] {
      var init, row := batch[..|batch| - 1], batch[|batch| - 1];
      NoNewRows(rows, init);
      LastWriteShown(rows, init, row.id.value);
    }
  }

  lemma {:induction false} AnonymousCount<V>(rows: seq<Turn<V>>)
    ensures Anonymous(rows) == [] <==> AllIdentified(rows)
  {
    if rows != [] {
      AnonymousCount(rows[..|rows| - 1]);
    }
  }

  /** Storing the same batch again changes nothing exactly when all of its rows carry identifiers. */
  lemma RepeatedBatch<V>(existing: seq<Turn<V>>, batch: seq<Turn<V>>)
    ensures Merged(Merged(existing, batch), batch) == Merged(existing, batch) <==> AllIdentified(batch)
  {
    var once := Merged(existing, batch);
    var twice := Merged(once, batch);
    AnonymousCount(batch);
    if AllIdentified(batch) {
      forall i | 0 <= i < |batch| ensures Position(once, batch[i].id.value).Some? {
        LastWriteShown(existing, batch, batch[i].id.value);
      }
      NoNewRows(once, batch);
      forall i | 0 <= i < |once| ensures twice[i] == once[i] {
        if once[i].id.Some? && Position(once, once[i].id.value) == Some(i) {
          LastWriteShown(existing, batch, once[i].id.value);
          LastWriteShown(once, batch, once[i].id.value);
        } else {
          ShadowedKept(once, batch, i);
        }
      }
    } else {
      AnonymousKept(once, batch);
    }
  }

  // ---------- quote candidates and errors ----------

  /** A quote or error as the reducers see it: the texts of its usable keys, and the marker that empties the list. */
  datatype Item<V> = Item(reference: Option<string>, provider: Option<string>, clear: bool, body: V)

  function Decimal(n: nat): (r: string)
    ensures r != []
  {
    if n < 10 then ["0123456789"[n]] else Decimal(n / 10) + ["0123456789"[n % 10]]
  }

  lemma {:induction false} DecimalInjective(a: nat, b: nat)
    requires Decimal(a) == Decimal(b)
    ensures a == b
  {
    if a >= 10 && b >= 10 {
      LastDigit(a);
      LastDigit(b);
      DecimalInjective(a / 10, b / 10);
    } else if a >= 10 {
      LastDigit(a);
    } else if b >= 10 {
      LastDigit(b);
    }
  }

  lemma LastDigit(n: nat)
    requires n >= 10
    ensures var s := Decimal(n); |s| >= 2 && s[..|s| - 1] == Decimal(n / 10) && s[|s| - 1] == "0123456789"[n % 10]
  {
  }

  function OwnKey<V>(item: Item<V>): Option<string> {
    if item.reference.Some? then item.reference else item.provider
  }

  /** An item with no key of its own is filed under the number of entries so far. */
  function Key<V>(item: Item<V>, count: nat): string {
    if OwnKey(item).Some? then OwnKey(item).value else Decimal(count)
  }

  predicate Clears<V>(items: seq<Item<V>>) {
    exists i :: 0 <= i < |items| && items[i].clear
  }

  function Plain<V>(items: seq<Item<V>>): seq<Item<V>> {
    if items == [] then []
    else Plain(items[..|items| - 1]) + (if items[|items| - 1].clear then [] else [items[|items| - 1]])
  }

  /** What a batch is applied to: the old entries, unless the batch clears them. */
  function Considered<V>(existing: seq<Item<V>>, incoming: seq<Item<V>>): seq<Item<V>> {
    (if Clears(incoming) then [] else existing) + Plain(incoming)
  }

  /** The insertion-ordered dictionary: writing a key that is present keeps its place. */
  function Table<V>(items: seq<Item<V>>): seq<Turn<Item<V>>> {
    if items == [] then []
    else
      var before, item := Table(items[..|items| - 1]), items[|items| - 1];
      Put(before, Turn(Some(Key(item, |before|)), item))
  }

  function Values<V>(table: seq<Turn<Item<V>>>): seq<Item<V>> {
    seq(|table|, i requires 0 <= i < |table| => table[i].body)
  }

  function Quotes<V>(existing: seq<Item<V>>, incoming: seq<Item<V>>): seq<Item<V>> {
    Values(Table(Considered(existing, incoming)))
  }

  method MergeQuotes<V>(existing: seq<Item<V>>, incoming: seq<Item<V>>) returns (quotes: seq<Item<V>>)
    ensures quotes == Quotes(existing, incoming)
  {
    var items := Considered(existing, incoming);
    var merged: seq<Turn<Item<V>>> := [];
    var n := 0;
    while n < |items|
      invariant 0 <= n <= |items|
      invariant merged == Table(items[..n])
    {
      assert items[..n + 1][..n] == items[..n];
      var key := Key(items[n], |merged|);
      merged := Put(merged, Turn(Some(key), items[n]));
      n := n + 1;
    }
    assert items[..n] == items;
    quotes := Values(merged);
  }

  /** Every item under the key it was filed under. */
  function Filed<V>(items: seq<Item<V>>): seq<Turn<Item<V>>> {
    if items == [] then []
    else
      Filed(items[..|items| - 1])
      + [Turn(Some(Key(items[|items| - 1], |Table(items[..|items| - 1])|)), items[|items| - 1])]
  }

  lemma {:induction false} TableIsMerge<V>(items: seq<Item<V>>)
    ensures Table(items) == Merged([], Filed(items)) && |Filed(items)| == |items|
  {
    if items != [] {
      var init := items[..|items| - 1];
      TableIsMerge(init);
      assert Filed(items)[..|items| - 1] == Filed(init);
    }
  }

  /** One entry per key, and it is the item filed under that key last. */
  lemma LastQuoteShown<V>(items: seq<Item<V>>, key: string)
    ensures DistinctIds(Table(items))
    ensures var shown, last := Position(Table(items), key), Position(Filed(items), key);
      && (shown.Some? <==> last.Some?)
      && (shown.Some? ==> Table(items)[shown.value] == Filed(items)[last.value])
  {
    TableIsMerge(items);
    PlacesKept([], Filed(items));
    LastWriteShown([], Filed(items), key);
  }

  lemma {:induction false} FiledAt<V>(items: seq<Item<V>>, i: nat)
    requires i < |items|
    ensures |Filed(items)| == |items|
    ensures Filed(items)[i] == Turn(Some(Key(items[i], |Table(items[..i])|)), items[i])
  {
    TableIsMerge(items);
    var init := items[..|items| - 1];
    if i < |init| {
      FiledAt(init, i);
      assert init[..i] == items[..i];
      TableIsMerge(init);
    }
  }

  predicate FiledUnder<V>(items: seq<Item<V>>, j: nat, key: string)
    requires j < |items|
  {
    if OwnKey(items[j]).Some? then OwnKey(items[j]) == Some(key) else Decimal(|Table(items[..j])|) == key
  }

  lemma FiledUnderAt<V>(items: seq<Item<V>>, key: string)
    ensures |Filed(items)| == |items|
    ensures forall j: nat :: j < |items| ==> (Filed(items)[j].id == Some(key) <==> FiledUnder(items, j, key))
    ensures forall j: nat :: j < |items| ==> Filed(items)[j].body == items[j]
  {
    TableIsMerge(items);
    forall j: nat | j < |items|
      ensures (Filed(items)[j].id == Some(key) <==> FiledUnder(items, j, key)) && Filed(items)[j].body == items[j]
    {
      FiledAt(items, j);
    }
  }

  /**
   * The last quote carrying a key of its own stays listed under it exactly when no nameless quote
   * follows at the moment the list has as many entries as that key spells.
   */
  lemma {:induction false} KeyedKept<V>(items: seq<Item<V>>, i: nat, key: string)
    requires i < |items| && OwnKey(items[i]) == Some(key)
    requires forall j :: i < j < |items| ==> OwnKey(items[j]) != Some(key)
    ensures var shown := Position(Table(items), key);
      (shown.Some? && Table(items)[shown.value].body == items[i])
      <==> (forall j: nat :: i < j < |items| && OwnKey(items[j]).None? ==> !FiledUnder(items, j, key))
  {
    LastQuoteShown(items, key);
    FiledUnderAt(items, key);
    var last := Position(Filed(items), key);
    assert FiledUnder(items, i, key);
    assert last.Some? && last.value >= i && FiledUnder(items, last.value, key);
  }

  /** No quote calls itself by a number. */
  ghost predicate NoNumerals<V>(items: seq<Item<V>>) {
    forall i, n: nat :: 0 <= i < |items| ==> OwnKey(items[i]) != Some(Decimal(n))
  }

  /** Every entry is filed where its place says: a nameless one under the number of its place. */
  ghost predicate Ordered<V>(table: seq<Turn<Item<V>>>) {
    forall i :: 0 <= i < |table| ==> table[i].id == Some(Key(table[i].body, i))
  }

  /** Entries are filed where filing them again would put them. */
  ghost predicate InPlace<V>(table: seq<Turn<Item<V>>>) {
    && DistinctIds(table)
    && NoNumerals(Values(table))
    && Ordered(table)
  }

  lemma PutInPlace<V>(table: seq<Turn<Item<V>>>, item: Item<V>)
    requires InPlace(table) && NoNumerals([item])
    ensures InPlace(Put(table, Turn(Some(Key(item, |table|)), item)))
    ensures OwnKey(item).None? ==>
      Put(table, Turn(Some(Key(item, |table|)), item)) == table + [Turn(Some(Key(item, |table|)), item)]
  {
    var key := Key(item, |table|);
    assert OwnKey([item][0]) == OwnKey(item);
    if Position(table, key).Some? {
      var p := Position(table, key).value;
      assert Values(table)[p] == table[p].body;
      if OwnKey(item).None? {
        if OwnKey(table[p].body).None? {
          DecimalInjective(p, |table|);
        }
        assert false;
      }
      var updated := table[p := Turn(Some(key), item)];
      forall i, n: nat | 0 <= i < |updated| ensures OwnKey(Values(updated)[i]) != Some(Decimal(n)) {
        assert i != p ==> Values(updated)[i] == Values(table)[i];
      }
    } else {
      var updated := table + [Turn(Some(key), item)];
      forall i, n: nat | 0 <= i < |updated| ensures OwnKey(Values(updated)[i]) != Some(Decimal(n)) {
        assert i < |table| ==> Values(updated)[i] == Values(table)[i];
      }
    }
  }

  lemma {:induction false} TableInPlace<V>(items: seq<Item<V>>)
    requires NoNumerals(items)
    ensures InPlace(Table(items))
  {
    if items != [] {
      var init, item := items[..|items| - 1], items[|items| - 1];
      forall i, n: nat | 0 <= i < |init| ensures OwnKey(init[i]) != Some(Decimal(n)) {
        assert init[i] == items[i];
      }
      TableInPlace(init);
      PutInPlace(Table(init), item);
    }
  }

  lemma {:induction false} Refiled<V>(table: seq<Turn<Item<V>>>)
    requires Ordered(table) && DistinctIds(table)
    ensures Table(Values(table)) == table
  {
    if table != [] {
      var init, last := table[..|table| - 1], table[|table| - 1];
      assert Values(table)[..|table| - 1] == Values(init);
      Refiled(init);
      assert Position(init, last.id.value).None?;
    }
  }

  lemma TableStep<V>(a: seq<Item<V>>, b: seq<Item<V>>, item: Item<V>)
    requires Table(a) == Table(b)
    ensures Table(a + [item]) == Table(b + [item])
  {
    TableOfMore(a, item);
    TableOfMore(b, item);
  }

  lemma AppendLast<T>(a: seq<T>, b: seq<T>)
    requires b != []
    ensures a + b == (a + b[..|b| - 1]) + [b[|b| - 1]]
  {}

  lemma {:induction false} TableFrom<V>(first: seq<Item<V>>, shown: seq<Item<V>>, more: seq<Item<V>>)
    requires Table(shown) == Table(first)
    ensures Table(shown + more) == Table(first + more)
  {
    if more == [] {
      assert shown + more == shown && first + more == first;
    } else {
      var init, last := more[..|more| - 1], more[|more| - 1];
      TableFrom(first, shown, init);
      AppendLast(shown, more);
      AppendLast(first, more);
      TableStep(shown + init, first + init, last);
    }
  }

  lemma {:induction false} PlainJoin<V>(x: seq<Item<V>>, y: seq<Item<V>>)
    ensures Plain(x + y) == Plain(x) + Plain(y)
    ensures Clears(x + y) <==> Clears(x) || Clears(y)
  {
    if y == [] {
      assert x + y == x;
    } else {
      PlainJoin(x, y[..|y| - 1]);
      assert (x + y)[..|x + y| - 1] == x + y[..|y| - 1];
    }
    forall i | 0 <= i < |y| && y[i].clear ensures Clears(x + y) {
      assert (x + y)[|x| + i].clear;
    }
    forall i | 0 <= i < |x| && x[i].clear ensures Clears(x + y) {
      assert (x + y)[i].clear;
    }
  }

  /** Two fan-out batches merge as one, when the second clears nothing and no quote is named by a number. */
  lemma QuotesInTurn<V>(existing: seq<Item<V>>, x: seq<Item<V>>, y: seq<Item<V>>)
    requires !Clears(y) && NoNumerals(Considered(existing, x))
    ensures Quotes(Quotes(existing, x), y) == Quotes(existing, x + y)
  {
    var first := Considered(existing, x);
    var shown := Values(Table(first));
    assert Table(shown) == Table(first) by {
      TableInPlace(first);
      Refiled(Table(first));
    }
    ConsideredInTurn(existing, x, y, shown);
    TableFrom(first, shown, Plain(y));
  }

  lemma ConsideredInTurn<V>(existing: seq<Item<V>>, x: seq<Item<V>>, y: seq<Item<V>>, shown: seq<Item<V>>)
    requires !Clears(y)
    ensures Considered(shown, y) == shown + Plain(y)
    ensures Considered(existing, x + y) == Considered(existing, x) + Plain(y)
  {
    PlainJoin(x, y);
  }

  lemma TableOfMore<V>(items: seq<Item<V>>, item: Item<V>)
    ensures Table(items + [item]) == Put(Table(items), Turn(Some(Key(item, |Table(items)|)), item))
  {
    assert (items + [item])[..|items|] == items;
  }

  /** A quote called "1" is lost to the next nameless quote. */
  lemma NamelessOverwrites<V>(named: Item<V>, nameless: Item<V>)
    requires OwnKey(named) == Some("1") && OwnKey(nameless).None?
    ensures Values(Table([named] + [nameless])) == [nameless]
  {
    var table := [Turn(Some("1"), named)];
    assert [] + [named] == [named];
    TableOfMore([], named);
    TableOfMore([named], nameless);
    assert Position(table, "1") == Some(0);
    assert Decimal(1) == "1";
  }

  lemma PlainOne<V>(x: seq<Item<V>>)
    requires |x| == 1
    ensures Plain(x) == if x[0].clear then [] else x
  {
    assert x[..0] == [];
  }

  lemma TableOne<V>(x: seq<Item<V>>)
    requires |x| == 1
    ensures Values(Table(x)) == x
  {
    assert x[..0] == [];
  }

  /** A second batch that clears drops the quotes of the first, unless they come as one batch. */
  lemma QuotesCleared<V>(x: seq<Item<V>>, y: seq<Item<V>>)
    requires |x| == |y| == 1 && !x[0].clear && y[0].clear
    ensures Quotes(Quotes([], x), y) == [] && Quotes([], x + y) == x
  {
    PlainJoin(x, y);
    PlainOne(x);
    PlainOne(y);
    TableOne(x);
  }

  function Errors<V>(existing: seq<Item<V>>, incoming: seq<Item<V>>): seq<Item<V>> {
    Considered(existing, incoming)
  }

  /** Two batches of errors add up as one batch exactly when the second does not clear reports of the first. */
  lemma ErrorsInTurn<V>(existing: seq<Item<V>>, x: seq<Item<V>>, y: seq<Item<V>>)
    ensures Errors(Errors(existing, x), y) == Errors(existing, x + y) <==> !Clears(y) || Plain(x) == []
  {
    PlainJoin(x, y);
    var base := if Clears(x) then [] else existing;
    if Clears(y) {
      assert |Plain(x) + Plain(y)| == |Plain(x)| + |Plain(y)|;
    } else {
      assert (base + Plain(x)) + Plain(y) == base + (Plain(x) + Plain(y));
    }
  }

  /** A report from the first batch is lost when the second clears, and kept when they come as one batch. */
  lemma ReportCleared<V>(x: seq<Item<V>>, y: seq<Item<V>>)
    requires |x| == |y| == 1 && !x[0].clear && y[0].clear
    ensures Errors(Errors([], x), y) == [] && Errors([], x + y) == x
  {
    PlainJoin(x, y);
    PlainOne(x);
    PlainOne(y);
  }
}
