/** The bounded LRU cache with time to live of src/wallet_agent/observability.py. */
module MetadataCache {
  import opened Wrappers

  /** One cached value; the list of entries runs from least to most recently touched. */
  datatype Entry<V> = Entry(key: string, expiresAt: real, value: V)

  datatype Cache<V> = Cache(maxEntries: nat, ttl: real, items: seq<Entry<V>>, hits: nat, misses: nat, evictions: nat)

  // ---------- one operation ----------

  function Position<V>(items: seq<Entry<V>>, key: string): (r: Option<nat>)
    ensures r.Some? ==> r.value < |items| && items[r.value].key == key
    ensures r.None? ==> forall i :: 0 <= i < |items| ==> items[i].key != key
  {
    if items == [] then None
    else if items[|items| - 1].key == key then Some(|items| - 1)
    else Position(items[..|items| - 1], key)
  }

  /** `OrderedDict.pop(key, None)`: the other entries keep their order. */
  function Without<V>(items: seq<Entry<V>>, key: string): seq<Entry<V>> {
    if items == [] then []
    else if items[|items| - 1].key == key then Without(items[..|items| - 1], key)
    else Without(items[..|items| - 1], key) + [items[|items| - 1]]
  }

  predicate Fresh<V>(c: Cache<V>, e: Entry<V>, now: real) {
    c.ttl > 0.0 && e.expiresAt > now
  }

  /** Whether `get` finds a live entry. */
  predicate Hit<V>(c: Cache<V>, key: string, now: real) {
    var p := Position(c.items, key);
    p.Some? && Fresh(c, c.items[p.value], now)
  }

  function AfterGet<V>(c: Cache<V>, key: string, now: real): Cache<V> {
    if Hit(c, key, now) then
      var e := c.items[Position(c.items, key).value];
      c.(items := Without(c.items, key) + [e], hits := c.hits + 1)
    else c.(items := Without(c.items, key), misses := c.misses + 1)
  }

  function AfterSet<V>(c: Cache<V>, key: string, value: V, now: real): Cache<V> {
    if c.maxEntries == 0 || c.ttl <= 0.0 then c
    else
      var items := Without(c.items, key) + [Entry(key, now + c.ttl, value)];
      var extra := if |items| > c.maxEntries then |items| - c.maxEntries else 0;
      c.(items := items[extra..], evictions := c.evictions + extra)
  }

  // ---------- the object ----------

  class Store<V> {
    const maxEntries: nat
    const ttl: real
    var items: seq<Entry<V>>
    var hits: nat
    var misses: nat
    var evictions: nat

    function View(): Cache<V>
      reads this
    {
      Cache(maxEntries, ttl, items, hits, misses, evictions)
    }

    constructor (maxEntries: int, ttl: real)
      ensures View() == Empty(maxEntries, ttl)
    {
      this.maxEntries := if maxEntries > 0 then maxEntries else 0;
      this.ttl := if ttl > 0.0 then ttl else 0.0;
      items, hits, misses, evictions := [], 0, 0, 0;
    }

    method Get(key: string, now: real) returns (r: Option<V>)
      modifies this
      ensures View() == AfterGet(old(View()), key, now)
      ensures r.Some? <==> Hit(old(View()), key, now)
      ensures r.Some? ==> exists e :: e in old(items) && e.key == key && e.value == r.value && e.expiresAt > now
    {
      var p := Position(items, key);
      if p.None? {
        WithoutAbsent(items, key);
        misses := misses + 1;
        return None;
      }
      var e := items[p.value];
      if ttl <= 0.0 || e.expiresAt <= now {
        items := Without(items, key);
        misses := misses + 1;
        return None;
      }
      items := Without(items, key) + [e];
      hits := hits + 1;
      return Some(e.value);
    }

    method Set(key: string, value: V, now: real)
      modifies this
      ensures View() == AfterSet(old(View()), key, value, now)
    {
      if maxEntries <= 0 || ttl <= 0.0 {
        return;
      }
      items := Without(items, key) + [Entry(key, now + ttl, value)];
      ghost var full := items;
      ghost var before := evictions;
      while |items| > maxEntries
        invariant |items| <= |full| && items == full[|full| - |items|..]
        invariant |items| < |full| ==> |items| >= maxEntries
        invariant evictions == before + (|full| - |items|)
        invariant hits == old(hits) && misses == old(misses)
      {
        items := items[1..];
        evictions := evictions + 1;
      }
      assert |full| <= maxEntries ==> items == full[0..] == full;
    }
  }

  // ---------- histories ----------

  datatype Op<V> = Get(key: string, at: real) | Set(key: string, value: V, at: real)

  function Empty<V>(maxEntries: int, ttl: real): Cache<V> {
    Cache(if maxEntries > 0 then maxEntries else 0, if ttl > 0.0 then ttl else 0.0, [], 0, 0, 0)
  }

  function Apply<V>(c: Cache<V>, op: Op<V>): Cache<V> {
    match op
    case Get(key, at) => AfterGet(c, key, at)
    case Set(key, value, at) => AfterSet(c, key, value, at)
  }

  function Run<V>(c: Cache<V>, ops: seq<Op<V>>): Cache<V> {
    if ops == [] then c else Apply(Run(c, ops[..|ops| - 1]), ops[|ops| - 1])
  }

  /** The clock never runs backwards. */
  ghost predicate Timed<V>(ops: seq<Op<V>>) {
    forall i, j :: 0 <= i < j < |ops| ==> ops[i].at <= ops[j].at
  }

  /** The map the cache stands for: what was last stored under a key, and until when. */
  function Latest<V>(ttl: real, ops: seq<Op<V>>, key: string): Option<(V, real)> {
    if ops == [] then None
    else
      var op := ops[|ops| - 1];
      if op.Set? && op.key == key then Some((op.value, op.at + ttl))
      else Latest(ttl, ops[..|ops| - 1], key)
  }

  /** A key is touched when it is stored, or found by a `get`. */
  predicate Touches<V>(c: Cache<V>, op: Op<V>) {
    op.Set? || Hit(c, op.key, op.at)
  }

  /** Other keys touched since `key` was last touched. */
  function TouchedSince<V>(c: Cache<V>, ops: seq<Op<V>>, key: string): set<string> {
    if ops == [] then {}
    else
      var earlier, op := ops[..|ops| - 1], ops[|ops| - 1];
      if !Touches(Run(c, earlier), op) then TouchedSince(c, earlier, key)
      else if op.key == key then {}
      else TouchedSince(c, earlier, key) + {op.key}
  }

  function Gets<V>(ops: seq<Op<V>>): nat {
    if ops == [] then 0 else Gets(ops[..|ops| - 1]) + (if ops[|ops| - 1].Get? then 1 else 0)
  }

  // ---------- what holds after every history ----------

  ghost predicate DistinctKeys<V>(items: seq<Entry<V>>) {
    forall i, j :: 0 <= i < j < |items| ==> items[i].key != items[j].key
  }

  ghost predicate HoldsLatest<V>(c: Cache<V>, ops: seq<Op<V>>, items: seq<Entry<V>>) {
    forall i :: 0 <= i < |items| ==>
      Latest(c.ttl, ops, items[i].key) == Some((items[i].value, items[i].expiresAt))
  }

  ghost predicate RecencyOrder<V>(c: Cache<V>, ops: seq<Op<V>>, items: seq<Entry<V>>) {
    forall i, j :: 0 <= i < j < |items| ==> items[j].key in TouchedSince(c, ops, items[i].key)
  }

  /** Why a stored key may be missing at time `now`. */
  ghost predicate Excused<V>(c: Cache<V>, ops: seq<Op<V>>, key: string, now: real) {
    var latest := Latest(c.ttl, ops, key);
    latest.Some? ==> latest.value.1 <= now || |TouchedSince(c, ops, key)| >= c.maxEntries
  }

  ghost predicate AbsencesExcused<V>(c: Cache<V>, ops: seq<Op<V>>, items: seq<Entry<V>>, now: real) {
    forall key :: Position(items, key).None? ==> Excused(c, ops, key, now)
  }

  ghost predicate Sound<V>(c: Cache<V>, ops: seq<Op<V>>, r: Cache<V>, now: real) {
    && r.maxEntries == c.maxEntries && r.ttl == c.ttl
    && |r.items| <= r.maxEntries && (r.ttl <= 0.0 ==> r.items == [])
    && r.hits + r.misses == Gets(ops)
    && DistinctKeys(r.items)
    && HoldsLatest(c, ops, r.items)
    && RecencyOrder(c, ops, r.items)
    && AbsencesExcused(c, ops, r.items, now)
  }

  // ---------- moving one key ----------

  lemma {:induction false} WithoutAbsent<V>(items: seq<Entry<V>>, key: string)
    requires Position(items, key).None?
    ensures Without(items, key) == items
  {
    if items != [] {
      WithoutAbsent(items[..|items| - 1], key);
      assert items == items[..|items| - 1] + [items[|items| - 1]];
    }
  }

  lemma {:induction false} WithoutMembers<V>(items: seq<Entry<V>>, key: string)
    ensures forall e :: e in Without(items, key) <==> e in items && e.key != key
  {
    if items != [] {
      WithoutMembers(items[..|items| - 1], key);
      assert items == items[..|items| - 1] + [items[|items| - 1]];
    }
  }

  lemma {:induction false} SourceOf<V>(items: seq<Entry<V>>, key: string, i: nat) returns (m: nat)
    requires i < |Without(items, key)|
    ensures m < |items| && items[m] == Without(items, key)[i] && items[m].key != key
  {
    var init := items[..|items| - 1];
    if i < |Without(init, key)| {
      m := SourceOf(init, key, i);
    } else {
      m := |items| - 1;
    }
  }

  /** Removing a key keeps keys distinct and keeps any order the entries had. */
  lemma {:induction false} WithoutOrder<V>(c: Cache<V>, ops: seq<Op<V>>, items: seq<Entry<V>>, key: string)
    requires DistinctKeys(items) && RecencyOrder(c, ops, items)
    ensures DistinctKeys(Without(items, key)) && RecencyOrder(c, ops, Without(items, key))
  {
    if items != [] {
      var init, last := items[..|items| - 1], items[|items| - 1];
      WithoutOrder(c, ops, init, key);
      var w := Without(init, key);
      forall i | 0 <= i < |w| ensures w[i].key != last.key && last.key in TouchedSince(c, ops, w[i].key) {
        var m := SourceOf(init, key, i);
        assert items[m] == w[i];
      }
    }
  }

  lemma {:induction false} WithoutCount<V>(items: seq<Entry<V>>, key: string)
    requires DistinctKeys(items)
    ensures |Without(items, key)| == |items| - (if Position(items, key).Some? then 1 else 0)
  {
    if items != [] {
      var init, last := items[..|items| - 1], items[|items| - 1];
      WithoutCount(init, key);
      assert last.key == key ==> Position(init, key).None?;
    }
  }

  lemma {:induction false} SubsetSize<T>(a: set<T>, b: set<T>)
    requires a <= b
    ensures |a| <= |b|
  {
    if a != {} {
      var x :| x in a;
      SubsetSize(a - {x}, b - {x});
    }
  }

  ghost function KeySet<V>(items: seq<Entry<V>>): set<string> {
    set e | e in items :: e.key
  }

  lemma {:induction false} KeyCount<V>(items: seq<Entry<V>>)
    requires DistinctKeys(items)
    ensures |KeySet(items)| == |items|
  {
    if items != [] {
      var init, last := items[..|items| - 1], items[|items| - 1];
      KeyCount(init);
      assert items == init + [last];
      assert KeySet(items) == KeySet(init) + {last.key};
      assert last.key !in KeySet(init);
    }
  }

  /** One more operation, as the recursive definitions see it. */
  lemma OneMore<V>(c: Cache<V>, ops: seq<Op<V>>, op: Op<V>)
    ensures Run(c, ops + [op]) == Apply(Run(c, ops), op)
    ensures Gets(ops + [op]) == Gets(ops) + (if op.Get? then 1 else 0)
  {
    assert (ops + [op])[..|ops|] == ops;
  }

  lemma OneMoreFor<V>(c: Cache<V>, ops: seq<Op<V>>, op: Op<V>, k: string)
    ensures op.Set? && op.key == k ==> Latest(c.ttl, ops + [op], k) == Some((op.value, op.at + c.ttl))
    ensures op.Get? || op.key != k ==> Latest(c.ttl, ops + [op], k) == Latest(c.ttl, ops, k)
    ensures !Touches(Run(c, ops), op) ==> TouchedSince(c, ops + [op], k) == TouchedSince(c, ops, k)
    ensures Touches(Run(c, ops), op) && op.key == k ==> TouchedSince(c, ops + [op], k) == {}
    ensures Touches(Run(c, ops), op) && op.key != k ==>
      TouchedSince(c, ops + [op], k) == TouchedSince(c, ops, k) + {op.key}
  {
    assert (ops + [op])[..|ops|] == ops;
  }

  lemma StillExcused<V>(c: Cache<V>, ops: seq<Op<V>>, op: Op<V>, key: string, now: real)
    requires Excused(c, ops, key, now) && now <= op.at
    requires !(Touches(Run(c, ops), op) && op.key == key)
    ensures Excused(c, ops + [op], key, op.at)
  {
    OneMoreFor(c, ops, op, key);
    SubsetSize(TouchedSince(c, ops, key), TouchedSince(c, ops + [op], key));
  }

  /** Removing `op.key` keeps what is known about the other entries, one operation later. */
  lemma OthersKept<V>(c: Cache<V>, ops: seq<Op<V>>, op: Op<V>, items: seq<Entry<V>>)
    requires DistinctKeys(items) && HoldsLatest(c, ops, items) && RecencyOrder(c, ops, items)
    ensures var w := Without(items, op.key);
      && DistinctKeys(w) && HoldsLatest(c, ops + [op], w) && RecencyOrder(c, ops + [op], w)
      && (forall i :: 0 <= i < |w| ==> w[i].key != op.key)
  {
    var w := Without(items, op.key);
    WithoutOrder(c, ops, items, op.key);
    forall i | 0 <= i < |w|
      ensures w[i].key != op.key && Latest(c.ttl, ops + [op], w[i].key) == Some((w[i].value, w[i].expiresAt))
    {
      var m := SourceOf(items, op.key, i);
      OneMoreFor(c, ops, op, w[i].key);
    }
    forall i, j | 0 <= i < j < |w| ensures w[j].key in TouchedSince(c, ops + [op], w[i].key) {
      var m := SourceOf(items, op.key, i);
      OneMoreFor(c, ops, op, w[i].key);
    }
  }

  /** Appending the entry just touched. */
  lemma TouchedLast<V>(c: Cache<V>, ops: seq<Op<V>>, op: Op<V>, w: seq<Entry<V>>, e: Entry<V>)
    requires DistinctKeys(w) && HoldsLatest(c, ops + [op], w) && RecencyOrder(c, ops + [op], w)
    requires forall i :: 0 <= i < |w| ==> w[i].key != op.key
    requires Touches(Run(c, ops), op) && e.key == op.key
    requires Latest(c.ttl, ops + [op], e.key) == Some((e.value, e.expiresAt))
    ensures DistinctKeys(w + [e]) && HoldsLatest(c, ops + [op], w + [e]) && RecencyOrder(c, ops + [op], w + [e])
  {
    forall i | 0 <= i < |w| ensures w[i].key != e.key && e.key in TouchedSince(c, ops + [op], w[i].key) {
      OneMoreFor(c, ops, op, w[i].key);
    }
  }

  lemma AbsentBefore<V>(items: seq<Entry<V>>, kept: seq<Entry<V>>, key: string, k: string)
    requires forall x :: x in Without(items, key) ==> x in kept
    requires Position(kept, k).None? && k != key
    ensures Position(items, k).None?
  {
    WithoutMembers(items, key);
    forall i | 0 <= i < |items| ensures items[i].key != k {
      var e := items[i];
      assert e in items;
      assert e.key == k ==> e in Without(items, key);
    }
  }

  /** Absent keys other than the one operated on stay excused. */
  lemma AbsenceKept<V>(c: Cache<V>, ops: seq<Op<V>>, op: Op<V>, items: seq<Entry<V>>,
                       kept: seq<Entry<V>>, k: string, now: real)
    requires AbsencesExcused(c, ops, items, now) && now <= op.at
    requires forall x :: x in Without(items, op.key) ==> x in kept
    requires Position(kept, k).None? && k != op.key
    ensures Excused(c, ops + [op], k, op.at)
  {
    AbsentBefore(items, kept, op.key, k);
    StillExcused(c, ops, op, k, now);
  }

  lemma AfterHit<V>(c: Cache<V>, ops: seq<Op<V>>, op: Op<V>, now: real)
    requires Sound(c, ops, Run(c, ops), now) && now <= op.at && op.Get? && Hit(Run(c, ops), op.key, op.at)
    ensures Sound(c, ops + [op], Run(c, ops + [op]), op.at)
  {
    var r := Run(c, ops);
    var e := r.items[Position(r.items, op.key).value];
    var w := Without(r.items, op.key);
    OneMore(c, ops, op);
    OneMoreFor(c, ops, op, op.key);
    OthersKept(c, ops, op, r.items);
    TouchedLast(c, ops, op, w, e);
    WithoutCount(r.items, op.key);
    forall k | Position(w + [e], k).None? ensures Excused(c, ops + [op], k, op.at) {
      AbsentAfterTouch(c, ops, op, e, k, now);
    }
  }

  lemma AfterMiss<V>(c: Cache<V>, ops: seq<Op<V>>, op: Op<V>, now: real)
    requires Sound(c, ops, Run(c, ops), now) && now <= op.at && op.Get? && !Hit(Run(c, ops), op.key, op.at)
    ensures Sound(c, ops + [op], Run(c, ops + [op]), op.at)
  {
    var r := Run(c, ops);
    var w := Without(r.items, op.key);
    OneMore(c, ops, op);
    OneMoreFor(c, ops, op, op.key);
    OthersKept(c, ops, op, r.items);
    WithoutCount(r.items, op.key);
    forall k | Position(w, k).None? ensures Excused(c, ops + [op], k, op.at) {
      if k != op.key {
        AbsenceKept(c, ops, op, r.items, w, k, now);
      } else if Position(r.items, k).None? {
        StillExcused(c, ops, op, k, now);
      }
    }
  }

  lemma AfterSetSkipped<V>(c: Cache<V>, ops: seq<Op<V>>, op: Op<V>, now: real)
    requires Sound(c, ops, Run(c, ops), now) && now <= op.at && op.Set?
    requires c.maxEntries == 0 || c.ttl <= 0.0
    ensures Sound(c, ops + [op], Run(c, ops + [op]), op.at)
  {
    var r := Run(c, ops);
    OneMore(c, ops, op);
    forall k | Position(r.items, k).None? ensures Excused(c, ops + [op], k, op.at) {
      OneMoreFor(c, ops, op, k);
      if k != op.key {
        StillExcused(c, ops, op, k, now);
      }
    }
  }

  /** What the least recent entry has behind it when it is pushed out. */
  lemma PushedOut<V>(c: Cache<V>, ops: seq<Op<V>>, full: seq<Entry<V>>)
    requires full != [] && DistinctKeys(full) && RecencyOrder(c, ops, full)
    ensures |TouchedSince(c, ops, full[0].key)| >= |full| - 1
  {
    var rest := full[1..];
    KeyCount(rest);
    forall k | k in KeySet(rest) ensures k in TouchedSince(c, ops, full[0].key) {
      var e :| e in rest && e.key == k;
      var j :| 0 <= j < |rest| && rest[j] == e;
      assert full[j + 1] == e;
    }
    SubsetSize(KeySet(rest), TouchedSince(c, ops, full[0].key));
  }

  /** Everything promised of the list a store leaves behind, before any eviction. */
  lemma StoredFull<V>(c: Cache<V>, ops: seq<Op<V>>, op: Op<V>, items: seq<Entry<V>>, e: Entry<V>, now: real)
    requires DistinctKeys(items) && HoldsLatest(c, ops, items) && RecencyOrder(c, ops, items)
    requires items == Run(c, ops).items && AbsencesExcused(c, ops, items, now)
    requires now <= op.at && op.Set? && e == Entry(op.key, op.at + c.ttl, op.value)
    ensures var full := Without(items, op.key) + [e];
      && DistinctKeys(full) && HoldsLatest(c, ops + [op], full)
      && RecencyOrder(c, ops + [op], full) && AbsencesExcused(c, ops + [op], full, op.at)
  {
    var full := Without(items, op.key) + [e];
    OneMoreFor(c, ops, op, op.key);
    OthersKept(c, ops, op, items);
    TouchedLast(c, ops, op, Without(items, op.key), e);
    forall k | Position(full, k).None? ensures Excused(c, ops + [op], k, op.at) {
      AbsentAfterTouch(c, ops, op, e, k, now);
    }
  }

  lemma {:induction false} AfterStore<V>(c: Cache<V>, ops: seq<Op<V>>, op: Op<V>, now: real)
    requires Sound(c, ops, Run(c, ops), now) && now <= op.at && op.Set?
    requires c.maxEntries > 0 && c.ttl > 0.0
    ensures Sound(c, ops + [op], Run(c, ops + [op]), op.at)
  {
    var items := Run(c, ops).items;
    var e := Entry(op.key, op.at + c.ttl, op.value);
    var full := Without(items, op.key) + [e];
    OneMore(c, ops, op);
    WithoutCount(items, op.key);
    StoredFull(c, ops, op, items, e, now);
    DropOldest(c, ops + [op], full, op.at);
  }

  /** The entry list after eviction keeps every promise of the full one. */
  lemma DropOldest<V>(c: Cache<V>, ops: seq<Op<V>>, full: seq<Entry<V>>, now: real)
    requires full != [] && |full| <= c.maxEntries + 1
    requires DistinctKeys(full) && HoldsLatest(c, ops, full) && RecencyOrder(c, ops, full)
    requires AbsencesExcused(c, ops, full, now)
    ensures var kept := full[if |full| > c.maxEntries then 1 else 0..];
      && |kept| <= c.maxEntries && DistinctKeys(kept) && HoldsLatest(c, ops, kept)
      && RecencyOrder(c, ops, kept) && AbsencesExcused(c, ops, kept, now)
  {
    if |full| > c.maxEntries {
      var kept := full[1..];
      forall k | Position(kept, k).None? ensures Excused(c, ops, k, now) {
        if k == full[0].key {
          PushedOut(c, ops, full);
        } else {
          AbsentFromFull(full, kept, k);
        }
      }
    } else {
      assert full[0..] == full;
    }
  }

  lemma AbsentAfterTouch<V>(c: Cache<V>, ops: seq<Op<V>>, op: Op<V>, e: Entry<V>, k: string, now: real)
    requires AbsencesExcused(c, ops, Run(c, ops).items, now) && now <= op.at && e.key == op.key
    requires Position(Without(Run(c, ops).items, op.key) + [e], k).None?
    ensures Excused(c, ops + [op], k, op.at)
  {
    var w := Without(Run(c, ops).items, op.key);
    assert (w + [e])[|w|].key == op.key;
    AbsenceKept(c, ops, op, Run(c, ops).items, w + [e], k, now);
  }

  lemma AbsentFromFull<V>(full: seq<Entry<V>>, kept: seq<Entry<V>>, k: string)
    requires Position(kept, k).None? && full != []
    requires kept == full || (kept == full[1..] && k != full[0].key)
    ensures Position(full, k).None?
  {
    forall i | 0 <= i < |full| ensures full[i].key != k {
      if i > 0 && kept == full[1..] {
        assert kept[i - 1] == full[i];
      }
    }
  }

  lemma SoundLater<V>(c: Cache<V>, ops: seq<Op<V>>, r: Cache<V>, now: real, later: real)
    requires Sound(c, ops, r, now) && now <= later
    ensures Sound(c, ops, r, later)
  {
    forall key | Position(r.items, key).None? ensures Excused(c, ops, key, later) {
      assert Excused(c, ops, key, now);
    }
  }

  /** `now` is no earlier than any operation of the history. */
  ghost predicate NotBefore<V>(ops: seq<Op<V>>, now: real) {
    ops == [] || ops[|ops| - 1].at <= now
  }

  /** After every history the cache agrees with the timed map it stands for. */
  lemma {:induction false} RunSound<V>(maxEntries: int, ttl: real, ops: seq<Op<V>>, now: real)
    requires Timed(ops) && NotBefore(ops, now)
    ensures var c := Empty<V>(maxEntries, ttl); Sound(c, ops, Run(c, ops), now)
  {
    var c := Empty<V>(maxEntries, ttl);
    if ops != [] {
      var init, op := ops[..|ops| - 1], ops[|ops| - 1];
      RunSound(maxEntries, ttl, init, op.at);
      assert ops == init + [op];
      if op.Set? {
        if c.maxEntries == 0 || c.ttl <= 0.0 {
          AfterSetSkipped(c, init, op, op.at);
        } else {
          AfterStore(c, init, op, op.at);
        }
      } else if Hit(Run(c, init), op.key, op.at) {
        AfterHit(c, init, op, op.at);
      } else {
        AfterMiss(c, init, op, op.at);
      }
      SoundLater(c, ops, Run(c, ops), op.at, now);
    }
  }

  /**
   * What the next `get` answers: a hit is the value stored last, still alive; a miss means the key
   * was never stored, has expired, or was pushed out by at least `maxEntries` other keys.
   */
  lemma GetRefinesTimedMap<V>(maxEntries: int, ttl: real, ops: seq<Op<V>>, key: string, now: real)
    requires Timed(ops) && NotBefore(ops, now)
    ensures var c := Empty<V>(maxEntries, ttl); var r := Run(c, ops); var latest := Latest(c.ttl, ops, key);
      if Hit(r, key, now) then
        latest.Some? && latest.value.1 > now && latest.value.0 == r.items[Position(r.items, key).value].value
      else Excused(c, ops, key, now)
  {
    RunSound(maxEntries, ttl, ops, now);
  }
}
