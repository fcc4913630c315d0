/** Merging patches into the durable conversational task of src/wallet_agent/graph/tasks.py. */
module TaskSlots {
  import opened Wrappers

  // ---------- slots and tasks ----------

  /** Slots of one asset: unprefixed in a transfer, prefixed by the side in a swap. */
  datatype Side = Plain | Source | Destination

  datatype Field = Chain | ChainId | Symbol | TokenAddress | Decimals

  datatype Slot =
    | Of(side: Side, field: Field)
    | Amount
    | AmountRaw
    | InputAmount
    | InputAmountRaw
    | OutputAmount
    | OutputAmountRaw
    | AmountMode
    | TargetAmount
    | TargetCurrency
    | TargetPrice
    | TargetObserved
    | Named(name: string)

  /** A slot value: text, or some other datum with the text it prints as (empty when it is falsy). */
  datatype Value = Text(text: string) | Datum(shown: string) {
    function Shown(): string {
      if Text? then text else shown
    }
  }

  type Slots = map<Slot, Value>

  /** A patch from a caller; `None` asks for the slot to be cleared. */
  type Patch = map<Slot, Option<Value>>

  datatype Kind = Transfer | Swap

  datatype Origin = User | Wallet | Resolver | Legacy

  datatype Task = Task(kind: Kind, revision: nat, slots: Slots, sources: map<Slot, Origin>, updatedByUser: bool)

  /** The text canonicalisers of the language layer, and trimming and folding a token address. */
  datatype Canon = Canon(
    chain: string -> string,
    symbol: string -> string,
    amount: string -> string,
    token: string -> string)

  function NewTask(kind: Kind): Task {
    Task(kind, 0, map[], map[], false)
  }

  function Lookup(slots: Slots, k: Slot): Option<Value> {
    if k in slots then Some(slots[k]) else None
  }

  function Shown(slots: Slots, k: Slot): string {
    if k in slots then slots[k].Shown() else ""
  }

  function Normal(canon: Canon, k: Slot, v: Value): Value {
    match v
    case Datum(_) => v
    case Text(t) =>
      if k.Of? && k.field == Chain then Text(canon.chain(t))
      else if k.Of? && k.field == Symbol then Text(canon.symbol(t))
      else if k in {Amount, InputAmount, OutputAmount, TargetAmount} then Text(canon.amount(t))
      else v
  }

  function Normalized(canon: Canon, patch: Patch): Slots {
    map k | k in patch && patch[k].Some? :: Normal(canon, k, patch[k].value)
  }

  function Cleared(slots: Slots, patch: Patch): set<Slot> {
    set k | k in patch && patch[k].None? && k in slots
  }

  function Changed(slots: Slots, patch: Patch, given: Slots): set<Slot> {
    Cleared(slots, patch) + set k | k in given && Lookup(slots, k) != Some(given[k])
  }

  /** The slots after the patch is written and before anything derived is dropped. */
  function Written(slots: Slots, patch: Patch, given: Slots): Slots {
    (slots - Cleared(slots, patch)) + given
  }

  // ---------- what a change makes stale, slot by slot ----------

  /** What one merge knows when it decides which slots to drop; `slots` is the patched dictionary. */
  datatype Change = Change(kind: Kind, changed: set<Slot>, given: set<Slot>, prior: Slots, slots: Slots)

  predicate IdentityChanged(side: Side, changed: set<Slot>) {
    Of(side, Chain) in changed || Of(side, Symbol) in changed
  }

  predicate TargetChanged(changed: set<Slot>) {
    TargetAmount in changed || TargetCurrency in changed
  }

  predicate DestinationChanged(changed: set<Slot>) {
    IdentityChanged(Destination, changed) || Of(Destination, TokenAddress) in changed
  }

  predicate StaleField(side: Side, field: Field, changed: set<Slot>, given: set<Slot>) {
    && Of(side, field) !in given
    && match field
       case Chain => false
       case Symbol => false
       case Decimals => IdentityChanged(side, changed) || Of(side, TokenAddress) in changed
       case _ => IdentityChanged(side, changed)
  }

  predicate Moved(fold: string -> string, before: string, after: string) {
    fold(before) != "" && fold(after) != fold(before)
  }

  /** A known chain, symbol or token of the source asset is no longer what it was. */
  predicate Switched(canon: Canon, c: Change) {
    || Moved(canon.symbol, Shown(c.prior, Of(Source, Symbol)), Shown(c.slots, Of(Source, Symbol)))
    || Moved(canon.token, Shown(c.prior, Of(Source, TokenAddress)),
             if StaleField(Source, TokenAddress, c.changed, c.given) then "" else Shown(c.slots, Of(Source, TokenAddress)))
    || Moved(canon.chain, Shown(c.prior, Of(Source, Chain)), Shown(c.slots, Of(Source, Chain)))
  }

  predicate TargetStale(switched: bool, c: Change) {
    || (switched && InputAmount !in c.given && OutputAmount !in c.given)
    || InputAmount in c.changed || OutputAmount in c.changed
  }

  /** A target value survives while its destination asset changes, so its conversion does not. */
  predicate ConversionStale(switched: bool, c: Change) {
    DestinationChanged(c.changed) && Shown(c.slots, TargetAmount) != "" && !TargetStale(switched, c)
  }

  predicate Stale(canon: Canon, c: Change, k: Slot) {
    StaleIf(c.kind == Swap && Switched(canon, c), c, k)
  }

  predicate StaleIf(switched: bool, c: Change, k: Slot) {
    if c.kind == Transfer then
      match k
      case Of(Plain, field) => StaleField(Plain, field, c.changed, c.given)
      case AmountRaw => Amount in c.changed && AmountRaw !in c.given
      case _ => false
    else
      match k
      case Of(side, field) => side != Plain && StaleField(side, field, c.changed, c.given)
      case InputAmount =>
        (switched && InputAmount !in c.given) || OutputAmount in c.changed || TargetChanged(c.changed)
      case InputAmountRaw =>
        || (switched && InputAmount !in c.given) || TargetChanged(c.changed)
        || (InputAmount in c.changed && InputAmountRaw !in c.given)
      case OutputAmount =>
        || (switched && OutputAmount !in c.given) || InputAmount in c.changed || TargetChanged(c.changed)
        || ConversionStale(switched, c)
      case OutputAmountRaw =>
        || (switched && OutputAmount !in c.given)
        || (OutputAmount in c.changed && OutputAmountRaw !in c.given)
      case AmountMode =>
        || (switched && InputAmount !in c.given && OutputAmount !in c.given) || TargetChanged(c.changed)
        || ConversionStale(switched, c)
      case TargetAmount => TargetStale(switched, c)
      case TargetCurrency => TargetStale(switched, c)
      case TargetPrice => TargetStale(switched, c) || TargetChanged(c.changed) || ConversionStale(switched, c)
      case TargetObserved => TargetStale(switched, c) || TargetChanged(c.changed) || ConversionStale(switched, c)
      case _ => false
  }

  function Kept(canon: Canon, c: Change): Slots {
    map k | k in c.slots && !Stale(canon, c, k) :: c.slots[k]
  }

  // ---------- one merge ----------

  function ChangeOf(task: Task, patch: Patch, given: Slots): Change {
    Change(task.kind, Changed(task.slots, patch, given), given.Keys, task.slots, Written(task.slots, patch, given))
  }

  function Merged(canon: Canon, task: Task, patch: Patch, origin: Origin): Task {
    var given := Normalized(canon, patch);
    var changed := Changed(task.slots, patch, given);
    if changed == {} then task
    else
      var slots := Kept(canon, ChangeOf(task, patch, given));
      var sources := Tagged(task.sources, changed * given.Keys, slots.Keys, origin);
      Task(task.kind, task.revision + 1, slots, sources, origin == User)
  }

  function Tagged(sources: map<Slot, Origin>, given: set<Slot>, held: set<Slot>, origin: Origin): map<Slot, Origin> {
    Restricted(sources + map k | k in given :: origin, held)
  }

  function Restricted(sources: map<Slot, Origin>, held: set<Slot>): map<Slot, Origin> {
    map k | k in sources && k in held :: sources[k]
  }

  /** The dictionary that clearing works on in place. */
  class SlotTable {
    var entries: Slots

    constructor (entries: Slots)
      ensures this.entries == entries
    {
      this.entries := entries;
    }

    method Pop(k: Slot)
      modifies this
      ensures entries == old(entries) - {k}
    {
      entries := entries - {k};
    }
  }

  // The pops, in the order the source performs them.

  const PRICES: set<Slot> := {TargetPrice, TargetObserved}
  const TARGET: set<Slot> := {TargetAmount, TargetCurrency, TargetPrice, TargetObserved}

  function When(stale: bool, keys: set<Slot>): set<Slot> {
    if stale then keys else {}
  }

  function PoppedOfSide(side: Side, changed: set<Slot>, given: set<Slot>): set<Slot> {
    if IdentityChanged(side, changed) then {Of(side, TokenAddress), Of(side, Decimals), Of(side, ChainId)} - given
    else When(Of(side, TokenAddress) in changed, {Of(side, Decimals)} - given)
  }

  function PoppedOnSwitch(given: set<Slot>): set<Slot> {
    When(InputAmount !in given, {InputAmount, InputAmountRaw})
    + When(OutputAmount !in given, {OutputAmount, OutputAmountRaw})
    + When(InputAmount !in given && OutputAmount !in given, {AmountMode} + TARGET)
  }

  function PoppedOnAmounts(changed: set<Slot>, given: set<Slot>): set<Slot> {
    When(InputAmount in changed && InputAmountRaw !in given, {InputAmountRaw})
    + When(OutputAmount in changed && OutputAmountRaw !in given, {OutputAmountRaw})
    + When(InputAmount in changed, {OutputAmount} + TARGET)
    + When(OutputAmount in changed, {InputAmount} + TARGET)
    + When(TargetChanged(changed), {InputAmount, InputAmountRaw, OutputAmount, AmountMode} + PRICES)
  }

  method PopWhen(table: SlotTable, stale: bool, keys: set<Slot>)
    modifies table
    ensures table.entries == old(table.entries) - When(stale, keys)
  {
    if stale {
      var todo := keys;
      while todo != {}
        invariant todo <= keys
        invariant table.entries == old(table.entries) - (keys - todo)
        decreases |todo|
      {
        var k :| k in todo;
        table.Pop(k);
        todo := todo - {k};
      }
    }
  }

  lemma MinusMinus(slots: Slots, a: set<Slot>, b: set<Slot>)
    ensures (slots - a) - b == slots - (a + b)
  {
  }

  method ClearSide(side: Side, table: SlotTable, changed: set<Slot>, given: set<Slot>)
    modifies table
    ensures table.entries == old(table.entries) - PoppedOfSide(side, changed, given)
  {
    if IdentityChanged(side, changed) {
      if Of(side, TokenAddress) !in given {
        table.Pop(Of(side, TokenAddress));
      }
      if Of(side, Decimals) !in given {
        table.Pop(Of(side, Decimals));
      }
      if Of(side, ChainId) !in given {
        table.Pop(Of(side, ChainId));
      }
    } else if Of(side, TokenAddress) in changed && Of(side, Decimals) !in given {
      table.Pop(Of(side, Decimals));
    }
  }

  method ClearOnSwitch(table: SlotTable, given: set<Slot>)
    modifies table
    ensures table.entries == old(table.entries) - PoppedOnSwitch(given)
  {
    ghost var slots := table.entries;
    var input, output := InputAmount !in given, OutputAmount !in given;
    PopWhen(table, input, {InputAmount, InputAmountRaw});
    PopWhen(table, output, {OutputAmount, OutputAmountRaw});
    PopWhen(table, input && output, {AmountMode} + TARGET);
    ghost var a := When(input, {InputAmount, InputAmountRaw});
    ghost var b := When(output, {OutputAmount, OutputAmountRaw});
    MinusMinus(slots, a, b);
    MinusMinus(slots, a + b, When(input && output, {AmountMode} + TARGET));
  }

  method ClearOnAmounts(table: SlotTable, changed: set<Slot>, given: set<Slot>)
    modifies table
    ensures table.entries == old(table.entries) - PoppedOnAmounts(changed, given)
  {
    ghost var slots := table.entries;
    PopWhen(table, InputAmount in changed && InputAmountRaw !in given, {InputAmountRaw});
    PopWhen(table, OutputAmount in changed && OutputAmountRaw !in given, {OutputAmountRaw});
    PopWhen(table, InputAmount in changed, {OutputAmount} + TARGET);
    PopWhen(table, OutputAmount in changed, {InputAmount} + TARGET);
    PopWhen(table, TargetChanged(changed), {InputAmount, InputAmountRaw, OutputAmount, AmountMode} + PRICES);
    ghost var a := When(InputAmount in changed && InputAmountRaw !in given, {InputAmountRaw});
    ghost var b := When(OutputAmount in changed && OutputAmountRaw !in given, {OutputAmountRaw});
    ghost var c := When(InputAmount in changed, {OutputAmount} + TARGET);
    ghost var d := When(OutputAmount in changed, {InputAmount} + TARGET);
    MinusMinus(slots, a, b);
    MinusMinus(slots, a + b, c);
    MinusMinus(slots, a + b + c, d);
    MinusMinus(slots, a + b + c + d,
               When(TargetChanged(changed), {InputAmount, InputAmountRaw, OutputAmount, AmountMode} + PRICES));
  }

  method ClearDerived(canon: Canon, kind: Kind, table: SlotTable, changed: set<Slot>, given: set<Slot>, prior: Slots)
    modifies table
    ensures table.entries == Kept(canon, Change(kind, changed, given, prior, old(table.entries)))
  {
    ghost var c := Change(kind, changed, given, prior, table.entries);
    if kind == Transfer {
      ClearSide(Plain, table, changed, given);
      if Of(Plain, Chain) in changed && Of(Plain, ChainId) !in given {
        table.Pop(Of(Plain, ChainId));
      }
      PopWhen(table, Amount in changed && AmountRaw !in given, {AmountRaw});
      TransferPops(canon, c);
      return;
    }
    ClearSide(Source, table, changed, given);
    ClearSide(Destination, table, changed, given);
    ghost var sides := table.entries;
    var switched :=
      || Moved(canon.symbol, Shown(prior, Of(Source, Symbol)), Shown(table.entries, Of(Source, Symbol)))
      || Moved(canon.token, Shown(prior, Of(Source, TokenAddress)), Shown(table.entries, Of(Source, TokenAddress)))
      || Moved(canon.chain, Shown(prior, Of(Source, Chain)), Shown(table.entries, Of(Source, Chain)));
    SwitchSeen(canon, c, sides);
    if switched {
      ClearOnSwitch(table, given);
    }
    ClearOnAmounts(table, changed, given);
    ghost var amounts := table.entries;
    var converted := DestinationChanged(changed) && Shown(table.entries, TargetAmount) != "";
    PopWhen(table, converted, {OutputAmount, AmountMode} + PRICES);
    SwapPops(canon, c, sides, amounts, table.entries);
  }

  lemma TransferPops(canon: Canon, c: Change)
    requires c.kind == Transfer
    ensures c.slots - PoppedOfSide(Plain, c.changed, c.given) - When(Amount in c.changed && AmountRaw !in c.given, {AmountRaw})
      == Kept(canon, c)
  {
    var sides := c.slots - PoppedOfSide(Plain, c.changed, c.given);
    forall k ensures k in sides <==> k in c.slots && !(k.Of? && k.side == Plain && StaleField(Plain, k.field, c.changed, c.given)) {
      SideAt(Plain, c, k);
    }
  }

  lemma SideAt(side: Side, c: Change, k: Slot)
    ensures k in PoppedOfSide(side, c.changed, c.given)
      <==> k.Of? && k.side == side && StaleField(side, k.field, c.changed, c.given)
  {
  }

  lemma SwitchSeen(canon: Canon, c: Change, sides: Slots)
    requires sides == c.slots - PoppedOfSide(Source, c.changed, c.given) - PoppedOfSide(Destination, c.changed, c.given)
    ensures Switched(canon, c) <==>
      || Moved(canon.symbol, Shown(c.prior, Of(Source, Symbol)), Shown(sides, Of(Source, Symbol)))
      || Moved(canon.token, Shown(c.prior, Of(Source, TokenAddress)), Shown(sides, Of(Source, TokenAddress)))
      || Moved(canon.chain, Shown(c.prior, Of(Source, Chain)), Shown(sides, Of(Source, Chain)))
  {
    SideAt(Source, c, Of(Source, Symbol));
    SideAt(Source, c, Of(Source, TokenAddress));
    SideAt(Source, c, Of(Source, Chain));
    SideAt(Destination, c, Of(Source, Symbol));
    SideAt(Destination, c, Of(Source, TokenAddress));
    SideAt(Destination, c, Of(Source, Chain));
  }

  lemma OnSwitchAt(given: set<Slot>, k: Slot)
    ensures k in PoppedOnSwitch(given) <==>
      || ((k == InputAmount || k == InputAmountRaw) && InputAmount !in given)
      || ((k == OutputAmount || k == OutputAmountRaw) && OutputAmount !in given)
      || ((k == AmountMode || k in TARGET) && InputAmount !in given && OutputAmount !in given)
  {
  }

  lemma OnAmountsAt(changed: set<Slot>, given: set<Slot>, k: Slot)
    ensures k in PoppedOnAmounts(changed, given) <==>
      || (k == InputAmountRaw && InputAmount in changed && InputAmountRaw !in given)
      || (k == OutputAmountRaw && OutputAmount in changed && OutputAmountRaw !in given)
      || ((k == OutputAmount || k in TARGET) && InputAmount in changed)
      || ((k == InputAmount || k in TARGET) && OutputAmount in changed)
      || ((k == InputAmount || k == InputAmountRaw || k == OutputAmount || k == AmountMode || k in PRICES) && TargetChanged(changed))
  {
  }

  lemma StaleIsPopped(switched: bool, c: Change, k: Slot)
    requires c.kind == Swap
    ensures StaleIf(switched, c, k) <==>
      || (k.Of? && k.side != Plain && StaleField(k.side, k.field, c.changed, c.given))
      || (switched && k in PoppedOnSwitch(c.given)) || k in PoppedOnAmounts(c.changed, c.given)
      || (ConversionStale(switched, c) && k in {OutputAmount, AmountMode} + PRICES)
  {
    OnSwitchAt(c.given, k);
    OnAmountsAt(c.changed, c.given, k);
  }

  /** `sides` is left after the pops for both assets, `amounts` after those for the amounts. */
  ghost predicate PopsTo(canon: Canon, c: Change, sides: Slots, amounts: Slots) {
    var changed, given := c.changed, c.given;
    && sides == c.slots - PoppedOfSide(Source, changed, given) - PoppedOfSide(Destination, changed, given)
    && amounts == (if Switched(canon, c) then sides - PoppedOnSwitch(given) else sides) - PoppedOnAmounts(changed, given)
  }

  lemma SwapPops(canon: Canon, c: Change, sides: Slots, amounts: Slots, last: Slots)
    requires c.kind == Swap
    requires PopsTo(canon, c, sides, amounts)
    requires last == amounts
      - When(DestinationChanged(c.changed) && Shown(amounts, TargetAmount) != "", {OutputAmount, AmountMode} + PRICES)
    ensures last == Kept(canon, c)
  {
    var converted := DestinationChanged(c.changed) && Shown(amounts, TargetAmount) != "";
    assert converted <==> ConversionStale(Switched(canon, c), c) by {
      SwapPop(canon, c, sides, amounts, TargetAmount);
      StaleIsPopped(Switched(canon, c), c, TargetAmount);
    }
    forall k ensures k in last <==> k in Kept(canon, c) {
      SwapPopped(canon, c, sides, amounts, last, converted, k);
    }
    forall k | k in last ensures last[k] == c.slots[k] {
      SwapPop(canon, c, sides, amounts, k);
    }
  }

  lemma SwapPopped(canon: Canon, c: Change, sides: Slots, amounts: Slots, last: Slots,
                   converted: bool, k: Slot)
    requires c.kind == Swap && converted == ConversionStale(Switched(canon, c), c)
    requires PopsTo(canon, c, sides, amounts)
    requires last == amounts - When(converted, {OutputAmount, AmountMode} + PRICES)
    ensures k in last <==> k in c.slots && !Stale(canon, c, k)
  {
    SwapPop(canon, c, sides, amounts, k);
    StaleIsPopped(Switched(canon, c), c, k);
  }

  lemma SwapPop(canon: Canon, c: Change, sides: Slots, amounts: Slots, k: Slot)
    requires c.kind == Swap
    requires PopsTo(canon, c, sides, amounts)
    ensures k in amounts <==>
      k in sides && !(Switched(canon, c) && k in PoppedOnSwitch(c.given)) && k !in PoppedOnAmounts(c.changed, c.given)
    ensures k in amounts ==> amounts[k] == c.slots[k]
    ensures k in sides <==> k in c.slots && !(k.Of? && k.side != Plain && StaleField(k.side, k.field, c.changed, c.given))
  {
    SideAt(Source, c, k);
    SideAt(Destination, c, k);
  }

  /** State that a changed task no longer vouches for. */
  datatype Cached =
    | Confirmation | GasEstimate | PendingTransaction | Preflight | TransferRequest
    | SelectedQuote | QuoteCandidates | SwapRequest | ApprovalTransaction | AllowanceRequirement

  function Invalidated(kind: Kind, changed: set<Slot>): set<Cached> {
    if changed == {} then {}
    else
      {Confirmation, GasEstimate, PendingTransaction, Preflight}
      + if kind == Transfer then {TransferRequest}
        else {SelectedQuote, QuoteCandidates, SwapRequest, ApprovalTransaction, AllowanceRequirement}
  }

  /** Writes the patch into the table: cleared slots go, changed ones take their new value. */
  method Write(table: SlotTable, patch: Patch, given: Slots, cleared: set<Slot>, changed: set<Slot>)
    requires cleared == Cleared(table.entries, patch) && changed == Changed(table.entries, patch, given)
    modifies table
    ensures table.entries == Written(old(table.entries), patch, given)
  {
    ghost var before := table.entries;
    PopWhen(table, true, cleared);
    table.entries := table.entries + map k | k in given && k in changed :: given[k];
    assert table.entries == Written(before, patch, given);
  }

  /** Forgets the origin of slots no longer held. */
  method Restrict(sources: map<Slot, Origin>, held: set<Slot>) returns (kept: map<Slot, Origin>)
    ensures kept == Restricted(sources, held)
  {
    kept := sources;
    var todo := sources.Keys;
    while todo != {}
      invariant todo <= sources.Keys
      invariant forall k :: k in kept <==> k in sources && (k in todo || k in held)
      invariant forall k :: k in kept ==> kept[k] == sources[k]
      decreases |todo|
    {
      var k :| k in todo;
      if k !in held {
        kept := kept - {k};
      }
      todo := todo - {k};
    }
  }

  method MergePatch(canon: Canon, task: Task, patch: Patch, origin: Origin)
    returns (merged: Task, changed: set<Slot>, invalidated: set<Cached>)
    ensures merged == Merged(canon, task, patch, origin)
    ensures changed == Changed(task.slots, patch, Normalized(canon, patch))
    ensures invalidated == Invalidated(task.kind, changed)
  {
    var cleared := Cleared(task.slots, patch);
    var given := Normalized(canon, patch);
    changed := Changed(task.slots, patch, given);
    if changed == {} {
      return task, changed, {};
    }
    var table := new SlotTable(task.slots);
    Write(table, patch, given, cleared, changed);
    ClearDerived(canon, task.kind, table, changed, given.Keys, task.slots);
    var tags := map k | k in changed * given.Keys :: origin;
    var sources := Restrict(task.sources + tags, table.entries.Keys);
    merged := Task(task.kind, task.revision + 1, table.entries, sources, origin == User);
    invalidated := Invalidated(task.kind, changed);
  }
}
