/** What every run of patches keeps true of a task that began empty. */
module TaskRuns {
  import opened Wrappers
  import opened TaskSlots

  datatype Step = Step(patch: Patch, origin: Origin)

  /** The task after the first `n` patches of a run. */
  function At(canon: Canon, kind: Kind, steps: seq<Step>, n: nat): (t: Task)
    requires n <= |steps|
    ensures t.kind == kind
  {
    if n == 0 then NewTask(kind) else Merged(canon, At(canon, kind, steps, n - 1), steps[n - 1].patch, steps[n - 1].origin)
  }

  // ---------- one merge, slot by slot ----------

  predicate Restates(step: Step, d: Slot) {
    d in step.patch && step.patch[d].Some?
  }

  function Given(canon: Canon, step: Step, d: Slot): Value
    requires Restates(step, d)
  {
    Normal(canon, d, step.patch[d].value)
  }

  lemma ChangedAt(canon: Canon, slots: Slots, step: Step, k: Slot)
    ensures k in Changed(slots, step.patch, Normalized(canon, step.patch)) <==>
      if Restates(step, k) then Lookup(slots, k) != Some(Given(canon, step, k)) else k in step.patch && k in slots
  {
    assert Restates(step, k) <==> k in Normalized(canon, step.patch);
  }

  /** Everything a merge does to one slot. */
  lemma MergedAt(canon: Canon, t: Task, step: Step, k: Slot)
    ensures var given := Normalized(canon, step.patch);
      var c := ChangeOf(t, step.patch, given);
      Lookup(Merged(canon, t, step.patch, step.origin).slots, k) ==
        if c.changed == {} then Lookup(t.slots, k)
        else if Stale(canon, c, k) then None
        else if k in c.changed then Lookup(given, k)
        else Lookup(t.slots, k)
    ensures Restates(step, k) <==> k in Normalized(canon, step.patch)
    ensures var r := Merged(canon, t, step.patch, step.origin).slots;
      Restates(step, k) && k in r ==> r[k] == Given(canon, step, k)
  {
    WrittenAt(t.slots, step.patch, Normalized(canon, step.patch), k);
  }

  lemma WrittenAt(slots: Slots, patch: Patch, given: Slots, k: Slot)
    requires given.Keys == set s | s in patch && patch[s].Some?
    ensures Lookup(Written(slots, patch, given), k) ==
      if k in Changed(slots, patch, given) then Lookup(given, k) else Lookup(slots, k)
  {
  }

  /** If `d` is held after the step (beside `k`, if asked), it was just given, or nothing changed in `d` and `k`. */
  ghost predicate Carries(canon: Canon, step: Step, before: Slots, after: Slots, d: Slot, k: Slot, beside: bool) {
    d in after && (beside ==> k in after) ==>
      if Restates(step, d) then after[d] == Given(canon, step, d)
      else Lookup(after, d) == Lookup(before, d) && Lookup(after, k) == Lookup(before, k)
  }

  /** The slots of one asset that follow from the others. */
  predicate DependsOn(d: Slot, k: Slot) {
    && d.Of? && k.Of? && d.side == k.side
    && match d.field
       case TokenAddress => k.field == Chain || k.field == Symbol
       case ChainId => k.field == Chain || k.field == Symbol
       case Decimals => k.field == Chain || k.field == Symbol || k.field == TokenAddress
       case _ => false
  }

  /** The sides a task of this kind keeps consistent. */
  predicate Sided(kind: Kind, side: Side) {
    kind == Transfer <==> side == Plain
  }

  /** A derived slot that survives without being restated belongs to the same asset as before. */
  lemma DerivedKept(canon: Canon, t: Task, step: Step, d: Slot, k: Slot)
    requires DependsOn(d, k) && Sided(t.kind, d.side)
    ensures Carries(canon, step, t.slots, Merged(canon, t, step.patch, step.origin).slots, d, k, false)
  {
    var c := ChangeOf(t, step.patch, Normalized(canon, step.patch));
    MergedAt(canon, t, step, d);
    MergedAt(canon, t, step, k);
    if c.changed != {} && d in Merged(canon, t, step.patch, step.origin).slots && !Restates(step, d) {
      assert !Stale(canon, c, d);
      assert !StaleField(d.side, d.field, c.changed, c.given);
    }
  }

  predicate RawOf(kind: Kind, raw: Slot, amount: Slot) {
    match kind
    case Transfer => raw == AmountRaw && amount == Amount
    case Swap => (raw == InputAmountRaw && amount == InputAmount) || (raw == OutputAmountRaw && amount == OutputAmount)
  }

  /** A raw amount that survives beside an amount without being restated came with that amount. */
  lemma RawKept(canon: Canon, t: Task, step: Step, raw: Slot, amount: Slot)
    requires RawOf(t.kind, raw, amount)
    ensures Carries(canon, step, t.slots, Merged(canon, t, step.patch, step.origin).slots, raw, amount, true)
  {
    MergedAt(canon, t, step, raw);
    MergedAt(canon, t, step, amount);
  }

  /** What is known of the source asset, in the form clearing compares it. */
  function SourceKnown(canon: Canon, slots: Slots, field: Field): string {
    var shown := Shown(slots, Of(Source, field));
    match field
    case Chain => canon.chain(shown)
    case Symbol => canon.symbol(shown)
    case _ => canon.token(shown)
  }

  predicate Identifies(field: Field) {
    field == Chain || field == Symbol || field == TokenAddress
  }

  /** An input amount that survives without being restated keeps every known part of its asset. */
  lemma InputKept(canon: Canon, t: Task, step: Step, field: Field)
    requires t.kind == Swap && Identifies(field)
    ensures var r := Merged(canon, t, step.patch, step.origin).slots;
      && Carries(canon, step, t.slots, r, InputAmount, InputAmount, false)
      && (InputAmount in r && !Restates(step, InputAmount) && SourceKnown(canon, t.slots, field) != "" ==>
        SourceKnown(canon, r, field) == SourceKnown(canon, t.slots, field))
  {
    var given := Normalized(canon, step.patch);
    var c := ChangeOf(t, step.patch, given);
    MergedAt(canon, t, step, InputAmount);
    MergedAt(canon, t, step, Of(Source, field));
    if c.changed != {} && InputAmount in Merged(canon, t, step.patch, step.origin).slots && !Restates(step, InputAmount) {
      assert !Stale(canon, c, InputAmount);
      assert !Switched(canon, c);
      WrittenAt(t.slots, step.patch, given, Of(Source, field));
    }
  }

  // ---------- provenance along a run ----------

  /** The slots held before and after each step. */
  function Trace(canon: Canon, kind: Kind, steps: seq<Step>): (states: seq<Slots>)
    ensures |states| == |steps| + 1 && states[0] == map[]
    ensures forall n :: 0 <= n <= |steps| ==> states[n] == At(canon, kind, steps, n).slots
  {
    seq(|steps| + 1, n requires 0 <= n <= |steps| => At(canon, kind, steps, n).slots)
  }

  /** `d` was given in step `i`, and since then neither it nor `k` has changed. */
  ghost predicate GivenWith(canon: Canon, steps: seq<Step>, states: seq<Slots>, n: nat, d: Slot, k: Slot, i: nat)
    requires n <= |steps| && |states| == |steps| + 1
  {
    && i < n && Restates(steps[i], d)
    && (forall j :: i < j <= n ==>
      Lookup(states[j], d) == Some(Given(canon, steps[i], d)) && Lookup(states[j], k) == Lookup(states[n], k))
  }

  /** The last step whose patch restates `d`, counted from one; zero if there is none. */
  function LastGiven(steps: seq<Step>, n: nat, d: Slot): (r: nat)
    requires n <= |steps|
    ensures r <= n && (r > 0 ==> Restates(steps[r - 1], d))
    ensures forall i :: r <= i < n ==> !Restates(steps[i], d)
  {
    if n == 0 || Restates(steps[n - 1], d) then n else LastGiven(steps, n - 1, d)
  }

  lemma {:induction false} CarriedSince(canon: Canon, steps: seq<Step>, states: seq<Slots>, n: nat, d: Slot, k: Slot, beside: bool)
    requires n <= |steps| && |states| == |steps| + 1 && states[0] == map[]
    requires forall i :: 0 <= i < |steps| ==> Carries(canon, steps[i], states[i], states[i + 1], d, k, beside)
    requires d in states[n] && (beside ==> k in states[n])
    ensures var r := LastGiven(steps, n, d); r > 0 && GivenWith(canon, steps, states, n, d, k, r - 1)
  {
    assert Carries(canon, steps[n - 1], states[n - 1], states[n], d, k, beside);
    if !Restates(steps[n - 1], d) {
      CarriedSince(canon, steps, states, n - 1, d, k, beside);
    }
  }

  /**
   * A token address, decimals or chain id still held was given for the chain, symbol (and, for
   * decimals, token address) its side has now.
   */
  lemma DerivedProvenance(canon: Canon, kind: Kind, steps: seq<Step>, n: nat, d: Slot, k: Slot)
    requires n <= |steps| && DependsOn(d, k) && Sided(kind, d.side) && d in Trace(canon, kind, steps)[n]
    ensures var r := LastGiven(steps, n, d);
      r > 0 && GivenWith(canon, steps, Trace(canon, kind, steps), n, d, k, r - 1)
  {
    var states := Trace(canon, kind, steps);
    forall i | 0 <= i < |steps| ensures Carries(canon, steps[i], states[i], states[i + 1], d, k, false) {
      DerivedKept(canon, At(canon, kind, steps, i), steps[i], d, k);
    }
    CarriedSince(canon, steps, states, n, d, k, false);
  }

  /** A raw amount held beside an amount was given for that amount. */
  lemma RawProvenance(canon: Canon, kind: Kind, steps: seq<Step>, n: nat, raw: Slot, amount: Slot)
    requires n <= |steps| && RawOf(kind, raw, amount)
    requires raw in Trace(canon, kind, steps)[n] && amount in Trace(canon, kind, steps)[n]
    ensures var r := LastGiven(steps, n, raw);
      r > 0 && GivenWith(canon, steps, Trace(canon, kind, steps), n, raw, amount, r - 1)
  {
    var states := Trace(canon, kind, steps);
    forall i | 0 <= i < |steps| ensures Carries(canon, steps[i], states[i], states[i + 1], raw, amount, true) {
      RawKept(canon, At(canon, kind, steps, i), steps[i], raw, amount);
    }
    CarriedSince(canon, steps, states, n, raw, amount, true);
  }

  /** An input amount held was given in a step of the run, and has not changed since. */
  lemma InputProvenance(canon: Canon, steps: seq<Step>, n: nat)
    requires n <= |steps| && InputAmount in Trace(canon, Swap, steps)[n]
    ensures var r := LastGiven(steps, n, InputAmount);
      r > 0 && GivenWith(canon, steps, Trace(canon, Swap, steps), n, InputAmount, InputAmount, r - 1)
  {
    var states := Trace(canon, Swap, steps);
    forall i | 0 <= i < |steps| ensures Carries(canon, steps[i], states[i], states[i + 1], InputAmount, InputAmount, false) {
      InputKept(canon, At(canon, Swap, steps, i), steps[i], Symbol);
    }
    CarriedSince(canon, steps, states, n, InputAmount, InputAmount, false);
  }

  ghost predicate KnownKept(canon: Canon, step: Step, before: Slots, after: Slots, field: Field) {
    InputAmount in after && !Restates(step, InputAmount) ==>
      && InputAmount in before
      && (SourceKnown(canon, before, field) != "" ==> SourceKnown(canon, after, field) == SourceKnown(canon, before, field))
  }

  lemma {:induction false} KnownSince(canon: Canon, steps: seq<Step>, states: seq<Slots>, n: nat, field: Field, j: nat)
    requires n <= |steps| && |states| == |steps| + 1
    requires forall i :: 0 <= i < |steps| ==> KnownKept(canon, steps[i], states[i], states[i + 1], field)
    requires InputAmount in states[n] && LastGiven(steps, n, InputAmount) <= j <= n
    ensures SourceKnown(canon, states[j], field) != "" ==>
      SourceKnown(canon, states[n], field) == SourceKnown(canon, states[j], field)
  {
    if j < n {
      assert KnownKept(canon, steps[n - 1], states[n - 1], states[n], field);
      KnownSince(canon, steps, states, n - 1, field, j);
    }
  }

  /** Every part of the source asset known since the input amount was given is still what it was then. */
  lemma InputAssetKept(canon: Canon, steps: seq<Step>, n: nat, field: Field, j: nat)
    requires n <= |steps| && Identifies(field) && InputAmount in Trace(canon, Swap, steps)[n]
    requires LastGiven(steps, n, InputAmount) <= j <= n
    ensures var known := SourceKnown(canon, Trace(canon, Swap, steps)[j], field);
      known != "" ==> SourceKnown(canon, Trace(canon, Swap, steps)[n], field) == known
  {
    var states := Trace(canon, Swap, steps);
    forall i | 0 <= i < |steps| ensures KnownKept(canon, steps[i], states[i], states[i + 1], field) {
      InputKept(canon, At(canon, Swap, steps, i), steps[i], field);
    }
    KnownSince(canon, steps, states, n, field, j);
  }

  // ---------- amounts, origins and revisions ----------

  predicate AtMostOneAmount(slots: Slots) {
    && !(InputAmount in slots && OutputAmount in slots)
    && !(InputAmount in slots && TargetAmount in slots)
    && !(OutputAmount in slots && TargetAmount in slots)
  }

  lemma OneAmountKept(canon: Canon, t: Task, step: Step)
    requires t.kind == Swap && AtMostOneAmount(t.slots)
    ensures AtMostOneAmount(Merged(canon, t, step.patch, step.origin).slots)
  {
    MergedAt(canon, t, step, InputAmount);
    MergedAt(canon, t, step, OutputAmount);
    MergedAt(canon, t, step, TargetAmount);
  }

  /** A swap never holds two of the input, output and target amounts. */
  lemma {:induction false} OneAmount(canon: Canon, steps: seq<Step>, n: nat)
    requires n <= |steps|
    ensures AtMostOneAmount(At(canon, Swap, steps, n).slots)
  {
    if n > 0 {
      OneAmount(canon, steps, n - 1);
      OneAmountKept(canon, At(canon, Swap, steps, n - 1), steps[n - 1]);
    }
  }

  /** Every held slot has a recorded origin, and nothing else has one. */
  lemma {:induction false} OriginsMatch(canon: Canon, kind: Kind, steps: seq<Step>, n: nat)
    requires n <= |steps|
    ensures At(canon, kind, steps, n).sources.Keys == At(canon, kind, steps, n).slots.Keys
  {
    if n > 0 {
      var t, step := At(canon, kind, steps, n - 1), steps[n - 1];
      OriginsMatch(canon, kind, steps, n - 1);
      forall k | k in Merged(canon, t, step.patch, step.origin).slots
        ensures k in t.slots || k in ChangeOf(t, step.patch, Normalized(canon, step.patch)).changed * Normalized(canon, step.patch).Keys
      {
        MergedAt(canon, t, step, k);
      }
    }
  }

  /** The revision counts the merges that changed some slot of a transfer. */
  lemma TransferRevision(canon: Canon, t: Task, step: Step)
    requires t.kind == Transfer
    ensures var r := Merged(canon, t, step.patch, step.origin);
      r.revision == t.revision + (if r.slots != t.slots then 1 else 0)
  {
    var c := ChangeOf(t, step.patch, Normalized(canon, step.patch));
    if c.changed != {} {
      var k :| k in c.changed;
      MergedAt(canon, t, step, k);
      assert Stale(canon, c, k) ==> k !in c.given;
    }
  }

  /**
   * The patch newly gives a swap two of the three kinds of amount and nothing that outlives them,
   * and the swap holds nothing that those amounts displace.
   */
  predicate Annihilates(held: set<Slot>, given: set<Slot>, changed: set<Slot>) {
    var input, output, target := InputAmount in changed, OutputAmount in changed, TargetChanged(changed);
    && ((input && output) || (input && target) || (output && target))
    && changed <= {InputAmount, OutputAmount} + PRICES + When(target, {TargetAmount, TargetCurrency, InputAmountRaw, AmountMode})
    && held !! changed
    && held !! {InputAmount, OutputAmount} + TARGET
    && !(target && (InputAmountRaw in held || AmountMode in held))
    && !(input && InputAmountRaw in held && InputAmountRaw !in given)
    && !(output && OutputAmountRaw in held && OutputAmountRaw !in given)
  }

  /** Nothing is left of a change: every changed slot is new and stale, and no stale slot was held. */
  ghost predicate Vanishes(canon: Canon, c: Change) {
    && (forall k :: k in c.changed ==> k !in c.prior && k in c.given && Stale(canon, c, k))
    && (forall k :: k in c.prior ==> !Stale(canon, c, k))
  }

  lemma SameSlot(canon: Canon, t: Task, step: Step, c: Change, k: Slot)
    requires c == ChangeOf(t, step.patch, Normalized(canon, step.patch)) && c.changed != {}
    ensures Lookup(Merged(canon, t, step.patch, step.origin).slots, k) == Lookup(t.slots, k) <==>
      && (k in c.changed ==> k !in c.prior && k in c.given && Stale(canon, c, k))
      && (k in c.prior ==> !Stale(canon, c, k))
  {
    MergedAt(canon, t, step, k);
  }

  lemma VanishesExactly(canon: Canon, t: Task, step: Step, c: Change, r: Slots)
    requires c == ChangeOf(t, step.patch, Normalized(canon, step.patch)) && c.changed != {}
    requires r == Merged(canon, t, step.patch, step.origin).slots
    ensures r == t.slots <==> Vanishes(canon, c)
  {
    forall k ensures Lookup(r, k) == Lookup(t.slots, k) <==>
        && (k in c.changed ==> k !in c.prior && k in c.given && Stale(canon, c, k))
        && (k in c.prior ==> !Stale(canon, c, k)) {
      SameSlot(canon, t, step, c, k);
    }
    if Vanishes(canon, c) {
      SameSlots(r, t.slots);
    }
  }

  lemma SameSlots(a: Slots, b: Slots)
    requires forall k :: Lookup(a, k) == Lookup(b, k)
    ensures a == b
  {
    forall k ensures k in a <==> k in b {
      assert Lookup(a, k) == Lookup(b, k);
    }
    forall k | k in a ensures a[k] == b[k] {
      assert Lookup(a, k) == Lookup(b, k);
    }
  }

  /** An unchanged source asset is not switched. */
  lemma NotSwitched(canon: Canon, t: Task, step: Step, c: Change)
    requires c == ChangeOf(t, step.patch, Normalized(canon, step.patch)) && c.kind == Swap
    requires Of(Source, Chain) !in c.changed && Of(Source, Symbol) !in c.changed && Of(Source, TokenAddress) !in c.changed
    ensures !Switched(canon, c)
  {
    WrittenAt(t.slots, step.patch, Normalized(canon, step.patch), Of(Source, Chain));
    WrittenAt(t.slots, step.patch, Normalized(canon, step.patch), Of(Source, Symbol));
    WrittenAt(t.slots, step.patch, Normalized(canon, step.patch), Of(Source, TokenAddress));
  }

  /** Which slots go stale when only amounts change. */
  predicate Displaced(changed: set<Slot>, given: set<Slot>, k: Slot) {
    var input, output, target := InputAmount in changed, OutputAmount in changed, TargetChanged(changed);
    match k
    case InputAmount => output || target
    case InputAmountRaw => target || (input && InputAmountRaw !in given)
    case OutputAmount => input || target
    case OutputAmountRaw => output && OutputAmountRaw !in given
    case AmountMode => target
    case TargetAmount => input || output
    case TargetCurrency => input || output
    case TargetPrice => input || output || target
    case TargetObserved => input || output || target
    case _ => false
  }

  lemma StaleIsDisplaced(c: Change, k: Slot)
    requires c.kind == Swap
    requires forall side, field :: Of(side, field) !in c.changed
    ensures StaleIf(false, c, k) <==> Displaced(c.changed, c.given, k)
  {
    assert !DestinationChanged(c.changed);
  }

  lemma DisplacedAll(changed: set<Slot>, given: set<Slot>, held: set<Slot>)
    requires Annihilates(held, given, changed)
    ensures forall k :: k in changed ==> !k.Of? && Displaced(changed, given, k)
    ensures forall k :: k in held ==> !Displaced(changed, given, k)
  {
    forall k | k in held ensures !Displaced(changed, given, k) {
      assert k !in {InputAmount, OutputAmount} + TARGET;
    }
  }

  lemma AllDisplaced(changed: set<Slot>, given: set<Slot>, held: set<Slot>)
    requires changed != {} && changed !! held
    requires forall k :: k in changed ==> k in given && Displaced(changed, given, k)
    requires forall k :: k in held ==> !Displaced(changed, given, k)
    ensures Annihilates(held, given, changed)
  {
    var k0 :| k0 in changed;
    assert Displaced(changed, given, k0);
    var target := TargetChanged(changed);
    forall k | k in changed
      ensures k in {InputAmount, OutputAmount} + PRICES + When(target, {TargetAmount, TargetCurrency, InputAmountRaw, AmountMode})
    {
      assert Displaced(changed, given, k);
    }
    forall k | k in held ensures k !in {InputAmount, OutputAmount} + TARGET {
      assert !Displaced(changed, given, k);
    }
  }

  lemma DisplacedVanishes(canon: Canon, t: Task, step: Step, c: Change)
    requires c == ChangeOf(t, step.patch, Normalized(canon, step.patch)) && c.kind == Swap
    requires c.changed !! c.prior.Keys
    requires forall k :: k in c.changed ==> !k.Of? && Displaced(c.changed, c.given, k)
    requires forall k :: k in c.prior ==> !Displaced(c.changed, c.given, k)
    ensures Vanishes(canon, c)
  {
    NotSwitched(canon, t, step, c);
    forall k | k in c.changed ensures k !in c.prior && k in c.given && Stale(canon, c, k) {
      assert k !in Cleared(t.slots, step.patch);
      StaleIsDisplaced(c, k);
    }
    forall k | k in c.prior ensures !Stale(canon, c, k) {
      StaleIsDisplaced(c, k);
    }
  }

  lemma VanishedAnnihilates(canon: Canon, t: Task, step: Step, c: Change)
    requires c == ChangeOf(t, step.patch, Normalized(canon, step.patch)) && c.kind == Swap && c.changed != {}
    requires Vanishes(canon, c)
    ensures Annihilates(t.slots.Keys, c.given, c.changed)
  {
    forall side, field ensures Of(side, field) !in c.changed {
    }
    NotSwitched(canon, t, step, c);
    forall k ensures Stale(canon, c, k) <==> Displaced(c.changed, c.given, k) {
      StaleIsDisplaced(c, k);
    }
    AllDisplaced(c.changed, c.given, t.slots.Keys);
  }

  /**
   * The revision counts the merges that changed some slot of a swap, and besides them exactly the
   * patches whose amounts displace each other and leave nothing behind.
   */
  lemma SwapRevision(canon: Canon, t: Task, step: Step)
    requires t.kind == Swap
    ensures var r := Merged(canon, t, step.patch, step.origin);
      var given := Normalized(canon, step.patch);
      var vain := Annihilates(t.slots.Keys, given.Keys, Changed(t.slots, step.patch, given));
      && (vain ==> r.slots == t.slots)
      && r.revision == t.revision + (if r.slots != t.slots || vain then 1 else 0)
  {
    var c := ChangeOf(t, step.patch, Normalized(canon, step.patch));
    if c.changed != {} {
      VanishesExactly(canon, t, step, c, Merged(canon, t, step.patch, step.origin).slots);
      if Vanishes(canon, c) {
        VanishedAnnihilates(canon, t, step, c);
      }
      if Annihilates(t.slots.Keys, c.given, c.changed) {
        DisplacedAll(c.changed, c.given, t.slots.Keys);
        DisplacedVanishes(canon, t, step, c);
      }
    }
  }

  // ---------- the same patch twice ----------

  lemma RepeatedIfHeld(canon: Canon, t: Task, step: Step)
    ensures var once := Merged(canon, t, step.patch, step.origin);
      Merged(canon, once, step.patch, step.origin) == once <==> forall k :: Restates(step, k) ==> k in once.slots
  {
    var once := Merged(canon, t, step.patch, step.origin);
    var given := Normalized(canon, step.patch);
    forall k ensures k in Changed(once.slots, step.patch, given) <==> Restates(step, k) && k !in once.slots {
      MergedAt(canon, t, step, k);
      ChangedAt(canon, t.slots, step, k);
      ChangedAt(canon, once.slots, step, k);
    }
    if k :| Restates(step, k) && k !in once.slots {
      assert k in Changed(once.slots, step.patch, given);
    }
  }

  /** Merging a patch again changes nothing exactly when the patch changes nothing, or no slot it gives goes stale by it. */
  lemma RepeatedPatch(canon: Canon, t: Task, step: Step)
    ensures var once := Merged(canon, t, step.patch, step.origin);
      var c := ChangeOf(t, step.patch, Normalized(canon, step.patch));
      Merged(canon, once, step.patch, step.origin) == once <==>
        c.changed == {} || forall k :: k in c.given ==> !Stale(canon, c, k)
  {
    var once := Merged(canon, t, step.patch, step.origin);
    var c := ChangeOf(t, step.patch, Normalized(canon, step.patch));
    forall k ensures Restates(step, k) <==> k in c.given {
      MergedAt(canon, t, step, k);
    }
    forall k | k in c.given ensures k in once.slots <==> c.changed == {} || !Stale(canon, c, k) {
      MergedAt(canon, t, step, k);
      ChangedAt(canon, t.slots, step, k);
    }
    RepeatedIfHeld(canon, t, step);
  }

  /** In a transfer that is always so. */
  lemma TransferRepeated(canon: Canon, t: Task, step: Step)
    requires t.kind == Transfer
    ensures var once := Merged(canon, t, step.patch, step.origin);
      Merged(canon, once, step.patch, step.origin) == once
  {
    RepeatedPatch(canon, t, step);
  }

  /** No slot a swap patch gives is displaced by what the patch changes. */
  predicate Compatible(switched: bool, c: Change) {
    var input, output, target := InputAmount in c.changed, OutputAmount in c.changed, TargetChanged(c.changed);
    var moved := switched && InputAmount !in c.given && OutputAmount !in c.given;
    var converted := DestinationChanged(c.changed) && Shown(c.slots, TargetAmount) != "" && !input && !output && !moved;
    && (InputAmount in c.given ==> !output && !target)
    && (InputAmountRaw in c.given ==> !target && (switched ==> InputAmount in c.given))
    && (OutputAmount in c.given ==> !input && !target && !converted)
    && (OutputAmountRaw in c.given ==> (switched ==> OutputAmount in c.given))
    && (AmountMode in c.given ==> !target && !converted && !moved)
    && (TargetAmount in c.given || TargetCurrency in c.given ==> !input && !output && !moved)
    && (TargetPrice in c.given || TargetObserved in c.given ==> !input && !output && !target && !converted && !moved)
  }

  lemma CompatibleExactly(switched: bool, c: Change)
    requires c.kind == Swap
    ensures Compatible(switched, c) <==> forall k :: k in c.given ==> !StaleIf(switched, c, k)
  {
    if forall k :: k in c.given ==> !StaleIf(switched, c, k) {
      assert forall k :: k in {InputAmount, InputAmountRaw, OutputAmount, OutputAmountRaw, AmountMode} + TARGET && k in c.given ==>
        !StaleIf(switched, c, k);
    }
  }

  /** Merging a patch into a swap twice is merging it once if and only if it changes nothing or displaces none of its own slots. */
  lemma SwapRepeated(canon: Canon, t: Task, step: Step)
    requires t.kind == Swap
    ensures var once := Merged(canon, t, step.patch, step.origin);
      var c := ChangeOf(t, step.patch, Normalized(canon, step.patch));
      Merged(canon, once, step.patch, step.origin) == once <==> c.changed == {} || Compatible(Switched(canon, c), c)
  {
    var c := ChangeOf(t, step.patch, Normalized(canon, step.patch));
    RepeatedPatch(canon, t, step);
    CompatibleExactly(Switched(canon, c), c);
  }

  /** A patch whose amounts displace each other raises the revision every time it is merged. */
  lemma VainAgain(canon: Canon, t: Task, step: Step, once: Task)
    requires t.kind == Swap && once == Merged(canon, t, step.patch, step.origin)
    requires var given := Normalized(canon, step.patch);
      Annihilates(t.slots.Keys, given.Keys, Changed(t.slots, step.patch, given))
    ensures once.kind == Swap && once.slots == t.slots && once.revision == t.revision + 1
    ensures Merged(canon, once, step.patch, step.origin).revision == t.revision + 2
  {
    SwapRevision(canon, t, step);
    SwapRevision(canon, once, step);
  }

  lemma BothAmounts(canon: Canon, slots: Slots, patch: Patch)
    requires slots == map[]
    requires patch.Keys == {InputAmount, OutputAmount} && patch[InputAmount].Some? && patch[OutputAmount].Some?
    ensures var given := Normalized(canon, patch);
      Annihilates(slots.Keys, given.Keys, Changed(slots, patch, given))
  {
    var given := Normalized(canon, patch);
    assert given.Keys == {InputAmount, OutputAmount};
    assert Changed(slots, patch, given) == {InputAmount, OutputAmount};
  }

  /**
   * A patch with both an input and an output amount leaves an empty swap empty, but raises its revision,
   * and raises it again when it is merged again.
   */
  lemma VainPatch(canon: Canon, t: Task, patch: Patch, once: Task)
    requires t == NewTask(Swap) && once == Merged(canon, t, patch, User)
    requires patch.Keys == {InputAmount, OutputAmount} && patch[InputAmount].Some? && patch[OutputAmount].Some?
    ensures once.slots == map[] && once.revision == 1
    ensures Merged(canon, once, patch, User).revision == 2
  {
    BothAmounts(canon, t.slots, patch);
    VainAgain(canon, t, Step(patch, User), once);
  }
}
