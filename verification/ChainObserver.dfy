/** Classifying a transaction hash by asking the chain, as `_chain_broadcast_status` of src/wallet_agent/api/app.py does. */
module ChainObserver {
  import opened Wrappers

  datatype Status = Confirmed | BroadcastPending | Failed | DroppedOrReplaced | Unknown | NotPropagated

  /** A call into the chain adapter raises, or answers. */
  datatype Reply<T> = Raised | Answered(value: T)

  /** A receipt may not say whether the transaction succeeded. */
  datatype Receipt = Receipt(success: Option<bool>)

  /** What the adapter would answer in one attempt; `probe` is `None` for a word that maps to no status. */
  datatype Attempt = Attempt(receipt: Reply<Option<Receipt>>, found: Reply<bool>, probe: Reply<Option<Status>>)

  /** Which calls the adapter has. */
  datatype Adapter = Adapter(receipts: bool, transactions: bool, probes: bool, counts: bool)

  const ATTEMPTS: nat := 3

  // ---------- one attempt ----------

  /** The answer an attempt settles on, or none; whether some call answered; whether one raised. */
  datatype Outcome = Outcome(status: Option<Status>, answered: bool, raised: bool)

  function OfReceipt(receipt: Receipt): Status {
    if receipt.success == Some(false) then Failed
    else if receipt.success == Some(true) then Confirmed
    else BroadcastPending
  }

  function Probed(adapter: Adapter, attempt: Attempt, answered: bool): Outcome {
    if !adapter.probes || adapter.receipts then Outcome(None, answered, false)
    else match attempt.probe
      case Raised => Outcome(None, answered, true)
      case Answered(word) => Outcome(Some(if word.Some? then word.value else Unknown), true, false)
  }

  function Searched(adapter: Adapter, attempt: Attempt, answered: bool): Outcome {
    if !adapter.transactions then Probed(adapter, attempt, answered)
    else match attempt.found
      case Raised => Outcome(None, answered, true)
      case Answered(found) => if found then Outcome(Some(BroadcastPending), true, false) else Probed(adapter, attempt, true)
  }

  function Tried(adapter: Adapter, attempt: Attempt): Outcome {
    if !adapter.receipts then Searched(adapter, attempt, false)
    else match attempt.receipt
      case Raised => Outcome(None, false, true)
      case Answered(receipt) =>
        if receipt.Some? then Outcome(Some(OfReceipt(receipt.value)), true, false) else Searched(adapter, attempt, true)
  }

  /** The first attempt that settles the question. */
  function FirstSettled(adapter: Adapter, attempts: seq<Attempt>): (r: nat)
    ensures r <= |attempts|
    ensures r < |attempts| ==> Tried(adapter, attempts[r]).status.Some?
    ensures forall i :: 0 <= i < r ==> Tried(adapter, attempts[i]).status.None?
  {
    if attempts == [] then 0
    else
      var earlier := FirstSettled(adapter, attempts[..|attempts| - 1]);
      if earlier < |attempts| - 1 || Tried(adapter, attempts[|attempts| - 1]).status.Some? then earlier else |attempts|
  }

  predicate AnyAnswered(adapter: Adapter, attempts: seq<Attempt>) {
    exists i :: 0 <= i < |attempts| && Tried(adapter, attempts[i]).answered
  }

  predicate AnyRaised(adapter: Adapter, attempts: seq<Attempt>) {
    exists i :: 0 <= i < |attempts| && Tried(adapter, attempts[i]).raised
  }

  /** Whether the sender's transaction count is asked for: the sender and nonce must be known. */
  predicate AsksCount(adapter: Adapter, nonce: Option<nat>) {
    adapter.counts && nonce.Some?
  }

  /** The word of a receipt, or of a probe where the chain has no receipts. */
  predicate Evidence(adapter: Adapter, attempt: Attempt, status: Status) {
    if adapter.receipts then
      attempt.receipt.Answered? && attempt.receipt.value.Some?
      && attempt.receipt.value.value.success == Some(status == Confirmed)
    else adapter.probes && attempt.probe == Answered(Some(status))
  }

  // ---------- the whole classification ----------

  /**
   * Up to three attempts, then the sender's nonce. The first attempt that settles decides; a hash is
   * called dropped only when the nonce has moved past it, not propagated only when every call made was
   * answered and none knew it, and failed or confirmed only on the word of a receipt or a probe.
   */
  method Classify(adapter: Adapter, attempts: seq<Attempt>, nonce: Option<nat>, count: Reply<nat>) returns (status: Status)
    requires |attempts| == ATTEMPTS
    ensures var settled := FirstSettled(adapter, attempts);
      var asked := AsksCount(adapter, nonce);
      && (settled < ATTEMPTS ==> Some(status) == Tried(adapter, attempts[settled]).status)
      && (settled == ATTEMPTS ==>
        && (status == DroppedOrReplaced <==> asked && count.Answered? && count.value > nonce.value)
        && (status == NotPropagated <==>
          && !AnyRaised(adapter, attempts)
          && (asked ==> count.Answered? && count.value <= nonce.value)
          && (asked || AnyAnswered(adapter, attempts)))
        && status in {DroppedOrReplaced, NotPropagated, Unknown})
      && (status in {Failed, Confirmed} ==> settled < ATTEMPTS && Evidence(adapter, attempts[settled], status))
  {
    var answered, raised := false, false;
    var n := 0;
    while n < ATTEMPTS
      invariant 0 <= n <= ATTEMPTS
      invariant forall i :: 0 <= i < n ==> Tried(adapter, attempts[i]).status.None?
      invariant answered <==> exists i :: 0 <= i < n && Tried(adapter, attempts[i]).answered
      invariant raised <==> exists i :: 0 <= i < n && Tried(adapter, attempts[i]).raised
    {
      var outcome := Tried(adapter, attempts[n]);
      if outcome.status.Some? {
        return outcome.status.value;
      }
      answered := answered || outcome.answered;
      raised := raised || outcome.raised;
      n := n + 1;
    }
    if AsksCount(adapter, nonce) {
      match count
      case Raised => raised := true;
      case Answered(current) =>
        answered := true;
        if current > nonce.value {
          return DroppedOrReplaced;
        }
    }
    return if raised || !answered then Unknown else NotPropagated;
  }
}
