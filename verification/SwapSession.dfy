/**
 * One stored session under interleaved requests, after src/wallet_agent/api/app.py: broadcasting a
 * swap or a transfer, submitting an approval, cancelling, and the passive poll with order recovery.
 * Every request is a chain of atomic steps; between two of them any other request may act.
 */
module SwapSession {
  import opened Wrappers
  import opened TransactionHash

  // ---------- the stored record ----------

  /** The names used for the session status and stage, the broadcast status and the order status. */
  datatype State =
    | NotPropagated | Unknown | DroppedOrReplaced
    | BroadcastSeen | BroadcastPending | SourceConfirmed | Confirmed
    | Completed | Failed | Refunded | TimedOut | KycRequired | Cancelled
    | Processing | ApprovalRequired | ApprovalSubmitted
    | Named(name: string)

  /** A provider order with the hash and the reference it was registered under. */
  datatype Order = Order(registeredFor: string, reference: string, id: string)

  /** A prepared transaction; `reference` is the order reference it carries, if any. */
  datatype Prepared = Prepared(reference: Option<string>)

  datatype Record = Record(
    revision: nat,
    status: State,
    stage: State,
    quote: Option<string>,
    pending: Option<Prepared>,
    hash: Option<string>,
    order: Option<Order>,
    orderStatus: Option<State>,
    broadcastStatus: Option<State>,
    approvalHash: Option<string>,
    approvalCard: bool)

  predicate Retryable(status: State) {
    status in {NotPropagated, Unknown, DroppedOrReplaced}
  }

  predicate Visible(status: State) {
    status in {BroadcastSeen, BroadcastPending, SourceConfirmed, Confirmed}
  }

  predicate Terminal(status: State) {
    status in {Completed, Failed, Refunded, TimedOut, KycRequired, Cancelled}
  }

  predicate Ended(r: Record) {
    r.orderStatus.Some? && Terminal(r.orderStatus.value)
  }

  /** The reference a registration uses: the prepared order's own, or else the quote's. */
  function Reference(r: Record): string {
    if r.pending.Some? && r.pending.value.reference.Some? then r.pending.value.reference.value
    else if r.quote.Some? then r.quote.value
    else ""
  }

  // ---------- requests in flight ----------

  /** Where a request stands; `snap` is the record it read last, `hash` what it was asked to record. */
  datatype Op =
    | Idle
    | BroadcastObserving(hash: string)
    | BroadcastWaiting(hash: string, seen: State)
    | BroadcastRegistering(hash: string, seen: State, snap: Record)
    | BroadcastCommitting(hash: string, seen: State, snap: Record, order: Option<Order>)
    | TransferObserving(hash: string)
    | TransferWaiting(hash: string, seen: State)
    | TransferCommitting(hash: string, seen: State, snap: Record)
    | ApproveWaiting(hash: string)
    | ApproveCommitting(snap: Record, submitted: Option<string>)
    | Cancelling
    | PollChecking(snap: Record)
    | PollRegistering(snap: Record)
    | PollRecovering(snap: Record, found: Order)
    | PollReading
    | PollAsking(snap: Record)
    | PollCommitting(snap: Record, state: State)

  /** What the outside contributes to a step: a request, a reply, or only the scheduler's turn. */
  datatype Event =
    | AskBroadcast(hash: string, qualified: bool, provider: bool)
    | AskTransfer(hash: string, qualified: bool, sameChain: bool)
    | AskApprove(hash: string, qualified: bool)
    | AskCancel
    | AskPoll
    | Observed(seen: Option<State>)
    | Turn(provider: bool)
    | Registered(id: Option<string>)
    | Checked(confirmed: bool)
    | Answered(state: Option<State>)

  /**
   * The stored record, who holds the conversation lock, every request in flight, and the form in
   * which transaction hashes are stored and compared.
   */
  datatype System = System(form: string -> string, record: Record, lock: Option<nat>, ops: map<nat, Op>)

  function OpOf(s: System, id: nat): Op {
    if id in s.ops then s.ops[id] else Idle
  }

  /** The request moves on without touching the record or the lock. */
  function Moves(s: System, id: nat, op: Op): System {
    s.(ops := s.ops[id := op])
  }

  /** The request moves on with the lock taken. */
  function Enters(s: System, id: nat, op: Op): System {
    s.(ops := s.ops[id := op], lock := Some(id))
  }

  /** The request ends, giving the lock back, with `record` stored. */
  function Leaves(s: System, id: nat, record: Record): System {
    s.(record := record, lock := None, ops := s.ops[id := Idle])
  }

  /** A store update: guarded by the revision that was read, if one is expected. */
  function Updated(current: Record, expected: Option<nat>, changed: Record): Record {
    if expected.Some? && expected.value != current.revision then current
    else changed.(revision := current.revision + 1)
  }

  // ---------- the changes each endpoint writes ----------

  function BroadcastChange(r: Record, hash: string, seen: State, order: Option<Order>): Record {
    var status := if Visible(seen) then Processing else seen;
    r.(status := status, stage := status, broadcastStatus := Some(seen), hash := Some(hash), order := order,
       approvalCard := false)
  }

  function TransferChange(r: Record, hash: string, seen: State): Record {
    r.(status := seen, stage := seen, broadcastStatus := Some(seen), hash := Some(hash))
  }

  function ApproveChange(r: Record, submitted: Option<string>): Record {
    r.(status := ApprovalSubmitted, stage := ApprovalSubmitted,
       approvalHash := if submitted.Some? then submitted else r.approvalHash)
  }

  function PollChange(r: Record, state: State): Record {
    r.(orderStatus := Some(state), stage := state, status := state,
       broadcastStatus := if state == Completed then Some(Confirmed) else r.broadcastStatus)
  }

  // ---------- the checks each endpoint makes on what it read ----------

  /** A broadcast goes on if the session has no hash, or has this one and is waiting for a retry. */
  predicate BroadcastOpen(form: string -> string, r: Record, hash: string, provider: bool) {
    (r.hash.Some? ==> form(r.hash.value) == hash && Retryable(r.status)) && provider && r.quote.Some?
  }

  predicate TransferOpen(r: Record, sameChain: bool) {
    r.quote.None? && r.order.None? && r.pending.Some? && sameChain && r.hash.None?
  }

  function PollWith(r: Record): Op {
    if r.order.None? || r.status == Cancelled || r.stage == Cancelled || Ended(r) then Idle else PollAsking(r)
  }

  function PollFrom(r: Record): Op {
    if r.quote.None? then Idle
    else if r.order.Some? then PollWith(r)
    else if r.hash.None? then Idle
    else PollChecking(r)
  }

  /** An approval repeats the stored hash, or is the first; another hash is refused. */
  function ApproveWith(form: string -> string, r: Record, hash: string): Op {
    if r.approvalHash.None? then ApproveCommitting(r, Some(hash))
    else if form(r.approvalHash.value) == hash && r.status == ApprovalRequired then ApproveCommitting(r, None)
    else Idle
  }

  // ---------- one atomic step ----------

  function Started(s: System, id: nat, e: Event): System {
    match e
    case AskBroadcast(raw, qualified, provider) =>
      var hash := s.form(raw);
      if qualified && hash != "" && BroadcastOpen(s.form, s.record, hash, provider) then
        Moves(s, id, BroadcastObserving(hash))
      else s
    case AskTransfer(raw, qualified, sameChain) =>
      var hash := s.form(raw);
      if qualified && hash != "" && TransferOpen(s.record, sameChain) then Moves(s, id, TransferObserving(hash)) else s
    case AskApprove(raw, qualified) =>
      var hash := s.form(raw);
      if qualified && hash != "" then Moves(s, id, ApproveWaiting(hash)) else s
    case AskCancel => Moves(s, id, Cancelling)
    case AskPoll => Moves(s, id, PollFrom(s.record))
    case _ => s
  }

  /** A source receipt is not the end of a swap, and a failed transaction is not recorded. */
  function BroadcastObserved(s: System, id: nat, hash: string, seen: Option<State>): System {
    if seen == Some(Failed) then Moves(s, id, Idle)
    else
      var status := if seen.None? then BroadcastSeen else if seen.value == Confirmed then SourceConfirmed else seen.value;
      Moves(s, id, BroadcastWaiting(hash, status))
  }

  function BroadcastEntered(s: System, id: nat, hash: string, seen: State, provider: bool): System {
    if s.lock.Some? then s
    else if !BroadcastOpen(s.form, s.record, hash, provider) then Moves(s, id, Idle)
    else if Visible(seen) then Enters(s, id, BroadcastRegistering(hash, seen, s.record))
    else Enters(s, id, BroadcastCommitting(hash, seen, s.record, None))
  }

  function TransferEntered(s: System, id: nat, hash: string, seen: State): System {
    if s.lock.Some? then s
    else if s.record.hash.Some? then Moves(s, id, Idle)
    else Enters(s, id, TransferCommitting(hash, seen, s.record))
  }

  function ApproveEntered(s: System, id: nat, hash: string): System {
    if s.lock.Some? then s
    else if ApproveWith(s.form, s.record, hash).Idle? then Moves(s, id, Idle)
    else Enters(s, id, ApproveWith(s.form, s.record, hash))
  }

  function Recovered(s: System, id: nat, snap: Record, order: Order): System {
    if s.record.revision != snap.revision then Moves(s, id, PollReading)
    else
      var r := Updated(s.record, Some(snap.revision), s.record.(order := Some(order)));
      s.(record := r, ops := s.ops[id := PollWith(r)])
  }

  function Polled(s: System, id: nat, snap: Record, state: State): System {
    s.(record := Updated(s.record, Some(snap.revision), PollChange(s.record, state)), ops := s.ops[id := Idle])
  }

  function BroadcastStepped(s: System, id: nat, e: Event): System {
    match OpOf(s, id)
    case BroadcastObserving(hash) => if e.Observed? then BroadcastObserved(s, id, hash, e.seen) else s
    case BroadcastWaiting(hash, seen) => if e.Turn? then BroadcastEntered(s, id, hash, seen, e.provider) else s
    case BroadcastRegistering(hash, seen, snap) =>
      if !e.Registered? then s
      else if e.id.None? then Leaves(s, id, s.record)
      else Moves(s, id, BroadcastCommitting(hash, seen, snap, Some(Order(hash, Reference(snap), e.id.value))))
    case BroadcastCommitting(hash, seen, snap, order) =>
      if e.Turn? then Leaves(s, id, Updated(s.record, Some(snap.revision), BroadcastChange(s.record, hash, seen, order))) else s
    case _ => s
  }

  function TransferStepped(s: System, id: nat, e: Event): System {
    match OpOf(s, id)
    case TransferObserving(hash) =>
      if e.Observed? then Moves(s, id, TransferWaiting(hash, if e.seen.Some? then e.seen.value else Unknown)) else s
    case TransferWaiting(hash, seen) => if e.Turn? then TransferEntered(s, id, hash, seen) else s
    case TransferCommitting(hash, seen, snap) =>
      if e.Turn? then Leaves(s, id, Updated(s.record, Some(snap.revision), TransferChange(s.record, hash, seen))) else s
    case _ => s
  }

  function ApproveStepped(s: System, id: nat, e: Event): System {
    match OpOf(s, id)
    case ApproveWaiting(hash) => if e.Turn? then ApproveEntered(s, id, hash) else s
    case ApproveCommitting(snap, submitted) =>
      if e.Turn? then Leaves(s, id, Updated(s.record, Some(snap.revision), ApproveChange(s.record, submitted))) else s
    case _ => s
  }

  function CancelStepped(s: System, id: nat, e: Event): System {
    if e.Turn? then s.(record := Updated(s.record, None, s.record.(status := Cancelled)), ops := s.ops[id := Idle]) else s
  }

  function RecoverStepped(s: System, id: nat, e: Event): System {
    match OpOf(s, id)
    case PollChecking(snap) => if e.Checked? then Moves(s, id, if e.confirmed then PollRegistering(snap) else Idle) else s
    case PollRegistering(snap) =>
      if !e.Registered? then s
      else if e.id.None? || snap.hash.None? then Moves(s, id, Idle)
      else Moves(s, id, PollRecovering(snap, Order(snap.hash.value, Reference(snap), e.id.value)))
    case PollRecovering(snap, found) => if e.Turn? then Recovered(s, id, snap, found) else s
    case PollReading => if e.Turn? then Moves(s, id, PollWith(s.record)) else s
    case _ => s
  }

  function PollStepped(s: System, id: nat, e: Event): System {
    match OpOf(s, id)
    case PollAsking(snap) =>
      if !e.Answered? then s
      else if e.state.None? || snap.orderStatus == e.state then Moves(s, id, Idle)
      else Moves(s, id, PollCommitting(snap, e.state.value))
    case PollCommitting(snap, state) => if e.Turn? then Polled(s, id, snap, state) else s
    case _ => s
  }

  /** The endpoint a request in flight belongs to. */
  datatype Endpoint = Starting | Broadcasting | Transferring | Approving | Cancels | Recovering | Polling

  function EndpointOf(op: Op): Endpoint {
    match op
    case Idle => Starting
    case BroadcastObserving(_) => Broadcasting
    case BroadcastWaiting(_, _) => Broadcasting
    case BroadcastRegistering(_, _, _) => Broadcasting
    case BroadcastCommitting(_, _, _, _) => Broadcasting
    case TransferObserving(_) => Transferring
    case TransferWaiting(_, _) => Transferring
    case TransferCommitting(_, _, _) => Transferring
    case ApproveWaiting(_) => Approving
    case ApproveCommitting(_, _) => Approving
    case Cancelling => Cancels
    case PollChecking(_) => Recovering
    case PollRegistering(_) => Recovering
    case PollRecovering(_, _) => Recovering
    case PollReading => Recovering
    case PollAsking(_) => Polling
    case PollCommitting(_, _) => Polling
  }

  /** One step of request `id`; an event its request is not waiting for changes nothing. */
  function Stepped(s: System, id: nat, e: Event): System {
    match EndpointOf(OpOf(s, id))
    case Starting => Started(s, id, e)
    case Broadcasting => BroadcastStepped(s, id, e)
    case Transferring => TransferStepped(s, id, e)
    case Approving => ApproveStepped(s, id, e)
    case Cancels => CancelStepped(s, id, e)
    case Recovering => RecoverStepped(s, id, e)
    case Polling => PollStepped(s, id, e)
  }

  // ---------- what every run keeps ----------

  /** The request is between taking the conversation lock and giving it back. */
  predicate Inside(op: Op) {
    op.BroadcastRegistering? || op.BroadcastCommitting? || op.TransferCommitting? || op.ApproveCommitting?
  }

  predicate HasSnap(op: Op) {
    Inside(op) || op.PollChecking? || op.PollRegistering? || op.PollRecovering? || op.PollAsking? || op.PollCommitting?
  }

  /** A record read earlier is older, or is still the stored one. */
  predicate Reads(r: Record, snap: Record) {
    snap.revision <= r.revision && (snap.revision == r.revision ==> snap == r)
  }

  predicate ForHash(order: Option<Order>, r: Record, hash: Option<string>) {
    order.Some? ==> hash == Some(order.value.registeredFor) && order.value.reference == Reference(r)
  }

  predicate Pollable(r: Record) {
    r.order.Some? && !Ended(r) && r.status != Cancelled && r.stage != Cancelled
  }

  /** What holds of a request in flight. */
  predicate Sane(form: string -> string, r: Record, op: Op) {
    && (HasSnap(op) ==> Reads(r, op.snap) && Reference(op.snap) == Reference(r))
    && match op
       case BroadcastObserving(hash) => form(hash) == hash
       case BroadcastWaiting(hash, seen) => form(hash) == hash && seen != Confirmed
       case BroadcastRegistering(hash, seen, snap) =>
         form(hash) == hash && seen != Confirmed && BroadcastOpen(form, snap, hash, true) && Visible(seen)
       case BroadcastCommitting(hash, seen, snap, order) =>
         form(hash) == hash && seen != Confirmed && BroadcastOpen(form, snap, hash, true) && ForHash(order, snap, Some(hash))
       case TransferObserving(hash) => form(hash) == hash && r.quote.None?
       case TransferWaiting(hash, seen) => form(hash) == hash && r.quote.None?
       case TransferCommitting(hash, seen, snap) => form(hash) == hash && r.quote.None? && snap.hash.None?
       case ApproveWaiting(hash) => form(hash) == hash
       case ApproveCommitting(snap, submitted) =>
         if submitted.Some? then snap.approvalHash.None? && form(submitted.value) == submitted.value
         else snap.approvalHash.Some?
       case PollChecking(snap) => snap.quote.Some? && snap.order.None?
       case PollRegistering(snap) => snap.quote.Some? && snap.order.None?
       case PollRecovering(snap, order) => snap.quote.Some? && snap.order.None? && ForHash(Some(order), snap, snap.hash)
       case PollAsking(snap) => Pollable(snap)
       case PollCommitting(snap, state) => Pollable(snap)
       case _ => true
  }

  /** What holds of the stored record. */
  predicate Consistent(form: string -> string, r: Record) {
    && (r.hash.Some? ==> form(r.hash.value) == r.hash.value)
    && (r.approvalHash.Some? ==> form(r.approvalHash.value) == r.approvalHash.value)
    && ForHash(r.order, r, r.hash)
    && (Ended(r) ==> r.order.Some? && !Retryable(r.status))
    && (r.quote.Some? && r.broadcastStatus == Some(Confirmed) ==> r.orderStatus == Some(Completed))
  }

  ghost predicate Stable(form: string -> string) {
    forall hash :: form(form(hash)) == form(hash)
  }

  ghost predicate Inv(s: System) {
    && Stable(s.form)
    && Consistent(s.form, s.record)
    && (forall id :: id in s.ops ==> Sane(s.form, s.record, s.ops[id]))
    && (forall id :: id in s.ops && Inside(s.ops[id]) ==> s.lock == Some(id))
    && (s.lock.Some? ==> s.lock.value in s.ops && Inside(s.ops[s.lock.value]))
  }

  /** What a step may do to the record. */
  predicate Keeps(before: Record, after: Record) {
    && (after == before || after.revision == before.revision + 1)
    && after.quote == before.quote && after.pending == before.pending
    && (before.hash.Some? ==> after.hash == before.hash)
    && (before.approvalHash.Some? ==> after.approvalHash == before.approvalHash)
    && (before.order.Some? && after.order != before.order ==> Retryable(before.status))
    && (Ended(before) ==>
      && after.order == before.order && after.orderStatus == before.orderStatus
      && after.broadcastStatus == before.broadcastStatus)
  }

  predicate SameSwap(a: Record, b: Record) {
    && a.hash == b.hash && a.order == b.order
    && a.orderStatus == b.orderStatus && a.broadcastStatus == b.broadcastStatus
  }

  /** Which record a step of request `op` may find, and what it may write over it. */
  predicate Writes(op: Op, found: Record, written: Record) {
    || written == found
    || (written.revision == found.revision + 1 && match op
        case BroadcastCommitting(hash, seen, snap, order) =>
          && !Ended(found) && (found.hash.Some? ==> found.hash == Some(hash) && Retryable(found.status))
          && written.hash == Some(hash) && ForHash(written.order, found, Some(hash))
          && written.broadcastStatus.Some? && written.broadcastStatus != Some(Confirmed)
          && written.orderStatus == found.orderStatus && written.approvalHash == found.approvalHash
        case TransferCommitting(hash, seen, snap) =>
          && found.quote.None? && found.hash.None? && written.hash == Some(hash) && written.order == found.order
          && written.orderStatus == found.orderStatus && written.approvalHash == found.approvalHash
        case ApproveCommitting(snap, submitted) =>
          && written.approvalHash.Some? && (found.approvalHash.Some? ==> written.approvalHash == found.approvalHash)
          && SameSwap(found, written)
        case Cancelling =>
          written.status == Cancelled && written.approvalHash == found.approvalHash && SameSwap(found, written)
        case PollRecovering(snap, order) =>
          && found.quote.Some? && found.order.None? && found.hash.Some?
          && written.order.Some? && ForHash(written.order, found, found.hash)
          && written == found.(revision := written.revision, order := written.order)
        case PollCommitting(snap, state) =>
          && Pollable(found) && written.order == found.order && written.orderStatus.Some?
          && written.hash == found.hash && written.approvalHash == found.approvalHash
        case _ => false)
  }

  lemma SaneLater(form: string -> string, before: Record, after: Record, op: Op)
    requires Sane(form, before, op)
    requires after == before
      || (after.revision == before.revision + 1 && after.quote == before.quote && after.pending == before.pending)
    ensures Sane(form, after, op)
  {
  }

  /** How the lock may change hands when a request steps from `op` to `next`. */
  predicate Handover(id: nat, lock: Option<nat>, op: Op, lock': Option<nat>, next: Op) {
    || (lock' == lock && (Inside(next) <==> Inside(op)))
    || (lock.None? && lock' == Some(id) && Inside(next))
    || (Inside(op) && lock'.None? && !Inside(next))
  }

  lemma InvAfter(s: System, id: nat, s': System, next: Op)
    requires Inv(s) && s'.form == s.form && s'.ops == s.ops[id := next]
    requires Keeps(s.record, s'.record) && Consistent(s.form, s'.record) && Sane(s.form, s'.record, next)
    requires Handover(id, s.lock, OpOf(s, id), s'.lock, next)
    ensures Inv(s')
  {
    forall k | k in s'.ops ensures Sane(s.form, s'.record, s'.ops[k]) {
      if k != id {
        SaneLater(s.form, s.record, s'.record, s.ops[k]);
      }
    }
  }

  /** The step is a no-op, or the request moves to `next` as the rules allow. */
  ghost predicate Allowed(s: System, id: nat, s': System) {
    || s' == s
    || (&& id in s'.ops && s'.form == s.form && s'.ops == s.ops[id := s'.ops[id]]
        && Keeps(s.record, s'.record) && Consistent(s.form, s'.record) && Sane(s.form, s'.record, s'.ops[id])
        && Handover(id, s.lock, OpOf(s, id), s'.lock, s'.ops[id]))
  }

  lemma SaneNow(s: System, id: nat)
    requires Inv(s)
    ensures Sane(s.form, s.record, OpOf(s, id)) && (Inside(OpOf(s, id)) ==> s.lock == Some(id))
  {
  }

  /** A step that only moves the request on. */
  lemma MovesAllowed(s: System, id: nat, next: Op)
    requires Inv(s) && Sane(s.form, s.record, next) && (Inside(next) <==> Inside(OpOf(s, id)))
    ensures Allowed(s, id, Moves(s, id, next))
  {
  }

  lemma PollSane(form: string -> string, r: Record)
    ensures Sane(form, r, PollWith(r)) && !Inside(PollWith(r))
    ensures Sane(form, r, PollFrom(r)) && !Inside(PollFrom(r))
  {
  }

  lemma AskedAllowed(s: System, id: nat, hash: string)
    requires Inv(s) && OpOf(s, id).Idle? && s.form(hash) == hash
    ensures Allowed(s, id, Moves(s, id, BroadcastObserving(hash)))
    ensures s.record.quote.None? ==> Allowed(s, id, Moves(s, id, TransferObserving(hash)))
    ensures Allowed(s, id, Moves(s, id, ApproveWaiting(hash)))
  {
    MovesAllowed(s, id, BroadcastObserving(hash));
    if s.record.quote.None? {
      MovesAllowed(s, id, TransferObserving(hash));
    }
    MovesAllowed(s, id, ApproveWaiting(hash));
  }

  lemma StartedAllowed(s: System, id: nat, e: Event)
    requires Inv(s) && OpOf(s, id).Idle?
    ensures Allowed(s, id, Started(s, id, e))
  {
    if e.AskBroadcast? || e.AskTransfer? || e.AskApprove? {
      AskedAllowed(s, id, s.form(e.hash));
    } else if e.AskPoll? {
      PollSane(s.form, s.record);
      MovesAllowed(s, id, PollFrom(s.record));
    } else if e.AskCancel? {
      MovesAllowed(s, id, Cancelling);
    }
  }

  lemma BroadcastEnteredAllowed(s: System, id: nat, hash: string, seen: State, provider: bool)
    requires Inv(s) && OpOf(s, id) == BroadcastWaiting(hash, seen)
    ensures Allowed(s, id, BroadcastEntered(s, id, hash, seen, provider))
  {
    SaneNow(s, id);
  }

  lemma BroadcastCommitAllowed(s: System, id: nat, hash: string, seen: State, snap: Record,
                               order: Option<Order>)
    requires Inv(s) && OpOf(s, id) == BroadcastCommitting(hash, seen, snap, order)
    ensures Allowed(s, id, Leaves(s, id, Updated(s.record, Some(snap.revision), BroadcastChange(s.record, hash, seen, order))))
  {
    SaneNow(s, id);
    if snap.revision == s.record.revision {
      assert snap == s.record;
    }
  }

  lemma TransferCommitAllowed(s: System, id: nat, hash: string, seen: State, snap: Record)
    requires Inv(s) && OpOf(s, id) == TransferCommitting(hash, seen, snap)
    ensures Allowed(s, id, Leaves(s, id, Updated(s.record, Some(snap.revision), TransferChange(s.record, hash, seen))))
  {
    SaneNow(s, id);
  }

  lemma ApproveSane(form: string -> string, r: Record, hash: string)
    requires form(hash) == hash
    ensures Sane(form, r, ApproveWith(form, r, hash))
    ensures Inside(ApproveWith(form, r, hash)) <==> !ApproveWith(form, r, hash).Idle?
  {
  }

  lemma ApproveEnteredAllowed(s: System, id: nat, hash: string)
    requires Inv(s) && OpOf(s, id) == ApproveWaiting(hash)
    ensures Allowed(s, id, ApproveEntered(s, id, hash))
  {
    SaneNow(s, id);
    ApproveSane(s.form, s.record, hash);
    if ApproveWith(s.form, s.record, hash).Idle? {
      MovesAllowed(s, id, Idle);
    }
  }

  lemma ApproveCommitAllowed(s: System, id: nat, snap: Record, submitted: Option<string>)
    requires Inv(s) && OpOf(s, id) == ApproveCommitting(snap, submitted)
    ensures Allowed(s, id, Leaves(s, id, Updated(s.record, Some(snap.revision), ApproveChange(s.record, submitted))))
  {
    SaneNow(s, id);
  }

  lemma RecoveredAllowed(s: System, id: nat, snap: Record, found: Order)
    requires Inv(s) && OpOf(s, id) == PollRecovering(snap, found)
    ensures Allowed(s, id, Recovered(s, id, snap, found))
  {
    SaneNow(s, id);
    if s.record.revision != snap.revision {
      MovesAllowed(s, id, PollReading);
    } else {
      assert snap == s.record;
      var r := s.record.(order := Some(found), revision := snap.revision + 1);
      PollSane(s.form, r);
      assert Consistent(s.form, r) && Keeps(s.record, r);
    }
  }

  lemma PolledAllowed(s: System, id: nat, snap: Record, state: State)
    requires Inv(s) && OpOf(s, id) == PollCommitting(snap, state)
    ensures Allowed(s, id, Polled(s, id, snap, state))
  {
    SaneNow(s, id);
  }

  lemma RegisteredAllowed(s: System, id: nat, hash: string, seen: State, snap: Record, order: Order)
    requires Inv(s) && OpOf(s, id) == BroadcastRegistering(hash, seen, snap)
    requires order.registeredFor == hash && order.reference == Reference(snap)
    ensures Allowed(s, id, Leaves(s, id, s.record))
    ensures Allowed(s, id, Moves(s, id, BroadcastCommitting(hash, seen, snap, Some(order))))
  {
    SaneNow(s, id);
    MovesAllowed(s, id, BroadcastCommitting(hash, seen, snap, Some(order)));
  }

  lemma BroadcastAllowed(s: System, id: nat, e: Event)
    requires Inv(s) && EndpointOf(OpOf(s, id)).Broadcasting?
    ensures Allowed(s, id, BroadcastStepped(s, id, e))
  {
    SaneNow(s, id);
    match OpOf(s, id)
    case BroadcastObserving(hash) =>
      if e.Observed? {
        BroadcastObservedAllowed(s, id, hash, e.seen);
      }
    case BroadcastWaiting(hash, seen) =>
      if e.Turn? {
        BroadcastEnteredAllowed(s, id, hash, seen, e.provider);
      }
    case BroadcastRegistering(hash, seen, snap) =>
      if e.Registered? {
        RegisteredAllowed(s, id, hash, seen, snap, Order(hash, Reference(snap), if e.id.Some? then e.id.value else ""));
      }
    case BroadcastCommitting(hash, seen, snap, order) => BroadcastCommitAllowed(s, id, hash, seen, snap, order);
  }

  lemma BroadcastObservedAllowed(s: System, id: nat, hash: string, seen: Option<State>)
    requires Inv(s) && OpOf(s, id) == BroadcastObserving(hash)
    ensures Allowed(s, id, BroadcastObserved(s, id, hash, seen))
  {
    SaneNow(s, id);
    if seen == Some(Failed) {
      MovesAllowed(s, id, Idle);
    } else {
      var status := if seen.None? then BroadcastSeen else if seen.value == Confirmed then SourceConfirmed else seen.value;
      MovesAllowed(s, id, BroadcastWaiting(hash, status));
    }
  }

  lemma TransferAllowed(s: System, id: nat, e: Event)
    requires Inv(s) && EndpointOf(OpOf(s, id)).Transferring?
    ensures Allowed(s, id, TransferStepped(s, id, e))
  {
    SaneNow(s, id);
    match OpOf(s, id)
    case TransferObserving(hash) =>
      if e.Observed? {
        MovesAllowed(s, id, TransferWaiting(hash, if e.seen.Some? then e.seen.value else Unknown));
      }
    case TransferWaiting(hash, seen) => TransferEnteredAllowed(s, id, hash, seen);
    case TransferCommitting(hash, seen, snap) => TransferCommitAllowed(s, id, hash, seen, snap);
  }

  lemma RecoverAllowed(s: System, id: nat, e: Event)
    requires Inv(s) && EndpointOf(OpOf(s, id)).Recovering?
    ensures Allowed(s, id, RecoverStepped(s, id, e))
  {
    SaneNow(s, id);
    match OpOf(s, id)
    case PollChecking(snap) =>
      MovesAllowed(s, id, PollRegistering(snap));
      MovesAllowed(s, id, Idle);
    case PollRegistering(snap) =>
      MovesAllowed(s, id, Idle);
      if e.Registered? && e.id.Some? && snap.hash.Some? {
        MovesAllowed(s, id, PollRecovering(snap, Order(snap.hash.value, Reference(snap), e.id.value)));
      }
    case PollRecovering(snap, found) => RecoveredAllowed(s, id, snap, found);
    case PollReading =>
      PollSane(s.form, s.record);
      MovesAllowed(s, id, PollWith(s.record));
  }

  lemma PollAllowed(s: System, id: nat, e: Event)
    requires Inv(s) && EndpointOf(OpOf(s, id)).Polling?
    ensures Allowed(s, id, PollStepped(s, id, e))
  {
    SaneNow(s, id);
    match OpOf(s, id)
    case PollAsking(snap) =>
      MovesAllowed(s, id, Idle);
      if e.Answered? && e.state.Some? {
        MovesAllowed(s, id, PollCommitting(snap, e.state.value));
      }
    case PollCommitting(snap, state) => PolledAllowed(s, id, snap, state);
  }

  lemma ApproveAllowed(s: System, id: nat, e: Event)
    requires Inv(s) && EndpointOf(OpOf(s, id)).Approving?
    ensures Allowed(s, id, ApproveStepped(s, id, e))
  {
    match OpOf(s, id)
    case ApproveWaiting(hash) => ApproveEnteredAllowed(s, id, hash);
    case ApproveCommitting(snap, submitted) => ApproveCommitAllowed(s, id, snap, submitted);
  }

  lemma StepAllowed(s: System, id: nat, e: Event)
    requires Inv(s)
    ensures Allowed(s, id, Stepped(s, id, e))
  {
    match EndpointOf(OpOf(s, id))
    case Starting => StartedAllowed(s, id, e);
    case Broadcasting => BroadcastAllowed(s, id, e);
    case Transferring => TransferAllowed(s, id, e);
    case Approving => ApproveAllowed(s, id, e);
    case Cancels => CancelAllowed(s, id);
    case Recovering => RecoverAllowed(s, id, e);
    case Polling => PollAllowed(s, id, e);
  }

  lemma CancelAllowed(s: System, id: nat)
    requires Inv(s) && OpOf(s, id) == Cancelling
    ensures Allowed(s, id, s.(record := Updated(s.record, None, s.record.(status := Cancelled)), ops := s.ops[id := Idle]))
  {
    SaneNow(s, id);
  }

  lemma TransferEnteredAllowed(s: System, id: nat, hash: string, seen: State)
    requires Inv(s) && OpOf(s, id) == TransferWaiting(hash, seen)
    ensures Allowed(s, id, TransferEntered(s, id, hash, seen))
  {
    SaneNow(s, id);
  }

  /** Only a committing step writes, and only over a record its endpoint may change. */
  lemma StepWrites(s: System, id: nat, e: Event)
    requires Inv(s)
    ensures Writes(OpOf(s, id), s.record, Stepped(s, id, e).record)
  {
    SaneNow(s, id);
  }

  /** The steps that can take a cancelled session out of that status: all record a hash it does not have, or an approval. */
  lemma CancelledLeft(s: System, id: nat, e: Event)
    requires Inv(s) && s.record.status == Cancelled
    ensures Stepped(s, id, e).record.status != Cancelled ==>
      match OpOf(s, id)
      case BroadcastCommitting(_, _, snap, _) => snap == s.record && s.record.hash.None?
      case TransferCommitting(_, _, snap) => snap == s.record && s.record.hash.None?
      case ApproveCommitting(snap, _) => snap == s.record
      case _ => false
  {
    StepWrites(s, id, e);
    SaneNow(s, id);
  }

  lemma StepKeeps(s: System, id: nat, e: Event)
    requires Inv(s)
    ensures Inv(Stepped(s, id, e)) && Keeps(s.record, Stepped(s, id, e).record) && Stepped(s, id, e).form == s.form
  {
    var s' := Stepped(s, id, e);
    StepAllowed(s, id, e);
    if s' != s {
      InvAfter(s, id, s', s'.ops[id]);
    }
  }

  // ---------- runs ----------

  datatype Action = Action(id: nat, event: Event)

  function At(s: System, run: seq<Action>, n: nat): System
    requires n <= |run|
  {
    if n == 0 then s else Stepped(At(s, run, n - 1), run[n - 1].id, run[n - 1].event)
  }

  /** A session nothing has been broadcast for, with no request in flight. */
  ghost predicate Untouched(s: System) {
    && s.form == Normalize
    && s.record.hash.None? && s.record.order.None? && s.record.orderStatus.None? && s.record.broadcastStatus.None?
    && s.record.approvalHash.None? && s.lock.None? && s.ops == map[]
  }

  lemma UntouchedInv(s: System)
    requires Untouched(s)
    ensures Inv(s)
  {
    forall hash ensures s.form(s.form(hash)) == s.form(hash) {
      NormalizeTwice(hash);
    }
  }

  lemma {:induction false} AtKeeps(s: System, run: seq<Action>, n: nat)
    requires Inv(s) && n <= |run|
    ensures Inv(At(s, run, n)) && At(s, run, n).form == s.form
  {
    if n > 0 {
      AtKeeps(s, run, n - 1);
      StepKeeps(At(s, run, n - 1), run[n - 1].id, run[n - 1].event);
    }
  }

  /** What one record tells about every later one. */
  predicate Settles(a: Record, b: Record) {
    && a.revision <= b.revision && b.quote == a.quote
    && (a.hash.Some? ==> b.hash == a.hash)
    && (a.approvalHash.Some? ==> b.approvalHash == a.approvalHash)
    && (Ended(a) ==>
      b.hash == a.hash && b.order == a.order && b.orderStatus == a.orderStatus && b.broadcastStatus == a.broadcastStatus)
  }

  lemma SettlesOnce(form: string -> string, a: Record, b: Record, c: Record)
    requires Consistent(form, a) && Settles(a, b) && Keeps(b, c)
    ensures Settles(a, c)
  {
  }

  /**
   * In every interleaving: a stored hash (of the broadcast or of the approval) is never replaced by
   * another, and once the order status is terminal the hash, the order, the order status and the
   * broadcast status never change again.
   */
  lemma {:induction false} RunSettles(s: System, run: seq<Action>, i: nat, j: nat)
    requires Inv(s) && i <= j <= |run|
    ensures Settles(At(s, run, i).record, At(s, run, j).record)
  {
    AtKeeps(s, run, i);
    if i < j {
      RunSettles(s, run, i, j - 1);
      AtKeeps(s, run, j - 1);
      StepKeeps(At(s, run, j - 1), run[j - 1].id, run[j - 1].event);
      SettlesOnce(s.form, At(s, run, i).record, At(s, run, j - 1).record, At(s, run, j).record);
    }
  }

  /**
   * In every interleaving: a stored order was registered for exactly the stored hash, under the
   * reference of the prepared order or quote; a swap shows its broadcast as confirmed only when its
   * order is completed; and the conversation lock admits one request at a time.
   */
  lemma RunConsistent(s: System, run: seq<Action>, n: nat, id: nat, other: nat)
    requires Inv(s) && n <= |run|
    ensures var r := At(s, run, n).record;
      && (r.order.Some? ==> r.hash == Some(r.order.value.registeredFor) && r.order.value.reference == Reference(r))
      && (s.record.quote.Some? && r.broadcastStatus == Some(Confirmed) ==> r.orderStatus == Some(Completed))
    ensures Inside(OpOf(At(s, run, n), id)) && Inside(OpOf(At(s, run, n), other)) ==> id == other
  {
    AtKeeps(s, run, n);
    RunSettles(s, run, 0, n);
  }

  /** A stored order is dropped or registered again only while the session waits for a retry. */
  lemma OrderReplaced(s: System, run: seq<Action>, n: nat)
    requires Inv(s) && n < |run|
    ensures var a, b := At(s, run, n).record, At(s, run, n + 1).record;
      a.order.Some? && b.order != a.order ==> Retryable(a.status) && b.hash == a.hash
  {
    AtKeeps(s, run, n);
    StepKeeps(At(s, run, n), run[n].id, run[n].event);
  }

  /** A swap broadcast whose transaction is seen confirmed, registered, and then polled to its end. */
  function Completing(hash: string, order: string): seq<Action> {
    [Action(0, AskBroadcast(hash, true, true)), Action(0, Observed(Some(Confirmed))), Action(0, Turn(true)),
     Action(0, Registered(Some(order))), Action(0, Turn(true)),
     Action(1, AskPoll), Action(1, Answered(Some(Completed))), Action(1, Turn(true))]
  }

  lemma NextAt(s: System, run: seq<Action>, n: nat, before: System)
    requires n < |run| && At(s, run, n) == before
    ensures At(s, run, n + 1) == Stepped(before, run[n].id, run[n].event)
  {
  }

  /** A free session admits the broadcast, and the lookup leaves the record as it was read. */
  lemma BroadcastAdmitted(s: System, hash: string)
    requires s.form(hash) == hash && hash != "" && s.record.hash.None? && s.record.quote.Some? && s.ops == map[]
    ensures Stepped(s, 0, AskBroadcast(hash, true, true)) == s.(ops := map[0 := BroadcastObserving(hash)])
    ensures Stepped(s.(ops := map[0 := BroadcastObserving(hash)]), 0, Observed(Some(Confirmed)))
      == s.(ops := map[0 := BroadcastWaiting(hash, SourceConfirmed)])
  {
  }

  lemma BroadcastRegisters(s: System, hash: string, id: string, order: Order)
    requires s.record.hash.None? && s.record.quote.Some? && s.lock.None? && order == Order(hash, Reference(s.record), id)
    ensures Stepped(s.(ops := map[0 := BroadcastWaiting(hash, SourceConfirmed)]), 0, Turn(true))
      == s.(ops := map[0 := BroadcastRegistering(hash, SourceConfirmed, s.record)], lock := Some(0))
    ensures Stepped(s.(ops := map[0 := BroadcastRegistering(hash, SourceConfirmed, s.record)], lock := Some(0)), 0, Registered(Some(id)))
      == s.(ops := map[0 := BroadcastCommitting(hash, SourceConfirmed, s.record, Some(order))], lock := Some(0))
  {
  }

  lemma BroadcastCommits(s: System, hash: string, order: Order)
    requires s.lock.None?
    ensures Stepped(s.(ops := map[0 := BroadcastCommitting(hash, SourceConfirmed, s.record, Some(order))], lock := Some(0)), 0, Turn(true))
      == s.(ops := map[0 := Idle],
            record := BroadcastChange(s.record, hash, SourceConfirmed, Some(order)).(revision := s.record.revision + 1))
  {
  }

  lemma PollCompletes(t: System)
    requires OpOf(t, 1) == Idle && t.record.quote.Some? && t.record.order.Some? && t.record.orderStatus.None?
    requires t.record.status == Processing && t.record.stage == Processing
    ensures var asking := t.(ops := t.ops[1 := PollAsking(t.record)]);
      var ready := t.(ops := t.ops[1 := PollCommitting(t.record, Completed)]);
      && Stepped(t, 1, AskPoll) == asking
      && Stepped(asking, 1, Answered(Some(Completed))) == ready
      && Stepped(ready, 1, Turn(true)).record == PollChange(t.record, Completed).(revision := t.record.revision + 1)
  {
    var asking := t.(ops := t.ops[1 := PollAsking(t.record)]);
    assert asking.ops[1 := PollCommitting(t.record, Completed)] == t.ops[1 := PollCommitting(t.record, Completed)];
  }

  /** The system when the broadcast of `Completing` has been committed. */
  function Recorded(s: System, hash: string, order: Order): System {
    s.(ops := map[0 := Idle],
       record := BroadcastChange(s.record, hash, SourceConfirmed, Some(order)).(revision := s.record.revision + 1))
  }

  lemma BroadcastHalf(s: System, run: seq<Action>, hash: string, id: string, order: Order)
    requires s.form(hash) == hash && hash != "" && s.record.hash.None? && s.record.quote.Some? && s.lock.None? && s.ops == map[]
    requires run == Completing(hash, id) && order == Order(hash, Reference(s.record), id)
    ensures At(s, run, 5) == Recorded(s, hash, order)
  {
    BroadcastAdmitted(s, hash);
    BroadcastRegisters(s, hash, id, order);
    BroadcastCommits(s, hash, order);
    NextAt(s, run, 0, s);
    NextAt(s, run, 1, s.(ops := map[0 := BroadcastObserving(hash)]));
    NextAt(s, run, 2, s.(ops := map[0 := BroadcastWaiting(hash, SourceConfirmed)]));
    NextAt(s, run, 3, s.(ops := map[0 := BroadcastRegistering(hash, SourceConfirmed, s.record)], lock := Some(0)));
    NextAt(s, run, 4, s.(ops := map[0 := BroadcastCommitting(hash, SourceConfirmed, s.record, Some(order))], lock := Some(0)));
  }

  lemma PollHalf(s: System, run: seq<Action>, hash: string, id: string, t: System)
    requires run == Completing(hash, id) && At(s, run, 5) == t
    requires OpOf(t, 1) == Idle && t.record.quote.Some? && t.record.order.Some? && t.record.orderStatus.None?
    requires t.record.status == Processing && t.record.stage == Processing
    ensures At(s, run, 8).record == PollChange(t.record, Completed).(revision := t.record.revision + 1)
  {
    PollCompletes(t);
    NextAt(s, run, 5, t);
    NextAt(s, run, 6, t.(ops := t.ops[1 := PollAsking(t.record)]));
    NextAt(s, run, 7, t.(ops := t.ops[1 := PollCommitting(t.record, Completed)]));
  }

  /** Nothing blocks a swap: this schedule takes any quoted session from untouched to completed. */
  lemma SwapCompletes(s: System, hash: string, id: string)
    requires Untouched(s) && s.record.quote.Some? && Normal(hash) && hash != ""
    ensures var r := At(s, Completing(hash, id), 8).record;
      && r.hash == Some(hash) && r.order == Some(Order(hash, Reference(s.record), id))
      && r.orderStatus == Some(Completed) && r.broadcastStatus == Some(Confirmed) && r.status == Completed
  {
    var run := Completing(hash, id);
    var order := Order(hash, Reference(s.record), id);
    BroadcastHalf(s, run, hash, id, order);
    PollHalf(s, run, hash, id, Recorded(s, hash, order));
  }

  /** Cancelling is not final: a broadcast and a poll complete a cancelled session that has no hash yet. */
  lemma CancelledCompletes(s: System, hash: string, id: string)
    requires Untouched(s) && s.record.quote.Some? && s.record.status == Cancelled && Normal(hash) && hash != ""
    ensures At(s, Completing(hash, id), 8).record.status == Completed
  {
    SwapCompletes(s, hash, id);
  }

  // ---------- the endpoints ----------

  lemma ServiceStep(s: System, id: nat, e: Event)
    requires Inv(s)
    ensures var s' := Stepped(s, id, e);
      Inv(s') && Keeps(s.record, s'.record) && Writes(OpOf(s, id), s.record, s'.record)
  {
    StepKeeps(s, id, e);
    StepWrites(s, id, e);
  }

  /** The application object: one session, its lock, and the requests in flight. */
  class Service {
    const form: string -> string
    var record: Record
    var lock: Option<nat>
    var ops: map<nat, Op>

    function View(): System
      reads this
    {
      System(form, record, lock, ops)
    }

    constructor (form: string -> string, record: Record)
      ensures View() == System(form, record, None, map[])
      ensures Untouched(View()) ==> Inv(View())
    {
      this.form := form;
      this.record := record;
      lock := None;
      ops := map[];
      new;
      if Untouched(View()) {
        UntouchedInv(View());
      }
    }

    /** The store: writes `changed` under a new revision unless the expected revision is stale. */
    method Update(expected: Option<nat>, changed: Record) returns (stored: bool)
      modifies this`record
      ensures record == Updated(old(record), expected, changed)
      ensures stored <==> expected.None? || expected.value == old(record).revision
    {
      if expected.Some? && expected.value != record.revision {
        return false;
      }
      record := changed.(revision := record.revision + 1);
      return true;
    }

    /** A request arrives and makes its first read. */
    method Start(id: nat, e: Event)
      requires Inv(View()) && EndpointOf(OpOf(View(), id)).Starting?
      modifies this`ops
      ensures View() == Stepped(old(View()), id, e) && Inv(View())
    {
      ServiceStep(View(), id, e);
      match e
      case AskBroadcast(raw, qualified, provider) =>
        var hash := form(raw);
        if qualified && hash != "" && BroadcastOpen(form, record, hash, provider) {
          ops := ops[id := BroadcastObserving(hash)];
        }
      case AskTransfer(raw, qualified, sameChain) =>
        var hash := form(raw);
        if qualified && hash != "" && TransferOpen(record, sameChain) {
          ops := ops[id := TransferObserving(hash)];
        }
      case AskApprove(raw, qualified) =>
        var hash := form(raw);
        if qualified && hash != "" {
          ops := ops[id := ApproveWaiting(hash)];
        }
      case AskCancel => ops := ops[id := Cancelling];
      case AskPoll => ops := ops[id := PollFrom(record)];
      case _ =>
    }

    method Broadcast(id: nat, e: Event)
      requires Inv(View()) && EndpointOf(OpOf(View(), id)).Broadcasting?
      modifies this
      ensures View() == Stepped(old(View()), id, e)
      ensures Inv(View()) && Keeps(old(record), record) && Writes(old(OpOf(View(), id)), old(record), record)
    {
      ServiceStep(View(), id, e);
      match ops[id]
      case BroadcastObserving(hash) =>
        if e.Observed? {
          if e.seen == Some(Failed) {
            ops := ops[id := Idle];
          } else {
            var status := BroadcastSeen;
            if e.seen.Some? {
              status := if e.seen.value == Confirmed then SourceConfirmed else e.seen.value;
            }
            ops := ops[id := BroadcastWaiting(hash, status)];
          }
        }
      case BroadcastWaiting(hash, seen) =>
        if e.Turn? && lock.None? {
          if !BroadcastOpen(form, record, hash, e.provider) {
            ops := ops[id := Idle];
          } else {
            lock := Some(id);
            ops := ops[id := if Visible(seen) then BroadcastRegistering(hash, seen, record)
                             else BroadcastCommitting(hash, seen, record, None)];
          }
        }
      case BroadcastRegistering(hash, seen, snap) =>
        if e.Registered? {
          if e.id.None? {
            lock := None;
            ops := ops[id := Idle];
          } else {
            var order := Order(hash, Reference(snap), e.id.value);
            ops := ops[id := BroadcastCommitting(hash, seen, snap, Some(order))];
          }
        }
      case BroadcastCommitting(hash, seen, snap, order) =>
        if e.Turn? {
          var _ := Update(Some(snap.revision), BroadcastChange(record, hash, seen, order));
          lock := None;
          ops := ops[id := Idle];
        }
    }

    method Transfer(id: nat, e: Event)
      requires Inv(View()) && EndpointOf(OpOf(View(), id)).Transferring?
      modifies this
      ensures View() == Stepped(old(View()), id, e)
      ensures Inv(View()) && Keeps(old(record), record) && Writes(old(OpOf(View(), id)), old(record), record)
    {
      ServiceStep(View(), id, e);
      match ops[id]
      case TransferObserving(hash) =>
        if e.Observed? {
          ops := ops[id := TransferWaiting(hash, if e.seen.Some? then e.seen.value else Unknown)];
        }
      case TransferWaiting(hash, seen) =>
        if e.Turn? && lock.None? {
          if record.hash.Some? {
            ops := ops[id := Idle];
          } else {
            lock := Some(id);
            ops := ops[id := TransferCommitting(hash, seen, record)];
          }
        }
      case TransferCommitting(hash, seen, snap) =>
        if e.Turn? {
          var _ := Update(Some(snap.revision), TransferChange(record, hash, seen));
          lock := None;
          ops := ops[id := Idle];
        }
    }

    method Approve(id: nat, e: Event)
      requires Inv(View()) && EndpointOf(OpOf(View(), id)).Approving?
      modifies this
      ensures View() == Stepped(old(View()), id, e)
      ensures Inv(View()) && Keeps(old(record), record) && Writes(old(OpOf(View(), id)), old(record), record)
    {
      ServiceStep(View(), id, e);
      match ops[id]
      case ApproveWaiting(hash) =>
        if e.Turn? && lock.None? {
          var next := ApproveWith(form, record, hash);
          if next != Idle {
            lock := Some(id);
          }
          ops := ops[id := next];
        }
      case ApproveCommitting(snap, submitted) =>
        if e.Turn? {
          var _ := Update(Some(snap.revision), ApproveChange(record, submitted));
          lock := None;
          ops := ops[id := Idle];
        }
    }

    method Cancel(id: nat, e: Event)
      requires Inv(View()) && EndpointOf(OpOf(View(), id)).Cancels?
      modifies this
      ensures View() == Stepped(old(View()), id, e)
      ensures Inv(View()) && Keeps(old(record), record) && Writes(old(OpOf(View(), id)), old(record), record)
    {
      ServiceStep(View(), id, e);
      if e.Turn? {
        var _ := Update(None, record.(status := Cancelled));
        ops := ops[id := Idle];
      }
    }

    method Recover(id: nat, e: Event)
      requires Inv(View()) && EndpointOf(OpOf(View(), id)).Recovering?
      modifies this
      ensures View() == Stepped(old(View()), id, e)
      ensures Inv(View()) && Keeps(old(record), record) && Writes(old(OpOf(View(), id)), old(record), record)
    {
      ServiceStep(View(), id, e);
      match ops[id]
      case PollChecking(snap) =>
        if e.Checked? {
          ops := ops[id := if e.confirmed then PollRegistering(snap) else Idle];
        }
      case PollRegistering(snap) =>
        if e.Registered? {
          if e.id.None? || snap.hash.None? {
            ops := ops[id := Idle];
          } else {
            ops := ops[id := PollRecovering(snap, Order(snap.hash.value, Reference(snap), e.id.value))];
          }
        }
      case PollRecovering(snap, found) =>
        if e.Turn? {
          var stored := Update(Some(snap.revision), record.(order := Some(found)));
          ops := ops[id := if stored then PollWith(record) else PollReading];
        }
      case PollReading =>
        if e.Turn? {
          ops := ops[id := PollWith(record)];
        }
    }

    method Poll(id: nat, e: Event)
      requires Inv(View()) && EndpointOf(OpOf(View(), id)).Polling?
      modifies this
      ensures View() == Stepped(old(View()), id, e)
      ensures Inv(View()) && Keeps(old(record), record) && Writes(old(OpOf(View(), id)), old(record), record)
    {
      ServiceStep(View(), id, e);
      match ops[id]
      case PollAsking(snap) =>
        if e.Answered? {
          if e.state.None? || snap.orderStatus == e.state {
            ops := ops[id := Idle];
          } else {
            ops := ops[id := PollCommitting(snap, e.state.value)];
          }
        }
      case PollCommitting(snap, state) =>
        if e.Turn? {
          var _ := Update(Some(snap.revision), PollChange(record, state));
          ops := ops[id := Idle];
        }
    }

    /** One turn of the scheduler: the endpoint the request is in handles the event. */
    method Handle(id: nat, e: Event)
      requires Inv(View())
      modifies this
      ensures View() == Stepped(old(View()), id, e) && Inv(View()) && Keeps(old(record), record)
    {
      match EndpointOf(if id in ops then ops[id] else Idle)
      case Starting => Start(id, e);
      case Broadcasting => Broadcast(id, e);
      case Transferring => Transfer(id, e);
      case Approving => Approve(id, e);
      case Cancels => Cancel(id, e);
      case Recovering => Recover(id, e);
      case Polling => Poll(id, e);
    }

    /** The service under any schedule: what it stored before and what it stores after settle as promised. */
    method Serve(run: seq<Action>)
      requires Inv(View())
      modifies this
      ensures View() == At(old(View()), run, |run|)
      ensures Inv(View()) && Settles(old(record), record)
    {
      ghost var s := View();
      for k := 0 to |run|
        invariant View() == At(s, run, k) && Inv(View())
        invariant Settles(s.record, record)
      {
        ghost var before := record;
        Handle(run[k].id, run[k].event);
        SettlesOnce(s.form, s.record, before, record);
      }
    }
  }
}
