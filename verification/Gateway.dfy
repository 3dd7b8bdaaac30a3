/**
 The end of the request pipeline: hold the money, record the decision, and only then let the
 request through; and settling afterwards. What comes before the decision is given as its
 outcome.
 */
module Gateway {
  import opened Wrappers

  import D = Decision
  import opened Dimensions
  import E = Emitter
  import opened Lease
  import opened Pool
  import S = Settlement

  datatype Record = Record(decisionId: nat, outcome: D.Outcome, reservation: Option<nat>)

  /** Opening an escalation: there may be no sink, and a sink may raise. */
  datatype EscalationSink = NoSink | Opens | Raises

  /** What the steps before this one found: nothing usable, or a verdict and the money it needs. */
  datatype Entry = Unreadable | Decided(outcome: D.Outcome, requested: int)

  datatype Answer = Forward(reservation: Option<Reservation<nat>>) | Refused

  /** The leases alone, without the top-up flags. */
  function Leases(s: PoolState): (r: map<Dimension, LeaseView>) { map d | d in s.held :: s.held[d].lease }

  /** The lease in the spending dimension with `amount` taken out. */
  ghost predicate Spent(before: map<Dimension, LeaseView>, after: map<Dimension, LeaseView>, amount: int) {
    && SpendBdt in before
    && after == before[SpendBdt := before[SpendBdt].(remaining := before[SpendBdt].remaining - amount)]
  }

  predicate WantsMoney(outcome: D.Outcome, requested: int) { outcome == D.Allowed && requested > 0 }

  /** Exactly when a request goes through. */
  ghost predicate GoesThrough(
    pool: PoolState, cfg: Settings, buffer: E.Buffer<Record>, es: E.Settings,
    entry: Entry, now: int)
  {
    && entry.Decided? && entry.outcome == D.Allowed
    && (entry.requested > 0 ==> TryReserveIn(pool, SpendBdt, entry.requested, now, cfg).Ok?)
    && !buffer.closed && (|buffer.queue| < es.capacity || es.backPressure == E.Drop)
  }

  /** Taking the money: held exactly when it can be, and otherwise nothing moves. */
  method Hold(pool: LeasePool, outcome: D.Outcome, requested: int, now: int, loop: bool, decisionId: nat)
    returns (ok: bool, reservation: Option<Reservation<nat>>)
    modifies pool
    ensures pool.closed == old(pool.closed)
    ensures ok <==>
      (WantsMoney(outcome, requested) ==>
        TryReserveIn(old(pool.State()), SpendBdt, requested, now, pool.settings).Ok?)
    ensures !ok || !WantsMoney(outcome, requested) ==> reservation.None? && Leases(pool.State()) == old(Leases(pool.State()))
    ensures ok && WantsMoney(outcome, requested) ==>
      && SpendBdt in old(pool.held)
      && reservation == Some(Reservation(decisionId, old(pool.held)[SpendBdt].lease.id, requested))
      && Spent(old(Leases(pool.State())), Leases(pool.State()), requested)
  {
    if outcome == D.Allowed && requested > 0 {
      var held, started := pool.Reserve(SpendBdt, requested, now, loop, decisionId);
      if held.Err? {
        return false, None;
      }
      return true, Some(held.value);
    }
    return true, None;
  }

  /** Giving all of it back. */
  method Refund(pool: LeasePool, reservation: Reservation<nat>, now: int)
    requires SpendBdt in Leases(pool.State()) && 0 <= reservation.amount
    modifies pool
    ensures pool.closed == old(pool.closed)
    ensures Spent(Leases(pool.State()), old(Leases(pool.State())), reservation.amount)
  {
    var refunded := pool.Commit(SpendBdt, reservation, 0, now);
  }

  lemma RefundUndoes(
    before: map<Dimension, LeaseView>, held: map<Dimension, LeaseView>, after: map<Dimension, LeaseView>, amount: int)
    requires Spent(before, held, amount) && Spent(after, held, amount)
    ensures after == before
  {
    assert before.Keys == held.Keys == after.Keys;
    assert after[SpendBdt].remaining - amount == held[SpendBdt].remaining == before[SpendBdt].remaining - amount;
    forall d | d in before
      ensures after[d] == before[d]
    {
      assert held[d] == (if d == SpendBdt then before[d].(remaining := before[d].remaining - amount) else before[d]);
      assert held[d] == (if d == SpendBdt then after[d].(remaining := after[d].remaining - amount) else after[d]);
    }
  }

  predicate HasRoom(b: E.Buffer<Record>, es: E.Settings) { !b.closed && |b.queue| < es.capacity }

  /** How a refusal is recorded: as an escalation only if one was decided and could be opened. */
  function RefusedOutcome(decided: D.Outcome, sink: EscalationSink): (o: D.Outcome) {
    if decided == D.Escalated && sink != Raises then D.Escalated else D.Denied
  }

  /**
   A request that cannot be read, or carries no valid token, touches nothing. Otherwise it goes
   through only with its record accepted (under the refusing policy) and its money held; a
   refused one leaves every lease as it was, and no record that it was allowed.
   */
  method Authorize(
      pool: LeasePool, emitter: E.DecisionEmitter<Record>, decisionId: nat, entry: Entry,
      sink: EscalationSink, now: int, loop: bool)
    returns (answer: Answer)
    requires emitter.Valid()
    modifies pool, emitter
    ensures emitter.Valid() && pool.closed == old(pool.closed)
    ensures answer.Forward? <==>
      GoesThrough(old(pool.State()), pool.settings, old(emitter.Buf()), emitter.settings, entry, now)
    ensures entry.Unreadable? ==> pool.State() == old(pool.State()) && emitter.Buf() == old(emitter.Buf())
    ensures answer.Refused? ==> Leases(pool.State()) == old(Leases(pool.State()))
    ensures answer.Refused? ==>
      emitter.queue == old(emitter.queue)
      || exists r: Record :: r.outcome != D.Allowed && emitter.queue == old(emitter.queue) + [r]
    ensures entry.Decided? && answer.Refused? && HasRoom(old(emitter.Buf()), emitter.settings) ==>
      emitter.queue == old(emitter.queue) + [Record(decisionId, RefusedOutcome(entry.outcome, sink), None)]
    ensures entry.Decided? && !HasRoom(old(emitter.Buf()), emitter.settings) ==>
      && emitter.queue == old(emitter.queue)
      && emitter.dropped == old(emitter.dropped)
           + (if !old(emitter.closed) && emitter.settings.backPressure == E.Drop then 1 else 0)
    ensures answer.Forward? ==>
      var record := Record(decisionId, D.Allowed, if entry.requested > 0 then Some(decisionId) else None);
      && (emitter.settings.backPressure == E.Refuse ==> emitter.queue == old(emitter.queue) + [record])
      && (emitter.queue == old(emitter.queue) + [record]
          || (emitter.queue == old(emitter.queue) && emitter.dropped == old(emitter.dropped) + 1))
    ensures answer.Forward? ==>
      if entry.requested > 0 then
        && answer.reservation == Some(Reservation(decisionId, old(pool.held)[SpendBdt].lease.id, entry.requested))
        && Spent(old(Leases(pool.State())), Leases(pool.State()), entry.requested)
      else answer.reservation.None? && Leases(pool.State()) == old(Leases(pool.State()))
  {
    if entry.Unreadable? {
      return Refused;
    }
    var outcome, requested := entry.outcome, entry.requested;
    if outcome == D.Escalated && sink == Raises {
      var ignored := emitter.Emit(Record(decisionId, D.Denied, None));
      return Refused;
    }
    ghost var before := Leases(pool.State());
    var ok, reservation := Hold(pool, outcome, requested, now, loop, decisionId);
    if !ok {
      var ignored := emitter.Emit(Record(decisionId, D.Denied, None));
      return Refused;
    }
    ghost var held := Leases(pool.State());
    var emission := emitter.Emit(Record(decisionId, outcome, if reservation.Some? then Some(reservation.value.id) else None));
    if emission == E.Full {
      if reservation.Some? {
        Refund(pool, reservation.value, now);
        RefundUndoes(before, held, Leases(pool.State()), requested);
      }
      return Refused;
    }
    if outcome != D.Allowed {
      return Refused;
    }
    answer := Forward(reservation);
  }

  /**
   Settling: once locally, once towards the ledger. None is the error a dimension without a
   lease raises, and then nothing is enqueued.
   */
  method Settle(
      pool: LeasePool, queue: S.SettlementQueue, authorized: Answer, actual: Option<int>, now: int)
    returns (outcome: Option<CommitOutcome<nat>>)
    requires authorized.Forward? && S.WellSet(queue.State())
    modifies pool, queue
    ensures S.WellSet(queue.State())
    ensures outcome.Some? <==> authorized.reservation.Some? && SpendBdt in old(pool.held)
    ensures outcome.None? ==> pool.State() == old(pool.State()) && queue.State() == old(queue.State())
    ensures outcome.Some? ==>
      var reservation, lease := authorized.reservation.value, old(pool.held)[SpendBdt].lease;
      var spent := if actual.Some? then actual.value else reservation.amount;
      && outcome.value.reservationId == reservation.id && outcome.value.amount == spent
      && outcome.value.leaseId == lease.id
      && pool.State() == WithLease(old(pool.State()), SpendBdt,
                                   Settled(lease, reservation.amount, spent, now, pool.settings.skew).0)
      && (spent == reservation.amount ==> Leases(pool.State()) == old(Leases(pool.State())))
      && queue.State() == S.Enqueued(old(queue.State()), S.Pending(lease.id, reservation.id, spent, now))
  {
    if authorized.reservation.None? {
      return None;
    }
    var reservation := authorized.reservation.value;
    var settled := pool.Commit(SpendBdt, reservation, if actual.Some? then actual.value else reservation.amount, now);
    if settled.Err? {
      return None;
    }
    queue.Enqueue(settled.value, now);
    outcome := Some(settled.value);
  }
}
