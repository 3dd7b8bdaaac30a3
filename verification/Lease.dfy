/**
 The PEP-local half of the lease protocol: RESERVE and COMMIT on one held lease.

 Amounts are integers in units of 1/10000 (the ledger column is NUMERIC(20,4), so every
 amount is exact there); instants and spans are integers in microseconds.
 */
module Lease {
  import opened Wrappers

  datatype LeaseState = Active | Released | Expired | Revoked

  /** What one lease looks like to the PEP that holds it. */
  datatype LeaseView = LeaseView(
    id: nat, granted: int, remaining: int, expiresAt: int, state: LeaseState)
  {
    /** How much of the grant this PEP has taken: reserved, whether settled yet or not. */
    function Used(): int { granted - remaining }
  }

  datatype Reservation<+Id> = Reservation(id: Id, leaseId: nat, amount: int)

  datatype CommitOutcome<+Id> =
    CommitOutcome(reservationId: Id, leaseId: nat, amount: int, escalated: bool)

  /** The four refusals; only the first is a programming error rather than `Insufficient`. */
  datatype ReserveError = NegativeAmount | NotActive | WithinSkew | Short

  /** RESERVE as a function of the lease: the lease afterwards, or why nothing changed. */
  function TryReserve(v: LeaseView, amount: int, now: int, skew: int): (r: Result<LeaseView, ReserveError>)
  {
    if amount < 0 then Err(NegativeAmount)
    else if v.state != Active then Err(NotActive)
    else if now >= v.expiresAt - skew then Err(WithinSkew)
    else if v.remaining < amount then Err(Short)
    else Ok(v.(remaining := v.remaining - amount))
  }

  /** The lease after COMMIT, and whether an under-estimate could not be covered. */
  function Settled(v: LeaseView, reserved: int, actual: int, now: int, skew: int): (r: (LeaseView, bool))
  {
    var delta := actual - reserved;
    if delta > 0 then
      match TryReserve(v, delta, now, skew)
      case Ok(w) => (w, false)
      case Err(_) => (v, true)
    else
      (v.(remaining := v.remaining - delta), false)
  }

  /** A held lease. `remaining` is the only field these operations ever write. */
  class LocalLease {
    const id: nat
    const granted: int
    const expiresAt: int
    var remaining: int
    var state: LeaseState

    constructor (id: nat, granted: int, expiresAt: int)
      ensures View() == LeaseView(id, granted, granted, expiresAt, Active)
    {
      this.id, this.granted, this.expiresAt := id, granted, expiresAt;
      remaining, state := granted, Active;
    }

    function View(): LeaseView
      reads this
    {
      LeaseView(id, granted, remaining, expiresAt, state)
    }

    /** On any refusal the lease is untouched; on success exactly `amount` is held back. */
    method Reserve<Id>(amount: int, now: int, skew: int, freshId: Id)
      returns (r: Result<Reservation<Id>, ReserveError>)
      modifies this`remaining
      ensures match TryReserve(old(View()), amount, now, skew)
        case Ok(after) => View() == after && r == Ok(Reservation(freshId, id, amount))
        case Err(e) => View() == old(View()) && r == Err(e)
      ensures r.Ok? <==> 0 <= amount <= old(remaining) && state == Active && now < expiresAt - skew
      ensures r.Ok? ==> remaining + r.value.amount == old(remaining)
      ensures r.Err? ==> (r.error == NegativeAmount <==> amount < 0)
      ensures r.Err? && 0 <= amount ==> (r.error == NotActive <==> state != Active)
      ensures r.Err? && 0 <= amount && state == Active ==> (r.error == WithinSkew <==> expiresAt - skew <= now)
      ensures r.Err? && 0 <= amount && state == Active && now < expiresAt - skew ==> r.error == Short
    {
      if amount < 0 {
        return Err(NegativeAmount);
      }
      if state != Active {
        return Err(NotActive);
      }
      if now >= expiresAt - skew {
        return Err(WithinSkew);
      }
      if remaining < amount {
        return Err(Short);
      }
      remaining := remaining - amount;
      r := Ok(Reservation(freshId, id, amount));
    }

    /**
     The outcome always reports `actual`, and names the lease it was committed on, which is
     not necessarily the lease the reservation was taken from.
     */
    method Commit<Id>(reservation: Reservation<Id>, actual: int, now: int, skew: int)
      returns (outcome: CommitOutcome<Id>)
      modifies this`remaining
      ensures View() == Settled(old(View()), reservation.amount, actual, now, skew).0
      ensures outcome == CommitOutcome(reservation.id, id, actual,
                           Settled(old(View()), reservation.amount, actual, now, skew).1)
      ensures !outcome.escalated ==> remaining + actual == old(remaining) + reservation.amount
      ensures outcome.escalated ==> remaining == old(remaining)
      ensures outcome.escalated <==>
        (actual > reservation.amount
          && (state != Active || expiresAt - skew <= now || old(remaining) < actual - reservation.amount))
    {
      var delta := actual - reservation.amount;
      var escalated := false;
      if delta > 0 {
        var covered := Reserve(delta, now, skew, reservation.id);
        escalated := covered.Err?;
      } else if delta < 0 {
        remaining := remaining + -delta;
      }
      outcome := CommitOutcome(reservation.id, id, actual, escalated);
    }
  }

  /**
   Reserve then commit moves the lease by exactly what was spent, unless the commit
   escalated: then it moves by what was reserved, and the overrun was refused by the lease.
   */
  lemma ReserveCommitConserves(v: LeaseView, amount: int, actual: int, now: int, later: int, skew: int)
    requires TryReserve(v, amount, now, skew).Ok?
    requires actual >= 0
    ensures
      var held := TryReserve(v, amount, now, skew).value;
      var (after, escalated) := Settled(held, amount, actual, later, skew);
      && after.Used() == v.Used() + (if escalated then amount else actual)
      && after == v.(remaining := after.remaining)
      && (escalated <==> actual > amount && (later >= v.expiresAt - skew || v.remaining < actual))
      && (0 <= v.remaining ==> 0 <= after.remaining)
  {
  }

  /** A full refund leaves the lease as it was, whatever the clock says by then. */
  lemma RefundRestores(v: LeaseView, amount: int, now: int, later: int, skew: int)
    requires TryReserve(v, amount, now, skew).Ok?
    ensures Settled(TryReserve(v, amount, now, skew).value, amount, 0, later, skew) == (v, false)
  {
  }
}
