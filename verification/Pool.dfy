/**
 The leases one enforcement point holds for one mandate, at most one per dimension. Every
 method below is what the pool does between two awaits; `PoolLifecycle` interleaves them.
 */
module Pool {
  import opened Wrappers

  import opened Dimensions
  import opened Lease

  datatype Settings = Settings(leaseSize: int, ttl: int, skew: int, lowWater: real)

  /** What `PoolSettings` accepts. */
  predicate Accepted(s: Settings) {
    0 < s.leaseSize && 0.0 <= s.lowWater < 1.0 && 2 * s.skew < s.ttl
  }

  datatype Grant = Grant(id: nat, granted: int, expiresAt: int)

  datatype Held = Held(lease: LeaseView, toppingUp: bool, mandateExhausted: bool)

  datatype PoolState = PoolState(held: map<Dimension, Held>, closed: bool)

  datatype Refusal = NoLease | Insufficient(reason: ReserveError)

  datatype Verdict = Verdict(ok: bool, exhausted: Option<Dimension>, mandateExhausted: bool)

  function NewLease(g: Grant): LeaseView { LeaseView(g.id, g.granted, g.granted, g.expiresAt, Active) }

  /** The lease can no longer be spent from, for a reason that waiting will not cure. */
  predicate Stale(v: LeaseView, now: int, skew: int) { v.state != Active || now >= v.expiresAt - skew }

  predicate Drained(v: LeaseView, lowWater: real) { v.remaining as real <= v.granted as real * lowWater }

  predicate RenewDue(v: LeaseView, now: int, ttl: int) {
    // Compared doubled: the margin is half the TTL, which need not be a whole microsecond.
    v.state != Active || 2 * now >= 2 * v.expiresAt - ttl
  }

  /** Whether scheduling starts a task: the loop must be running and none may be in flight. */
  predicate CanSchedule(s: PoolState, d: Dimension, loop: bool) {
    d in s.held && !s.held[d].toppingUp && !s.closed && loop
  }

  function Scheduled(s: PoolState, d: Dimension): (r: PoolState)
    requires d in s.held
  {
    s.(held := s.held[d := s.held[d].(toppingUp := true)])
  }

  predicate WantsTopup(s: PoolState, d: Dimension, now: int, cfg: Settings, loop: bool) {
    && CanSchedule(s, d, loop)
    && (Drained(s.held[d].lease, cfg.lowWater) || Stale(s.held[d].lease, now, cfg.skew))
  }

  /** The rest of an ACQUIRE once the ledger has answered: the lease to release, if any. */
  function Granted(s: PoolState, d: Dimension, grant: Option<Grant>): (r: (PoolState, Option<nat>)) {
    match grant
    case None =>
      (if d in s.held then s.(held := s.held[d := s.held[d].(mandateExhausted := true)]) else s, None)
    case Some(g) =>
      if d !in s.held then
        (s.(held := s.held[d := Held(NewLease(g), false, false)]), None)
      else
        (s.(held := s.held[d := s.held[d].(lease := NewLease(g), mandateExhausted := false)]),
         Some(s.held[d].lease.id))
  }

  function WithLease(s: PoolState, d: Dimension, v: LeaseView): (r: PoolState)
    requires d in s.held
  {
    s.(held := s.held[d := s.held[d].(lease := v)])
  }

  function TryReserveIn(s: PoolState, d: Dimension, amount: int, now: int, cfg: Settings)
    : (r: Result<PoolState, Refusal>)
  {
    if d !in s.held || s.closed then Err(NoLease)
    else
      match TryReserve(s.held[d].lease, amount, now, cfg.skew)
      case Err(e) => Err(Insufficient(e))
      case Ok(v) => Ok(WithLease(s, d, v))
  }

  predicate Covers(s: PoolState, d: Dimension, amount: int, now: int, cfg: Settings) {
    amount <= 0 ||
    (d in s.held && !s.closed && !Stale(s.held[d].lease, now, cfg.skew) && amount <= s.held[d].lease.remaining)
  }

  // ------------------------------------------------------------------------------------
  // What the two halves of the budget question promise each other
  // ------------------------------------------------------------------------------------

  /** For a positive amount, the check allows exactly when reserving right now would succeed. */
  lemma CheckAgreesWithReserve(s: PoolState, d: Dimension, amount: int, now: int, cfg: Settings)
    requires 0 < amount
    ensures Covers(s, d, amount, now, cfg) <==> TryReserveIn(s, d, amount, now, cfg).Ok?
  {
  }

  /** Reserving in one dimension never takes away what another dimension's check promised. */
  lemma ReserveLeavesOtherDimensions(
    s: PoolState, d: Dimension, amount: int, e: Dimension, other: int, now: int, cfg: Settings)
    requires d != e && TryReserveIn(s, d, amount, now, cfg).Ok?
    ensures Covers(TryReserveIn(s, d, amount, now, cfg).value, e, other, now, cfg)
       <==> Covers(s, e, other, now, cfg)
  {
  }

  /** Reserving each positive amount in turn; None as soon as one is refused. */
  function ReserveEach(s: PoolState, requested: seq<(Dimension, int)>, now: int, cfg: Settings): (r: Option<PoolState>)
    decreases |requested|
  {
    if requested == [] then Some(s)
    else if requested[0].1 <= 0 then ReserveEach(s, requested[1..], now, cfg)
    else
      match TryReserveIn(s, requested[0].0, requested[0].1, now, cfg)
      case Err(_) => None
      case Ok(after) => ReserveEach(after, requested[1..], now, cfg)
  }

  /** A request covers every dimension exactly when all of it can be reserved, one after another. */
  lemma {:induction false} CoveredIffReservable(s: PoolState, requested: seq<(Dimension, int)>, now: int, cfg: Settings)
    requires forall i, j :: 0 <= i < j < |requested| ==> requested[i].0 != requested[j].0
    ensures (forall i :: 0 <= i < |requested| ==> Covers(s, requested[i].0, requested[i].1, now, cfg))
      <==> ReserveEach(s, requested, now, cfg).Some?
    decreases |requested|
  {
    hide Covers, TryReserveIn;
    if requested != [] {
      var d, amount, rest := requested[0].0, requested[0].1, requested[1..];
      assert forall i :: 0 < i < |requested| ==> requested[i] == rest[i - 1];
      var outcome := TryReserveIn(s, d, amount, now, cfg);
      if amount <= 0 {
        assert Covers(s, d, amount, now, cfg) by {
          NothingIsCovered(s, d, amount, now, cfg);
        }
        CoveredIffReservable(s, rest, now, cfg);
      } else {
        CheckAgreesWithReserve(s, d, amount, now, cfg);
        if outcome.Ok? {
          forall i | 0 <= i < |rest|
            ensures Covers(outcome.value, rest[i].0, rest[i].1, now, cfg) <==> Covers(s, rest[i].0, rest[i].1, now, cfg)
          {
            ReserveLeavesOtherDimensions(s, d, amount, rest[i].0, rest[i].1, now, cfg);
          }
          CoveredIffReservable(outcome.value, rest, now, cfg);
        }
      }
    }
  }

  lemma NothingIsCovered(s: PoolState, d: Dimension, amount: int, now: int, cfg: Settings)
    requires amount <= 0
    ensures Covers(s, d, amount, now, cfg)
  {
  }

  /** The lease pool, one dictionary of held leases keyed by dimension. */
  class LeasePool {
    const settings: Settings
    var held: map<Dimension, Held>
    var closed: bool

    constructor (settings: Settings)
      requires Accepted(settings)
      ensures State() == PoolState(map[], false) && this.settings == settings
    {
      this.settings := settings;
      held, closed := map[], false;
    }

    function State(): PoolState
      reads this
    {
      PoolState(held, closed)
    }

    /** After the ledger answers an ACQUIRE. A replaced lease is the caller's to release. */
    method OnGrant(d: Dimension, grant: Option<Grant>) returns (toRelease: Option<nat>)
      modifies this
      ensures (State(), toRelease) == Granted(old(State()), d, grant)
      ensures closed == old(closed) && forall e :: e != d ==>
        (e in held <==> e in old(held)) && (e in held ==> held[e] == old(held)[e])
      ensures grant.None? ==>
        && toRelease.None? && (d in held <==> d in old(held))
        && (d in held ==> held[d] == Held(old(held)[d].lease, old(held)[d].toppingUp, true))
      ensures grant.Some? ==>
        && d in held && !held[d].mandateExhausted
        && held[d].lease == LeaseView(grant.value.id, grant.value.granted, grant.value.granted, grant.value.expiresAt, Active)
        && held[d].toppingUp == (d in old(held) && old(held)[d].toppingUp)
        && toRelease == (if d in old(held) then Some(old(held)[d].lease.id) else None)
    {
      match grant
      case None =>
        if d in held {
          held := held[d := held[d].(mandateExhausted := true)];
        }
        toRelease := None;
      case Some(g) =>
        if d !in held {
          held := held[d := Held(NewLease(g), false, false)];
          return None;
        }
        var replaced := held[d].lease;
        held := held[d := held[d].(lease := NewLease(g), mandateExhausted := false)];
        toRelease := Some(replaced.id);
    }

    /** Single-flight: starts a task only if the dimension has none and the pool is open. */
    method ScheduleTopup(d: Dimension, loop: bool) returns (started: bool)
      requires d in held
      modifies this
      ensures started == CanSchedule(old(State()), d, loop)
      ensures State() == if started then Scheduled(old(State()), d) else old(State())
      ensures started <==> !old(held)[d].toppingUp && !old(closed) && loop
      ensures closed == old(closed)
      ensures held == if started then old(held)[d := old(held)[d].(toppingUp := true)] else old(held)
    {
      if held[d].toppingUp || closed {
        return false;
      }
      if !loop {
        return false;
      }
      held := held[d := held[d].(toppingUp := true)];
      started := true;
    }

    method MaybeScheduleTopup(d: Dimension, now: int, loop: bool) returns (started: bool)
      requires d in held
      modifies this
      ensures started == WantsTopup(old(State()), d, now, settings, loop)
      ensures State() == if started then Scheduled(old(State()), d) else old(State())
      ensures started <==>
        && !old(held)[d].toppingUp && !old(closed) && loop
        && var lease := old(held)[d].lease;
           || lease.remaining as real <= settings.lowWater * lease.granted as real
           || lease.state != Active || lease.expiresAt - settings.skew <= now
    {
      if held[d].toppingUp || closed {
        return false;
      }
      var lease := held[d].lease;
      var drained := lease.remaining as real <= lease.granted as real * settings.lowWater;
      var stale := lease.state != Active || now >= lease.expiresAt - settings.skew;
      if !(drained || stale) {
        return false;
      }
      started := ScheduleTopup(d, loop);
    }

    method Reserve(d: Dimension, amount: int, now: int, loop: bool, freshId: nat)
      returns (r: Result<Reservation<nat>, Refusal>, started: bool)
      modifies this
      ensures match TryReserveIn(old(State()), d, amount, now, settings)
        case Err(e) => r == Err(e) && !started && State() == old(State())
        case Ok(after) =>
          && r == Ok(Reservation(freshId, old(held)[d].lease.id, amount))
          && started == WantsTopup(after, d, now, settings, loop)
          && State() == if started then Scheduled(after, d) else after
      ensures r.Ok? <==>
        && !old(closed) && d in old(held) && 0 <= amount <= old(held)[d].lease.remaining
        && old(held)[d].lease.state == Active && now < old(held)[d].lease.expiresAt - settings.skew
      ensures r == Err(NoLease) <==> old(closed) || d !in old(held)
    {
      if d !in held || closed {
        return Err(NoLease), false;
      }
      var outcome := TryReserve(held[d].lease, amount, now, settings.skew);
      if outcome.Err? {
        return Err(Insufficient(outcome.error)), false;
      }
      var id := held[d].lease.id;
      held := held[d := held[d].(lease := outcome.value)];
      started := MaybeScheduleTopup(d, now, loop);
      r := Ok(Reservation(freshId, id, amount));
    }

    /** Settles on the lease held now, whichever lease the reservation was taken from. */
    method Commit(d: Dimension, reservation: Reservation<nat>, actual: int, now: int)
      returns (r: Result<CommitOutcome<nat>, Refusal>)
      modifies this
      ensures d !in old(held) ==> r == Err(NoLease) && State() == old(State())
      ensures d in old(held) ==>
        var (after, escalated) := Settled(old(held)[d].lease, reservation.amount, actual, now, settings.skew);
        && State() == WithLease(old(State()), d, after)
        && (!escalated ==> after.remaining + actual == old(held)[d].lease.remaining + reservation.amount)
        && r == Ok(CommitOutcome(reservation.id, old(held)[d].lease.id, actual, escalated))
    {
      if d !in held {
        return Err(NoLease);
      }
      var (after, escalated) := Settled(held[d].lease, reservation.amount, actual, now, settings.skew);
      var id := held[d].lease.id;
      held := held[d := held[d].(lease := after)];
      r := Ok(CommitOutcome(reservation.id, id, actual, escalated));
    }

    /**
     Whether the held leases cover every requested amount, in request order. Reserves
     nothing; the first dimension refused asks for a top-up if its lease is low or stale.
     */
    method Check(requested: seq<(Dimension, int)>, now: int, loop: bool)
      returns (verdict: Verdict, started: Option<Dimension>)
      modifies this
      ensures verdict.ok <==> forall i :: 0 <= i < |requested| ==>
        Covers(old(State()), requested[i].0, requested[i].1, now, settings)
      ensures verdict.ok ==> State() == old(State()) && started.None? && verdict.exhausted.None?
      ensures !verdict.ok ==>
        exists k :: 0 <= k < |requested|
          && !Covers(old(State()), requested[k].0, requested[k].1, now, settings)
          && (forall i :: 0 <= i < k ==> Covers(old(State()), requested[i].0, requested[i].1, now, settings))
          && Refused(old(State()), requested[k].0, now, loop, verdict, started, State())
    {
      for i := 0 to |requested|
        invariant State() == old(State())
        invariant forall j :: 0 <= j < i ==> Covers(old(State()), requested[j].0, requested[j].1, now, settings)
      {
        var (d, amount) := requested[i];
        if amount <= 0 {
          continue;
        }
        if d !in held || closed {
          verdict, started := Verdict(false, Some(d), false), None;
          assert Refused(old(State()), requested[i].0, now, loop, verdict, started, State());
          return;
        }
        var lease := held[d].lease;
        if lease.state != Active || now >= lease.expiresAt - settings.skew || lease.remaining < amount {
          var exhausted := held[d].mandateExhausted;
          var began := MaybeScheduleTopup(d, now, loop);
          verdict, started := Verdict(false, Some(d), exhausted), if began then Some(d) else None;
          assert Refused(old(State()), requested[i].0, now, loop, verdict, started, State());
          return;
        }
      }
      verdict, started := Verdict(true, None, false), None;
    }

    ghost predicate Refused(before: PoolState, d: Dimension, now: int, loop: bool,
                            verdict: Verdict, started: Option<Dimension>, after: PoolState)
    {
      && verdict.exhausted == Some(d)
      && verdict.mandateExhausted == (!before.closed && d in before.held && before.held[d].mandateExhausted)
      && (started == Some(d) <==> WantsTopup(before, d, now, settings, loop))
      && (started.Some? ==> started.value == d)
      && after == if started.Some? && d in before.held then Scheduled(before, d) else before
    }

    /** One renewal sweep: a task for every held lease past its half-life that has none. */
    method Sweep(now: int, loop: bool) returns (started: set<Dimension>)
      modifies this
      ensures started == set d | d in old(held) && RenewDue(old(held)[d].lease, now, settings.ttl)
                              && CanSchedule(old(State()), d, loop)
      ensures forall d :: d in started <==>
        && d in old(held) && !old(closed) && loop && !old(held)[d].toppingUp
        && (old(held)[d].lease.state != Active || 2 * (old(held)[d].lease.expiresAt - now) <= settings.ttl)
      ensures closed == old(closed) && held.Keys == old(held).Keys
      ensures forall d :: d in held ==>
        held[d] == if d in started then old(held)[d].(toppingUp := true) else old(held)[d]
    {
      started := {};
      if closed {
        return;
      }
      var todo := held.Keys;
      while todo != {}
        invariant todo <= old(held).Keys && closed == old(closed) && held.Keys == old(held).Keys
        invariant started == set d | d in old(held) && d !in todo && RenewDue(old(held)[d].lease, now, settings.ttl)
                                  && CanSchedule(old(State()), d, loop)
        invariant forall d :: d in held ==>
          held[d] == if d in started then old(held)[d].(toppingUp := true) else old(held)[d]
        decreases todo
      {
        var d :| d in todo;
        todo := todo - {d};
        if RenewDue(held[d].lease, now, settings.ttl) {
          var began := ScheduleTopup(d, loop);
          if began {
            started := started + {d};
          }
        }
      }
    }

    /** One turn of the closing loop: the lease to release, marked first so it is sent once. */
    method CloseDimension(d: Dimension) returns (toRelease: Option<nat>)
      requires d in held && closed
      modifies this
      ensures old(held)[d].lease.state == Active ==>
        && toRelease == Some(old(held)[d].lease.id)
        && State() == WithLease(old(State()), d, old(held)[d].lease.(state := Released))
      ensures old(held)[d].lease.state != Active ==> toRelease == None && State() == old(State())
    {
      if held[d].lease.state == Active {
        toRelease := Some(held[d].lease.id);
        held := held[d := held[d].(lease := held[d].lease.(state := Released))];
      } else {
        toRelease := None;
      }
    }
  }
}
