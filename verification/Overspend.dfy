/**
 N enforcement points spending from one budget. Each step is what one process does between
 two awaits, or one ledger transaction; the steps of all processes interleave freely.
 */
module Overspend {
  import opened Sums
  import opened Wrappers

  import opened Lease
  import opened Ledger
  import opened Settlement

  /**
   One enforcement point for this budget. `arriving` are grants the ledger has made and the
   process has not seen; `retiring` are leases it has stopped using and not yet released.
   */
  datatype Pep = Pep(
    current: Option<nat>, arriving: set<nat>, retiring: set<nat>,
    queue: seq<Pending>, closed: bool, alive: bool, clock: int)

  datatype Taken = Taken(pep: nat, reservation: Reservation<nat>)

  /**
   `local[i]` is the PEP-side record of lease `i`, frozen once its holder moves on.
   `inFlight` are reservations whose tool call has not been settled; `spent` is the history
   total of everything settled locally.
   */
  datatype World = World(
    books: Books, local: seq<LeaseView>, peps: seq<Pep>, inFlight: seq<Taken>,
    spent: int, nextId: nat, clock: int, skew: int)

  datatype Step =
    | Acquire(pep: nat, requested: int, expiresAt: int)
    | Install(pep: nat, lease: nat)
    | Reserve(pep: nat, amount: int)
    | Settle(taken: nat, queued: bool)
    | Flush(pep: nat, count: nat, mask: seq<bool>, answered: bool)
    | Release(pep: nat, lease: nat)
    | Close(pep: nat)
    | Reap(lease: nat)
    | Crash(pep: nat)
    | Tick(clock: int, clocks: seq<int>)

  function Start(total: int, peps: nat, skew: int): World {
    World(Books(total, 0, 0, 0, [], map[]), [],
          seq(peps, i => Pep(None, {}, {}, [], false, true, 0)), [], 0, 0, 0, skew)
  }

  ghost predicate Alive(w: World, p: nat) { p < |w.peps| && w.peps[p].alive }

  ghost predicate Enabled(w: World, step: Step) {
    match step
    case Acquire(p, requested, expiresAt) => Alive(w, p)
    case Install(p, lease) =>
      && Alive(w, p) && lease in w.peps[p].arriving && lease < |w.local|
      && (w.peps[p].current.Some? ==> w.peps[p].current.value < |w.local|)
    case Reserve(p, amount) =>
      && Alive(w, p) && !w.peps[p].closed && w.peps[p].current.Some?
      && w.peps[p].current.value < |w.local|
      && TryReserve(w.local[w.peps[p].current.value], amount, w.peps[p].clock, w.skew).Ok?
    case Settle(k, queued) =>
      && k < |w.inFlight| && Alive(w, w.inFlight[k].pep)
      && w.peps[w.inFlight[k].pep].current.Some?
      && w.peps[w.inFlight[k].pep].current.value < |w.local|
    case Flush(p, n, mask, answered) =>
      && Alive(w, p) && 0 < n <= |w.peps[p].queue| && |mask| == n
      && OneLease(w.peps[p].queue[..n], w.peps[p].queue[0].leaseId)
      && w.peps[p].queue[0].leaseId < |w.books.leases|
      && (answered ==> forall i :: 0 <= i < n ==> mask[i])
    case Release(p, lease) => Alive(w, p) && lease in w.peps[p].retiring && lease < |w.books.leases|
    case Close(p) =>
      Alive(w, p) && (w.peps[p].current.Some? ==> w.peps[p].current.value < |w.local|)
    case Reap(lease) => lease < |w.books.leases| && Reapable(w.books, lease, w.clock)
    case Crash(p) => Alive(w, p)
    case Tick(clock, clocks) => w.clock <= clock && |clocks| == |w.peps|
  }

  /** The lease a process stops using is marked released before the ledger is told. */
  ghost function Retired(w: World, lease: Option<nat>): seq<LeaseView>
    requires lease.Some? ==> lease.value < |w.local|
  {
    match lease
    case None => w.local
    case Some(i) => w.local[i := w.local[i].(state := Released)]
  }

  ghost function ToSet(lease: Option<nat>): set<nat> {
    match lease case None => {} case Some(i) => {i}
  }

  ghost function Apply(w: World, step: Step): World
    requires Enabled(w, step)
  {
    match step
    case Acquire(p, requested, expiresAt) =>
      var (books, lease) := Ledger.Acquire(w.books, requested, expiresAt);
      if lease.None? then w
      else
        var grant := books.leases[lease.value].granted;
        w.(books := books,
           local := w.local + [LeaseView(|w.local|, grant, grant, expiresAt, Active)],
           peps := w.peps[p := w.peps[p].(arriving := w.peps[p].arriving + {lease.value})])
    case Install(p, lease) =>
      var pep := w.peps[p];
      w.(local := Retired(w, pep.current),
         peps := w.peps[p := pep.(current := Some(lease), arriving := pep.arriving - {lease},
                                  retiring := pep.retiring + ToSet(pep.current))])
    case Reserve(p, amount) =>
      var lease := w.peps[p].current.value;
      w.(local := w.local[lease := TryReserve(w.local[lease], amount, w.peps[p].clock, w.skew).value],
         inFlight := w.inFlight + [Taken(p, Reservation(w.nextId, lease, amount))],
         nextId := w.nextId + 1)
    case Settle(k, queued) =>
      // The settlement names the lease held now, not the one the reservation came from.
      var taken := w.inFlight[k];
      var pep := w.peps[taken.pep];
      var lease := pep.current.value;
      var amount := taken.reservation.amount;
      var entry := Pending(lease, taken.reservation.id, amount, pep.clock);
      w.(local := w.local[lease := Settled(w.local[lease], amount, amount, pep.clock, w.skew).0],
         inFlight := w.inFlight[..k] + w.inFlight[k + 1..],
         spent := w.spent + amount,
         peps := w.peps[taken.pep := pep.(queue := if queued then pep.queue + [entry] else pep.queue)])
    case Flush(p, n, mask, answered) =>
      var pep := w.peps[p];
      var items := Items(pep.queue[..n]);
      w.(books := CommitBatch(w.books, pep.queue[0].leaseId, Part(items, mask)).0,
         peps := w.peps[p := pep.(queue := if answered then pep.queue[n..] else pep.queue)])
    case Release(p, lease) =>
      w.(books := Retire(w.books, lease, Released).0,
         peps := w.peps[p := w.peps[p].(retiring := w.peps[p].retiring - {lease})])
    case Close(p) =>
      var pep := w.peps[p];
      var leaving := if pep.current.Some? && w.local[pep.current.value].state == Active then pep.current else None;
      w.(local := Retired(w, leaving),
         peps := w.peps[p := pep.(closed := true, retiring := pep.retiring + ToSet(leaving))])
    case Reap(lease) => w.(books := Retire(w.books, lease, Expired).0)
    case Crash(p) => w.(peps := w.peps[p := w.peps[p].(alive := false)])
    case Tick(clock, clocks) =>
      w.(clock := clock,
         peps := seq(|w.peps|, i requires 0 <= i < |w.peps| => w.peps[i].(clock := clocks[i])))
  }

  // ------------------------------------------------------------------------------------
  // The invariant of every run
  // ------------------------------------------------------------------------------------

  function UsedOf(v: LeaseView): int { v.Used() }

  function AmountOf(t: Taken): int { t.reservation.amount }

  ghost predicate Matched(w: World) {
    && |w.local| == |w.books.leases|
    && (forall i :: 0 <= i < |w.local| ==>
         && w.local[i].id == i
         && w.local[i].granted == w.books.leases[i].granted
         && w.local[i].expiresAt == w.books.leases[i].expiresAt
         && 0 <= w.local[i].remaining <= w.local[i].granted)
  }

  /** A process names only leases that exist, and has stopped using those it is retiring. */
  ghost predicate PepOk(pep: Pep, local: seq<LeaseView>) {
    && (pep.current.Some? ==> pep.current.value < |local|)
    && (forall k :: 0 <= k < |pep.queue| ==> pep.queue[k].leaseId < |local|)
    && (forall i :: i in pep.retiring ==> i < |local| && local[i].state == Released)
  }

  ghost predicate Indexed(w: World) {
    forall p :: 0 <= p < |w.peps| ==> PepOk(w.peps[p], w.local)
  }

  /** Local records are only added to, and a released one stays released. */
  ghost predicate Grows(local: seq<LeaseView>, later: seq<LeaseView>) {
    && |local| <= |later|
    && forall i :: 0 <= i < |local| && local[i].state == Released ==> later[i].state == Released
  }

  lemma OthersStayIndexed(w: World, after: World, p: nat)
    requires Indexed(w) && |after.peps| == |w.peps| && p < |w.peps| && Grows(w.local, after.local)
    requires forall q :: 0 <= q < |w.peps| && q != p ==> after.peps[q] == w.peps[q]
    requires PepOk(after.peps[p], after.local)
    ensures Indexed(after)
  {
    forall q | 0 <= q < |w.peps|
      ensures PepOk(after.peps[q], after.local)
    {
      assert PepOk(w.peps[q], w.local);
    }
  }

  ghost predicate Inv(w: World) {
    && Sound(w.books) && Matched(w) && Indexed(w)
    && (forall k :: 0 <= k < |w.inFlight| ==> 0 <= w.inFlight[k].reservation.amount)
    && w.spent + Sum(w.inFlight, AmountOf) == Sum(w.local, UsedOf)
  }

  lemma StartInv(total: int, peps: nat, skew: int)
    requires 0 <= total
    ensures Inv(Start(total, peps, skew))
  {
  }

  lemma GrantKeepsMatched(w: World, step: Step)
    requires Inv(w) && step.Acquire? && Enabled(w, step)
    ensures Matched(Apply(w, step)) && Grows(w.local, Apply(w, step).local)
    ensures Sum(Apply(w, step).local, UsedOf) == Sum(w.local, UsedOf)
  {
    var after := Apply(w, step);
    if after != w {
      var grant := after.local[|w.local|];
      SumAppend(w.local, [grant], UsedOf);
      SumOne(grant, UsedOf);
    }
  }

  lemma AcquireKeepsInv(w: World, step: Step)
    requires Inv(w) && step.Acquire? && Enabled(w, step)
    ensures Inv(Apply(w, step))
  {
    AcquireSound(w.books, step.requested, step.expiresAt);
    GrantKeepsMatched(w, step);
    assert PepOk(w.peps[step.pep], w.local);
    OthersStayIndexed(w, Apply(w, step), step.pep);
  }

  lemma RetiredKeepsUse(w: World, lease: Option<nat>)
    requires Matched(w) && (lease.Some? ==> lease.value < |w.local|)
    ensures Sum(Retired(w, lease), UsedOf) == Sum(w.local, UsedOf)
    ensures Matched(w.(local := Retired(w, lease))) && Grows(w.local, Retired(w, lease))
    ensures lease.Some? ==> Retired(w, lease)[lease.value].state == Released
  {
    if lease.Some? {
      SumUpdate(w.local, lease.value, w.local[lease.value].(state := Released), UsedOf);
    }
  }

  lemma InstallKeepsInv(w: World, step: Step)
    requires Inv(w) && (step.Install? || step.Close?) && Enabled(w, step)
    ensures Inv(Apply(w, step))
  {
    var after := Apply(w, step);
    assert PepOk(w.peps[step.pep], w.local);
    RetiredKeepsUse(w, w.peps[step.pep].current);
    OthersStayIndexed(w, after, step.pep);
    assert Matched(after);
  }

  lemma ReserveKeepsInv(w: World, step: Step)
    requires Inv(w) && step.Reserve? && Enabled(w, step)
    ensures Inv(Apply(w, step))
  {
    var lease := w.peps[step.pep].current.value;
    var view := TryReserve(w.local[lease], step.amount, w.peps[step.pep].clock, w.skew).value;
    var taken := Taken(step.pep, Reservation(w.nextId, lease, step.amount));
    SumUpdate(w.local, lease, view, UsedOf);
    SumAppend(w.inFlight, [taken], AmountOf);
    SumOne(taken, AmountOf);
    assert PepOk(w.peps[step.pep], w.local);
    OthersStayIndexed(w, Apply(w, step), step.pep);
  }

  lemma SettleKeepsInv(w: World, step: Step)
    requires Inv(w) && step.Settle? && Enabled(w, step)
    ensures Inv(Apply(w, step))
  {
    hide Sound;
    var p := w.inFlight[step.taken].pep;
    assert Apply(w, step).local == w.local;
    SumRemove(w.inFlight, step.taken, AmountOf);
    assert PepOk(w.peps[p], w.local);
    OthersStayIndexed(w, Apply(w, step), p);
  }

  lemma FlushKeepsInv(w: World, step: Step)
    requires Inv(w) && step.Flush? && Enabled(w, step)
    ensures Inv(Apply(w, step))
  {
    var queue := w.peps[step.pep].queue;
    CommitBatchSound(w.books, queue[0].leaseId, Part(Items(queue[..step.count]), step.mask));
    assert PepOk(w.peps[step.pep], w.local);
    OthersStayIndexed(w, Apply(w, step), step.pep);
  }

  lemma RetireKeepsInv(w: World, step: Step)
    requires Inv(w) && (step.Release? || step.Reap?) && Enabled(w, step)
    ensures Inv(Apply(w, step))
  {
    RetireSound(w.books, step.lease, if step.Release? then Released else Expired);
    if step.Release? {
      assert PepOk(w.peps[step.pep], w.local);
      OthersStayIndexed(w, Apply(w, step), step.pep);
    }
  }

  lemma StepKeepsInv(w: World, step: Step)
    requires Inv(w) && Enabled(w, step)
    ensures Inv(Apply(w, step))
  {
    match step
    case Acquire(_, _, _) => AcquireKeepsInv(w, step);
    case Install(_, _) => InstallKeepsInv(w, step);
    case Reserve(_, _) => ReserveKeepsInv(w, step);
    case Settle(_, _) => SettleKeepsInv(w, step);
    case Flush(_, _, _, _) => FlushKeepsInv(w, step);
    case Release(_, _) => RetireKeepsInv(w, step);
    case Close(_) => InstallKeepsInv(w, step);
    case Reap(_) => RetireKeepsInv(w, step);
    case Crash(p) =>
      assert PepOk(w.peps[p], w.local);
      OthersStayIndexed(w, Apply(w, step), p);
    case Tick(_, _) =>
      forall p | 0 <= p < |w.peps|
        ensures PepOk(Apply(w, step).peps[p], w.local)
      {
        assert PepOk(w.peps[p], w.local);
      }
  }

  ghost function Exec(w: World, steps: seq<Step>): Option<World>
    decreases |steps|
  {
    if steps == [] then Some(w)
    else if !Enabled(w, steps[0]) then None
    else Exec(Apply(w, steps[0]), steps[1..])
  }

  /** A process that crashed is never heard of again: its calls in flight are never settled. */
  lemma {:induction false} CrashedIsSilent(w: World, steps: seq<Step>, p: nat)
    requires p < |w.peps| && !w.peps[p].alive && Exec(w, steps).Some?
    ensures
      var later := Exec(w, steps).value;
      && |later.peps| == |w.peps| && !later.peps[p].alive
      && later.peps[p].(clock := 0) == w.peps[p].(clock := 0)
      && forall t :: t in w.inFlight && t.pep == p ==> t in later.inFlight
    decreases |steps|
  {
    if steps != [] {
      var after := Apply(w, steps[0]);
      forall t | t in w.inFlight && t.pep == p
        ensures t in after.inFlight
      {
        var k :| 0 <= k < |w.inFlight| && w.inFlight[k] == t;
        if steps[0].Settle? {
          assert k != steps[0].taken;
          assert t == after.inFlight[if k < steps[0].taken then k else k - 1];
        } else {
          assert after.inFlight[k] == t;
        }
      }
      CrashedIsSilent(after, steps[1..], p);
    }
  }

  lemma {:induction false} ClosedStays(w: World, steps: seq<Step>, p: nat)
    requires p < |w.peps| && w.peps[p].closed && Exec(w, steps).Some?
    ensures var later := Exec(w, steps).value; |later.peps| == |w.peps| && later.peps[p].closed
    decreases |steps|
  {
    if steps != [] {
      ClosedStays(Apply(w, steps[0]), steps[1..], p);
    }
  }

  /** A closed pool never reserves again, whatever grants still arrive. */
  lemma ClosedReservesNothing(w: World, steps: seq<Step>, p: nat, amount: int)
    requires Enabled(w, Step.Close(p)) && Exec(Apply(w, Step.Close(p)), steps).Some?
    ensures !Enabled(Exec(Apply(w, Step.Close(p)), steps).value, Step.Reserve(p, amount))
  {
    ClosedStays(Apply(w, Step.Close(p)), steps, p);
  }

  /**
   Settling spends exactly the amount reserved, once; the settlement that is queued, if the
   queue takes it, names the lease held now.
   */
  lemma SettlesOne(w: World, k: nat, queued: bool)
    requires Enabled(w, Step.Settle(k, queued))
    ensures
      var after, t := Apply(w, Step.Settle(k, queued)), w.inFlight[k];
      var was, now := w.peps[t.pep], after.peps[t.pep];
      && after.spent == w.spent + t.reservation.amount
      && multiset(after.inFlight) + multiset{t} == multiset(w.inFlight)
      && |now.queue| == |was.queue| + (if queued then 1 else 0) && was.queue <= now.queue
      && (queued ==>
           var entry := now.queue[|was.queue|];
           && Some(entry.leaseId) == was.current && entry.reservationId == t.reservation.id
           && entry.amount == t.reservation.amount)
  {
    assert w.inFlight == w.inFlight[..k] + [w.inFlight[k]] + w.inFlight[k + 1..];
  }

  /** Its lease comes back: once overdue it can be reaped, and what it was not charged is free again. */
  lemma CrashedLeaseReturns(w: World, p: nat, lease: nat, clock: int, clocks: seq<int>)
    requires Inv(w) && Alive(w, p) && lease < |w.books.leases| && w.books.leases[lease].state == Active
    requires w.clock <= clock && w.books.leases[lease].expiresAt + 5_000_000 < clock && |clocks| == |w.peps|
    ensures
      var end, row := Exec(w, [Crash(p), Tick(clock, clocks), Step.Reap(lease)]), w.books.leases[lease];
      && end.Some? && !Alive(end.value, p) && end.value.clock == clock
      && end.value.books.leases == w.books.leases[lease := row.(state := Expired)]
      && end.value.books.Available() == w.books.Available() + (row.granted - row.settled)
  {
    var dead := Apply(w, Crash(p));
    var later := Apply(dead, Tick(clock, clocks));
    var end := Apply(later, Step.Reap(lease));
    assert Exec(end, []) == Some(end);
    assert [Step.Reap(lease)][1..] == [];
    assert Exec(later, [Step.Reap(lease)]) == Some(end);
    assert [Tick(clock, clocks), Step.Reap(lease)][1..] == [Step.Reap(lease)];
    assert Exec(dead, [Tick(clock, clocks), Step.Reap(lease)]) == Some(end);
    assert [Crash(p), Tick(clock, clocks), Step.Reap(lease)][1..] == [Tick(clock, clocks), Step.Reap(lease)];
  }

  // ------------------------------------------------------------------------------------
  // Bounded overspend
  // ------------------------------------------------------------------------------------

  datatype Account = Account(view: LeaseView, row: LeaseRow)

  ghost function Accounts(w: World): (a: seq<Account>)
    requires |w.local| == |w.books.leases|
    ensures |a| == |w.local|
    ensures forall i :: 0 <= i < |a| ==> a[i] == Account(w.local[i], w.books.leases[i])
  {
    seq(|w.local|, i requires 0 <= i < |w.local| => Account(w.local[i], w.books.leases[i]))
  }

  /** Budget the ledger took back from a retired lease although its holder had used it. */
  function Orphaned(a: Account): int {
    if a.row.state == Active then 0 else a.view.Used() - a.row.settled
  }

  function AccountUse(a: Account): int { a.view.Used() }

  function AccountHeld(a: Account): int { Held(a.row) }

  function AccountSettled(a: Account): int { a.row.settled }

  function AccountBound(a: Account): int { Held(a.row) + a.row.settled + Orphaned(a) }

  function AccountBooked(a: Account): int { Held(a.row) + a.row.settled }

  ghost function Excess(w: World): int
    requires |w.local| == |w.books.leases|
  {
    Sum(Accounts(w), Orphaned)
  }

  lemma {:induction false} SumAlong<S, T>(s: seq<S>, t: seq<T>, f: S -> int, g: T -> int)
    requires |s| == |t| && forall i :: 0 <= i < |s| ==> f(s[i]) == g(t[i])
    ensures Sum(s, f) == Sum(t, g)
  {
    if s != [] {
      SumAlong(s[..|s| - 1], t[..|t| - 1], f, g);
    }
  }

  /** In every state that satisfies the invariant, spending is bounded by the budget. */
  lemma SpentBounded(w: World)
    requires Inv(w)
    ensures w.spent + Sum(w.inFlight, AmountOf) <= w.books.committed + w.books.leased + Excess(w)
    ensures w.books.committed + w.books.leased + w.books.promised <= w.books.total
  {
    var accounts := Accounts(w);
    SumAlong(w.local, accounts, UsedOf, AccountUse);
    SumAlong(w.books.leases, accounts, Held, AccountHeld);
    SumAlong(w.books.leases, accounts, SettledOf, AccountSettled);
    forall a | a in accounts
      ensures AccountUse(a) <= AccountBound(a)
    {
    }
    SumMonotone(accounts, AccountUse, AccountBound);
    SumOfSum(accounts, AccountHeld, AccountSettled, AccountBooked);
    SumOfSum(accounts, AccountBooked, Orphaned, AccountBound);
  }

  lemma {:induction false} RunKeepsInv(w: World, steps: seq<Step>)
    requires Inv(w) && Exec(w, steps).Some?
    ensures
      var after := Exec(w, steps).value;
      && Inv(after) && after.books.total == w.books.total && after.books.promised == w.books.promised
      && |after.peps| == |w.peps|
    decreases |steps|
  {
    if steps != [] {
      StepKeepsInv(w, steps[0]);
      StepKeepsBudget(w, steps[0]);
      RunKeepsInv(Apply(w, steps[0]), steps[1..]);
    }
  }

  lemma StepKeepsBudget(w: World, step: Step)
    requires Inv(w) && Enabled(w, step)
    ensures Apply(w, step).books.total == w.books.total
    ensures Apply(w, step).books.promised == w.books.promised
    ensures |Apply(w, step).peps| == |w.peps|
  {
    if step.Flush? {
      var queue := w.peps[step.pep].queue;
      var part := Part(Items(queue[..step.count]), step.mask);
      CommitBatchSound(w.books, queue[0].leaseId, part);
      if w.books.leases[queue[0].leaseId].state == Active {
        CommitAllSound(w.books, queue[0].leaseId, part, {});
      }
    }
  }

  lemma AmountsNonNegative(w: World)
    requires Inv(w)
    ensures 0 <= Sum(w.inFlight, AmountOf)
  {
    SumMonotone(w.inFlight, (t: Taken) => 0, AmountOf);
    SumZero(w.inFlight, (t: Taken) => 0);
  }

  /**
   Bounded overspend, for any number of enforcement points and any interleaving of their
   requests, top-ups, flushes, losses, crashes and reaps, with no assumption on clocks: the
   pool is never over-issued, and everything settled locally is at most the budget plus what
   retired leases gave back after it had been used.
   */
  lemma BoundedOverspend(total: int, peps: nat, skew: int, steps: seq<Step>)
    requires 0 <= total
    requires Exec(Start(total, peps, skew), steps).Some?
    ensures
      var w := Exec(Start(total, peps, skew), steps).value;
      && Inv(w)
      && 0 <= w.books.committed && 0 <= w.books.leased
      && w.books.committed + w.books.leased <= total
      && w.spent <= total + Excess(w)
  {
    StartInv(total, peps, skew);
    RunKeepsInv(Start(total, peps, skew), steps);
    var w := Exec(Start(total, peps, skew), steps).value;
    SpentBounded(w);
    AmountsNonNegative(w);
  }

  // ------------------------------------------------------------------------------------
  // When nothing is overspent
  // ------------------------------------------------------------------------------------

  /** What the lease's holder has taken from it is exactly what the ledger charged to it. */
  ghost predicate Even(w: World, lease: nat)
    requires lease < |w.local| == |w.books.leases|
  {
    w.local[lease].Used() == w.books.leases[lease].settled
  }

  /** Retiring a lease moves the excess by precisely what it was used and not charged. */
  lemma RetireMovesExcess(w: World, step: Step)
    requires Inv(w) && (step.Release? || step.Reap?) && Enabled(w, step)
    ensures Inv(Apply(w, step))
    ensures w.books.leases[step.lease].state == Active ==>
      && Excess(Apply(w, step)) == Excess(w) + w.local[step.lease].Used() - w.books.leases[step.lease].settled
      && (Excess(Apply(w, step)) == Excess(w) <==> Even(w, step.lease))
    ensures w.books.leases[step.lease].state != Active ==> Excess(Apply(w, step)) == Excess(w)
  {
    RetireKeepsInv(w, step);
    var after := Apply(w, step);
    var i := step.lease;
    var account := Account(after.local[i], after.books.leases[i]);
    assert Accounts(after) == Accounts(w)[i := account];
    SumUpdate(Accounts(w), i, account, Orphaned);
  }

  /** The condition a run has to keep: clocks within the skew, and no lease retired uneven. */
  ghost predicate Disciplined(w: World, step: Step)
    requires Inv(w) && Enabled(w, step)
  {
    match step
    case Release(_, lease) => w.books.leases[lease].state == Active ==> Even(w, lease)
    case Reap(lease) => Even(w, lease)
    case Tick(clock, clocks) => forall p :: 0 <= p < |clocks| ==> -w.skew <= clocks[p] - clock <= w.skew
    case _ => true
  }

  ghost predicate DisciplinedRun(w: World, steps: seq<Step>)
    requires Inv(w)
    decreases |steps|
  {
    steps == [] || !Enabled(w, steps[0])
    || (Disciplined(w, steps[0])
        && Inv(Apply(w, steps[0])) && DisciplinedRun(Apply(w, steps[0]), steps[1..]))
  }

  /** A retired lease is even, and cannot be spent from again. */
  ghost predicate Shut(a: Account, clock: int) {
    match a.row.state
    case Active => true
    case Released => Orphaned(a) == 0 && a.view.state == Released
    case Expired => Orphaned(a) == 0 && a.view.expiresAt + SKEW_ALLOWANCE < clock
    case Revoked => false
  }

  ghost predicate NothingOrphaned(w: World) {
    && Inv(w)
    && (forall p :: 0 <= p < |w.peps| ==> -w.skew <= w.peps[p].clock - w.clock <= w.skew)
    && (forall i :: 0 <= i < |w.local| ==> Shut(Account(w.local[i], w.books.leases[i]), w.clock))
  }

  lemma ReserveFromOpenLease(w: World, step: Step)
    requires NothingOrphaned(w) && step.Reserve? && Enabled(w, step)
    ensures w.books.leases[w.peps[step.pep].current.value].state == Active
  {
    var lease := w.peps[step.pep].current.value;
    assert Shut(Account(w.local[lease], w.books.leases[lease]), w.clock);
  }

  ghost predicate AllShut(w: World)
    requires |w.local| == |w.books.leases|
  {
    forall i :: 0 <= i < |w.local| ==> Shut(Account(w.local[i], w.books.leases[i]), w.clock)
  }

  lemma FlushKeepsShut(w: World, step: Step)
    requires NothingOrphaned(w) && step.Flush? && Enabled(w, step)
    requires Inv(Apply(w, step))
    ensures AllShut(Apply(w, step))
  {
    var queue := w.peps[step.pep].queue;
    CommitBatchSound(w.books, queue[0].leaseId, Part(Items(queue[..step.count]), step.mask));
    forall i | 0 <= i < |w.local|
      ensures Shut(Account(w.local[i], Apply(w, step).books.leases[i]), w.clock)
    {
      assert Shut(Account(w.local[i], w.books.leases[i]), w.clock);
    }
  }

  lemma LocalStepKeepsShut(w: World, step: Step)
    requires NothingOrphaned(w) && Enabled(w, step) && Disciplined(w, step)
    requires !step.Flush? && !step.Release? && !step.Reap?
    requires Inv(Apply(w, step))
    ensures AllShut(Apply(w, step))
  {
    var after := Apply(w, step);
    if step.Reserve? {
      ReserveFromOpenLease(w, step);
    }
    forall i | 0 <= i < |after.local|
      ensures Shut(Account(after.local[i], after.books.leases[i]), after.clock)
    {
      if i < |w.local| {
        assert Shut(Account(w.local[i], w.books.leases[i]), w.clock);
      }
    }
  }

  lemma EvenRetireKeepsShut(w: World, step: Step)
    requires NothingOrphaned(w) && Enabled(w, step) && Disciplined(w, step)
    requires step.Release? || step.Reap?
    requires Inv(Apply(w, step))
    ensures AllShut(Apply(w, step))
  {
    var after := Apply(w, step);
    if step.Release? {
      assert PepOk(w.peps[step.pep], w.local);
    }
    forall i | 0 <= i < |after.local|
      ensures Shut(Account(after.local[i], after.books.leases[i]), after.clock)
    {
      assert Shut(Account(w.local[i], w.books.leases[i]), w.clock);
    }
  }

  lemma StepOrphansNothing(w: World, step: Step)
    requires NothingOrphaned(w) && Enabled(w, step) && Disciplined(w, step)
    ensures NothingOrphaned(Apply(w, step))
  {
    StepKeepsInv(w, step);
    if step.Flush? {
      FlushKeepsShut(w, step);
    } else if step.Release? || step.Reap? {
      EvenRetireKeepsShut(w, step);
    } else {
      LocalStepKeepsShut(w, step);
    }
    ClocksStayClose(w, step);
  }

  lemma ClocksStayClose(w: World, step: Step)
    requires NothingOrphaned(w) && Enabled(w, step) && Disciplined(w, step)
    ensures
      var after := Apply(w, step);
      forall p :: 0 <= p < |after.peps| ==> -w.skew <= after.peps[p].clock - after.clock <= w.skew
    ensures Apply(w, step).skew == w.skew
  {
  }

  lemma {:induction false} DisciplinedRunOrphansNothing(w: World, steps: seq<Step>)
    requires NothingOrphaned(w) && Exec(w, steps).Some? && DisciplinedRun(w, steps)
    ensures NothingOrphaned(Exec(w, steps).value)
    ensures Exec(w, steps).value.books.total == w.books.total
    decreases |steps|
  {
    if steps != [] {
      StepOrphansNothing(w, steps[0]);
      StepKeepsBudget(w, steps[0]);
      DisciplinedRunOrphansNothing(Apply(w, steps[0]), steps[1..]);
    }
  }

  /**
   With clocks within the skew and every retired lease even, nothing is ever overspent, not
   even counting reservations still in flight.
   */
  lemma NoOverspend(total: int, peps: nat, skew: int, steps: seq<Step>)
    requires 0 <= total && 0 <= skew
    requires Inv(Start(total, peps, skew)) && DisciplinedRun(Start(total, peps, skew), steps)
    requires Exec(Start(total, peps, skew), steps).Some?
    ensures
      var w := Exec(Start(total, peps, skew), steps).value;
      w.spent + Sum(w.inFlight, AmountOf) <= total
  {
    DisciplinedRunOrphansNothing(Start(total, peps, skew), steps);
    var w := Exec(Start(total, peps, skew), steps).value;
    forall a | a in Accounts(w)
      ensures Orphaned(a) == 0
    {
      var i :| 0 <= i < |Accounts(w)| && Accounts(w)[i] == a;
      assert Shut(Account(w.local[i], w.books.leases[i]), w.clock);
    }
    SumZero(Accounts(w), Orphaned);
    SpentBounded(w);
  }
}
