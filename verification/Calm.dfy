/**
 A discipline under which nothing is overspent: a lease is replaced or closed only with no
 call in flight, no settlement is dropped, and a lease is retired only when no queue and no
 call still refers to it.
 */
module Calm {
  import opened Sums
  import opened Wrappers

  import opened Lease
  import opened Ledger
  import opened Overspend
  import S = Settlement

  // ------------------------------------------------------------------------------------
  // What a queue still owes a lease
  // ------------------------------------------------------------------------------------

  function OwedFor(i: nat, applied: set<nat>): S.Pending -> int {
    (e: S.Pending) => if e.leaseId == i && e.reservationId !in applied then e.amount else 0
  }

  function Owed(queue: seq<S.Pending>, i: nat, applied: set<nat>): int { Sum(queue, OwedFor(i, applied)) }

  function PepOwes(i: nat, applied: set<nat>): Pep -> int { (pep: Pep) => Owed(pep.queue, i, applied) }

  function TakenFrom(i: nat): Taken -> int {
    (t: Taken) => if t.reservation.leaseId == i then t.reservation.amount else 0
  }

  /** Use of a lease is what the ledger charged, what queues still carry, and what is in flight. */
  ghost predicate Balanced(w: World, i: nat)
    requires i < |w.local| == |w.books.leases|
  {
    w.local[i].Used() == w.books.leases[i].settled + Sum(w.peps, PepOwes(i, w.books.reservations.Keys))
                         + Sum(w.inFlight, TakenFrom(i))
  }

  /** Reservation ids are never reused: in a call, in one queue entry, or applied. */
  ghost predicate IdsApart(w: World) {
    && (forall k :: 0 <= k < |w.inFlight| ==> w.inFlight[k].reservation.id < w.nextId)
    && (forall k, l :: 0 <= k < l < |w.inFlight| ==> w.inFlight[k].reservation.id != w.inFlight[l].reservation.id)
    && (forall k :: 0 <= k < |w.inFlight| ==> w.inFlight[k].reservation.id !in w.books.reservations)
    && (forall x :: x in w.books.reservations ==> x < w.nextId)
    && (forall p, k :: 0 <= p < |w.peps| && 0 <= k < |w.peps[p].queue| ==>
         && 0 <= w.peps[p].queue[k].amount
         && w.peps[p].queue[k].reservationId < w.nextId)
  }

  ghost predicate CallsNotQueued(w: World) {
    forall p, k, l :: 0 <= p < |w.peps| && 0 <= k < |w.peps[p].queue| && 0 <= l < |w.inFlight| ==>
      w.peps[p].queue[k].reservationId != w.inFlight[l].reservation.id
  }

  ghost predicate QueuesApart(w: World) {
    && (forall p, k, l :: 0 <= p < |w.peps| && 0 <= k < l < |w.peps[p].queue| ==>
         w.peps[p].queue[k].reservationId != w.peps[p].queue[l].reservationId)
    && (forall p, q, k, l :: 0 <= p < q < |w.peps| && 0 <= k < |w.peps[p].queue| && 0 <= l < |w.peps[q].queue| ==>
         w.peps[p].queue[k].reservationId != w.peps[q].queue[l].reservationId)
  }

  /** A call in flight was reserved from the lease its process holds now. */
  ghost predicate CallsOnCurrent(w: World) {
    forall k :: 0 <= k < |w.inFlight| ==>
      && w.inFlight[k].pep < |w.peps|
      && w.peps[w.inFlight[k].pep].current == Some(w.inFlight[k].reservation.leaseId)
  }

  ghost predicate OpenBalanced(w: World)
    requires |w.local| == |w.books.leases|
  {
    forall i :: 0 <= i < |w.local| && w.books.leases[i].state == Active ==> Balanced(w, i)
  }

  ghost predicate CalmInv(w: World) {
    && Inv(w) && IdsApart(w) && CallsNotQueued(w) && QueuesApart(w) && CallsOnCurrent(w) && OpenBalanced(w)
  }

  // ------------------------------------------------------------------------------------
  // The discipline
  // ------------------------------------------------------------------------------------

  ghost predicate Idle(w: World, p: nat) { forall k :: 0 <= k < |w.inFlight| ==> w.inFlight[k].pep != p }

  /** No call and no queued settlement refers to the lease. */
  ghost predicate Unreferenced(w: World, lease: nat) {
    && (forall k :: 0 <= k < |w.inFlight| ==> w.inFlight[k].reservation.leaseId != lease)
    && (forall p, k :: 0 <= p < |w.peps| && 0 <= k < |w.peps[p].queue| ==> w.peps[p].queue[k].leaseId != lease)
  }

  ghost predicate CalmStep(w: World, step: Step) {
    match step
    case Install(p, _) => Idle(w, p)
    case Close(p) => Idle(w, p)
    case Settle(_, queued) => queued
    case Release(_, lease) => Unreferenced(w, lease)
    case Reap(lease) => Unreferenced(w, lease)
    case Tick(clock, clocks) => forall p :: 0 <= p < |clocks| ==> -w.skew <= clocks[p] - clock <= w.skew
    case _ => true
  }

  lemma NothingOwed(w: World, i: nat)
    requires Unreferenced(w, i)
    ensures Sum(w.peps, PepOwes(i, w.books.reservations.Keys)) == 0 && Sum(w.inFlight, TakenFrom(i)) == 0
  {
    var applied := w.books.reservations.Keys;
    forall pep | pep in w.peps
      ensures PepOwes(i, applied)(pep) == 0
    {
      var p :| 0 <= p < |w.peps| && w.peps[p] == pep;
      forall e | e in pep.queue
        ensures OwedFor(i, applied)(e) == 0
      {
        var k :| 0 <= k < |pep.queue| && pep.queue[k] == e;
        assert w.peps[p].queue[k].leaseId != i;
      }
      SumZero(pep.queue, OwedFor(i, applied));
    }
    SumZero(w.peps, PepOwes(i, applied));
    forall t | t in w.inFlight
      ensures TakenFrom(i)(t) == 0
    {
      var k :| 0 <= k < |w.inFlight| && w.inFlight[k] == t;
    }
    SumZero(w.inFlight, TakenFrom(i));
  }

  /** An open lease nothing refers to has been charged for exactly what was used of it. */
  lemma UnreferencedIsEven(w: World, lease: nat)
    requires CalmInv(w) && lease < |w.local| && w.books.leases[lease].state == Active && Unreferenced(w, lease)
    ensures Even(w, lease)
  {
    NothingOwed(w, lease);
    assert Balanced(w, lease);
  }

  lemma CalmIsDisciplined(w: World, step: Step)
    requires CalmInv(w) && Enabled(w, step) && CalmStep(w, step)
    ensures Disciplined(w, step)
  {
    if step.Release? && w.books.leases[step.lease].state == Active {
      UnreferencedIsEven(w, step.lease);
    }
    if step.Reap? {
      UnreferencedIsEven(w, step.lease);
    }
  }

  // ------------------------------------------------------------------------------------
  // A batch that fits is charged in full
  // ------------------------------------------------------------------------------------

  /** The ids a batch gets recorded: positive amounts, the first time. */
  function Recorded(items: seq<Item>): (r: set<nat>) {
    if items == [] then {}
    else (if items[0].amount > 0 then {items[0].reservationId} else {}) + Recorded(items[1..])
  }

  lemma {:induction false} FittingSingly(b: Books, id: nat, items: seq<Item>)
    requires id < |b.leases| && DistinctIds(items) && Need(b, items) <= b.leases[id].Outstanding()
    ensures
      var after := CommitSingly(b, id, items);
      && after.leases[id].settled == b.leases[id].settled + Need(b, items)
      && after.reservations.Keys == b.reservations.Keys + Recorded(items)
    decreases |items|
  {
    if items != [] {
      var one := CommitOne(b, id, items[0]).0;
      NeedNonNegative(b, items[1..]);
      NeedAfterOne(b, id, items[0], items[1..]);
      FittingSingly(one, id, items[1..]);
      assert one.reservations.Keys == b.reservations.Keys + (if items[0].amount > 0 then {items[0].reservationId} else {});
    }
  }

  /** Distinct settlements that fit what is outstanding are charged in full and recorded once. */
  lemma FittingBatch(b: Books, id: nat, items: seq<Item>)
    requires id < |b.leases| && b.leases[id].state == Active
    requires DistinctIds(items) && Need(b, items) <= b.leases[id].Outstanding()
    ensures
      var after := CommitBatch(b, id, items).0;
      && after.leases[id].settled == b.leases[id].settled + Need(b, items)
      && after.reservations.Keys == b.reservations.Keys + Recorded(items)
  {
    DistinctIsSingly(b, id, items);
    FittingSingly(b, id, items);
  }

  // ------------------------------------------------------------------------------------
  // Every calm step keeps the balance
  // ------------------------------------------------------------------------------------

  /** Nothing that settlements pass through has changed. */
  ghost predicate SameTraffic(w: World, z: World) {
    && z.inFlight == w.inFlight && z.nextId == w.nextId && z.books.reservations == w.books.reservations
    && |z.peps| == |w.peps| && forall p :: 0 <= p < |w.peps| ==> z.peps[p].queue == w.peps[p].queue
  }

  lemma SameTrafficKeepsIds(w: World, z: World)
    requires SameTraffic(w, z) && IdsApart(w) && CallsNotQueued(w) && QueuesApart(w)
    ensures IdsApart(z) && CallsNotQueued(z) && QueuesApart(z)
  {
  }

  lemma SameQueuesOwe(w: World, z: World, i: nat, applied: set<nat>)
    requires |z.peps| == |w.peps| && forall p :: 0 <= p < |w.peps| ==> z.peps[p].queue == w.peps[p].queue
    ensures Sum(z.peps, PepOwes(i, applied)) == Sum(w.peps, PepOwes(i, applied))
  {
    SumAlong(z.peps, w.peps, PepOwes(i, applied), PepOwes(i, applied));
  }

  lemma SameTrafficKeepsBalance(w: World, z: World, i: nat)
    requires |w.local| == |w.books.leases| && |z.local| == |z.books.leases| && i < |w.local| && i < |z.local|
    requires SameTraffic(w, z) && Balanced(w, i)
    requires z.local[i].Used() == w.local[i].Used() && z.books.leases[i].settled == w.books.leases[i].settled
    ensures Balanced(z, i)
  {
    SameQueuesOwe(w, z, i, w.books.reservations.Keys);
  }

  /** A lease just granted is in nobody's queue and under no call. */
  lemma NewLeaseUnreferenced(w: World)
    requires Inv(w) && CallsOnCurrent(w)
    ensures Unreferenced(w, |w.local|)
  {
    forall k | 0 <= k < |w.inFlight|
      ensures w.inFlight[k].reservation.leaseId != |w.local|
    {
      assert PepOk(w.peps[w.inFlight[k].pep], w.local);
    }
    forall p, k | 0 <= p < |w.peps| && 0 <= k < |w.peps[p].queue|
      ensures w.peps[p].queue[k].leaseId != |w.local|
    {
      assert PepOk(w.peps[p], w.local);
    }
  }

  lemma AcquireKeepsCalm(w: World, step: Step)
    requires CalmInv(w) && step.Acquire? && Enabled(w, step)
    ensures CalmInv(Apply(w, step))
  {
    hide Balanced, Unreferenced, Inv, IdsApart, CallsNotQueued, QueuesApart;
    var z := Apply(w, step);
    StepKeepsInv(w, step);
    assert SameTraffic(w, z);
    SameTrafficKeepsIds(w, z);
    assert Matched(w) && Matched(z) by {
      InvMatched(w);
      InvMatched(z);
    }
    if z != w {
      forall i | 0 <= i < |z.local| && z.books.leases[i].state == Active
        ensures Balanced(z, i)
      {
        if i < |w.local| {
          SameTrafficKeepsBalance(w, z, i);
        } else {
          NewLeaseUnreferenced(w);
          NewLeaseBalanced(w, z);
        }
      }
    }
  }

  lemma InvMatched(w: World)
    requires Inv(w)
    ensures Matched(w)
  {
  }

  lemma NewLeaseBalanced(w: World, z: World)
    requires |z.local| == |z.books.leases| == |w.local| + 1 && SameTraffic(w, z) && Unreferenced(w, |w.local|)
    requires z.local[|w.local|].Used() == 0 && z.books.leases[|w.local|].settled == 0
    ensures Balanced(z, |w.local|)
  {
    NothingOwed(w, |w.local|);
    SameQueuesOwe(w, z, |w.local|, w.books.reservations.Keys);
  }

  lemma QuietKeepsCalm(w: World, step: Step)
    requires CalmInv(w) && Enabled(w, step) && CalmStep(w, step)
    requires step.Install? || step.Close? || step.Release? || step.Reap? || step.Crash? || step.Tick?
    ensures CalmInv(Apply(w, step))
  {
    hide Balanced, Unreferenced, Inv, IdsApart, CallsNotQueued, QueuesApart;
    var z := Apply(w, step);
    StepKeepsInv(w, step);
    assert SameTraffic(w, z);
    SameTrafficKeepsIds(w, z);
    InvMatched(w);
    InvMatched(z);
    forall i | 0 <= i < |z.local| && z.books.leases[i].state == Active
      ensures Balanced(z, i)
    {
      SameTrafficKeepsBalance(w, z, i);
    }
  }

  lemma ReserveKeepsCalm(w: World, step: Step)
    requires CalmInv(w) && step.Reserve? && Enabled(w, step)
    ensures CalmInv(Apply(w, step))
  {
    hide Inv;
    var z := Apply(w, step);
    StepKeepsInv(w, step);
    InvMatched(w);
    InvMatched(z);
    var lease := w.peps[step.pep].current.value;
    var taken := Taken(step.pep, Reservation(w.nextId, lease, step.amount));
    forall i | 0 <= i < |z.local| && z.books.leases[i].state == Active
      ensures Balanced(z, i)
    {
      assert Balanced(w, i);
      SumAppend(w.inFlight, [taken], TakenFrom(i));
      SumOne(taken, TakenFrom(i));
    }
  }

  /** What settling a call does: the call leaves, one entry joins its process's queue. */
  ghost predicate SettleShape(w: World, z: World, k: nat, entry: S.Pending) {
    && k < |w.inFlight| && w.inFlight[k].pep < |w.peps|
    && entry.reservationId == w.inFlight[k].reservation.id && entry.amount == w.inFlight[k].reservation.amount
    && entry.leaseId == w.inFlight[k].reservation.leaseId
    && z.inFlight == w.inFlight[..k] + w.inFlight[k + 1..]
    && z.peps == w.peps[w.inFlight[k].pep := w.peps[w.inFlight[k].pep].(queue := w.peps[w.inFlight[k].pep].queue + [entry])]
    && z.books == w.books && z.local == w.local && z.nextId == w.nextId
  }

  lemma SettleHasShape(w: World, step: Step) returns (entry: S.Pending)
    requires CallsOnCurrent(w) && step.Settle? && Enabled(w, step) && CalmStep(w, step)
    ensures SettleShape(w, Apply(w, step), step.taken, entry)
  {
    var t := w.inFlight[step.taken];
    var pep := w.peps[t.pep];
    entry := S.Pending(pep.current.value, t.reservation.id, t.reservation.amount, pep.clock);
    assert w.local[pep.current.value := w.local[pep.current.value]] == w.local;
  }

  lemma SettleBalances(w: World, z: World, k: nat, entry: S.Pending, i: nat)
    requires SettleShape(w, z, k, entry) && |w.local| == |w.books.leases| && i < |w.local| && Balanced(w, i)
    requires IdsApart(w)
    ensures Balanced(z, i)
  {
    var t := w.inFlight[k];
    var pep, applied := w.peps[t.pep], w.books.reservations.Keys;
    assert OwedFor(i, applied)(entry) == TakenFrom(i)(t);
    SumRemove(w.inFlight, k, TakenFrom(i));
    SumUpdate(w.peps, t.pep, pep.(queue := pep.queue + [entry]), PepOwes(i, applied));
    SumAppend(pep.queue, [entry], OwedFor(i, applied));
    SumOne(entry, OwedFor(i, applied));
  }

  lemma SettleKeepsIds(w: World, z: World, k: nat, entry: S.Pending)
    requires SettleShape(w, z, k, entry) && IdsApart(w) && CallsNotQueued(w)
    requires 0 <= entry.amount
    ensures IdsApart(z)
  {
    assert forall l :: 0 <= l < |z.inFlight| ==> z.inFlight[l] == (if l < k then w.inFlight[l] else w.inFlight[l + 1]);
  }

  lemma SettleKeepsCallsNotQueued(w: World, z: World, k: nat, entry: S.Pending)
    requires SettleShape(w, z, k, entry) && IdsApart(w) && CallsNotQueued(w)
    ensures CallsNotQueued(z)
  {
    assert forall l :: 0 <= l < |z.inFlight| ==> z.inFlight[l] == (if l < k then w.inFlight[l] else w.inFlight[l + 1]);
    forall p, j, l | 0 <= p < |z.peps| && 0 <= j < |z.peps[p].queue| && 0 <= l < |z.inFlight|
      ensures z.peps[p].queue[j].reservationId != z.inFlight[l].reservation.id
    {
      if j < |w.peps[p].queue| {
        assert z.peps[p].queue[j] == w.peps[p].queue[j];
      }
    }
  }

  lemma SettleKeepsQueuesApart(w: World, z: World, k: nat, entry: S.Pending)
    requires SettleShape(w, z, k, entry) && QueuesApart(w) && CallsNotQueued(w)
    ensures QueuesApart(z)
  {
    forall p, j | 0 <= p < |z.peps| && 0 <= j < |z.peps[p].queue|
      ensures z.peps[p].queue[j] == if j < |w.peps[p].queue| then w.peps[p].queue[j] else entry
      ensures j < |w.peps[p].queue| ==> z.peps[p].queue[j].reservationId != entry.reservationId
      ensures j >= |w.peps[p].queue| ==> p == w.inFlight[k].pep && j == |w.peps[p].queue|
    {
    }
  }

  lemma SettleKeepsCurrent(w: World, z: World, k: nat, entry: S.Pending)
    requires SettleShape(w, z, k, entry) && CallsOnCurrent(w)
    ensures CallsOnCurrent(z)
  {
    assert forall l :: 0 <= l < |z.inFlight| ==> z.inFlight[l] == (if l < k then w.inFlight[l] else w.inFlight[l + 1]);
  }

  lemma SettleKeepsCalm(w: World, step: Step)
    requires CalmInv(w) && step.Settle? && Enabled(w, step) && CalmStep(w, step)
    ensures CalmInv(Apply(w, step))
  {
    hide Balanced, IdsApart, CallsNotQueued, QueuesApart, CallsOnCurrent, Apply, Enabled, Sound, Matched, Indexed;
    var z := Apply(w, step);
    StepKeepsInv(w, step);
    var entry := SettleHasShape(w, step);
    SettleKeepsIds(w, z, step.taken, entry);
    SettleKeepsCallsNotQueued(w, z, step.taken, entry);
    SettleKeepsQueuesApart(w, z, step.taken, entry);
    SettleKeepsCurrent(w, z, step.taken, entry);
    InvMatched(w);
    SameLengths(w);
    forall i | 0 <= i < |z.local| && z.books.leases[i].state == Active
      ensures Balanced(z, i)
    {
      SettleBalances(w, z, step.taken, entry, i);
    }
  }

  lemma SameLengths(w: World)
    requires Matched(w)
    ensures |w.local| == |w.books.leases|
  {
  }

  // ------------------------------------------------------------------------------------
  // Flushing
  // ------------------------------------------------------------------------------------

  lemma {:induction false} SumAtLeast<T>(s: seq<T>, i: nat, f: T -> int)
    requires i < |s| && forall x :: x in s ==> 0 <= f(x)
    ensures f(s[i]) <= Sum(s, f)
  {
    var rest := s[..i] + s[i + 1..];
    SumRemove(s, i, f);
    assert forall x :: x in rest ==> x in s;
    SumMonotone(rest, (x: T) => 0, f);
    SumZero(rest, (x: T) => 0);
  }

  lemma OwedNonNegative(queue: seq<S.Pending>, i: nat, applied: set<nat>)
    requires forall k :: 0 <= k < |queue| ==> 0 <= queue[k].amount
    ensures 0 <= Owed(queue, i, applied)
  {
    SumMonotone(queue, (e: S.Pending) => 0, OwedFor(i, applied));
    SumZero(queue, (e: S.Pending) => 0);
  }

  lemma OwedSplits(queue: seq<S.Pending>, n: nat, i: nat, applied: set<nat>)
    requires n <= |queue|
    ensures Owed(queue, i, applied) == Owed(queue[..n], i, applied) + Owed(queue[n..], i, applied)
  {
    assert queue == queue[..n] + queue[n..];
    SumAppend(queue[..n], queue[n..], OwedFor(i, applied));
  }

  /** What is recorded elsewhere changes nothing owed here. */
  lemma OwedUnmoved(queue: seq<S.Pending>, i: nat, applied: set<nat>, after: set<nat>)
    requires forall k :: 0 <= k < |queue| && queue[k].leaseId == i ==>
      (queue[k].reservationId in applied <==> queue[k].reservationId in after)
    ensures Owed(queue, i, applied) == Owed(queue, i, after)
  {
    SumAlong(queue, queue, OwedFor(i, applied), OwedFor(i, after));
  }

  lemma OwedToAnother(queue: seq<S.Pending>, i: nat, applied: set<nat>)
    requires forall k :: 0 <= k < |queue| ==> queue[k].leaseId != i
    ensures Owed(queue, i, applied) == 0
  {
    SumZero(queue, OwedFor(i, applied));
  }

  /** The entries of a batch that a mask selects are recorded, and no others of it. */
  ghost predicate RecordsMasked(batch: seq<S.Pending>, mask: seq<bool>, applied: set<nat>, after: set<nat>)
    requires |mask| == |batch|
  {
    forall k :: 0 <= k < |batch| ==>
      (batch[k].reservationId in after <==> batch[k].reservationId in applied || (mask[k] && batch[k].amount > 0))
  }

  lemma OwedFromHead(queue: seq<S.Pending>, i: nat, applied: set<nat>)
    requires queue != []
    ensures Owed(queue, i, applied) == OwedFor(i, applied)(queue[0]) + Owed(queue[1..], i, applied)
  {
    assert queue == [queue[0]] + queue[1..];
    SumAppend([queue[0]], queue[1..], OwedFor(i, applied));
    SumOne(queue[0], OwedFor(i, applied));
  }

  lemma NothingQueued(i: nat, applied: set<nat>)
    ensures Owed([], i, applied) == 0
  {
  }

  /** Recording part of a batch lowers what the batch owes by exactly what the part needed. */
  lemma {:induction false} BatchOwesLess(
    b: Books, batch: seq<S.Pending>, mask: seq<bool>, lease: nat, after: set<nat>)
    requires |mask| == |batch| && S.OneLease(batch, lease)
    requires forall k :: 0 <= k < |batch| ==> 0 <= batch[k].amount
    requires RecordsMasked(batch, mask, b.reservations.Keys, after)
    ensures Owed(batch, lease, after) == Owed(batch, lease, b.reservations.Keys) - Need(b, Part(S.Items(batch), mask))
    decreases |batch|
  {
    hide Sum, Owed;
    var applied := b.reservations.Keys;
    if batch == [] {
      NothingQueued(lease, applied);
      NothingQueued(lease, after);
    } else {
      var head, rest := batch[0], batch[1..];
      assert S.Items(batch)[1..] == S.Items(rest);
      assert forall k :: 0 <= k < |rest| ==> rest[k] == batch[k + 1] && mask[1..][k] == mask[k + 1];
      BatchOwesLess(b, rest, mask[1..], lease, after);
      OwedFromHead(batch, lease, applied);
      OwedFromHead(batch, lease, after);
      var item, part := S.Items(batch)[0], Part(S.Items(rest), mask[1..]);
      assert ([item] + part)[1..] == part && [] + part == part;
    }
  }

  lemma {:induction false} AllMaskedOwesNothing(batch: seq<S.Pending>, lease: nat, after: set<nat>)
    requires forall k :: 0 <= k < |batch| ==> batch[k].amount <= 0 || batch[k].reservationId in after
    requires forall k :: 0 <= k < |batch| ==> 0 <= batch[k].amount
    ensures Owed(batch, lease, after) == 0
  {
    SumZero(batch, OwedFor(lease, after));
  }

  ghost predicate Picked(items: seq<Item>, mask: seq<bool>, x: nat)
    requires |mask| == |items|
  {
    exists k :: 0 <= k < |items| && mask[k] && items[k].amount > 0 && items[k].reservationId == x
  }

  lemma PickedStep(items: seq<Item>, mask: seq<bool>, x: nat)
    requires |mask| == |items| && items != []
    ensures Picked(items, mask, x) <==>
      (mask[0] && items[0].amount > 0 && items[0].reservationId == x) || Picked(items[1..], mask[1..], x)
  {
    var rest, more := items[1..], mask[1..];
    if Picked(items, mask, x) {
      var k :| 0 <= k < |items| && mask[k] && items[k].amount > 0 && items[k].reservationId == x;
      assert k > 0 ==> rest[k - 1] == items[k] && more[k - 1] == mask[k];
    }
    if Picked(rest, more, x) {
      var k :| 0 <= k < |rest| && more[k] && rest[k].amount > 0 && rest[k].reservationId == x;
      assert items[k + 1] == rest[k] && mask[k + 1] == more[k];
    }
  }

  lemma {:induction false} PartRecords(items: seq<Item>, mask: seq<bool>, x: nat)
    requires |mask| == |items|
    ensures x in Recorded(Part(items, mask)) <==> Picked(items, mask, x)
  {
    hide Picked;
    if items == [] {
      NothingPicked(mask, x);
    } else {
      PickedStep(items, mask, x);
      PartRecords(items[1..], mask[1..], x);
      var part := Part(items[1..], mask[1..]);
      assert ([items[0]] + part)[1..] == part && [] + part == part;
    }
  }

  lemma NothingPicked(mask: seq<bool>, x: nat)
    requires mask == []
    ensures !Picked([], mask, x)
  {
  }

  // -- the flush itself ----------------------------------------------------------------------

  /** What a flush of the first `n` entries leaves: a shorter queue or the same, and the ids now recorded. */
  ghost predicate FlushShape(w: World, z: World, p: nat, n: nat, mask: seq<bool>, answered: bool) {
    && p < |w.peps| && 0 < n <= |w.peps[p].queue| && |mask| == n && |z.peps| == |w.peps|
    && (answered ==> forall k :: 0 <= k < n ==> mask[k])
    && S.OneLease(w.peps[p].queue[..n], w.peps[p].queue[0].leaseId)
    && z.inFlight == w.inFlight && z.nextId == w.nextId && z.local == w.local
    && |z.books.leases| == |w.books.leases|
    && (forall q :: 0 <= q < |w.peps| && q != p ==> z.peps[q] == w.peps[q])
    && z.peps[p] == w.peps[p].(queue := if answered then w.peps[p].queue[n..] else w.peps[p].queue)
  }

  /** The ledger's half of it, for a lease still open: charged in full, each id recorded. */
  ghost predicate ChargedInFull(w: World, z: World, lease: nat, batch: seq<S.Pending>, mask: seq<bool>)
    requires |mask| == |batch| && lease < |w.books.leases| == |z.books.leases|
  {
    && z.books.leases[lease].settled == w.books.leases[lease].settled + Need(w.books, Part(S.Items(batch), mask))
    && (forall j :: 0 <= j < |w.books.leases| && j != lease ==> z.books.leases[j] == w.books.leases[j])
    && z.books.leases[lease].state == w.books.leases[lease].state
    && z.books.reservations.Keys == w.books.reservations.Keys + Recorded(Part(S.Items(batch), mask))
  }

  lemma BatchIdsDistinct(w: World, p: nat, n: nat)
    requires QueuesApart(w) && p < |w.peps| && n <= |w.peps[p].queue|
    ensures DistinctIds(S.Items(w.peps[p].queue[..n]))
  {
    var batch := w.peps[p].queue[..n];
    assert forall k :: 0 <= k < n ==> S.Items(batch)[k].reservationId == w.peps[p].queue[k].reservationId;
  }

  lemma {:induction false} NeedIsOwed(b: Books, batch: seq<S.Pending>, lease: nat)
    requires S.OneLease(batch, lease) && forall k :: 0 <= k < |batch| ==> 0 <= batch[k].amount
    ensures Need(b, S.Items(batch)) == Owed(batch, lease, b.reservations.Keys)
    decreases |batch|
  {
    if batch != [] {
      var head, rest := batch[0], batch[1..];
      assert S.Items(batch)[1..] == S.Items(rest);
      assert forall k :: 0 <= k < |rest| ==> rest[k] == batch[k + 1];
      NeedIsOwed(b, rest, lease);
      OwedFromHead(batch, lease, b.reservations.Keys);
    }
  }

  /** By the balance, what an open lease has outstanding covers any batch queued for it. */
  lemma BatchFits(w: World, p: nat, n: nat, lease: nat)
    requires CalmInv(w) && p < |w.peps| && n <= |w.peps[p].queue| && lease < |w.local|
    requires w.books.leases[lease].state == Active && S.OneLease(w.peps[p].queue[..n], lease)
    ensures Need(w.books, S.Items(w.peps[p].queue[..n])) <= w.books.leases[lease].Outstanding()
  {
    hide CallsNotQueued, QueuesApart, CallsOnCurrent, Sound, Indexed;
    var queue, applied := w.peps[p].queue, w.books.reservations.Keys;
    NeedIsOwed(w.books, queue[..n], lease);
    OwedSplits(queue, n, lease, applied);
    OwedNonNegative(queue[n..], lease, applied);
    forall pep | pep in w.peps
      ensures 0 <= PepOwes(lease, applied)(pep)
    {
      var q :| 0 <= q < |w.peps| && w.peps[q] == pep;
      OwedNonNegative(pep.queue, lease, applied);
    }
    SumAtLeast(w.peps, p, PepOwes(lease, applied));
    SumMonotone(w.inFlight, (t: Taken) => 0, TakenFrom(lease));
    SumZero(w.inFlight, (t: Taken) => 0);
    assert Balanced(w, lease);
  }

  lemma FlushHasShape(w: World, step: Step)
    requires CalmInv(w) && step.Flush? && Enabled(w, step)
    ensures FlushShape(w, Apply(w, step), step.pep, step.count, step.mask, step.answered)
  {
    hide IdsApart, CallsNotQueued, QueuesApart, CallsOnCurrent, OpenBalanced, Indexed;
    var queue := w.peps[step.pep].queue;
    CommitBatchSound(w.books, queue[0].leaseId, Part(S.Items(queue[..step.count]), step.mask));
  }

  lemma OpenLeaseCharged(w: World, step: Step)
    requires CalmInv(w) && step.Flush? && Enabled(w, step)
    requires w.books.leases[w.peps[step.pep].queue[0].leaseId].state == Active
    ensures
      var queue := w.peps[step.pep].queue;
      |Apply(w, step).books.leases| == |w.books.leases|
      && ChargedInFull(w, Apply(w, step), queue[0].leaseId, queue[..step.count], step.mask)
  {
    hide IdsApart, CallsNotQueued, CallsOnCurrent, OpenBalanced, Indexed;
    var queue := w.peps[step.pep].queue;
    var lease, items := queue[0].leaseId, S.Items(queue[..step.count]);
    BatchIdsDistinct(w, step.pep, step.count);
    PartDistinct(items, step.mask);
    BatchFits(w, step.pep, step.count, lease);
    NeedOfPart(w.books, items, step.mask);
    FittingBatch(w.books, lease, Part(items, step.mask));
    CommitBatchSound(w.books, lease, Part(items, step.mask));
  }

  lemma ClosedLeaseUntouched(w: World, step: Step)
    requires step.Flush? && Enabled(w, step)
    requires w.books.leases[w.peps[step.pep].queue[0].leaseId].state != Active
    ensures Apply(w, step).books == w.books
  {
  }

  /** The entry at place `k` of queue `q` is recorded now if it was, or is a masked one of the batch. */
  ghost predicate RecordedRightly(w: World, p: nat, n: nat, mask: seq<bool>, after: set<nat>, q: nat, k: nat)
    requires |mask| == n && q < |w.peps| && k < |w.peps[q].queue|
  {
    var e := w.peps[q].queue[k];
    e.reservationId in after <==> e.reservationId in w.books.reservations || (q == p && k < n && mask[k] && e.amount > 0)
  }

  ghost predicate NewlyRecorded(w: World, p: nat, n: nat, mask: seq<bool>, after: set<nat>)
    requires p < |w.peps| && |mask| == n
  {
    forall q, k :: 0 <= q < |w.peps| && 0 <= k < |w.peps[q].queue| ==> RecordedRightly(w, p, n, mask, after, q, k)
  }

  lemma ChargeRecords(w: World, z: World, p: nat, n: nat, mask: seq<bool>, lease: nat)
    requires QueuesApart(w) && p < |w.peps| && n <= |w.peps[p].queue| && |mask| == n
    requires lease < |w.books.leases| == |z.books.leases| && ChargedInFull(w, z, lease, w.peps[p].queue[..n], mask)
    ensures NewlyRecorded(w, p, n, mask, z.books.reservations.Keys)
  {
    var batch := w.peps[p].queue[..n];
    var items := S.Items(batch);
    forall q, k | 0 <= q < |w.peps| && 0 <= k < |w.peps[q].queue|
      ensures RecordedRightly(w, p, n, mask, z.books.reservations.Keys, q, k)
    {
      var x := w.peps[q].queue[k].reservationId;
      PartRecords(items, mask, x);
      if Picked(items, mask, x) {
        var l :| 0 <= l < |items| && mask[l] && items[l].amount > 0 && items[l].reservationId == x;
        assert items[l].reservationId == w.peps[p].queue[l].reservationId;
      }
      if q == p && k < n && mask[k] && w.peps[q].queue[k].amount > 0 {
        assert items[k] == Item(batch[k].reservationId, batch[k].amount);
      }
    }
  }

  /** What the flushing process owes afterwards, in the ids now recorded. */
  lemma FlusherOwes(w: World, p: nat, n: nat, mask: seq<bool>, lease: nat, after: set<nat>, i: nat)
    requires IdsApart(w) && p < |w.peps| && n <= |w.peps[p].queue| && |mask| == n
    requires S.OneLease(w.peps[p].queue[..n], lease) && NewlyRecorded(w, p, n, mask, after)
    ensures
      var queue := w.peps[p].queue;
      Owed(queue, i, after) == Owed(queue, i, w.books.reservations.Keys)
                              - (if i == lease then Need(w.books, Part(S.Items(queue[..n]), mask)) else 0)
  {
    hide S.Items, Need, Part;
    var queue, applied := w.peps[p].queue, w.books.reservations.Keys;
    var batch := queue[..n];
    OwedSplits(queue, n, i, applied);
    OwedSplits(queue, n, i, after);
    forall k | 0 <= k < |queue[n..]|
      ensures queue[n..][k].reservationId in applied <==> queue[n..][k].reservationId in after
    {
      assert RecordedRightly(w, p, n, mask, after, p, n + k);
    }
    OwedUnmoved(queue[n..], i, applied, after);
    if i == lease {
      forall k | 0 <= k < |batch|
        ensures batch[k].reservationId in after <==> batch[k].reservationId in applied || (mask[k] && batch[k].amount > 0)
      {
        assert RecordedRightly(w, p, n, mask, after, p, k);
      }
      BatchOwesLess(w.books, batch, mask, lease, after);
    } else {
      OwedToAnother(batch, i, applied);
      OwedToAnother(batch, i, after);
    }
  }

  lemma OthersOwe(w: World, p: nat, n: nat, mask: seq<bool>, after: set<nat>, i: nat, q: nat)
    requires p < |w.peps| && |mask| == n && NewlyRecorded(w, p, n, mask, after) && q < |w.peps| && q != p
    ensures PepOwes(i, after)(w.peps[q]) == PepOwes(i, w.books.reservations.Keys)(w.peps[q])
  {
    forall k | 0 <= k < |w.peps[q].queue|
      ensures w.peps[q].queue[k].reservationId in w.books.reservations.Keys <==> w.peps[q].queue[k].reservationId in after
    {
      assert RecordedRightly(w, p, n, mask, after, q, k);
    }
    OwedUnmoved(w.peps[q].queue, i, w.books.reservations.Keys, after);
  }

  lemma AllOwe(w: World, p: nat, n: nat, mask: seq<bool>, lease: nat, after: set<nat>, i: nat)
    requires IdsApart(w) && p < |w.peps| && n <= |w.peps[p].queue| && |mask| == n
    requires S.OneLease(w.peps[p].queue[..n], lease) && NewlyRecorded(w, p, n, mask, after)
    ensures Sum(w.peps, PepOwes(i, after)) == Sum(w.peps, PepOwes(i, w.books.reservations.Keys))
              - (if i == lease then Need(w.books, Part(S.Items(w.peps[p].queue[..n]), mask)) else 0)
  {
    hide NewlyRecorded, IdsApart, Need, Part, S.Items;
    var f, g := PepOwes(i, w.books.reservations.Keys), PepOwes(i, after);
    var rest := w.peps[..p] + w.peps[p + 1..];
    SumRemove(w.peps, p, f);
    SumRemove(w.peps, p, g);
    forall k | 0 <= k < |rest|
      ensures f(rest[k]) == g(rest[k])
    {
      OthersOwe(w, p, n, mask, after, i, if k < p then k else k + 1);
    }
    SumAlong(rest, rest, f, g);
    FlusherOwes(w, p, n, mask, lease, after, i);
  }

  /** An answered batch leaves owing nothing to any open lease. */
  lemma DroppedOwesNothing(w: World, z: World, p: nat, n: nat, mask: seq<bool>, answered: bool, after: set<nat>, i: nat)
    requires FlushShape(w, z, p, n, mask, answered) && IdsApart(w)
    requires w.peps[p].queue[0].leaseId != i || NewlyRecorded(w, p, n, mask, after)
    ensures Owed(z.peps[p].queue, i, after) == Owed(w.peps[p].queue, i, after)
  {
    if answered {
      var queue := w.peps[p].queue;
      var batch := queue[..n];
      OwedSplits(queue, n, i, after);
      if queue[0].leaseId == i {
        forall k | 0 <= k < |batch|
          ensures 0 <= batch[k].amount && (batch[k].amount <= 0 || batch[k].reservationId in after)
        {
          assert batch[k] == w.peps[p].queue[k];
          assert RecordedRightly(w, p, n, mask, after, p, k);
        }
        AllMaskedOwesNothing(batch, i, after);
      } else {
        OwedToAnother(batch, i, after);
      }
    }
  }

  lemma FlushedSum(w: World, z: World, p: nat, n: nat, mask: seq<bool>, answered: bool, after: set<nat>, i: nat)
    requires FlushShape(w, z, p, n, mask, answered)
    requires Owed(z.peps[p].queue, i, after) == Owed(w.peps[p].queue, i, after)
    ensures Sum(z.peps, PepOwes(i, after)) == Sum(w.peps, PepOwes(i, after))
  {
    assert z.peps == w.peps[p := z.peps[p]];
    SumUpdate(w.peps, p, z.peps[p], PepOwes(i, after));
  }

  lemma FlushBalances(w: World, step: Step, i: nat)
    requires CalmInv(w) && step.Flush? && Enabled(w, step)
    requires i < |w.local| && w.books.leases[i].state == Active
    ensures |Apply(w, step).local| == |Apply(w, step).books.leases| && i < |Apply(w, step).local|
    ensures Balanced(Apply(w, step), i)
  {
    hide CallsNotQueued, CallsOnCurrent, Sound, Indexed, Need, Part, S.Items, Apply;
    var z, p, n, mask := Apply(w, step), step.pep, step.count, step.mask;
    var lease := w.peps[p].queue[0].leaseId;
    FlushHasShape(w, step);
    assert Balanced(w, i);
    var applied, after := w.books.reservations.Keys, z.books.reservations.Keys;
    if w.books.leases[lease].state == Active {
      OpenLeaseCharged(w, step);
      ChargeRecords(w, z, p, n, mask, lease);
      AllOwe(w, p, n, mask, lease, after, i);
      DroppedOwesNothing(w, z, p, n, mask, step.answered, after, i);
    } else {
      ClosedLeaseUntouched(w, step);
      DroppedOwesNothing(w, z, p, n, mask, step.answered, after, i);
    }
    FlushedSum(w, z, p, n, mask, step.answered, after, i);
  }

  function Moved(p: nat, n: nat, answered: bool, q: nat): nat { if q == p && answered then n else 0 }

  /** Where each remaining entry stood before. */
  ghost predicate StoodAt(w: World, z: World, q: nat, k: nat, from: nat)
    requires q < |z.peps| && k < |z.peps[q].queue|
  {
    q < |w.peps| && from < |w.peps[q].queue| && z.peps[q].queue[k] == w.peps[q].queue[from]
  }

  lemma FlushMoves(w: World, z: World, p: nat, n: nat, mask: seq<bool>, answered: bool, q: nat, k: nat)
    requires FlushShape(w, z, p, n, mask, answered) && q < |z.peps| && k < |z.peps[q].queue|
    ensures StoodAt(w, z, q, k, Moved(p, n, answered, q) + k)
  {
  }

  lemma FlushKeepsCallsNotQueued(w: World, z: World, p: nat, n: nat, mask: seq<bool>, answered: bool)
    requires FlushShape(w, z, p, n, mask, answered) && CallsNotQueued(w)
    ensures CallsNotQueued(z)
  {
    hide FlushShape;
    assert z.inFlight == w.inFlight by {
      ShapeKeepsCalls(w, z, p, n, mask, answered);
    }
    forall q, k, l | 0 <= q < |z.peps| && 0 <= k < |z.peps[q].queue| && 0 <= l < |z.inFlight|
      ensures z.peps[q].queue[k].reservationId != z.inFlight[l].reservation.id
    {
      FlushMoves(w, z, p, n, mask, answered, q, k);
    }
  }

  lemma ShapeKeepsCalls(w: World, z: World, p: nat, n: nat, mask: seq<bool>, answered: bool)
    requires FlushShape(w, z, p, n, mask, answered)
    ensures z.inFlight == w.inFlight
  {
  }

  lemma FlushKeepsQueuesApart(w: World, z: World, p: nat, n: nat, mask: seq<bool>, answered: bool)
    requires FlushShape(w, z, p, n, mask, answered) && QueuesApart(w)
    ensures QueuesApart(z)
  {
    hide FlushShape;
    forall q, k, l | 0 <= q < |z.peps| && 0 <= k < l < |z.peps[q].queue|
      ensures z.peps[q].queue[k].reservationId != z.peps[q].queue[l].reservationId
    {
      FlushMoves(w, z, p, n, mask, answered, q, k);
      FlushMoves(w, z, p, n, mask, answered, q, l);
    }
    forall q, r, k, l | 0 <= q < r < |z.peps| && 0 <= k < |z.peps[q].queue| && 0 <= l < |z.peps[r].queue|
      ensures z.peps[q].queue[k].reservationId != z.peps[r].queue[l].reservationId
    {
      FlushMoves(w, z, p, n, mask, answered, q, k);
      FlushMoves(w, z, p, n, mask, answered, r, l);
    }
  }

  lemma FlushKeepsIds(w: World, z: World, p: nat, n: nat, mask: seq<bool>, answered: bool)
    requires FlushShape(w, z, p, n, mask, answered) && IdsApart(w) && CallsNotQueued(w)
    requires forall x :: x in z.books.reservations ==>
      x in w.books.reservations || exists k :: 0 <= k < n && w.peps[p].queue[k].reservationId == x
    ensures IdsApart(z)
  {
    forall q, k | 0 <= q < |z.peps| && 0 <= k < |z.peps[q].queue|
      ensures 0 <= z.peps[q].queue[k].amount && z.peps[q].queue[k].reservationId < z.nextId
    {
      var off := if q == p && answered then n else 0;
      assert z.peps[q].queue[k] == w.peps[q].queue[off + k];
    }
  }

  lemma FlushRecordsQueued(w: World, step: Step, x: nat)
    requires CalmInv(w) && step.Flush? && Enabled(w, step) && x in Apply(w, step).books.reservations
    ensures x in w.books.reservations
      || exists k :: 0 <= k < step.count && w.peps[step.pep].queue[k].reservationId == x
  {
    hide CallsNotQueued, CallsOnCurrent, Sound, Indexed, Apply, OpenBalanced, QueuesApart, IdsApart;
    var z, p, n := Apply(w, step), step.pep, step.count;
    FlushHasShape(w, step);
    if w.books.leases[w.peps[p].queue[0].leaseId].state == Active {
      OpenLeaseCharged(w, step);
      var items := S.Items(w.peps[p].queue[..n]);
      PartRecords(items, step.mask, x);
      if Picked(items, step.mask, x) {
        var k :| 0 <= k < |items| && step.mask[k] && items[k].amount > 0 && items[k].reservationId == x;
        assert w.peps[p].queue[k].reservationId == x;
      }
    } else {
      ClosedLeaseUntouched(w, step);
    }
  }

  lemma FlushKeepsStates(w: World, step: Step, i: nat)
    requires CalmInv(w) && step.Flush? && Enabled(w, step) && i < |w.books.leases|
    ensures |Apply(w, step).books.leases| == |w.books.leases|
    ensures Apply(w, step).books.leases[i].state == w.books.leases[i].state
  {
    hide CallsNotQueued, CallsOnCurrent, OpenBalanced, QueuesApart, IdsApart, Indexed;
    var queue := w.peps[step.pep].queue;
    CommitBatchSound(w.books, queue[0].leaseId, Part(S.Items(queue[..step.count]), step.mask));
  }

  lemma FlushKeepsCalm(w: World, step: Step)
    requires CalmInv(w) && step.Flush? && Enabled(w, step)
    ensures CalmInv(Apply(w, step))
  {
    hide Balanced, Apply, Enabled, Sound, Matched, Indexed, IdsApart, CallsNotQueued, QueuesApart;
    var z := Apply(w, step);
    StepKeepsInv(w, step);
    FlushHasShape(w, step);
    InvMatched(w);
    InvMatched(z);
    SameLengths(w);
    SameLengths(z);
    FlushKeepsCallsNotQueued(w, z, step.pep, step.count, step.mask, step.answered);
    FlushKeepsQueuesApart(w, z, step.pep, step.count, step.mask, step.answered);
    forall x | x in z.books.reservations
      ensures x in w.books.reservations || exists k :: 0 <= k < step.count && w.peps[step.pep].queue[k].reservationId == x
    {
      FlushRecordsQueued(w, step, x);
    }
    FlushKeepsIds(w, z, step.pep, step.count, step.mask, step.answered);
    forall i | 0 <= i < |z.local| && z.books.leases[i].state == Active
      ensures Balanced(z, i)
    {
      FlushKeepsStates(w, step, i);
      FlushBalances(w, step, i);
    }
  }

  // ------------------------------------------------------------------------------------
  // Calm runs
  // ------------------------------------------------------------------------------------

  lemma StepKeepsCalm(w: World, step: Step)
    requires CalmInv(w) && Enabled(w, step) && CalmStep(w, step)
    ensures CalmInv(Apply(w, step))
  {
    hide CalmInv, Enabled, CalmStep, Apply;
    match step
    case Acquire(_, _, _) => AcquireKeepsCalm(w, step);
    case Reserve(_, _) => ReserveKeepsCalm(w, step);
    case Settle(_, _) => SettleKeepsCalm(w, step);
    case Flush(_, _, _, _) => FlushKeepsCalm(w, step);
    case _ => QuietKeepsCalm(w, step);
  }

  ghost predicate CalmRun(w: World, steps: seq<Step>)
    decreases |steps|
  {
    steps == [] || !Enabled(w, steps[0]) || (CalmStep(w, steps[0]) && CalmRun(Apply(w, steps[0]), steps[1..]))
  }

  lemma {:induction false} CalmRunIsDisciplined(w: World, steps: seq<Step>)
    requires CalmInv(w) && CalmRun(w, steps)
    ensures DisciplinedRun(w, steps)
    decreases |steps|
  {
    hide Apply, Enabled, CalmStep, Disciplined, Matched, Sound, Indexed, IdsApart, CallsNotQueued, QueuesApart, OpenBalanced;
    if steps != [] && Enabled(w, steps[0]) {
      CalmIsDisciplined(w, steps[0]);
      StepKeepsCalm(w, steps[0]);
      CalmRunIsDisciplined(Apply(w, steps[0]), steps[1..]);
    }
  }

  lemma StartCalm(total: int, peps: nat, skew: int)
    requires 0 <= total
    ensures CalmInv(Start(total, peps, skew))
  {
    StartInv(total, peps, skew);
  }

  /**
   Nothing is overspent by any number of enforcement points, however their steps interleave,
   when leases are replaced and closed only with no call in flight, no settlement is dropped,
   leases are retired only once nothing refers to them, and clocks stay within the skew.
   */
  lemma CalmNeverOverspends(total: int, peps: nat, skew: int, steps: seq<Step>)
    requires 0 <= total && 0 <= skew
    requires CalmRun(Start(total, peps, skew), steps) && Exec(Start(total, peps, skew), steps).Some?
    ensures
      var w := Exec(Start(total, peps, skew), steps).value;
      w.spent + Sum(w.inFlight, AmountOf) <= total
  {
    StartCalm(total, peps, skew);
    CalmRunIsDisciplined(Start(total, peps, skew), steps);
    NoOverspend(total, peps, skew, steps);
  }
}
