/**
 Getting settled reservations to the ledger: a bounded queue, one batch in flight at a
 time, and a sink that may apply part of a batch and then lose the answer.
 */
module Settlement {
  import opened Wrappers

  import opened Lease
  import opened Ledger

  datatype Pending = Pending(leaseId: nat, reservationId: nat, amount: int, now: int)

  /** The queue's fields; `capacity` and `batchMax` are its settings. */
  datatype Queue = Queue(
    pending: seq<Pending>, closed: bool, applied: nat, declined: nat, dropped: nat,
    failedAttempts: nat, capacity: nat, batchMax: nat)

  ghost predicate WellSet(q: Queue) { 0 < q.capacity && 0 < q.batchMax && |q.pending| <= q.capacity }

  function Enqueued(q: Queue, p: Pending): (r: Queue) {
    if q.closed || |q.pending| >= q.capacity then q.(dropped := q.dropped + 1)
    else q.(pending := q.pending + [p])
  }

  function RunLength(pending: seq<Pending>, leaseId: nat, max: nat): (n: nat)
    ensures n <= |pending| && n <= max
    ensures forall i :: 0 <= i < n ==> pending[i].leaseId == leaseId
    ensures n == |pending| || n == max || pending[n].leaseId != leaseId
  {
    if pending == [] || max == 0 || pending[0].leaseId != leaseId then 0
    else 1 + RunLength(pending[1..], leaseId, max - 1)
  }

  /** The longest run at the head that shares one lease, up to `batchMax`. */
  function Batch(q: Queue): (batch: seq<Pending>)
    ensures batch <= q.pending
    ensures q.pending != [] && 0 < q.batchMax ==> batch != []
  {
    if q.pending == [] then []
    else q.pending[..RunLength(q.pending, q.pending[0].leaseId, q.batchMax)]
  }

  function Count(verdicts: seq<bool>, which: bool): (n: nat)
    ensures n <= |verdicts|
  {
    if verdicts == [] then 0 else (if verdicts[0] == which then 1 else 0) + Count(verdicts[1..], which)
  }

  lemma {:induction false} CountAppend(xs: seq<bool>, ys: seq<bool>, which: bool)
    ensures Count(xs + ys, which) == Count(xs, which) + Count(ys, which)
  {
    if xs == [] {
      assert xs + ys == ys;
    } else {
      assert (xs + ys)[1..] == xs[1..] + ys;
      CountAppend(xs[1..], ys, which);
    }
  }

  lemma {:induction false} CountIsMultiplicity(verdicts: seq<bool>, which: bool)
    ensures Count(verdicts, which) == multiset(verdicts)[which]
  {
    if verdicts != [] {
      CountIsMultiplicity(verdicts[1..], which);
      assert verdicts == [verdicts[0]] + verdicts[1..];
    }
  }

  lemma {:induction false} CountsPartition(verdicts: seq<bool>)
    ensures Count(verdicts, true) + Count(verdicts, false) == |verdicts|
  {
    if verdicts != [] {
      CountsPartition(verdicts[1..]);
    }
  }

  function Answered(q: Queue, verdicts: seq<bool>): (r: Queue)
    requires |verdicts| <= |q.pending|
  {
    q.(pending := q.pending[|verdicts|..],
       applied := q.applied + Count(verdicts, true),
       declined := q.declined + Count(verdicts, false))
  }

  function Unreachable(q: Queue): (r: Queue) { q.(failedAttempts := q.failedAttempts + 1) }

  // ------------------------------------------------------------------------------------
  // Exactly-once: what the ledger will hold once the queue is empty
  // ------------------------------------------------------------------------------------

  function Items(batch: seq<Pending>): (r: seq<Item>)
    ensures |r| == |batch|
    ensures forall i :: 0 <= i < |r| ==> r[i] == Item(batch[i].reservationId, batch[i].amount)
  {
    seq(|batch|, i requires 0 <= i < |batch| => Item(batch[i].reservationId, batch[i].amount))
  }

  ghost predicate Known(b: Books, ps: seq<Pending>) {
    forall p :: p in ps ==> p.leaseId < |b.leases|
  }

  ghost predicate OneLease(ps: seq<Pending>, leaseId: nat) {
    forall i :: 0 <= i < |ps| ==> ps[i].leaseId == leaseId
  }

  /** The specification: each settlement committed once, in order, on its own. */
  ghost function CommitEach(b: Books, ps: seq<Pending>): (r: Books)
    requires Known(b, ps)
    ensures |r.leases| == |b.leases|
    decreases |ps|
  {
    if ps == [] then b
    else CommitEach(CommitBatch(b, ps[0].leaseId, Items(ps[..1])).0, ps[1..])
  }

  lemma {:induction false} CommitEachAppend(b: Books, xs: seq<Pending>, ys: seq<Pending>)
    requires Known(b, xs + ys)
    ensures Known(b, xs) && Known(CommitEach(b, xs), ys)
    ensures CommitEach(b, xs + ys) == CommitEach(CommitEach(b, xs), ys)
    decreases |xs|
  {
    assert forall y :: y in ys ==> y in xs + ys;
    assert forall x :: x in xs ==> x in xs + ys;
    if xs == [] {
      assert xs + ys == ys;
    } else {
      assert (xs + ys)[1..] == xs[1..] + ys && (xs + ys)[..1] == xs[..1];
      CommitEachAppend(CommitBatch(b, xs[0].leaseId, Items(xs[..1])).0, xs[1..], ys);
    }
  }

  lemma CommitOneKeepsStates(b: Books, id: nat, item: Item)
    requires id < |b.leases|
    ensures CommitOne(b, id, item).0.leases[id].state == b.leases[id].state
  {
  }

  /** What the ledger does with the settlements of one lease, one transaction each. */
  lemma {:induction false} EachIsSingly(b: Books, batch: seq<Pending>, leaseId: nat)
    requires leaseId < |b.leases| && OneLease(batch, leaseId)
    ensures Known(b, batch)
    ensures CommitEach(b, batch)
         == if b.leases[leaseId].state == Active then CommitSingly(b, leaseId, Items(batch)) else b
    decreases |batch|
  {
    if batch != [] {
      var items := Items(batch);
      var single := Items(batch[..1]);
      assert items[1..] == Items(batch[1..]);
      assert single[0] == items[0] && single[1..] == [];
      var (mid, first) := CommitOne(b, leaseId, items[0]);
      CommitOneKeepsStates(b, leaseId, items[0]);
      CommitNone(mid, leaseId, {items[0].reservationId});
      assert {} + {items[0].reservationId} == {items[0].reservationId};
      assert CommitAll(b, leaseId, single, {}).0 == mid;
      EachIsSingly(if b.leases[leaseId].state == Active then mid else b, batch[1..], leaseId);
    }
  }

  /** The batch never asks again for an id it has passed over: see Ledger.BatchIsSinglyIff. */
  predicate Alike(b: Books, leaseId: nat, items: seq<Item>)
    requires leaseId < |b.leases|
  {
    b.leases[leaseId].state != Active || !AsksAgain(b.reservations.Keys, {}, b.leases[leaseId].Outstanding(), items)
  }

  /** One transaction per lease run does what one transaction per settlement would, just then. */
  lemma BatchIsEachIff(b: Books, batch: seq<Pending>, leaseId: nat)
    requires leaseId < |b.leases| && OneLease(batch, leaseId)
    ensures Known(b, batch)
    ensures CommitBatch(b, leaseId, Items(batch)).0 == CommitEach(b, batch) <==> Alike(b, leaseId, Items(batch))
  {
    EachIsSingly(b, batch, leaseId);
    if b.leases[leaseId].state == Active {
      BatchIsSinglyIff(b, leaseId, Items(batch), {});
    }
  }

  /**
   The parts of a batch whose loss a retry makes good: a prefix that commits as its settlements
   would one by one, or, for distinct settlements, exactly the parts that replay
   (Ledger.PartReplaysIff).
   */
  predicate Admissible(b: Books, leaseId: nat, items: seq<Item>, mask: seq<bool>)
    requires leaseId < |b.leases| && |mask| == |items|
  {
    || b.leases[leaseId].state != Active
    || (PrefixMask(mask) && Alike(b, leaseId, Part(items, mask)))
    || (DistinctIds(items) && PartFits(b, leaseId, items, mask))
  }

  predicate PrefixMask(mask: seq<bool>) {
    forall i, j :: 0 <= i < j < |mask| && mask[j] ==> mask[i]
  }

  lemma {:induction false} PartOfPrefixMask(items: seq<Item>, mask: seq<bool>) returns (n: nat)
    requires |mask| == |items| && PrefixMask(mask)
    ensures n <= |items| && Part(items, mask) == items[..n]
    ensures mask != [] && !mask[0] ==> n == 0
  {
    if items == [] {
      n := 0;
    } else {
      var k := PartOfPrefixMask(items[1..], mask[1..]);
      n := if mask[0] then k + 1 else 0;
      if |mask| > 1 && !mask[0] {
        assert !mask[1..][0];
      }
    }
  }

  lemma AdmissiblePartReplays(b: Books, leaseId: nat, items: seq<Item>, mask: seq<bool>)
    requires Sound(b) && leaseId < |b.leases| && b.leases[leaseId].state == Active
    requires |mask| == |items| && Admissible(b, leaseId, items, mask)
    ensures CommitAll(b, leaseId, Part(items, mask), {}).0 == CommitSingly(b, leaseId, Part(items, mask))
    ensures Replays(b, leaseId, items, mask)
  {
    if DistinctIds(items) && PartFits(b, leaseId, items, mask) {
      PartDistinct(items, mask);
      DistinctIsSingly(b, leaseId, Part(items, mask));
      PartReplaysIff(b, leaseId, items, mask);
    } else {
      BatchIsSinglyIff(b, leaseId, Part(items, mask), {});
      var n := PartOfPrefixMask(items, mask);
      PrefixReplaySingly(b, leaseId, items, n);
    }
  }

  /** A part applied and then lost changes nothing about where the queue is heading. */
  lemma LostPartKeepsFuture(b: Books, pending: seq<Pending>, batch: seq<Pending>, mask: seq<bool>)
    requires Sound(b) && Known(b, pending) && batch != [] && batch <= pending
    requires OneLease(batch, batch[0].leaseId) && |mask| == |batch|
    requires Admissible(b, batch[0].leaseId, Items(batch), mask)
    ensures
      var after := CommitBatch(b, batch[0].leaseId, Part(Items(batch), mask)).0;
      && Sound(after) && |after.leases| == |b.leases| && Known(after, pending)
      && CommitEach(after, pending) == CommitEach(b, pending)
  {
    hide Sound, Admissible, CommitEach;
    var id, items, rest := batch[0].leaseId, Items(batch), pending[|batch|..];
    assert pending == batch + rest;
    var after := CommitBatch(b, id, Part(items, mask)).0;
    CommitBatchSound(b, id, Part(items, mask));
    CommitEachAppend(b, batch, rest);
    CommitEachAppend(after, batch, rest);
    EachIsSingly(b, batch, id);
    EachIsSingly(after, batch, id);
    if b.leases[id].state == Active {
      AdmissiblePartReplays(b, id, items, mask);
    }
  }

  /**
   The whole batch applied: if it commits as its settlements would one by one, it may be
   popped, or kept and replayed, with one outcome.
   */
  lemma WholeBatchKeepsFuture(b: Books, pending: seq<Pending>, batch: seq<Pending>)
    requires Sound(b) && Known(b, pending) && batch != [] && batch <= pending
    requires OneLease(batch, batch[0].leaseId) && Alike(b, batch[0].leaseId, Items(batch))
    ensures
      var after := CommitBatch(b, batch[0].leaseId, Items(batch)).0;
      && Sound(after) && |after.leases| == |b.leases|
      && Known(after, pending) && Known(after, pending[|batch|..])
      && CommitEach(after, pending) == CommitEach(b, pending)
      && CommitEach(after, pending[|batch|..]) == CommitEach(b, pending)
  {
    hide Sound, CommitEach, Alike;
    var id, items, rest := batch[0].leaseId, Items(batch), pending[|batch|..];
    assert pending == batch + rest;
    var after := CommitBatch(b, id, items).0;
    CommitBatchSound(b, id, items);
    CommitEachAppend(b, batch, rest);
    CommitEachAppend(after, batch, rest);
    EachIsSingly(b, batch, id);
    EachIsSingly(after, batch, id);
    BatchIsEachIff(b, batch, id);
    if b.leases[id].state == Active {
      assert items[..|items|] == items;
      OutstandingNonNegative(b, id);
      PrefixReplaySingly(b, id, items, |items|);
    }
  }

  lemma OutstandingNonNegative(b: Books, id: nat)
    requires Sound(b) && id < |b.leases|
    ensures 0 <= b.leases[id].Outstanding()
  {
  }

  lemma BatchStaysKnown(b: Books, pending: seq<Pending>, id: nat, items: seq<Item>)
    requires Sound(b) && Known(b, pending) && id < |b.leases|
    ensures Sound(CommitBatch(b, id, items).0) && Known(CommitBatch(b, id, items).0, pending)
  {
    CommitBatchSound(b, id, items);
  }

  lemma FutureAppend(b: Books, xs: seq<Pending>, c: Books, ys: seq<Pending>, p: Pending)
    requires Known(b, xs) && Known(c, ys) && CommitEach(b, xs) == CommitEach(c, ys)
    requires p.leaseId < |b.leases|
    ensures Known(b, xs + [p]) && Known(c, ys + [p])
    ensures CommitEach(b, xs + [p]) == CommitEach(c, ys + [p])
  {
    assert |CommitEach(b, xs).leases| == |CommitEach(c, ys).leases|;
    assert forall q :: q in xs + [p] ==> q in xs || q == p;
    assert forall q :: q in ys + [p] ==> q in ys || q == p;
    CommitEachAppend(b, xs, [p]);
    CommitEachAppend(c, ys, [p]);
  }

  // ------------------------------------------------------------------------------------
  // Runs: concurrent enqueues, attempts and lost answers in any order
  // ------------------------------------------------------------------------------------

  /**
   `offered` is the batch awaiting the sink's answer, under the drain lock; `verdicts` is
   what the ledger decided, if it has. The last five fields are history; `quiet` says that
   nobody else has moved the books so far, `alike` that each batch applied so far committed as
   its settlements would one by one, and each part left behind was admissible.
   */
  datatype Run = Run(
    books: Books, queue: Queue, offered: Option<seq<Pending>>, verdicts: Option<seq<bool>>,
    accepted: seq<Pending>, answered: seq<Pending>, enqueues: nat, quiet: bool, alike: bool)

  datatype Step =
    | Enqueue(p: Pending)
    | Offer
    | ApplyAll
    | ApplyPart(mask: seq<bool>)
    | Answer
    | LoseAnswer
    | Close
    | Elsewhere(books: Books)

  ghost predicate Enabled(r: Run, step: Step) {
    match step
    case Enqueue(p) => p.leaseId < |r.books.leases|
    case Offer => r.offered.None? && r.queue.pending != []
    case ApplyAll =>
      && r.offered.Some? && r.verdicts.None?
      && r.offered.value != [] && r.offered.value[0].leaseId < |r.books.leases|
    case ApplyPart(mask) =>
      && r.offered.Some? && r.verdicts.None?
      && r.offered.value != [] && r.offered.value[0].leaseId < |r.books.leases|
      && |mask| == |r.offered.value|
    case Answer => r.verdicts.Some? && |r.verdicts.value| <= |r.queue.pending|
    case LoseAnswer => r.offered.Some?
    case Close => true
    case Elsewhere(books) =>
      && Sound(books) && |r.books.leases| <= |books.leases|
      && forall id :: id in r.books.reservations ==>
           id in books.reservations && books.reservations[id] == r.books.reservations[id]
  }

  ghost function Apply(r: Run, step: Step): Run
    requires Enabled(r, step)
  {
    match step
    case Enqueue(p) =>
      var q := Enqueued(r.queue, p);
      r.(queue := q, enqueues := r.enqueues + 1,
         accepted := if q.dropped == r.queue.dropped then r.accepted + [p] else r.accepted)
    case Offer => r.(offered := Some(Batch(r.queue)))
    case ApplyAll =>
      var (after, verdicts) := CommitBatch(r.books, r.offered.value[0].leaseId, Items(r.offered.value));
      r.(books := after, verdicts := Some(verdicts),
         alike := r.alike && Alike(r.books, r.offered.value[0].leaseId, Items(r.offered.value)))
    case ApplyPart(mask) =>
      var part := Part(Items(r.offered.value), mask);
      r.(books := CommitBatch(r.books, r.offered.value[0].leaseId, part).0,
         offered := None, queue := Unreachable(r.queue),
         alike := r.alike && Admissible(r.books, r.offered.value[0].leaseId, Items(r.offered.value), mask))
    case Answer =>
      r.(queue := Answered(r.queue, r.verdicts.value), offered := None, verdicts := None,
         answered := r.answered + r.queue.pending[..|r.verdicts.value|])
    case LoseAnswer => r.(offered := None, verdicts := None, queue := Unreachable(r.queue))
    case Close => r.(queue := r.queue.(closed := true))
    case Elsewhere(books) => r.(books := books, quiet := false)
  }

  ghost function Start(books: Books, capacity: nat, batchMax: nat): Run {
    Run(books, Queue([], false, 0, 0, 0, 0, capacity, batchMax), None, None, [], [], 0, true, true)
  }

  /** The state after `steps`, if each was enabled when it was taken. */
  ghost function After(start: Run, steps: seq<Step>): Option<Run>
    decreases |steps|
  {
    if steps == [] then Some(start)
    else
      match After(start, steps[..|steps| - 1])
      case None => None
      case Some(r) =>
        if Enabled(r, steps[|steps| - 1]) then Some(Apply(r, steps[|steps| - 1])) else None
  }

  /** The offered batch is still the head; once decided, popping it leaves the same future. */
  ghost predicate OfferInv(r: Run) {
    && (r.verdicts.Some? ==> r.offered.Some? && |r.verdicts.value| == |r.offered.value|)
    && (r.offered.Some? ==>
         && r.offered.value != [] && r.offered.value <= r.queue.pending
         && OneLease(r.offered.value, r.offered.value[0].leaseId))
    && Known(r.books, r.queue.pending)
    && (r.verdicts.Some? ==>
         && Known(r.books, r.queue.pending[|r.offered.value|..])
         && (r.quiet && r.alike ==>
              CommitEach(r.books, r.queue.pending[|r.offered.value|..]) == CommitEach(r.books, r.queue.pending)))
  }

  ghost predicate CountInv(r: Run) {
    && WellSet(r.queue)
    && r.accepted == r.answered + r.queue.pending
    && |r.answered| == r.queue.applied + r.queue.declined
    && r.enqueues == r.queue.applied + r.queue.declined + r.queue.dropped + |r.queue.pending|
  }

  ghost predicate FutureInv(start: Books, r: Run) {
    && Sound(r.books) && Known(r.books, r.queue.pending)
    && (r.quiet && r.alike ==>
         && |r.books.leases| == |start.leases| && Known(start, r.accepted)
         && CommitEach(r.books, r.queue.pending) == CommitEach(start, r.accepted))
  }

  ghost predicate Inv(start: Books, r: Run) { OfferInv(r) && CountInv(r) && FutureInv(start, r) }

  lemma EnqueueKeepsOffer(r: Run, p: Pending)
    requires OfferInv(r) && p.leaseId < |r.books.leases|
    ensures OfferInv(Apply(r, Enqueue(p)))
  {
    var after := Apply(r, Enqueue(p));
    if after.queue.pending != r.queue.pending {
      var pending := r.queue.pending;
      assert after.queue.pending == pending + [p];
      FutureAppend(r.books, pending, r.books, pending, p);
      if r.verdicts.Some? {
        var n := |r.offered.value|;
        assert (pending + [p])[n..] == pending[n..] + [p];
        if r.quiet && r.alike {
          FutureAppend(r.books, pending[n..], r.books, pending, p);
        }
      }
    }
  }

  lemma EnqueueKeepsFuture(start: Books, r: Run, p: Pending)
    requires FutureInv(start, r) && p.leaseId < |r.books.leases|
    ensures FutureInv(start, Apply(r, Enqueue(p)))
  {
    if r.quiet && r.alike {
      FutureAppend(r.books, r.queue.pending, start, r.accepted, p);
    }
  }

  lemma EnqueueKeepsInv(start: Books, r: Run, p: Pending)
    requires Inv(start, r) && p.leaseId < |r.books.leases|
    ensures Inv(start, Apply(r, Enqueue(p)))
  {
    EnqueueKeepsOffer(r, p);
    EnqueueKeepsFuture(start, r, p);
    assert CountInv(Apply(r, Enqueue(p))) by {
      assert r.answered + r.queue.pending + [p] == r.answered + (r.queue.pending + [p]);
    }
  }

  lemma AnswerKeepsInv(start: Books, r: Run)
    requires Inv(start, r) && Enabled(r, Answer)
    ensures Inv(start, Apply(r, Answer))
  {
    var n := |r.verdicts.value|;
    CountsPartition(r.verdicts.value);
    assert r.queue.pending == r.queue.pending[..n] + r.queue.pending[n..];
  }

  lemma ApplyKeepsInv(start: Books, r: Run, step: Step)
    requires Inv(start, r) && Enabled(r, step) && (step.ApplyAll? || step.ApplyPart?)
    ensures Inv(start, Apply(r, step))
  {
    hide Sound, Alike, Admissible, CommitEach;
    var batch := r.offered.value;
    var id, items := batch[0].leaseId, Items(batch);
    BatchStaysKnown(r.books, r.queue.pending, id, if step.ApplyAll? then items else Part(items, step.mask));
    if step.ApplyAll? {
      if Alike(r.books, id, items) {
        WholeBatchKeepsFuture(r.books, r.queue.pending, batch);
      }
    } else if Admissible(r.books, id, items, step.mask) {
      LostPartKeepsFuture(r.books, r.queue.pending, batch, step.mask);
    }
  }

  lemma StepKeepsInv(start: Books, r: Run, step: Step)
    requires Inv(start, r) && Enabled(r, step)
    ensures Inv(start, Apply(r, step))
  {
    match step
    case Enqueue(p) => EnqueueKeepsInv(start, r, p);
    case Offer =>
    case ApplyAll => ApplyKeepsInv(start, r, step);
    case ApplyPart(mask) => ApplyKeepsInv(start, r, step);
    case Answer => AnswerKeepsInv(start, r);
    case LoseAnswer =>
    case Close =>
    case Elsewhere(books) =>
  }

  /**
   Exactly once, over every interleaving of enqueues, attempts and lost answers: at each
   moment, committing what is still pending to the books as they are ends where committing
   everything ever accepted, once each and in order, to the original books ends. Answered
   settlements are a FIFO prefix of accepted ones, and every enqueue is in one counter.
   If others move the books meanwhile, or a batch was not alike, everything but the first
   claim still holds.
   */
  lemma {:induction false} SettlementExactlyOnce(books: Books, capacity: nat, batchMax: nat, steps: seq<Step>)
    requires Sound(books) && 0 < capacity && 0 < batchMax
    ensures After(Start(books, capacity, batchMax), steps).Some? ==>
      Inv(books, After(Start(books, capacity, batchMax), steps).value)
    decreases |steps|
  {
    if steps != [] {
      SettlementExactlyOnce(books, capacity, batchMax, steps[..|steps| - 1]);
      var before := After(Start(books, capacity, batchMax), steps[..|steps| - 1]);
      if before.Some? && Enabled(before.value, steps[|steps| - 1]) {
        StepKeepsInv(books, before.value, steps[|steps| - 1]);
      }
    }
  }

  /** Once nothing is pending, the ledger is exactly the once-each specification. */
  lemma DrainedRunIsExactlyOnce(books: Books, capacity: nat, batchMax: nat, steps: seq<Step>)
    requires Sound(books) && 0 < capacity && 0 < batchMax
    requires After(Start(books, capacity, batchMax), steps).Some?
    requires After(Start(books, capacity, batchMax), steps).value.queue.pending == []
    requires After(Start(books, capacity, batchMax), steps).value.quiet
    requires After(Start(books, capacity, batchMax), steps).value.alike
    ensures
      var r := After(Start(books, capacity, batchMax), steps).value;
      && Known(books, r.accepted) && r.books == CommitEach(books, r.accepted)
      && r.answered == r.accepted
  {
    SettlementExactlyOnce(books, capacity, batchMax, steps);
    var r := After(Start(books, capacity, batchMax), steps).value;
    assert r.answered + [] == r.answered;
  }

  /** No reservation is accepted both for nothing and for something. */
  ghost predicate OneSignedPending(ps: seq<Pending>) {
    forall p, q :: p in ps && q in ps && p.reservationId == q.reservationId ==> (p.amount > 0 <==> q.amount > 0)
  }

  predicate PrefixesOnly(steps: seq<Step>) {
    forall i :: 0 <= i < |steps| && steps[i].ApplyPart? ==> PrefixMask(steps[i].mask)
  }

  lemma OneSignedBatchAlike(b: Books, batch: seq<Pending>, items: seq<Item>, id: nat)
    requires id < |b.leases| && OneSignedPending(batch) && items <= Items(batch)
    ensures Alike(b, id, items)
  {
    assert forall i :: 0 <= i < |items| ==> items[i] == Items(batch)[i] && batch[i] in batch;
    OneSignedNeverAsks(b.reservations.Keys, {}, b.leases[id].Outstanding(), items);
  }

  /** Such runs are alike, as long as only prefixes are left behind. */
  lemma {:induction false} OneSignedRunIsAlike(books: Books, capacity: nat, batchMax: nat, steps: seq<Step>)
    requires Sound(books) && 0 < capacity && 0 < batchMax && PrefixesOnly(steps)
    requires After(Start(books, capacity, batchMax), steps).Some?
    requires OneSignedPending(After(Start(books, capacity, batchMax), steps).value.accepted)
    ensures After(Start(books, capacity, batchMax), steps).value.alike
    decreases |steps|
  {
    hide Sound, Alike, CommitEach, CommitBatch;
    if steps != [] {
      var init, last := steps[..|steps| - 1], steps[|steps| - 1];
      SettlementExactlyOnce(books, capacity, batchMax, init);
      var r := After(Start(books, capacity, batchMax), init).value;
      OneSignedRunIsAlike(books, capacity, batchMax, init);
      if last.ApplyAll? || last.ApplyPart? {
        var batch := r.offered.value;
        assert forall p :: p in batch ==> p in r.queue.pending && p in r.accepted;
        OneSignedBatchAlike(r.books, batch, Items(batch), batch[0].leaseId);
        if last.ApplyPart? {
          var n := PartOfPrefixMask(Items(batch), last.mask);
          OneSignedBatchAlike(r.books, batch, Items(batch)[..n], batch[0].leaseId);
        }
      }
    }
  }

  // ------------------------------------------------------------------------------------
  // The queue itself
  // ------------------------------------------------------------------------------------

  /** What the network does to one attempt: `mask` says what of the batch had been applied. */
  datatype Weather = Answers | Fails(mask: seq<bool>)

  /** One attempt: its weather, and what is enqueued while the sink holds the batch. */
  datatype Attempt = Attempt(weather: Weather, arrivals: seq<Pending>)

  function Applied(n: nat, mask: seq<bool>): (part: seq<bool>)
    ensures |part| == n && (PrefixMask(mask) ==> PrefixMask(part))
  {
    seq(n, i requires 0 <= i < n => i < |mask| && mask[i])
  }

  function AllEnqueued(q: Queue, arrivals: seq<Pending>): (r: Queue)
    ensures q.pending <= r.pending && r == q.(pending := r.pending, dropped := r.dropped)
    ensures |q.pending| <= q.capacity ==> |r.pending| <= q.capacity
    ensures |r.pending| - |q.pending| + r.dropped - q.dropped == |arrivals|
    ensures forall p :: p in r.pending ==> p in q.pending || p in arrivals
    decreases |arrivals|
  {
    if arrivals == [] then q
    else
      var most := AllEnqueued(q, arrivals[..|arrivals| - 1]);
      assert forall p :: p in arrivals[..|arrivals| - 1] ==> p in arrivals;
      Enqueued(most, arrivals[|arrivals| - 1])
  }

  lemma AllEnqueuedStep(q: Queue, arrivals: seq<Pending>, i: nat)
    requires i < |arrivals|
    ensures AllEnqueued(q, arrivals[..i + 1]) == Enqueued(AllEnqueued(q, arrivals[..i]), arrivals[i])
  {
    var some := arrivals[..i + 1];
    assert some[..|some| - 1] == arrivals[..i] && some[|some| - 1] == arrivals[i];
  }

  /** A deduplicating ledger behind a network that may fail after applying part of a batch. */
  class FaultySink {
    var books: Books

    constructor (books: Books)
      ensures this.books == books
    {
      this.books := books;
    }

    /** None is the raised exception: the part that `mask` selects had been applied by then. */
    method Commit(batch: seq<Pending>, weather: Weather) returns (verdicts: Option<seq<bool>>)
      requires batch != [] && OneLease(batch, batch[0].leaseId) && batch[0].leaseId < |books.leases|
      modifies this
      ensures weather.Answers? ==>
        (books, verdicts) == (CommitBatch(old(books), batch[0].leaseId, Items(batch)).0,
                              Some(CommitBatch(old(books), batch[0].leaseId, Items(batch)).1))
      ensures weather.Fails? ==>
        && verdicts.None?
        && books == CommitBatch(old(books), batch[0].leaseId, Part(Items(batch), Applied(|batch|, weather.mask))).0
    {
      match weather
      case Answers =>
        var (after, answer) := CommitBatch(books, batch[0].leaseId, Items(batch));
        books, verdicts := after, Some(answer);
      case Fails(mask) =>
        var part := Part(Items(batch), Applied(|batch|, mask));
        books, verdicts := CommitBatch(books, batch[0].leaseId, part).0, None;
    }
  }

  /** Whether an attempt leaves the future alone: see LostPartKeepsFuture, WholeBatchKeepsFuture. */
  predicate KeepsFuture(b: Books, batch: seq<Pending>, weather: Weather)
    requires batch != [] && batch[0].leaseId < |b.leases|
  {
    match weather
    case Answers => Alike(b, batch[0].leaseId, Items(batch))
    case Fails(mask) => Admissible(b, batch[0].leaseId, Items(batch), Applied(|batch|, mask))
  }

  lemma AttemptKeepsFuture(
    b: Books, before: Queue, now: seq<Pending>, batch: seq<Pending>, weather: Weather, after: Books)
    requires Sound(b) && Known(b, now) && batch != [] && batch == Batch(before) && before.pending <= now
    requires after == CommitBatch(b, batch[0].leaseId,
      if weather.Answers? then Items(batch) else Part(Items(batch), Applied(|batch|, weather.mask))).0
    ensures Sound(after) && Known(after, now) && Known(after, now[|batch|..])
    ensures KeepsFuture(b, batch, weather) ==>
      CommitEach(b, now) == CommitEach(after, if weather.Answers? then now[|batch|..] else now)
  {
    hide Sound, CommitEach, Alike, Admissible;
    assert batch <= now && OneLease(batch, batch[0].leaseId);
    assert batch[0] in now;
    BatchStaysKnown(b, now, batch[0].leaseId,
      if weather.Answers? then Items(batch) else Part(Items(batch), Applied(|batch|, weather.mask)));
    if KeepsFuture(b, batch, weather) {
      if weather.Answers? {
        WholeBatchKeepsFuture(b, now, batch);
      } else {
        LostPartKeepsFuture(b, now, batch, Applied(|batch|, weather.mask));
      }
    }
  }

  /** A script under which no attempt can change where the queue leads. */
  predicate Gentle(script: seq<Attempt>) {
    forall i :: 0 <= i < |script| && script[i].weather.Fails? ==> PrefixMask(script[i].weather.mask)
  }

  lemma GentleKeepsFuture(b: Books, batch: seq<Pending>, weather: Weather)
    requires batch != [] && batch[0].leaseId < |b.leases| && OneSignedPending(batch)
    requires weather.Fails? ==> PrefixMask(weather.mask)
    ensures KeepsFuture(b, batch, weather)
  {
    match weather
    case Answers => OneSignedBatchAlike(b, batch, Items(batch), batch[0].leaseId);
    case Fails(mask) =>
      var n := PartOfPrefixMask(Items(batch), Applied(|batch|, mask));
      OneSignedBatchAlike(b, batch, Items(batch)[..n], batch[0].leaseId);
  }

  /** The queue after one attempt: whatever arrived joined it, and the batch left it or did not. */
  ghost predicate Attempted(before: Queue, attempt: Attempt, after: Queue) {
    var n, now := |Batch(before)|, AllEnqueued(before, attempt.arrivals);
    && WellSet(after) && 0 < n <= |now.pending|
    && (attempt.weather.Fails? ==> after == Unreachable(now))
    && (attempt.weather.Answers? ==>
         && after == now.(pending := now.pending[n..], applied := after.applied, declined := after.declined)
         && after.applied + after.declined == now.applied + now.declined + n)
  }

  /** What one attempt makes of the queue and the books. */
  ghost predicate Flushed(before: Queue, b: Books, attempt: Attempt, after: Queue, books: Books) {
    var batch, now := Batch(before), AllEnqueued(before, attempt.arrivals);
    && Attempted(before, attempt, after)
    && Sound(books) && Known(books, after.pending) && |books.leases| == |b.leases|
    && Known(b, now.pending) && batch[0].leaseId < |b.leases|
    && (match attempt.weather
        case Answers =>
          var (committed, verdicts) := CommitBatch(b, batch[0].leaseId, Items(batch));
          books == committed && after == Answered(now, verdicts)
        case Fails(mask) =>
          books == CommitBatch(b, batch[0].leaseId, Part(Items(batch), Applied(|batch|, mask))).0)
    && (KeepsFuture(b, batch, attempt.weather) ==> CommitEach(books, after.pending) == CommitEach(b, now.pending))
  }

  // ------------------------------------------------------------------------------------
  // An attempt is a run of the steps
  // ------------------------------------------------------------------------------------

  function Enqueues(ps: seq<Pending>): (r: seq<Step>)
    ensures |r| == |ps| && forall i :: 0 <= i < |r| ==> r[i] == Enqueue(ps[i])
  {
    seq(|ps|, i requires 0 <= i < |ps| => Enqueue(ps[i]))
  }

  /** The batch is offered, `arrivals` join the queue, and the sink answers or fails. */
  function AttemptSteps(q: Queue, attempt: Attempt): (r: seq<Step>) {
    [Offer] + Enqueues(attempt.arrivals)
    + match attempt.weather
      case Answers => [ApplyAll, Answer]
      case Fails(mask) => [ApplyPart(Applied(|Batch(q)|, mask))]
  }

  lemma AfterOne(r: Run, steps: seq<Step>, step: Step)
    requires After(r, steps).Some? && Enabled(After(r, steps).value, step)
    ensures After(r, steps + [step]) == Some(Apply(After(r, steps).value, step))
  {
  }

  /** Arrivals change the queue and the history, and nothing else. */
  lemma {:induction false} ArrivalsRun(r: Run, front: seq<Step>, ps: seq<Pending>)
    requires After(r, front).Some? && Known(After(r, front).value.books, ps)
    ensures After(r, front + Enqueues(ps)).Some?
    ensures
      var was, now := After(r, front).value, After(r, front + Enqueues(ps)).value;
      && now.queue == AllEnqueued(was.queue, ps)
      && now == was.(queue := now.queue, accepted := now.accepted, enqueues := now.enqueues)
    decreases |ps|
  {
    hide After;
    if ps == [] {
      assert front + Enqueues(ps) == front;
    } else {
      var n := |ps| - 1;
      assert ps[n] in ps;
      ArrivalsRun(r, front, ps[..n]);
      assert front + Enqueues(ps) == front + Enqueues(ps[..n]) + [Enqueue(ps[n])];
      AfterOne(r, front + Enqueues(ps[..n]), Enqueue(ps[n]));
    }
  }

  /** What a flush makes of the queue and the books is where the steps of the attempt lead. */
  lemma FlushIsARun(r: Run, attempt: Attempt, after: Queue, books: Books)
    requires r.offered.None? && r.verdicts.None? && r.queue.pending != []
    requires Known(r.books, attempt.arrivals) && Flushed(r.queue, r.books, attempt, after, books)
    ensures
      var end := After(r, AttemptSteps(r.queue, attempt));
      && end.Some? && end.value.queue == after && end.value.books == books
      && end.value.offered.None? && end.value.verdicts.None?
  {
    hide After, Sound, CommitEach, CommitBatch, Alike, Admissible, KeepsFuture, AllEnqueued;
    NoStepsYet(r);
    AfterOne(r, [], Offer);
    assert [] + [Offer] == [Offer];
    var batch, waiting := Batch(r.queue), [Offer] + Enqueues(attempt.arrivals);
    ArrivalsRun(r, [Offer], attempt.arrivals);
    var offered := After(r, waiting).value;
    match attempt.weather
    case Answers =>
      AfterOne(r, waiting, ApplyAll);
      AfterOne(r, waiting + [ApplyAll], Answer);
      assert waiting + [ApplyAll] + [Answer] == waiting + [ApplyAll, Answer];
    case Fails(mask) => AfterOne(r, waiting, ApplyPart(Applied(|batch|, mask)));
  }

  lemma NoStepsYet(r: Run)
    ensures After(r, []) == Some(r)
  {
  }

  /** A lost answer is a failure after the whole batch was applied. */
  lemma LostAnswerIsFailure(r: Run)
    requires Enabled(r, ApplyAll)
    ensures
      var all := seq(|r.offered.value|, i => true);
      var lost, failed := Apply(Apply(r, ApplyAll), LoseAnswer), Apply(r, ApplyPart(all));
      lost.books == failed.books && lost.queue == failed.queue && lost.offered == failed.offered && lost.verdicts.None?
  {
    hide CommitBatch, Alike, Admissible;
    WholePart(Items(r.offered.value), seq(|r.offered.value|, i => true));
  }

  lemma {:induction false} WholePart(items: seq<Item>, mask: seq<bool>)
    requires |mask| == |items| && forall i :: 0 <= i < |mask| ==> mask[i]
    ensures Part(items, mask) == items
  {
    if items != [] {
      WholePart(items[1..], mask[1..]);
    }
  }

  lemma {:induction false} ClosedStays(r: Run, steps: seq<Step>)
    requires r.queue.closed && After(r, steps).Some?
    ensures After(r, steps).value.queue.closed && After(r, steps).value.accepted == r.accepted
    decreases |steps|
  {
    hide CommitBatch, Alike, Admissible, Part, Batch, Items;
    if steps != [] {
      ClosedStays(r, steps[..|steps| - 1]);
    }
  }

  /** Once the queue is closed nothing more is accepted; each settlement that comes is counted as dropped. */
  lemma ClosedTakesNothing(r: Run, steps: seq<Step>, p: Pending)
    requires After(Apply(r, Close), steps).Some? && p.leaseId < |After(Apply(r, Close), steps).value.books.leases|
    ensures
      var later := After(Apply(r, Close), steps).value;
      && later.accepted == r.accepted
      && Apply(later, Enqueue(p)).queue == later.queue.(dropped := later.queue.dropped + 1)
  {
    hide After;
    ClosedStays(Apply(r, Close), steps);
  }

  /** A queue on its way: `owing` is all it held and accepted, of which it has answered a prefix. */
  ghost predicate OnItsWay(before: Queue, owing: seq<Pending>, after: Queue) {
    && WellSet(after)
    && |after.pending| <= |owing| && after.pending == owing[|owing| - |after.pending|..]
    && after.applied + after.declined == before.applied + before.declined + |owing| - |after.pending|
    && after.closed == before.closed && after.capacity == before.capacity && after.batchMax == before.batchMax
  }

  /** Where a drain stands, having accepted `accepted` on the way. */
  ghost predicate Drained(before: Queue, b: Books, accepted: seq<Pending>, gentle: bool, after: Queue, books: Books) {
    var owing := before.pending + accepted;
    && OnItsWay(before, owing, after)
    && Sound(books) && Known(books, after.pending) && |books.leases| == |b.leases|
    && Known(b, owing)
    && (gentle && OneSignedPending(owing) ==> CommitEach(books, after.pending) == CommitEach(b, owing))
  }

  /** One turn of a drain: what is left leads where everything accepted so far leads. */
  lemma TurnKeepsFuture(
    start: Books, owing: seq<Pending>, b: Books, was: Queue, added: seq<Pending>,
    after: Books, left: seq<Pending>, weather: Weather)
    requires Known(start, owing + added) && Known(start, owing)
    requires Known(b, was.pending + added) && Known(b, was.pending) && Known(after, left)
    requires was.pending != [] && 0 < was.batchMax && Batch(was)[0].leaseId < |b.leases|
    requires (forall p :: p in was.pending ==> p in owing) && OneSignedPending(owing + added)
    requires OneSignedPending(owing) ==> CommitEach(b, was.pending) == CommitEach(start, owing)
    requires weather.Fails? ==> PrefixMask(weather.mask)
    requires KeepsFuture(b, Batch(was), weather) ==> CommitEach(after, left) == CommitEach(b, was.pending + added)
    ensures CommitEach(after, left) == CommitEach(start, owing + added)
  {
    hide CommitEach, KeepsFuture;
    assert forall p :: p in Batch(was) ==> p in owing + added;
    assert forall p :: p in owing ==> p in owing + added;
    GentleKeepsFuture(b, Batch(was), weather);
    CommitEachAppend(b, was.pending, added);
    CommitEachAppend(start, owing, added);
  }

  lemma SuffixMoves(owing: seq<Pending>, was: seq<Pending>, added: seq<Pending>, n: nat)
    requires |was| <= |owing| && was == owing[|owing| - |was|..] && n <= |was + added|
    ensures (was + added)[n..] == (owing + added)[|owing + added| - (|was + added| - n)..]
    ensures forall p :: p in was ==> p in owing
  {
  }

  lemma TurnMovesOn(before: Queue, owing: seq<Pending>, q: Queue, attempt: Attempt, after: Queue)
    requires OnItsWay(before, owing, q) && Attempted(q, attempt, after)
    ensures
      var added := AllEnqueued(q, attempt.arrivals).pending[|q.pending|..];
      && OnItsWay(before, owing + added, after)
      && (forall p :: p in q.pending ==> p in owing) && AllEnqueued(q, attempt.arrivals).pending == q.pending + added
  {
    hide AllEnqueued, Batch;
    var now := AllEnqueued(q, attempt.arrivals).pending;
    var added := now[|q.pending|..];
    assert now == q.pending + added;
    SuffixMoves(owing, q.pending, added, 0);
    SuffixMoves(owing, q.pending, added, |Batch(q)|);
    if attempt.weather.Fails? {
      assert after.pending == now && now[0..] == now;
    } else {
      assert after.pending == now[|Batch(q)|..];
    }
  }

  lemma DrainTurn(
    before: Queue, b: Books, accepted: seq<Pending>, gentle: bool,
    q: Queue, books: Books, attempt: Attempt, after: Queue, later: Books)
    requires Drained(before, b, accepted, gentle, q, books) && Flushed(q, books, attempt, after, later)
    requires Known(b, attempt.arrivals) && q.pending != []
    requires gentle && attempt.weather.Fails? ==> PrefixMask(attempt.weather.mask)
    ensures
      var added := AllEnqueued(q, attempt.arrivals).pending[|q.pending|..];
      Drained(before, b, accepted + added, gentle, after, later)
  {
    hide Sound, CommitEach, KeepsFuture, OneSignedPending, AllEnqueued, Batch, OnItsWay, Attempted;
    var now := AllEnqueued(q, attempt.arrivals).pending;
    var added := now[|q.pending|..];
    var owing := before.pending + accepted;
    TurnMovesOn(before, owing, q, attempt, after);
    assert before.pending + (accepted + added) == owing + added;
    assert forall p :: p in added ==> p in now;
    if gentle && OneSignedPending(owing + added) {
      PartOneSigned(owing, added);
      assert 0 < q.batchMax by {
        MovingIsSet(before, owing, q);
      }
      TurnKeepsFuture(b, owing, books, q, added, later, after.pending, attempt.weather);
    }
  }

  lemma DrainedMeans(
    before: Queue, b: Books, accepted: seq<Pending>, gentle: bool, after: Queue, books: Books)
    requires Drained(before, b, accepted, gentle, after, books)
    ensures WellSet(after) && Sound(books) && Known(books, after.pending) && |books.leases| == |b.leases|
  {
  }

  lemma FlushedMeans(q: Queue, b: Books, attempt: Attempt, after: Queue, books: Books)
    requires Flushed(q, b, attempt, after, books)
    ensures
      var added := AllEnqueued(q, attempt.arrivals).pending[|q.pending|..];
      && (attempt.weather.Fails? ==> after.failedAttempts == q.failedAttempts + 1 && |q.pending| <= |after.pending|)
      && (attempt.weather.Answers? ==>
           after.failedAttempts == q.failedAttempts && (added == [] ==> |after.pending| < |q.pending|))
      && (attempt.arrivals == [] ==> added == [] && after.dropped == q.dropped)
  {
  }

  lemma NothingDrained(q: Queue, b: Books, gentle: bool)
    requires WellSet(q) && Sound(b) && Known(b, q.pending)
    ensures Drained(q, b, [], gentle, q, b)
  {
    assert q.pending + [] == q.pending;
  }

  lemma MovingIsSet(before: Queue, owing: seq<Pending>, q: Queue)
    requires OnItsWay(before, owing, q)
    ensures WellSet(q)
  {
  }

  lemma PartOneSigned(xs: seq<Pending>, ys: seq<Pending>)
    requires OneSignedPending(xs + ys)
    ensures OneSignedPending(xs)
  {
    assert forall p :: p in xs ==> p in xs + ys;
  }

  class SettlementQueue {
    const capacity: nat
    const batchMax: nat
    var pending: seq<Pending>
    var closed: bool
    var applied: nat
    var declined: nat
    var dropped: nat
    var failedAttempts: nat

    constructor (capacity: nat, batchMax: nat)
      requires 0 < capacity && 0 < batchMax
      ensures State() == Queue([], false, 0, 0, 0, 0, capacity, batchMax) && WellSet(State())
    {
      this.capacity, this.batchMax := capacity, batchMax;
      pending, closed, applied, declined, dropped, failedAttempts := [], false, 0, 0, 0, 0;
    }

    function State(): Queue
      reads this
    {
      Queue(pending, closed, applied, declined, dropped, failedAttempts, capacity, batchMax)
    }

    /** Synchronous; a settlement that cannot be queued is counted, never refused. */
    method Enqueue(outcome: CommitOutcome<nat>, now: int)
      requires WellSet(State())
      modifies this
      ensures State() == Enqueued(old(State()), Pending(outcome.leaseId, outcome.reservationId, outcome.amount, now))
      ensures WellSet(State())
      ensures !closed && |old(pending)| < capacity ==>
        && pending == old(pending) + [Pending(outcome.leaseId, outcome.reservationId, outcome.amount, now)]
        && dropped == old(dropped)
      ensures closed || |old(pending)| == capacity ==> pending == old(pending) && dropped == old(dropped) + 1
    {
      if closed {
        dropped := dropped + 1;
        return;
      }
      if |pending| >= capacity {
        dropped := dropped + 1;
        return;
      }
      pending := pending + [Pending(outcome.leaseId, outcome.reservationId, outcome.amount, now)];
    }

    method NextBatch() returns (batch: seq<Pending>)
      ensures batch == Batch(State())
      ensures batch <= pending && |batch| <= batchMax && (pending != [] && batchMax > 0 ==> batch != [])
      ensures forall i :: 0 <= i < |batch| ==> batch[i].leaseId == pending[0].leaseId
      ensures |batch| < |pending| && |batch| < batchMax ==> pending[|batch|].leaseId != pending[0].leaseId
    {
      if pending == [] {
        return [];
      }
      var leaseId := pending[0].leaseId;
      batch := [];
      ghost var whole := RunLength(pending, leaseId, batchMax);
      while |batch| < |pending| && pending[|batch|].leaseId == leaseId && |batch| < batchMax
        invariant |batch| <= |pending| && |batch| <= batchMax && batch == pending[..|batch|]
        invariant whole == |batch| + RunLength(pending[|batch|..], leaseId, batchMax - |batch|)
      {
        assert pending[|batch|..][1..] == pending[|batch| + 1..];
        batch := batch + [pending[|batch|]];
      }
    }

    /** The second half of a flush, after the await: the sink has answered or has not. */
    method FinishFlush(verdicts: Option<seq<bool>>)
      requires WellSet(State())
      requires verdicts.Some? ==> |verdicts.value| <= |pending|
      modifies this
      ensures State() == match verdicts
        case Some(vs) => Answered(old(State()), vs)
        case None => Unreachable(old(State()))
      ensures WellSet(State())
      ensures verdicts.Some? ==>
        && pending == old(pending)[|verdicts.value|..] && failedAttempts == old(failedAttempts)
        && applied == old(applied) + multiset(verdicts.value)[true]
        && declined == old(declined) + multiset(verdicts.value)[false]
      ensures verdicts.None? ==>
        && pending == old(pending) && applied == old(applied) && declined == old(declined)
        && failedAttempts == old(failedAttempts) + 1
    {
      match verdicts
      case None =>
        failedAttempts := failedAttempts + 1;
      case Some(vs) =>
        for i := 0 to |vs|
          invariant pending == old(pending)[i..]
          invariant applied == old(applied) + Count(vs[..i], true)
          invariant declined == old(declined) + Count(vs[..i], false)
          invariant closed == old(closed) && dropped == old(dropped) && failedAttempts == old(failedAttempts)
        {
          assert vs[..i + 1] == vs[..i] + [vs[i]];
          CountAppend(vs[..i], [vs[i]], true);
          CountAppend(vs[..i], [vs[i]], false);
          assert [vs[i]][1..] == [];
          assert old(pending)[i..][1..] == old(pending)[i + 1..];
          pending := pending[1..];
          if vs[i] {
            applied := applied + 1;
          } else {
            declined := declined + 1;
          }
        }
        assert vs[..|vs|] == vs;
        CountIsMultiplicity(vs, true);
        CountIsMultiplicity(vs, false);
    }

    /** Requests that settle while the sink is awaited. */
    method Arrive(arrivals: seq<Pending>)
      requires WellSet(State())
      modifies this
      ensures State() == AllEnqueued(old(State()), arrivals) && WellSet(State())
    {
      for i := 0 to |arrivals|
        invariant State() == AllEnqueued(old(State()), arrivals[..i]) && WellSet(State())
      {
        AllEnqueuedStep(old(State()), arrivals, i);
        var p := arrivals[i];
        Enqueue(CommitOutcome(p.reservationId, p.leaseId, p.amount, false), p.now);
      }
      assert arrivals[..|arrivals|] == arrivals;
    }

    /**
     One attempt at the head of the queue, `attempt.arrivals` being enqueued meanwhile: it pops
     its whole batch, or nothing.
     */
    method Flush(sink: FaultySink, attempt: Attempt)
      requires WellSet(State()) && Sound(sink.books) && Known(sink.books, pending) && pending != []
      requires Known(sink.books, attempt.arrivals)
      modifies this, sink
      ensures Flushed(old(State()), old(sink.books), attempt, State(), sink.books)
    {
      hide Sound, CommitEach, CommitBatch, KeepsFuture;
      var batch := NextBatch();
      ghost var now := AllEnqueued(State(), attempt.arrivals);
      assert Known(sink.books, now.pending);
      assert batch[0] in pending;
      ghost var before := State();
      var verdicts := sink.Commit(batch, attempt.weather);
      AttemptKeepsFuture(old(sink.books), before, now.pending, batch, attempt.weather, sink.books);
      Arrive(attempt.arrivals);
      FinishFlush(verdicts);
      if verdicts.Some? {
        CountsPartition(verdicts.value);
      }
    }

    /**
     Flush repeatedly until the queue is empty or an attempt leaves it no shorter. `script` is
     what happens during each attempt; an exhausted script is a sink that answers and nothing
     arriving. `accepted` is what was queued meanwhile: without it, the drain ends with the
     queue empty or the sink failing.
     */
    method Drain(sink: FaultySink, script: seq<Attempt>) returns (ghost accepted: seq<Pending>)
      requires WellSet(State()) && Sound(sink.books) && Known(sink.books, pending)
      requires forall i :: 0 <= i < |script| ==> Known(sink.books, script[i].arrivals)
      modifies this, sink
      ensures Drained(old(State()), old(sink.books), accepted, Gentle(script), State(), sink.books)
      ensures pending == [] || failedAttempts == old(failedAttempts) + 1 || accepted != []
      ensures failedAttempts <= old(failedAttempts) + 1
      ensures (forall i :: 0 <= i < |script| ==> script[i].arrivals == []) ==> accepted == [] && dropped == old(dropped)
    {
      hide Sound, Drained, Flushed, AllEnqueued;
      var turn: nat := 0;
      accepted := [];
      NothingDrained(State(), sink.books, Gentle(script));
      while pending != []
        invariant Drained(old(State()), old(sink.books), accepted, Gentle(script), State(), sink.books)
        invariant (forall i :: 0 <= i < |script| ==> script[i].arrivals == []) ==>
          accepted == [] && dropped == old(dropped)
        invariant failedAttempts == old(failedAttempts)
        decreases |pending|
      {
        ghost var was, books := State(), sink.books;
        var before := |pending|;
        var attempt := if turn < |script| then script[turn] else Attempt(Answers, []);
        DrainedMeans(old(State()), old(sink.books), accepted, Gentle(script), State(), sink.books);
        Flush(sink, attempt);
        FlushedMeans(was, books, attempt, State(), sink.books);
        turn := turn + 1;
        DrainTurn(old(State()), old(sink.books), accepted, Gentle(script), was, books, attempt, State(), sink.books);
        accepted := accepted + AllEnqueued(was, attempt.arrivals).pending[before..];
        if |pending| >= before {
          return;
        }
      }
    }
  }
}
