/**
 The bounded audit buffer: what each step does to it, what every run of emits and writes
 keeps, and the class whose flush and drain loops take those steps.
 */
module Emitter {
  import opened Wrappers

  datatype BackPressure = Refuse | Drop

  datatype Settings = Settings(capacity: nat, batchMax: nat, backPressure: BackPressure)

  predicate Accepted(s: Settings) { 0 < s.capacity && 0 < s.batchMax }

  /** What the sink says to one batch; any failure other than a rejection is taken as passing. */
  datatype Answer = Takes | Rejects | Fails

  datatype Buffer<+R> = Buffer(
    queue: seq<R>, pending: Option<seq<R>>, attempts: nat, closed: bool,
    dropped: nat, failedBatches: nat, lostRecords: nat)

  datatype Emission = Queued | Dropped | Full

  function Emitted<R>(b: Buffer<R>, r: R, s: Settings): (out: (Buffer<R>, Emission)) {
    if b.closed then (b, Full)
    else if |b.queue| < s.capacity then (b.(queue := b.queue + [r]), Queued)
    else if s.backPressure == Drop then (b.(dropped := b.dropped + 1), Dropped)
    else (b, Full)
  }

  function Held<R>(b: Buffer<R>): (r: seq<R>) { if b.pending.Some? then b.pending.value else [] }

  /** A writer takes the next batch, unless one is already pending. */
  function Claimed<R>(b: Buffer<R>, s: Settings): (out: Buffer<R>) {
    if b.pending.Some? || b.queue == [] then b
    else
      var n := if |b.queue| < s.batchMax then |b.queue| else s.batchMax;
      b.(queue := b.queue[n..], pending := Some(b.queue[..n]), attempts := 0)
  }

  /** The sink's answer to the pending batch. */
  function Answered<R>(b: Buffer<R>, a: Answer): (out: Buffer<R>)
    requires b.pending.Some?
  {
    match a
    case Takes => b.(pending := None, attempts := 0)
    case Rejects =>
      b.(pending := None, attempts := 0, failedBatches := b.failedBatches + 1,
         lostRecords := b.lostRecords + |b.pending.value|)
    case Fails => b.(failedBatches := b.failedBatches + 1, attempts := b.attempts + 1)
  }

  // ------------------------------------------------------------------------------------
  // Every run
  // ------------------------------------------------------------------------------------

  /** What became of a record the buffer has let go of. */
  datatype Fate<+R> = Fate(record: R, written: bool)

  /** The buffer, whether a writer holds the lock, and the history behind them. */
  datatype System<+R> = System(
    buffer: Buffer<R>, writing: bool, accepted: seq<R>, finished: seq<Fate<R>>, offered: nat)

  /** Emits happen between any two of these; only one writer is ever inside a write. */
  datatype Step<+R> = Emit(record: R) | Claim | Reply(answer: Answer) | Close

  function Fates<R>(records: seq<R>, written: bool): (r: seq<Fate<R>>)
    ensures |r| == |records| && forall i :: 0 <= i < |r| ==> r[i] == Fate(records[i], written)
  {
    seq(|records|, i requires 0 <= i < |records| => Fate(records[i], written))
  }

  function Apply<R>(y: System<R>, step: Step<R>, s: Settings): (r: System<R>) {
    match step
    case Emit(record) =>
      var (b, outcome) := Emitted(y.buffer, record, s);
      y.(buffer := b, offered := y.offered + 1, accepted := if outcome == Queued then y.accepted + [record] else y.accepted)
    case Claim =>
      if y.writing then y
      else
        var b := Claimed(y.buffer, s);
        y.(buffer := b, writing := b.pending.Some?)
    case Reply(answer) =>
      if !y.writing || y.buffer.pending.None? then y
      else
        var done := if answer == Fails then [] else Fates(y.buffer.pending.value, answer == Takes);
        y.(buffer := Answered(y.buffer, answer), writing := false, finished := y.finished + done)
    case Close => y.(buffer := y.buffer.(closed := true))
  }

  function Exec<R>(steps: seq<Step<R>>, s: Settings): (r: System<R>) {
    if steps == [] then System(Buffer([], None, 0, false, 0, 0, 0), false, [], [], 0)
    else Apply(Exec(steps[..|steps| - 1], s), steps[|steps| - 1], s)
  }

  function Records<R>(fates: seq<Fate<R>>): (r: seq<R>)
    ensures |r| == |fates| && forall i :: 0 <= i < |r| ==> r[i] == fates[i].record
  {
    seq(|fates|, i requires 0 <= i < |fates| => fates[i].record)
  }

  function Lost<R>(fates: seq<Fate<R>>): (n: nat) {
    if fates == [] then 0 else Lost(fates[..|fates| - 1]) + (if fates[|fates| - 1].written then 0 else 1)
  }

  /** Nothing accepted is out of place: finished, then pending, then queued, first in first out. */
  ghost predicate InOrder<R>(y: System<R>) {
    y.accepted == Records(y.finished) + Held(y.buffer) + y.buffer.queue
  }

  ghost predicate Bounded<R>(y: System<R>, s: Settings) {
    |y.buffer.queue| <= s.capacity && |Held(y.buffer)| <= s.batchMax
  }

  ghost predicate Inv<R>(y: System<R>, s: Settings) {
    && InOrder(y) && Bounded(y, s)
    && (y.writing ==> y.buffer.pending.Some?)
    && (y.buffer.pending.Some? ==> y.buffer.pending.value != [])
    && y.buffer.lostRecords == Lost(y.finished)
    && |y.accepted| + y.buffer.dropped <= y.offered
    && (s.backPressure == Refuse ==> y.buffer.dropped == 0)
  }

  lemma LostOne<R>(fates: seq<Fate<R>>, f: Fate<R>)
    ensures Lost(fates + [f]) == Lost(fates) + (if f.written then 0 else 1)
  {
    assert (fates + [f])[..|fates|] == fates;
  }

  lemma {:induction false} LostFates<R>(fates: seq<Fate<R>>, records: seq<R>, written: bool)
    ensures Lost(fates + Fates(records, written)) == Lost(fates) + (if written then 0 else |records|)
    decreases |records|
  {
    hide Lost;
    if records == [] {
      assert fates + Fates(records, written) == fates;
    } else {
      var n := |records| - 1;
      var front, last := fates + Fates(records[..n], written), Fate(records[n], written);
      LostFates(fates, records[..n], written);
      LostOne(front, last);
      assert fates + Fates(records, written) == front + [last];
    }
  }

  lemma ClaimKeepsInv<R>(y: System<R>, s: Settings)
    requires Accepted(s) && Inv(y, s)
    ensures Inv(Apply(y, Claim, s), s)
  {
  }

  lemma ReplyKeepsInv<R>(y: System<R>, answer: Answer, s: Settings)
    requires Accepted(s) && Inv(y, s)
    ensures Inv(Apply(y, Reply(answer), s), s)
  {
    if y.writing {
      var z, batch := Apply(y, Reply(answer), s), y.buffer.pending.value;
      LostFates(y.finished, batch, answer == Takes);
      if answer == Fails {
        assert y.finished + [] == y.finished;
      } else {
        assert Records(z.finished) == Records(y.finished) + batch;
        assert Records(z.finished) + [] + y.buffer.queue == Records(y.finished) + batch + y.buffer.queue;
      }
    }
  }

  lemma EmitKeepsInv<R>(y: System<R>, record: R, s: Settings)
    requires Accepted(s) && Inv(y, s)
    ensures Inv(Apply(y, Emit(record), s), s)
  {
    var front := Records(y.finished) + Held(y.buffer);
    assert front + y.buffer.queue + [record] == front + (y.buffer.queue + [record]);
  }

  lemma StepKeepsInv<R>(y: System<R>, step: Step<R>, s: Settings)
    requires Accepted(s) && Inv(y, s)
    ensures Inv(Apply(y, step, s), s)
  {
    match step
    case Emit(record) => EmitKeepsInv(y, record, s);
    case Claim => ClaimKeepsInv(y, s);
    case Reply(answer) => ReplyKeepsInv(y, answer, s);
    case Close =>
  }

  lemma {:induction false} RunKeepsInv<R>(steps: seq<Step<R>>, s: Settings)
    requires Accepted(s)
    ensures Inv(Exec(steps, s), s)
  {
    if steps != [] {
      RunKeepsInv(steps[..|steps| - 1], s);
      StepKeepsInv(Exec(steps[..|steps| - 1], s), steps[|steps| - 1], s);
    }
  }

  /**
   Over every interleaving of emits with the drain task and any flush: the accepted records are
   exactly those finished, pending and queued, in the order accepted; a record is lost only by
   a rejection; and what is buffered stays under the capacity plus one batch.
   */
  lemma NothingAcceptedGoesMissing<R>(steps: seq<Step<R>>, s: Settings)
    requires Accepted(s)
    ensures
      var y := Exec(steps, s);
      && y.accepted == Records(y.finished) + Held(y.buffer) + y.buffer.queue
      && y.buffer.lostRecords == Lost(y.finished)
      && |Held(y.buffer)| + |y.buffer.queue| <= s.capacity + s.batchMax
  {
    RunKeepsInv(steps, s);
  }

  lemma {:induction false} ClosedStays<R>(front: seq<Step<R>>, more: seq<Step<R>>, s: Settings)
    requires Exec(front, s).buffer.closed
    ensures Exec(front + more, s).buffer.closed && Exec(front + more, s).accepted == Exec(front, s).accepted
    decreases |more|
  {
    if more == [] {
      assert front + more == front;
    } else {
      var n := |more| - 1;
      ClosedStays(front, more[..n], s);
      assert (front + more)[..|front + more| - 1] == front + more[..n] && (front + more)[|front + more| - 1] == more[n];
    }
  }

  /** After closing nothing more is accepted, whatever is still emitted or written. */
  lemma ClosedAcceptsNothing<R>(front: seq<Step<R>>, more: seq<Step<R>>, s: Settings)
    ensures Exec(front + [Close] + more, s).accepted == Exec(front, s).accepted
  {
    assert (front + [Close])[..|front|] == front && (front + [Close])[|front|] == Close;
    ClosedStays(front + [Close], more, s);
  }

  predicate NoRejection<R>(steps: seq<Step<R>>) { forall i :: 0 <= i < |steps| ==> steps[i] != Reply(Rejects) }

  lemma {:induction false} OnlyRejectionsLose<R>(steps: seq<Step<R>>, s: Settings)
    requires Accepted(s) && NoRejection(steps)
    ensures Exec(steps, s).buffer.lostRecords == 0
  {
    if steps != [] {
      var before := steps[..|steps| - 1];
      OnlyRejectionsLose(before, s);
      RunKeepsInv(before, s);
      assert steps[|steps| - 1] != Reply(Rejects);
    }
  }

  // ------------------------------------------------------------------------------------
  // The emitter
  // ------------------------------------------------------------------------------------

  /** What happens while one write is away: the records emitted meanwhile, and the sink's answer. */
  datatype Away<+R> = Away(emitted: seq<R>, answer: Answer)

  /** Emits in a row. */
  function Arrived<R>(b: Buffer<R>, records: seq<R>, s: Settings): (r: Buffer<R>) {
    if records == [] then b
    else Emitted(Arrived(b, records[..|records| - 1], s), records[|records| - 1], s).0
  }

  lemma {:induction false} ArrivalsOnlyQueue<R>(b: Buffer<R>, records: seq<R>, s: Settings)
    requires |b.queue| <= s.capacity
    ensures
      var a := Arrived(b, records, s);
      && a.pending == b.pending && a.attempts == b.attempts && a.closed == b.closed && b.queue <= a.queue
      && a.failedBatches == b.failedBatches && a.lostRecords == b.lostRecords
      && |a.queue| <= |b.queue| + |records| && |a.queue| <= s.capacity
      && (b.closed ==> a == b)
  {
    if records != [] {
      ArrivalsOnlyQueue(b, records[..|records| - 1], s);
    }
  }

  /** One write: the batch is claimed, emits go on, the answer comes. */
  function Written<R>(b: Buffer<R>, away: Away<R>, s: Settings): (r: Buffer<R>)
    requires |b.queue| <= s.capacity
    ensures |r.queue| <= s.capacity
    ensures r.pending.Some? ==> away.answer == Fails && r.pending == Claimed(b, s).pending
    ensures away.answer == Fails ==> r.pending == Claimed(b, s).pending
  {
    var claimed := Claimed(b, s);
    ArrivalsOnlyQueue(claimed, away.emitted, s);
    if claimed.pending.None? then claimed else Answered(Arrived(claimed, away.emitted, s), away.answer)
  }

  /** What one write does to the batch and the counters. */
  ghost predicate WriteCounts<R>(before: Buffer<R>, away: Away<R>, s: Settings, after: Buffer<R>) {
    var claimed := Claimed(before, s);
    && after.closed == before.closed
    && (claimed.pending.None? ==> after == before)
    && (claimed.pending.Some? ==>
         match away.answer
         case Takes =>
           after.pending.None? && after.failedBatches == before.failedBatches && after.lostRecords == before.lostRecords
         case Rejects =>
           && after.pending.None? && after.failedBatches == before.failedBatches + 1
           && after.lostRecords == before.lostRecords + |claimed.pending.value|
         case Fails =>
           && after.pending == claimed.pending && after.attempts == claimed.attempts + 1
           && after.failedBatches == before.failedBatches + 1 && after.lostRecords == before.lostRecords)
  }

  lemma WrittenCounts<R>(before: Buffer<R>, away: Away<R>, s: Settings)
    requires |before.queue| <= s.capacity
    ensures WriteCounts(before, away, s, Written(before, away, s))
  {
    ArrivalsOnlyQueue(Claimed(before, s), away.emitted, s);
  }

  /** Past the end of the list the sink only fails, and nothing is emitted. */
  function AwayAt<R>(aways: seq<Away<R>>, i: nat): (a: Away<R>) { if i < |aways| then aways[i] else Away([], Fails) }

  predicate FailsAt<R>(aways: seq<Away<R>>, i: nat) { AwayAt(aways, i).answer == Fails }

  function AfterWrites<R>(b: Buffer<R>, aways: seq<Away<R>>, n: nat, s: Settings): (r: Buffer<R>)
    requires |b.queue| <= s.capacity
    ensures |r.queue| <= s.capacity
  {
    if n == 0 then b else Written(AfterWrites(b, aways, n - 1, s), AwayAt(aways, n - 1), s)
  }

  /** What a flush takes for no progress. */
  predicate Stuck<R(==)>(before: Buffer<R>, after: Buffer<R>) {
    after.pending.Some? && (after.pending == before.pending || |after.queue| == |before.queue|)
  }

  /**
   A failed write ends a quiet flush only if its batch was already pending: a batch claimed by
   the flush itself is tried a second time at once.
   */
  lemma FailureEndsFlushIffPending<R>(b: Buffer<R>, s: Settings)
    requires Accepted(s) && |b.queue| <= s.capacity && (b.pending.Some? || b.queue != [])
    ensures Stuck(b, Written(b, Away([], Fails), s)) <==> b.pending.Some?
  {
  }

  // -- a quiet flush ends, whatever the sink answers --------------------------------------

  predicate Idle<R>(b: Buffer<R>) { b.queue == [] && b.pending.None? }

  /** What is left to do: a queued record may cost two writes, a pending batch one. */
  function Effort<R>(b: Buffer<R>): nat { 2 * |b.queue| + (if b.pending.Some? then 1 else 0) }

  /** A write with nothing emitted meanwhile lowers the effort, or is the flush's last. */
  lemma QuietWriteProgresses<R>(b: Buffer<R>, answer: Answer, s: Settings)
    requires Accepted(s) && |b.queue| <= s.capacity && !Idle(b)
    ensures Stuck(b, Written(b, Away([], answer), s)) || Effort(Written(b, Away([], answer), s)) < Effort(b)
  {
  }

  function AfterAnswers<R>(b: Buffer<R>, answers: nat -> Answer, n: nat, s: Settings): (r: Buffer<R>)
    requires |b.queue| <= s.capacity
    ensures |r.queue| <= s.capacity
  {
    if n == 0 then b else Written(AfterAnswers(b, answers, n - 1, s), Away([], answers(n - 1)), s)
  }

  /** The flush loop leaves after its n-th write, and not before. */
  ghost predicate EndsAfter<R>(b: Buffer<R>, answers: nat -> Answer, n: nat, s: Settings)
    requires |b.queue| <= s.capacity
  {
    && (forall i: nat :: i < n ==> !Idle(AfterAnswers(b, answers, i, s)))
    && (forall i: nat :: 0 < i < n ==> !Stuck(AfterAnswers(b, answers, i - 1, s), AfterAnswers(b, answers, i, s)))
    && (Idle(AfterAnswers(b, answers, n, s))
        || (n > 0 && Stuck(AfterAnswers(b, answers, n - 1, s), AfterAnswers(b, answers, n, s))))
  }

  lemma {:induction false} EndsFrom<R>(b: Buffer<R>, answers: nat -> Answer, i: nat, s: Settings) returns (n: nat)
    requires Accepted(s) && |b.queue| <= s.capacity
    requires forall k: nat :: k < i ==> !Idle(AfterAnswers(b, answers, k, s))
    requires forall k: nat :: 0 < k <= i ==> !Stuck(AfterAnswers(b, answers, k - 1, s), AfterAnswers(b, answers, k, s))
    ensures EndsAfter(b, answers, n, s) && n <= i + Effort(AfterAnswers(b, answers, i, s))
    decreases Effort(AfterAnswers(b, answers, i, s))
  {
    hide Written, Stuck;
    var now := AfterAnswers(b, answers, i, s);
    if Idle(now) {
      return i;
    }
    QuietWriteProgresses(now, answers(i), s);
    assert AfterAnswers(b, answers, i + 1, s) == Written(now, Away([], answers(i)), s);
    if Stuck(now, AfterAnswers(b, answers, i + 1, s)) {
      n := i + 1;
    } else {
      n := EndsFrom(b, answers, i + 1, s);
    }
  }

  /**
   With no emits meanwhile a flush ends whatever the sink goes on answering, for ever: within
   two writes a queued record and one more for a pending batch.
   */
  lemma QuietFlushEnds<R>(b: Buffer<R>, answers: nat -> Answer, s: Settings) returns (n: nat)
    requires Accepted(s) && |b.queue| <= s.capacity
    ensures EndsAfter(b, answers, n, s) && n <= Effort(b)
  {
    n := EndsFrom(b, answers, 0, s);
  }

  // -- a write is a run of the steps ---------------------------------------------------------

  function Ran<R>(y: System<R>, steps: seq<Step<R>>, s: Settings): (r: System<R>) {
    if steps == [] then y else Apply(Ran(y, steps[..|steps| - 1], s), steps[|steps| - 1], s)
  }

  function Emits<R>(records: seq<R>): (r: seq<Step<R>>)
    ensures |r| == |records| && forall i :: 0 <= i < |r| ==> r[i] == Emit(records[i])
  {
    seq(|records|, i requires 0 <= i < |records| => Emit(records[i]))
  }

  lemma {:induction false} EmitsRun<R>(y: System<R>, records: seq<R>, s: Settings)
    ensures Ran(y, Emits(records), s).buffer == Arrived(y.buffer, records, s)
    ensures Ran(y, Emits(records), s).writing == y.writing
  {
    if records != [] {
      assert Emits(records)[..|records| - 1] == Emits(records[..|records| - 1]);
      EmitsRun(y, records[..|records| - 1], s);
    }
  }

  /** What the emitter's write does is what the steps do: claim, emits, reply. */
  lemma WriteIsARun<R>(y: System<R>, away: Away<R>, s: Settings)
    requires Accepted(s) && Inv(y, s) && !y.writing && Claimed(y.buffer, s).pending.Some?
    ensures Apply(Ran(Apply(y, Claim, s), Emits(away.emitted), s), Reply(away.answer), s).buffer == Written(y.buffer, away, s)
  {
    EmitsRun(Apply(y, Claim, s), away.emitted, s);
    ArrivalsOnlyQueue(Claimed(y.buffer, s), away.emitted, s);
  }

  class DecisionEmitter<R(==)> {
    const settings: Settings
    var queue: seq<R>
    var pending: Option<seq<R>>
    var attempts: nat
    var closed: bool
    var dropped: nat
    var failedBatches: nat
    var lostRecords: nat

    ghost predicate Valid()
      reads this
    {
      && Accepted(settings) && |queue| <= settings.capacity
      && (pending.Some? ==> 0 < |pending.value| <= settings.batchMax)
    }

    function Buf(): Buffer<R>
      reads this
    {
      Buffer(queue, pending, attempts, closed, dropped, failedBatches, lostRecords)
    }

    constructor (settings: Settings)
      requires Accepted(settings)
      ensures Valid() && Buf() == Buffer([], None, 0, false, 0, 0, 0) && this.settings == settings
    {
      this.settings := settings;
      queue, pending, attempts, closed := [], None, 0, false;
      dropped, failedBatches, lostRecords := 0, 0, 0;
    }

    /** `Full` is the raised refusal: the caller must not let the request through. */
    method Emit(record: R) returns (outcome: Emission)
      requires Valid()
      modifies this`queue, this`dropped
      ensures Valid() && (Buf(), outcome) == Emitted(old(Buf()), record, settings)
      ensures outcome == Queued <==> !closed && |old(queue)| < settings.capacity
      ensures outcome == Dropped <==> !closed && |old(queue)| == settings.capacity && settings.backPressure == Drop
      ensures queue == (if outcome == Queued then old(queue) + [record] else old(queue))
      ensures dropped == (if outcome == Dropped then old(dropped) + 1 else old(dropped))
    {
      if closed {
        return Full;
      }
      if |queue| >= settings.capacity {
        if settings.backPressure == Drop {
          dropped := dropped + 1;
          return Dropped;
        }
        return Full;
      }
      queue := queue + [record];
      outcome := Queued;
    }

    method FinishPending()
      requires Valid() && pending.Some?
      modifies this`pending, this`attempts
      ensures Valid() && pending == None && attempts == 0
    {
      pending, attempts := None, 0;
    }

    /** The first half of a write: fill a batch from the queue, record by record. */
    method ClaimBatch()
      requires Valid()
      modifies this`queue, this`pending, this`attempts
      ensures Valid() && Buf() == Claimed(old(Buf()), settings)
      ensures old(pending).Some? || old(queue) == [] ==> Buf() == old(Buf())
      ensures old(pending).None? && old(queue) != [] ==>
        && pending.Some? && pending.value + queue == old(queue) && attempts == 0
        && (|pending.value| == settings.batchMax || queue == [])
    {
      if pending.None? {
        var batch: seq<R> := [];
        while |batch| < settings.batchMax && queue != []
          invariant |batch| <= settings.batchMax && |batch| <= |old(queue)|
          invariant batch == old(queue)[..|batch|] && queue == old(queue)[|batch|..]
          invariant pending.None? && attempts == old(attempts)
          decreases |queue|
        {
          batch := batch + [queue[0]];
          queue := queue[1..];
        }
        if batch != [] {
          pending, attempts := Some(batch), 0;
        }
      }
    }

    /** One write, under the lock: `away` is what goes on while the sink has the batch. */
    method WriteBatch(away: Away<R>)
      requires Valid()
      modifies this
      ensures Valid() && Buf() == Written(old(Buf()), away, settings)
      ensures WriteCounts(old(Buf()), away, settings, Buf())
    {
      WrittenCounts(Buf(), away, settings);
      ClaimBatch();
      if pending.None? {
        return;
      }
      ghost var claimed := Buf();
      for i := 0 to |away.emitted|
        invariant Valid() && Buf() == Arrived(claimed, away.emitted[..i], settings) && pending == claimed.pending
      {
        assert away.emitted[..i + 1][..i] == away.emitted[..i];
        var outcome := Emit(away.emitted[i]);
      }
      assert away.emitted[..|away.emitted|] == away.emitted;
      match away.answer
      case Takes => FinishPending();
      case Rejects =>
        failedBatches := failedBatches + 1;
        lostRecords := lostRecords + |pending.value|;
        FinishPending();
      case Fails =>
        failedBatches := failedBatches + 1;
        attempts := attempts + 1;
    }

    /**
     Writes until nothing is left or nothing moves; the i-th write meets the i-th of `aways`.
     It always ends. Something is left only if the last write failed, and no batch is tried
     more than twice: a second failure in a row ends the flush, as does a first failure of a
     batch that was already pending.
     */
    method Flush(aways: seq<Away<R>>) returns (writes: nat)
      requires Valid()
      modifies this
      ensures Valid()
      ensures Buf() == AfterWrites(old(Buf()), aways, writes, settings)
      ensures pending.None? ==> queue == []
      ensures pending.Some? ==> writes > 0 && FailsAt(aways, writes - 1)
      ensures forall i :: 0 <= i && i + 1 < writes && FailsAt(aways, i) && FailsAt(aways, i + 1) ==> i + 2 == writes
      ensures old(pending).Some? && writes > 0 && FailsAt(aways, 0) ==> writes == 1
    {
      writes := 0;
      ghost var begun := Buf();
      while queue != [] || pending.Some?
        invariant Valid() && Buf() == AfterWrites(begun, aways, writes, settings)
        invariant writes > 0 ==> (pending.Some? <==> FailsAt(aways, writes - 1))
        invariant writes == 0 ==> pending == begun.pending
        invariant forall i :: 0 <= i && i + 1 < writes ==> !(FailsAt(aways, i) && FailsAt(aways, i + 1))
        invariant begun.pending.Some? && writes > 0 ==> !FailsAt(aways, 0)
        decreases if writes < |aways| then |aways| - writes else 0, pending.None?
      {
        var before := Buf();
        WriteBatch(AwayAt(aways, writes));
        writes := writes + 1;
        if Stuck(before, Buf()) {
          return;
        }
      }
    }
  }
}
