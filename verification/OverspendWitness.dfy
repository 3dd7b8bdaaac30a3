/**
 Draining the queue and waiting for in-flight calls before each release is not enough: a
 call in flight while its lease is *replaced* is charged to the replacement, so the old
 lease goes back to the pool unspent and the new one is spent twice over.
 */
module OverspendWitness {
  import opened Wrappers

  import opened Lease
  import opened Ledger
  import opened Overspend
  import Settlement

  /** Every release is made with nothing in flight anywhere and the queue drained. */
  ghost predicate QuietReleases(w: World, steps: seq<Step>)
    decreases |steps|
  {
    steps == [] || !Enabled(w, steps[0])
    || ((steps[0].Release? ==> w.inFlight == [] && w.peps[steps[0].pep].queue == [])
        && QuietReleases(Apply(w, steps[0]), steps[1..]))
  }

  ghost predicate OverspendsQuietly(w: World, steps: seq<Step>) {
    && Exec(w, steps).Some? && QuietReleases(w, steps)
    && Exec(w, steps).value.books.total < Exec(w, steps).value.spent
  }

  lemma Before(w: World, step: Step, next: World, rest: seq<Step>) returns (steps: seq<Step>)
    requires Enabled(w, step) && Apply(w, step) == next
    requires step.Release? ==> w.inFlight == [] && w.peps[step.pep].queue == []
    requires OverspendsQuietly(next, rest)
    ensures steps == [step] + rest && OverspendsQuietly(w, steps)
  {
    steps := [step] + rest;
    assert steps[1..] == rest;
  }

  /** One process, one lease row per entry of `rows`, its local records and its own state. */
  ghost function At(committed: int, leased: int, rows: seq<LeaseRow>, recorded: map<nat, int>,
                    local: seq<LeaseView>, pep: Pep, inFlight: seq<Taken>, spent: int, nextId: nat): World
  {
    World(Books(20, committed, leased, 0, rows, recorded), local, [pep], inFlight, spent, nextId, 0, 5)
  }

  /** Worlds of one process are equal once their collections are, element by element. */
  lemma Same(a: World, b: World)
    requires a.books.leases == b.books.leases && a.books.reservations == b.books.reservations
    requires a.local == b.local && a.inFlight == b.inFlight
    requires |a.peps| == |b.peps| == 1
    requires a.peps[0].arriving == b.peps[0].arriving && a.peps[0].retiring == b.peps[0].retiring
    requires a.peps[0].queue == b.peps[0].queue
    requires a.peps[0] == b.peps[0].(arriving := a.peps[0].arriving, retiring := a.peps[0].retiring,
                                     queue := a.peps[0].queue)
    requires a == b.(books := a.books, local := a.local, peps := a.peps, inFlight := a.inFlight)
    requires a.books == b.books.(leases := a.books.leases, reservations := a.books.reservations)
    ensures a == b
  {
    assert a.peps == [a.peps[0]] && b.peps == [b.peps[0]];
  }

  function Row(settled: int, state: LeaseState): LeaseRow { LeaseRow(10, settled, 100, state) }

  function Local(id: nat, remaining: int, state: LeaseState): LeaseView {
    LeaseView(id, 10, remaining, 100, state)
  }

  function Holding(lease: nat, arriving: set<nat>, retiring: set<nat>, queue: seq<Settlement.Pending>): Pep {
    Pep(Some(lease), arriving, retiring, queue, false, true, 0)
  }

  // The run, last steps first. `Stage(k)` is the world after `k` of the sixteen steps.

  ghost function Entry(id: nat): Settlement.Pending { Settlement.Pending(1, id, 10, 0) }

  ghost function Stage(k: nat): World
    requires k <= 15
  {
    var rel0, rel1 := Row(0, Released), Row(10, Released);
    var act0, act1 := Row(0, Active), Row(10, Active);
    var old0 := Local(0, 0, Released);
    if k == 0 then Start(20, 1, 5)
    else if k == 1 then
      At(0, 10, [act0], map[], [Local(0, 10, Active)], Pep(None, {0}, {}, [], false, true, 0), [], 0, 0)
    else if k == 2 then
      At(0, 10, [act0], map[], [Local(0, 10, Active)], Holding(0, {}, {}, []), [], 0, 0)
    else if k == 3 then
      At(0, 10, [act0], map[], [Local(0, 0, Active)], Holding(0, {}, {}, []), [Taken(0, Reservation(0, 0, 10))], 0, 1)
    else if k == 4 then
      At(0, 20, [act0, act0], map[], [Local(0, 0, Active), Local(1, 10, Active)],
         Holding(0, {1}, {}, []), [Taken(0, Reservation(0, 0, 10))], 0, 1)
    else if k == 5 then
      At(0, 20, [act0, act0], map[], [old0, Local(1, 10, Active)],
         Holding(1, {}, {0}, []), [Taken(0, Reservation(0, 0, 10))], 0, 1)
    else if k == 6 then
      At(0, 20, [act0, act0], map[], [old0, Local(1, 10, Active)], Holding(1, {}, {0}, [Entry(0)]), [], 10, 1)
    else if k == 7 then
      At(10, 10, [act0, act1], map[0 := 10], [old0, Local(1, 10, Active)], Holding(1, {}, {0}, []), [], 10, 1)
    else if k == 8 then
      At(10, 0, [rel0, act1], map[0 := 10], [old0, Local(1, 10, Active)], Holding(1, {}, {}, []), [], 10, 1)
    else if k == 9 then
      At(10, 0, [rel0, act1], map[0 := 10], [old0, Local(1, 0, Active)],
         Holding(1, {}, {}, []), [Taken(0, Reservation(1, 1, 10))], 10, 2)
    else if k == 10 then
      At(10, 0, [rel0, act1], map[0 := 10], [old0, Local(1, 0, Active)], Holding(1, {}, {}, [Entry(1)]), [], 20, 2)
    else if k == 11 then
      At(10, 0, [rel0, act1], map[0 := 10], [old0, Local(1, 0, Active)], Holding(1, {}, {}, []), [], 20, 2)
    else if k == 12 then
      At(10, 10, [rel0, act1, act0], map[0 := 10], [old0, Local(1, 0, Active), Local(2, 10, Active)],
         Holding(1, {2}, {}, []), [], 20, 2)
    else if k == 13 then
      At(10, 10, [rel0, act1, act0], map[0 := 10], [old0, Local(1, 0, Released), Local(2, 10, Active)],
         Holding(2, {}, {1}, []), [], 20, 2)
    else if k == 14 then
      At(10, 10, [rel0, rel1, act0], map[0 := 10], [old0, Local(1, 0, Released), Local(2, 10, Active)],
         Holding(2, {}, {}, []), [], 20, 2)
    else
      At(10, 10, [rel0, rel1, act0], map[0 := 10], [old0, Local(1, 0, Released), Local(2, 0, Active)],
         Holding(2, {}, {}, []), [Taken(0, Reservation(2, 2, 10))], 20, 3)
  }

  /** The last lease is spent although the budget is already gone. */
  lemma LastSpend() returns (steps: seq<Step>)
    ensures OverspendsQuietly(Stage(14), steps)
  {
    var last := Apply(Stage(15), Settle(0, true));
    assert last.spent == 30 && last.books.total == 20;
    steps := Before(Stage(15), Settle(0, true), last, []);
    Same(Apply(Stage(14), Reserve(0, 10)), Stage(15));
    steps := Before(Stage(14), Reserve(0, 10), Stage(15), steps);
  }

  lemma SecondLeaseReleased() returns (steps: seq<Step>)
    ensures OverspendsQuietly(Stage(13), steps)
  {
    steps := LastSpend();
    Same(Apply(Stage(13), Release(0, 1)), Stage(14));
    steps := Before(Stage(13), Release(0, 1), Stage(14), steps);
  }

  lemma LastInstalled() returns (steps: seq<Step>)
    ensures OverspendsQuietly(Stage(12), steps)
  {
    steps := SecondLeaseReleased();
    Same(Apply(Stage(12), Install(0, 2)), Stage(13));
    steps := Before(Stage(12), Install(0, 2), Stage(13), steps);
  }

  /** The third lease is granted from what the first gave back unspent. */
  lemma LastGrant() returns (steps: seq<Step>)
    ensures OverspendsQuietly(Stage(11), steps)
  {
    steps := LastInstalled();
    Same(Apply(Stage(11), Step.Acquire(0, 10, 100)), Stage(12));
    steps := Before(Stage(11), Step.Acquire(0, 10, 100), Stage(12), steps);
  }

  /** Flushing a single entry in full is one LEDGER_COMMIT. */
  lemma FlushOne(w: World, entry: Settlement.Pending)
    requires |w.peps| == 1 && w.peps[0].alive && w.peps[0].queue == [entry]
    requires entry.leaseId < |w.books.leases| && w.books.leases[entry.leaseId].state == Active
    ensures Enabled(w, Flush(0, 1, [true], true))
    ensures Apply(w, Flush(0, 1, [true], true)).books
         == CommitOne(w.books, entry.leaseId, Item(entry.reservationId, entry.amount)).0
  {
    assert [entry][..1] == [entry];
    var items := Settlement.Items([entry]);
    var item := Item(entry.reservationId, entry.amount);
    assert items == [item] && [item][1..] == [] && [true][1..] == [];
    assert Part(items, [true]) == [item];
    var mid := CommitOne(w.books, entry.leaseId, item).0;
    CommitNone(mid, entry.leaseId, {} + {entry.reservationId});
    assert CommitAll(w.books, entry.leaseId, [item], {}).0 == mid;
  }

  lemma SecondSettlementClamped() returns (steps: seq<Step>)
    ensures OverspendsQuietly(Stage(10), steps)
  {
    steps := LastGrant();
    FlushOne(Stage(10), Entry(1));
    assert CommitOne(Stage(10).books, 1, Item(1, 10)).0 == Stage(10).books;
    Same(Apply(Stage(10), Flush(0, 1, [true], true)), Stage(11));
    steps := Before(Stage(10), Flush(0, 1, [true], true), Stage(11), steps);
  }

  lemma SecondCallSettled() returns (steps: seq<Step>)
    ensures OverspendsQuietly(Stage(9), steps)
  {
    steps := SecondSettlementClamped();
    Same(Apply(Stage(9), Settle(0, true)), Stage(10));
    steps := Before(Stage(9), Settle(0, true), Stage(10), steps);
  }

  /** The second lease is spent locally in full, although the ledger already charged it. */
  lemma SecondLeaseSpentTwice() returns (steps: seq<Step>)
    ensures OverspendsQuietly(Stage(8), steps)
  {
    steps := SecondCallSettled();
    Same(Apply(Stage(8), Reserve(0, 10)), Stage(9));
    steps := Before(Stage(8), Reserve(0, 10), Stage(9), steps);
  }

  /** The old lease goes back whole, although its only reservation was spent. */
  lemma FirstLeaseGoesBackWhole() returns (steps: seq<Step>)
    ensures OverspendsQuietly(Stage(7), steps)
  {
    steps := SecondLeaseSpentTwice();
    Same(Apply(Stage(7), Release(0, 0)), Stage(8));
    steps := Before(Stage(7), Release(0, 0), Stage(8), steps);
  }

  lemma ChargeApplied() returns (steps: seq<Step>)
    ensures OverspendsQuietly(Stage(6), steps)
  {
    steps := FirstLeaseGoesBackWhole();
    FlushOne(Stage(6), Entry(0));
    Same(Apply(Stage(6), Flush(0, 1, [true], true)), Stage(7));
    steps := Before(Stage(6), Flush(0, 1, [true], true), Stage(7), steps);
  }

  /** The first call settles after its lease was replaced. */
  lemma ChargedToTheReplacement() returns (steps: seq<Step>)
    ensures OverspendsQuietly(Stage(5), steps)
  {
    steps := ChargeApplied();
    Same(Apply(Stage(5), Settle(0, true)), Stage(6));
    steps := Before(Stage(5), Settle(0, true), Stage(6), steps);
  }

  lemma ReplacedInFlight() returns (steps: seq<Step>)
    ensures OverspendsQuietly(Stage(4), steps)
  {
    steps := ChargedToTheReplacement();
    Same(Apply(Stage(4), Install(0, 1)), Stage(5));
    steps := Before(Stage(4), Install(0, 1), Stage(5), steps);
  }

  lemma ReplacementGranted() returns (steps: seq<Step>)
    ensures OverspendsQuietly(Stage(3), steps)
  {
    steps := ReplacedInFlight();
    Same(Apply(Stage(3), Step.Acquire(0, 10, 100)), Stage(4));
    steps := Before(Stage(3), Step.Acquire(0, 10, 100), Stage(4), steps);
  }

  lemma FirstCallInFlight() returns (steps: seq<Step>)
    ensures OverspendsQuietly(Stage(2), steps)
  {
    steps := ReplacementGranted();
    Same(Apply(Stage(2), Reserve(0, 10)), Stage(3));
    steps := Before(Stage(2), Reserve(0, 10), Stage(3), steps);
  }

  /**
   The expected rule fails: here is a run of one process against a budget of 20 in which
   every release is quiet and drained, every ledger call succeeds, and 30 is spent.
   */
  lemma QuietReleasesCanOverspend() returns (steps: seq<Step>)
    ensures OverspendsQuietly(Start(20, 1, 5), steps)
  {
    steps := FirstCallInFlight();
    Same(Apply(Stage(1), Install(0, 0)), Stage(2));
    steps := Before(Stage(1), Install(0, 0), Stage(2), steps);
    Same(Apply(Stage(0), Step.Acquire(0, 10, 100)), Stage(1));
    steps := Before(Stage(0), Step.Acquire(0, 10, 100), Stage(1), steps);
  }
}
