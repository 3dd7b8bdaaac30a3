/**
 The central ledger: one budget row and the leases drawn from it. Every operation is one
 serialized transaction, so each is a function from books to books; `LedgerStore` is the
 database that runs them. Lease ids are row positions, which are as unique as the UUIDs.
 */
module Ledger {
  import opened Sums
  import opened Wrappers

  import opened Lease

  /** How late the reaper is: it reclaims strictly after `expiresAt + SKEW_ALLOWANCE`. */
  const SKEW_ALLOWANCE: int := 5_000_000

  datatype LeaseRow = LeaseRow(granted: int, settled: int, expiresAt: int, state: LeaseState)
  {
    function Outstanding(): int { granted - settled }
  }

  /** `promised` is the row's `allocated` column: budget given away to children. */
  datatype Books = Books(
    total: int, committed: int, leased: int, promised: int,
    leases: seq<LeaseRow>, reservations: map<nat, int>)
  {
    function Available(): int { total - committed - leased - promised }
  }

  /** One settlement as LEDGER_COMMIT receives it; its lease is named once per batch. */
  datatype Item = Item(reservationId: nat, amount: int)

  function Held(row: LeaseRow): int { if row.state == Active then row.Outstanding() else 0 }

  function SettledOf(row: LeaseRow): int { row.settled }

  /** What the schema and the invariant checker both require of the books. */
  ghost predicate Sound(b: Books) {
    && 0 <= b.committed && 0 <= b.leased && 0 <= b.promised
    && b.committed + b.leased + b.promised <= b.total
    && b.leased == Sum(b.leases, Held)
    && b.committed == Sum(b.leases, SettledOf)
    && forall i :: 0 <= i < |b.leases| ==> 0 <= b.leases[i].settled <= b.leases[i].granted
  }

  function Min(a: int, b: int): int { if a <= b then a else b }

  /** ACQUIRE: the new books and the lease granted, or None when nothing is left. */
  function Acquire(b: Books, requested: int, expiresAt: int): (r: (Books, Option<nat>)) {
    var grant := Min(requested, b.Available());
    if grant <= 0 then (b, None)
    else
      (b.(leased := b.leased + grant, leases := b.leases + [LeaseRow(grant, 0, expiresAt, Active)]),
       Some(|b.leases|))
  }

  /** RELEASE and REAP share this body: the outstanding part goes back exactly once. */
  function Retire(b: Books, id: nat, next: LeaseState): (r: (Books, bool))
    requires id < |b.leases|
  {
    var row := b.leases[id];
    if row.state != Active then (b, false)
    else
      (b.(leased := b.leased - row.Outstanding(), leases := b.leases[id := row.(state := next)]), true)
  }

  predicate Reapable(b: Books, id: nat, now: int)
    requires id < |b.leases|
  {
    b.leases[id].state == Active && b.leases[id].expiresAt < now - SKEW_ALLOWANCE
  }

  /** One item of LEDGER_COMMIT against an active lease: dedup, clamp, then apply. */
  function CommitOne(b: Books, id: nat, item: Item): (r: (Books, bool))
    requires id < |b.leases|
  {
    var row := b.leases[id];
    var applied := Min(item.amount, row.Outstanding());
    if item.reservationId in b.reservations || applied <= 0 then (b, false)
    else
      (b.(committed := b.committed + applied,
          leased := b.leased - applied,
          leases := b.leases[id := row.(settled := row.settled + applied)],
          reservations := b.reservations[item.reservationId := applied]),
       true)
  }

  /**
   The whole batch in one transaction, left to right, each item clamped to what its
   predecessors left. `seen` are the ids met earlier in it: one met again is skipped, whether
   or not anything was applied for it the first time.
   */
  function CommitAll(b: Books, id: nat, items: seq<Item>, seen: set<nat>): (r: (Books, seq<bool>))
    requires id < |b.leases|
    ensures |r.1| == |items| && |r.0.leases| == |b.leases|
    decreases |items|
  {
    if items == [] then (b, [])
    else
      var x := items[0].reservationId;
      var (mid, first) := if x in seen then (b, false) else CommitOne(b, id, items[0]);
      var (end, others) := CommitAll(mid, id, items[1..], seen + {x});
      (end, [first] + others)
  }

  /** The same settlements, each in a transaction of its own. */
  function CommitSingly(b: Books, id: nat, items: seq<Item>): (r: Books)
    requires id < |b.leases|
    ensures |r.leases| == |b.leases|
    decreases |items|
  {
    if items == [] then b else CommitSingly(CommitOne(b, id, items[0]).0, id, items[1..])
  }

  /** LEDGER_COMMIT with the sink's reading of a lease that is no longer active. */
  function CommitBatch(b: Books, id: nat, items: seq<Item>): (r: (Books, seq<bool>))
    requires id < |b.leases|
    ensures |r.1| == |items| && |r.0.leases| == |b.leases|
  {
    if b.leases[id].state != Active then (b, seq(|items|, i => false))
    else CommitAll(b, id, items, {})
  }

  // ------------------------------------------------------------------------------------
  // Safety of the books, for every caller
  // ------------------------------------------------------------------------------------

  /**
   What ACQUIRE owes its caller: nothing where nothing was asked for or nothing is free;
   otherwise one new active lease of what was asked for or all that is free, the smaller, taken
   out of what was free and out of nothing else.
   */
  ghost predicate Grants(b: Books, requested: int, expiresAt: int, after: Books, lease: Option<nat>) {
    var free := b.total - b.committed - b.leased - b.promised;
    && (lease.Some? <==> 0 < requested && 0 < free)
    && (lease.None? ==> after == b)
    && (lease.Some? ==>
         && lease.value == |b.leases| && |after.leases| == |b.leases| + 1
         && after.leases[..|b.leases|] == b.leases
         && var row := after.leases[|b.leases|];
            && row.granted <= requested && row.granted <= free && (row.granted == requested || row.granted == free)
            && row.settled == 0 && row.expiresAt == expiresAt && row.state == Active
            && after.leased == b.leased + row.granted
            && after == b.(leased := after.leased, leases := after.leases))
  }

  lemma AcquireSound(b: Books, requested: int, expiresAt: int)
    requires Sound(b)
    ensures Sound(Acquire(b, requested, expiresAt).0)
    ensures Grants(b, requested, expiresAt, Acquire(b, requested, expiresAt).0, Acquire(b, requested, expiresAt).1)
  {
    var grant := Min(requested, b.Available());
    if grant > 0 {
      var row := LeaseRow(grant, 0, expiresAt, Active);
      SumAppend(b.leases, [row], Held);
      SumAppend(b.leases, [row], SettledOf);
      SumOne(row, Held);
      SumOne(row, SettledOf);
    }
  }

  lemma {:induction false} SumNonNegative(rows: seq<LeaseRow>)
    requires forall i :: 0 <= i < |rows| ==> 0 <= rows[i].settled <= rows[i].granted
    ensures 0 <= Sum(rows, Held) && 0 <= Sum(rows, SettledOf)
  {
    if rows != [] {
      SumNonNegative(rows[..|rows| - 1]);
    }
  }

  /** An active lease leaves with what it had not been charged; any other stays as it is. */
  ghost predicate GivesBack(b: Books, id: nat, next: LeaseState, after: Books, done: bool)
    requires id < |b.leases|
  {
    && (done <==> b.leases[id].state == Active)
    && (!done ==> after == b)
    && (done ==>
         && after.leased + b.leases[id].granted == b.leased + b.leases[id].settled
         && after == b.(leased := after.leased, leases := b.leases[id := b.leases[id].(state := next)]))
  }

  lemma RetireSound(b: Books, id: nat, next: LeaseState)
    requires Sound(b) && id < |b.leases| && next != Active
    ensures Sound(Retire(b, id, next).0)
    ensures GivesBack(b, id, next, Retire(b, id, next).0, Retire(b, id, next).1)
  {
    var row := b.leases[id];
    if row.state == Active {
      SumUpdate(b.leases, id, row.(state := next), Held);
      SumUpdate(b.leases, id, row.(state := next), SettledOf);
      SumNonNegative(b.leases[id := row.(state := next)]);
    }
  }

  /**
   One settlement: refused if its id is on record, its amount is not positive or the lease is
   used up; otherwise charged whole if it fits, and else what is left of the lease.
   */
  ghost predicate Credits(b: Books, id: nat, item: Item, after: Books, done: bool)
    requires id < |b.leases|
  {
    var room, x := b.leases[id].granted - b.leases[id].settled, item.reservationId;
    && (done <==> x !in b.reservations && 0 < item.amount && 0 < room)
    && (!done ==> after == b)
    && (done ==>
         && x in after.reservations
         && var charge := after.reservations[x];
            && charge == (if item.amount <= room then item.amount else room)
            && after == b.(committed := b.committed + charge, leased := b.leased - charge,
                           leases := b.leases[id := b.leases[id].(settled := b.leases[id].settled + charge)],
                           reservations := b.reservations[x := charge]))
  }

  lemma CommitOneCredits(b: Books, id: nat, item: Item)
    requires id < |b.leases|
    ensures Credits(b, id, item, CommitOne(b, id, item).0, CommitOne(b, id, item).1)
  {
    var (after, done) := CommitOne(b, id, item);
    if done {
      var row := b.leases[id];
      var charge := after.reservations[item.reservationId];
      assert after.leases[id] == row.(settled := row.settled + charge);
    }
  }

  lemma CommitOneSound(b: Books, id: nat, item: Item)
    requires Sound(b) && id < |b.leases| && b.leases[id].state == Active
    ensures Sound(CommitOne(b, id, item).0)
  {
    hide Sum;
    var row := b.leases[id];
    var applied := Min(item.amount, row.Outstanding());
    if item.reservationId !in b.reservations && applied > 0 {
      var row' := row.(settled := row.settled + applied);
      SumUpdate(b.leases, id, row', Held);
      SumUpdate(b.leases, id, row', SettledOf);
      SumNonNegative(b.leases[id := row']);
    }
  }

  /**
   No batch of settlements, whatever amounts, ids or repeats a PEP reports, breaks the
   books; it moves nothing out of `committed + leased`, touches no other lease, and
   records exactly the items whose verdict is true.
   */
  lemma {:induction false} CommitAllSound(b: Books, id: nat, items: seq<Item>, seen: set<nat>)
    requires Sound(b) && id < |b.leases| && b.leases[id].state == Active
    ensures
      var after := CommitAll(b, id, items, seen).0;
      && Sound(after)
      && after.committed + after.leased == b.committed + b.leased
      && after == b.(committed := after.committed, leased := after.leased,
                     leases := b.leases[id := after.leases[id]], reservations := after.reservations)
      && after.leases[id] == b.leases[id].(settled := after.leases[id].settled)
      && after.committed - b.committed == after.leases[id].settled - b.leases[id].settled
      && 0 <= after.leases[id].settled - b.leases[id].settled
    decreases |items|
  {
    if items != [] {
      var x := items[0].reservationId;
      CommitOneSound(b, id, items[0]);
      CommitAllSound(if x in seen then b else CommitOne(b, id, items[0]).0, id, items[1..], seen + {x});
    }
  }

  /**
   What the verdicts say: an id is on record afterwards exactly if it was before or some item
   of it came back true, and then only one did, for a positive part of its amount.
   */
  ghost predicate VerdictsTell(before: Books, items: seq<Item>, after: Books, verdicts: seq<bool>) {
    && |verdicts| == |items|
    && (forall x :: x in after.reservations <==> x in before.reservations || AnsweredTrue(items, verdicts, x))
    && (forall i :: 0 <= i < |items| && verdicts[i] ==>
         && items[i].reservationId !in before.reservations
         && items[i].reservationId in after.reservations
         && 0 < after.reservations[items[i].reservationId] <= items[i].amount)
    && (forall i, j :: 0 <= i < j < |items| && verdicts[i] && verdicts[j] ==>
         items[i].reservationId != items[j].reservationId)
  }

  ghost predicate AnsweredTrue(items: seq<Item>, verdicts: seq<bool>, x: nat)
    requires |verdicts| == |items|
  {
    exists i :: 0 <= i < |items| && verdicts[i] && items[i].reservationId == x
  }

  /** No commit ever rewrites, removes or re-credits a reservation already recorded. */
  lemma {:induction false} RecordedOnce(b: Books, id: nat, items: seq<Item>, seen: set<nat>, x: nat)
    requires id < |b.leases| && x in b.reservations
    ensures
      var after := CommitAll(b, id, items, seen).0;
      x in after.reservations && after.reservations[x] == b.reservations[x]
    decreases |items|
  {
    if items != [] {
      var y := items[0].reservationId;
      RecordedOnce(if y in seen then b else CommitOne(b, id, items[0]).0, id, items[1..], seen + {y}, x);
    }
  }

  lemma {:induction false} CommitAllVerdicts(b: Books, id: nat, items: seq<Item>, seen: set<nat>)
    requires id < |b.leases|
    ensures VerdictsTell(b, items, CommitAll(b, id, items, seen).0, CommitAll(b, id, items, seen).1)
    ensures forall i :: 0 <= i < |items| && CommitAll(b, id, items, seen).1[i] ==> items[i].reservationId !in seen
    decreases |items|
  {
    if items != [] {
      var x, rest := items[0].reservationId, items[1..];
      var (mid, first) := if x in seen then (b, false) else CommitOne(b, id, items[0]);
      var (end, others) := CommitAll(mid, id, rest, seen + {x});
      var verdicts := [first] + others;
      CommitAllVerdicts(mid, id, rest, seen + {x});
      assert forall i :: 0 < i < |items| ==> items[i] == rest[i - 1] && verdicts[i] == others[i - 1];
      if first {
        RecordedOnce(mid, id, rest, seen + {x}, x);
      }
      forall y
        ensures AnsweredTrue(items, verdicts, y) <==> (first && x == y) || AnsweredTrue(rest, others, y)
      {
        if AnsweredTrue(rest, others, y) {
          var i :| 0 <= i < |rest| && others[i] && rest[i].reservationId == y;
          assert verdicts[i + 1] && items[i + 1].reservationId == y;
        }
        if first && x == y {
          assert verdicts[0];
        }
      }
    }
  }

  lemma CommitBatchVerdicts(b: Books, id: nat, items: seq<Item>)
    requires id < |b.leases|
    ensures VerdictsTell(b, items, CommitBatch(b, id, items).0, CommitBatch(b, id, items).1)
  {
    if b.leases[id].state == Active {
      CommitAllVerdicts(b, id, items, {});
    }
  }

  lemma CommitBatchSound(b: Books, id: nat, items: seq<Item>)
    requires Sound(b) && id < |b.leases|
    ensures
      var after := CommitBatch(b, id, items).0;
      && Sound(after)
      && after.total == b.total
      && |after.leases| == |b.leases|
      && (forall k :: 0 <= k < |b.leases| && k != id ==> after.leases[k] == b.leases[k])
      && after.leases[id] == b.leases[id].(settled := after.leases[id].settled)
      && b.leases[id].settled <= after.leases[id].settled
      && (b.leases[id].state != Active ==> after == b)
  {
    if b.leases[id].state == Active {
      CommitAllSound(b, id, items, {});
    }
  }

  // ------------------------------------------------------------------------------------
  // One transaction against one per settlement
  // ------------------------------------------------------------------------------------

  predicate DistinctIds(items: seq<Item>) {
    forall i, j :: 0 <= i < j < |items| ==> items[i].reservationId != items[j].reservationId
  }

  /**
   Whether a batch asks for a positive amount, while the lease still has room, for an id it
   has met before without anything being recorded for it. It reads only the ids on record,
   what the lease has outstanding, and the batch.
   */
  predicate AsksAgain(recorded: set<nat>, seen: set<nat>, room: int, items: seq<Item>)
    decreases |items|
  {
    items != []
    && var x, rest := items[0], items[1..];
       if x.reservationId in recorded || x.amount <= 0 || room <= 0 then
         AsksAgain(recorded, seen + {x.reservationId}, room, rest)
       else
         || x.reservationId in seen
         || AsksAgain(recorded + {x.reservationId}, seen + {x.reservationId}, room - Min(x.amount, room), rest)
  }

  lemma {:induction false} SeenStaysOut(b: Books, id: nat, items: seq<Item>, seen: set<nat>, x: nat)
    requires id < |b.leases| && x in seen && x !in b.reservations
    ensures x !in CommitAll(b, id, items, seen).0.reservations
    decreases |items|
  {
    if items != [] {
      var y := items[0].reservationId;
      SeenStaysOut(if y in seen then b else CommitOne(b, id, items[0]).0, id, items[1..], seen + {y}, x);
    }
  }

  /** No settlement ever rewrites, removes or re-credits a reservation already recorded. */
  lemma {:induction false} RecordedStays(b: Books, id: nat, items: seq<Item>, x: nat)
    requires id < |b.leases| && x in b.reservations
    ensures
      var after := CommitSingly(b, id, items);
      x in after.reservations && after.reservations[x] == b.reservations[x]
    decreases |items|
  {
    if items != [] {
      RecordedStays(CommitOne(b, id, items[0]).0, id, items[1..], x);
    }
  }

  /**
   A batch in one transaction leaves the books that its settlements one by one would leave if
   and only if it never asks again for an id it has passed over.
   */
  lemma {:induction false} BatchIsSinglyIff(b: Books, id: nat, items: seq<Item>, seen: set<nat>)
    requires id < |b.leases|
    ensures CommitAll(b, id, items, seen).0 == CommitSingly(b, id, items)
      <==> !AsksAgain(b.reservations.Keys, seen, b.leases[id].Outstanding(), items)
    decreases |items|
  {
    if items != [] {
      var x, rest := items[0], items[1..];
      var one := CommitOne(b, id, x).0;
      if x.reservationId in b.reservations || x.amount <= 0 || b.leases[id].Outstanding() <= 0 {
        BatchIsSinglyIff(b, id, rest, seen + {x.reservationId});
      } else if x.reservationId in seen {
        SeenStaysOut(b, id, rest, seen + {x.reservationId}, x.reservationId);
        RecordedStays(one, id, rest, x.reservationId);
      } else {
        assert one.reservations.Keys == b.reservations.Keys + {x.reservationId};
        BatchIsSinglyIff(one, id, rest, seen + {x.reservationId});
      }
    }
  }

  /** The input that separates the two: an id that comes for nothing first, then for something. */
  lemma ZeroThenRepeat()
    ensures
      var b := Books(10, 0, 10, 0, [LeaseRow(10, 0, 0, Active)], map[]);
      var items := [Item(0, 0), Item(0, 5)];
      && Sound(b) && CommitBatch(b, 0, items) == (b, [false, false])
      && CommitSingly(b, 0, items).committed == 5
  {
    var b := Books(10, 0, 10, 0, [LeaseRow(10, 0, 0, Active)], map[]);
    SumOne(b.leases[0], Held);
    SumOne(b.leases[0], SettledOf);
    var items := [Item(0, 0), Item(0, 5)];
    assert items[1..] == [Item(0, 5)] && items[1..][1..] == [];
    assert {} + {0} == {0} && [false] + [] == [false] && [false] + [false] == [false, false] && [Item(0, 5)][1..] == [];
    CommitNone(b, 0, {0} + {0});
    assert CommitAll(b, 0, [Item(0, 5)], {0}) == (b, [false]);
    assert CommitSingly(b, 0, [Item(0, 5)]).committed == 5;
  }

  /** An id never comes both for nothing and for something. */
  predicate OneSigned(items: seq<Item>) {
    forall i, j :: 0 <= i < j < |items| && items[i].reservationId == items[j].reservationId ==>
      (items[i].amount > 0 <==> items[j].amount > 0)
  }

  lemma {:induction false} OneSignedNeverAsks(recorded: set<nat>, seen: set<nat>, room: int, items: seq<Item>)
    requires OneSigned(items)
    requires room > 0 ==> forall k :: 0 <= k < |items| ==>
      items[k].reservationId in recorded || items[k].reservationId !in seen || items[k].amount <= 0
    ensures !AsksAgain(recorded, seen, room, items)
    decreases |items|
  {
    if items != [] {
      var x, rest := items[0], items[1..];
      assert forall k :: 0 <= k < |rest| ==> rest[k] == items[k + 1];
      if x.reservationId in recorded || x.amount <= 0 || room <= 0 {
        OneSignedNeverAsks(recorded, seen + {x.reservationId}, room, rest);
      } else {
        OneSignedNeverAsks(recorded + {x.reservationId}, seen + {x.reservationId}, room - Min(x.amount, room), rest);
      }
    }
  }

  lemma DistinctIsSingly(b: Books, id: nat, items: seq<Item>)
    requires id < |b.leases| && DistinctIds(items)
    ensures CommitAll(b, id, items, {}).0 == CommitSingly(b, id, items)
  {
    OneSignedNeverAsks(b.reservations.Keys, {}, b.leases[id].Outstanding(), items);
    BatchIsSinglyIff(b, id, items, {});
  }

  // ------------------------------------------------------------------------------------
  // Replays after a prefix
  // ------------------------------------------------------------------------------------

  /** An item the ledger will never apply again on this lease. */
  ghost predicate Absorbed(b: Books, id: nat, item: Item)
    requires id < |b.leases|
  {
    item.reservationId in b.reservations || item.amount <= 0 || b.leases[id].Outstanding() <= 0
  }

  lemma OnceCommittedAbsorbed(b: Books, id: nat, item: Item)
    requires id < |b.leases| && 0 <= b.leases[id].Outstanding()
    ensures
      var after := CommitOne(b, id, item).0;
      Absorbed(after, id, item) && 0 <= after.leases[id].Outstanding()
  {
  }

  lemma {:induction false} AbsorbedStays(b: Books, id: nat, items: seq<Item>, seen: set<nat>, item: Item)
    requires id < |b.leases| && 0 <= b.leases[id].Outstanding() && Absorbed(b, id, item)
    ensures
      var after := CommitAll(b, id, items, seen).0;
      Absorbed(after, id, item) && 0 <= after.leases[id].Outstanding()
    decreases |items|
  {
    if items != [] {
      var x := items[0].reservationId;
      AbsorbedStays(if x in seen then b else CommitOne(b, id, items[0]).0, id, items[1..], seen + {x}, item);
    }
  }

  /**
   A batch of which any prefix was applied before the answer was lost replays to exactly
   the books one successful attempt leaves, clamps, repeats and all.
   */
  lemma {:induction false} PrefixReplayExact(b: Books, id: nat, items: seq<Item>, n: nat, seen: set<nat>)
    requires id < |b.leases| && 0 <= b.leases[id].Outstanding() && n <= |items|
    ensures CommitAll(CommitAll(b, id, items[..n], seen).0, id, items, seen).0 == CommitAll(b, id, items, seen).0
    decreases |items|
  {
    if items == [] {
    } else if n == 0 {
      assert items[..0] == [];
    } else {
      var x := items[0].reservationId;
      var first := if x in seen then b else CommitOne(b, id, items[0]).0;
      OnceCommittedAbsorbed(b, id, items[0]);
      assert items[..n][1..] == items[1..][..n - 1];
      if x !in seen {
        AbsorbedStays(first, id, items[1..][..n - 1], seen + {x}, items[0]);
      }
      PrefixReplayExact(first, id, items[1..], n - 1, seen + {x});
    }
  }

  lemma {:induction false} AbsorbedStaysSingly(b: Books, id: nat, items: seq<Item>, item: Item)
    requires id < |b.leases| && 0 <= b.leases[id].Outstanding() && Absorbed(b, id, item)
    ensures
      var after := CommitSingly(b, id, items);
      Absorbed(after, id, item) && 0 <= after.leases[id].Outstanding()
    decreases |items|
  {
    if items != [] {
      AbsorbedStaysSingly(CommitOne(b, id, items[0]).0, id, items[1..], item);
    }
  }

  lemma {:induction false} PrefixReplaySingly(b: Books, id: nat, items: seq<Item>, n: nat)
    requires id < |b.leases| && 0 <= b.leases[id].Outstanding() && n <= |items|
    ensures CommitSingly(CommitSingly(b, id, items[..n]), id, items) == CommitSingly(b, id, items)
    decreases |items|
  {
    if items == [] {
    } else if n == 0 {
      assert items[..0] == [];
    } else {
      var first := CommitOne(b, id, items[0]).0;
      OnceCommittedAbsorbed(b, id, items[0]);
      assert items[..n][1..] == items[1..][..n - 1];
      AbsorbedStaysSingly(first, id, items[1..][..n - 1], items[0]);
      PrefixReplaySingly(first, id, items[1..], n - 1);
    }
  }

  // ------------------------------------------------------------------------------------
  // Replays after any part
  // ------------------------------------------------------------------------------------

  /** The part of a batch that a mask selects, in batch order. */
  function Part(items: seq<Item>, mask: seq<bool>): (r: seq<Item>)
    requires |mask| == |items|
    ensures |r| <= |items|
  {
    if items == [] then []
    else (if mask[0] then [items[0]] else []) + Part(items[1..], mask[1..])
  }

  /** An item the ledger has not recorded and would credit, given room. */
  predicate New(b: Books, item: Item) { item.reservationId !in b.reservations && item.amount > 0 }

  /** What the batch still needs: the amounts the ledger has not recorded yet. */
  function Need(b: Books, items: seq<Item>): int {
    if items == [] then 0
    else (if New(b, items[0]) then items[0].amount else 0) + Need(b, items[1..])
  }

  lemma {:induction false} NeedNonNegative(b: Books, items: seq<Item>)
    ensures 0 <= Need(b, items)
  {
    if items != [] {
      NeedNonNegative(b, items[1..]);
    }
  }

  lemma {:induction false} NeedShrinks(b: Books, c: Books, items: seq<Item>)
    requires forall k :: k in b.reservations ==> k in c.reservations
    ensures Need(c, items) <= Need(b, items)
  {
    if items != [] {
      NeedShrinks(b, c, items[1..]);
    }
  }

  lemma {:induction false} NeedAfterOne(b: Books, id: nat, item: Item, rest: seq<Item>)
    requires id < |b.leases| && forall k :: 0 <= k < |rest| ==> rest[k].reservationId != item.reservationId
    ensures Need(CommitOne(b, id, item).0, rest) == Need(b, rest)
  {
    if rest != [] {
      NeedAfterOne(b, id, item, rest[1..]);
    }
  }

  lemma {:induction false} PartIds(items: seq<Item>, mask: seq<bool>)
    requires |mask| == |items|
    ensures forall x :: x in Part(items, mask) ==> x in items
  {
    if items != [] {
      PartIds(items[1..], mask[1..]);
    }
  }

  lemma PartAvoids(items: seq<Item>, mask: seq<bool>, x: nat)
    requires |mask| == |items| && forall k :: 0 <= k < |items| ==> items[k].reservationId != x
    ensures forall k :: 0 <= k < |Part(items, mask)| ==> Part(items, mask)[k].reservationId != x
  {
    PartIds(items, mask);
    forall k | 0 <= k < |Part(items, mask)|
      ensures Part(items, mask)[k].reservationId != x
    {
      assert Part(items, mask)[k] in items;
    }
  }

  lemma {:induction false} PartDistinct(items: seq<Item>, mask: seq<bool>)
    requires |mask| == |items| && DistinctIds(items)
    ensures DistinctIds(Part(items, mask))
  {
    if items != [] {
      PartDistinct(items[1..], mask[1..]);
      PartAvoids(items[1..], mask[1..], items[0].reservationId);
      assert [] + Part(items[1..], mask[1..]) == Part(items[1..], mask[1..]);
    }
  }

  lemma {:induction false} NeedOfPart(b: Books, items: seq<Item>, mask: seq<bool>)
    requires |mask| == |items|
    ensures Need(b, Part(items, mask)) <= Need(b, items)
  {
    if items != [] {
      NeedOfPart(b, items[1..], mask[1..]);
      NeedNonNegative(b, items[1..]);
      var part := Part(items[1..], mask[1..]);
      assert ([items[0]] + part)[1..] == part;
      assert [] + part == part;
    }
  }

  /** A new item that fits commits to the same books before or after the rest of its part. */
  lemma {:induction false} FittingItemCommutes(b: Books, id: nat, item: Item, part: seq<Item>)
    requires id < |b.leases|
    requires forall i :: 0 <= i < |part| ==> part[i].reservationId != item.reservationId
    requires Need(b, [item] + part) <= b.leases[id].Outstanding()
    ensures CommitOne(CommitSingly(b, id, part), id, item).0
         == CommitSingly(CommitOne(b, id, item).0, id, part)
    decreases |part|
  {
    assert ([item] + part)[1..] == part;
    if part != [] {
      var y := part[0];
      var onlyY := CommitOne(b, id, y).0;
      var onlyItem := CommitOne(b, id, item).0;
      NeedNonNegative(b, part[1..]);
      NeedShrinks(b, onlyY, part[1..]);
      assert ([item] + part[1..])[1..] == part[1..];
      var both := CommitOne(onlyY, id, item).0;
      var htob := CommitOne(onlyItem, id, y).0;
      assert both.leases == htob.leases;
      assert both.reservations == htob.reservations;
      assert both == htob;
      FittingItemCommutes(onlyY, id, item, part[1..]);
    }
  }

  /** Distinct settlements are charged what they need, as far as the lease goes. */
  lemma {:induction false} CreditedInAll(b: Books, id: nat, items: seq<Item>)
    requires id < |b.leases| && 0 <= b.leases[id].Outstanding() && DistinctIds(items)
    ensures
      var after := CommitSingly(b, id, items).leases[id];
      && after.settled == b.leases[id].settled + Min(Need(b, items), b.leases[id].Outstanding())
      && after.granted == b.leases[id].granted
    decreases |items|
  {
    NeedNonNegative(b, items);
    if items != [] {
      var one := CommitOne(b, id, items[0]).0;
      NeedNonNegative(b, items[1..]);
      NeedAfterOne(b, id, items[0], items[1..]);
      CreditedInAll(one, id, items[1..]);
    }
  }

  lemma {:induction false} NotAskedNotRecorded(b: Books, id: nat, items: seq<Item>, x: nat)
    requires id < |b.leases| && x !in b.reservations
    requires forall k :: 0 <= k < |items| ==> items[k].reservationId != x
    ensures x !in CommitSingly(b, id, items).reservations
    decreases |items|
  {
    if items != [] {
      NotAskedNotRecorded(CommitOne(b, id, items[0]).0, id, items[1..], x);
    }
  }

  lemma {:induction false} NothingNeeded(b: Books, id: nat, items: seq<Item>)
    requires id < |b.leases| && Need(b, items) == 0
    ensures CommitSingly(b, id, items) == b
    decreases |items|
  {
    if items != [] {
      NeedNonNegative(b, items[1..]);
      NothingNeeded(b, id, items[1..]);
    }
  }

  /** Retrying the whole batch after a part of it was applied ends where one clean attempt does. */
  ghost predicate Replays(b: Books, id: nat, items: seq<Item>, mask: seq<bool>)
    requires id < |b.leases| && |mask| == |items|
  {
    CommitSingly(CommitSingly(b, id, Part(items, mask)), id, items) == CommitSingly(b, id, items)
  }

  /**
   Whether a part keeps out of the way of what it skips: at each new item left out, the lease
   is used up, or nothing later in the part is new, or item and later part fit together.
   */
  predicate PartFits(b: Books, id: nat, items: seq<Item>, mask: seq<bool>)
    requires id < |b.leases| && |mask| == |items|
    decreases |items|
  {
    items == []
    || var x, room, later := items[0], b.leases[id].Outstanding(), Need(b, Part(items[1..], mask[1..]));
       && (mask[0] || !New(b, x) || room <= 0 || later == 0 || x.amount + later <= room)
       && PartFits(CommitOne(b, id, x).0, id, items[1..], mask[1..])
  }

  /** A skipped item that the part crowds out is credited another amount by the replay. */
  lemma CrowdedOutDiffers(b: Books, id: nat, x: Item, rest: seq<Item>, part: seq<Item>)
    requires id < |b.leases| && 0 < b.leases[id].Outstanding() && New(b, x) && DistinctIds(part)
    requires forall k :: 0 <= k < |rest| ==> rest[k].reservationId != x.reservationId
    requires forall k :: 0 <= k < |part| ==> part[k].reservationId != x.reservationId
    requires 0 < Need(b, part) && b.leases[id].Outstanding() < x.amount + Need(b, part)
    ensures CommitSingly(CommitOne(CommitSingly(b, id, part), id, x).0, id, rest)
         != CommitSingly(CommitOne(b, id, x).0, id, rest)
  {
    var clean, partial := CommitOne(b, id, x).0, CommitSingly(b, id, part);
    var replay := CommitOne(partial, id, x).0;
    CreditedInAll(b, id, part);
    NotAskedNotRecorded(b, id, part, x.reservationId);
    RecordedStays(clean, id, rest, x.reservationId);
    if x.reservationId in replay.reservations {
      RecordedStays(replay, id, rest, x.reservationId);
    } else {
      NotAskedNotRecorded(replay, id, rest, x.reservationId);
    }
  }

  /** For distinct settlements, a part replays exactly if and only if it fits. */
  lemma {:induction false} PartReplaysIff(b: Books, id: nat, items: seq<Item>, mask: seq<bool>)
    requires id < |b.leases| && |mask| == |items| && DistinctIds(items)
    requires 0 <= b.leases[id].Outstanding()
    ensures Replays(b, id, items, mask) <==> PartFits(b, id, items, mask)
    decreases |items|
  {
    if items != [] {
      var x, rest := items[0], items[1..];
      var part, room := Part(rest, mask[1..]), b.leases[id].Outstanding();
      var first := CommitOne(b, id, x).0;
      PartReplaysIff(first, id, rest, mask[1..]);
      assert ([x] + part)[1..] == part && [] + part == part;
      if mask[0] {
        OnceCommittedAbsorbed(b, id, x);
        AbsorbedStaysSingly(first, id, part, x);
      } else if !New(b, x) || room <= 0 {
        AbsorbedStaysSingly(b, id, part, x);
      } else if Need(b, part) == 0 {
        NothingNeeded(b, id, part);
        NeedShrinks(b, first, part);
        NeedNonNegative(first, part);
        NothingNeeded(first, id, part);
      } else {
        PartAvoids(rest, mask[1..], x.reservationId);
        NeedNonNegative(b, part);
        if x.amount + Need(b, part) <= room {
          FittingItemCommutes(b, id, x, part);
        } else {
          PartDistinct(rest, mask[1..]);
          CrowdedOutDiffers(b, id, x, rest, part);
        }
      }
    }
  }

  predicate AtMostOneNew(b: Books, items: seq<Item>) {
    forall i, j :: 0 <= i < j < |items| ==> !New(b, items[i]) || !New(b, items[j])
  }

  lemma {:induction false} NoneNewNeedsNothing(b: Books, items: seq<Item>)
    ensures Need(b, items) == 0 <==> forall k :: 0 <= k < |items| ==> !New(b, items[k])
  {
    NeedNonNegative(b, items);
    if items != [] {
      var rest := items[1..];
      NoneNewNeedsNothing(b, rest);
      NeedNonNegative(b, rest);
      assert forall k :: 0 <= k < |rest| ==> rest[k] == items[k + 1];
      assert forall k :: 0 < k < |items| ==> items[k] == rest[k - 1];
    }
  }

  lemma {:induction false} EveryPartFits(b: Books, id: nat, items: seq<Item>, mask: seq<bool>)
    requires id < |b.leases| && |mask| == |items| && DistinctIds(items) && 0 <= b.leases[id].Outstanding()
    requires Need(b, items) <= b.leases[id].Outstanding() || b.leases[id].Outstanding() == 0 || AtMostOneNew(b, items)
    ensures PartFits(b, id, items, mask)
    decreases |items|
  {
    if items != [] {
      var x, rest := items[0], items[1..];
      var first := CommitOne(b, id, x).0;
      NeedAfterOne(b, id, x, rest);
      NeedNonNegative(b, rest);
      NeedOfPart(b, rest, mask[1..]);
      NeedNonNegative(b, Part(rest, mask[1..]));
      if AtMostOneNew(b, items) {
        assert forall k :: 0 <= k < |rest| ==> rest[k] == items[k + 1];
        if New(b, x) {
          NoneNewNeedsNothing(b, rest);
        }
        assert AtMostOneNew(first, rest);
      }
      EveryPartFits(first, id, rest, mask[1..]);
    }
  }

  function AllButFirstNew(b: Books, items: seq<Item>): (mask: seq<bool>)
    ensures |mask| == |items|
  {
    if items == [] then []
    else if New(b, items[0]) then [false] + seq(|items| - 1, i => true)
    else [false] + AllButFirstNew(b, items[1..])
  }

  lemma {:induction false} WholeIsPart(items: seq<Item>, mask: seq<bool>)
    requires |mask| == |items| && forall k :: 0 <= k < |mask| ==> mask[k]
    ensures Part(items, mask) == items
  {
    if items != [] {
      WholeIsPart(items[1..], mask[1..]);
    }
  }

  /** Too little room for two new items: leaving the first of them out goes wrong. */
  lemma {:induction false} SkippingTheFirstFails(b: Books, id: nat, items: seq<Item>)
    requires id < |b.leases| && 0 < b.leases[id].Outstanding() < Need(b, items) && !AtMostOneNew(b, items)
    ensures !PartFits(b, id, items, AllButFirstNew(b, items))
    decreases |items|
  {
    var rest, mask := items[1..], AllButFirstNew(b, items);
    var i, j :| 0 <= i < j < |items| && New(b, items[i]) && New(b, items[j]);
    assert rest[j - 1] == items[j];
    if New(b, items[0]) {
      WholeIsPart(rest, mask[1..]);
      NoneNewNeedsNothing(b, rest);
      NeedNonNegative(b, rest);
    } else {
      assert rest[i - 1] == items[i];
      assert mask[1..] == AllButFirstNew(b, rest);
      SkippingTheFirstFails(b, id, rest);
    }
  }

  /**
   For distinct settlements: whatever part of a batch is applied before a failure, the replay
   ends in the books of one clean attempt, if and only if what the lease has outstanding
   covers the batch, or is nothing, or the batch has at most one item that is new.
   */
  lemma EveryPartReplaysIff(b: Books, id: nat, items: seq<Item>)
    requires id < |b.leases| && DistinctIds(items) && 0 <= b.leases[id].Outstanding()
    ensures (forall mask: seq<bool> :: |mask| == |items| ==> Replays(b, id, items, mask))
      <==> Need(b, items) <= b.leases[id].Outstanding() || b.leases[id].Outstanding() == 0 || AtMostOneNew(b, items)
  {
    if Need(b, items) <= b.leases[id].Outstanding() || b.leases[id].Outstanding() == 0 || AtMostOneNew(b, items) {
      forall mask: seq<bool> | |mask| == |items|
        ensures Replays(b, id, items, mask)
      {
        EveryPartFits(b, id, items, mask);
        PartReplaysIff(b, id, items, mask);
      }
    } else {
      SkippingTheFirstFails(b, id, items);
      PartReplaysIff(b, id, items, AllButFirstNew(b, items));
    }
  }

  /** Such a batch: two settlements for a lease with room for little more than one. */
  lemma PartReplayNeedsRoom()
    ensures
      var b := Books(10, 0, 10, 0, [LeaseRow(10, 0, 0, Active)], map[]);
      Sound(b) && !Replays(b, 0, [Item(0, 8), Item(1, 5)], [false, true])
  {
    var b := Books(10, 0, 10, 0, [LeaseRow(10, 0, 0, Active)], map[]);
    SumOne(b.leases[0], Held);
    SumOne(b.leases[0], SettledOf);
    var items := [Item(0, 8), Item(1, 5)];
    assert items[1..] == [Item(1, 5)] && items[1..][1..] == [];
    assert New(b, items[0]) && New(b, items[1]);
    assert AllButFirstNew(b, items) == [false, true];
    SkippingTheFirstFails(b, 0, items);
    PartReplaysIff(b, 0, items, [false, true]);
  }

  lemma CommitAllStep(b: Books, id: nat, items: seq<Item>, i: nat, seen: set<nat>)
    requires id < |b.leases| && i < |items|
    ensures
      var x := items[i].reservationId;
      var (mid, first) := if x in seen then (b, false) else CommitOne(b, id, items[i]);
      var (end, others) := CommitAll(mid, id, items[i + 1..], seen + {x});
      CommitAll(b, id, items[i..], seen) == (end, [first] + others)
  {
    assert items[i..][1..] == items[i + 1..];
  }

  lemma CommitNone(b: Books, id: nat, seen: set<nat>)
    requires id < |b.leases|
    ensures CommitAll(b, id, [], seen) == (b, [])
  {
  }

  // ------------------------------------------------------------------------------------
  // The reaper among other transactions
  // ------------------------------------------------------------------------------------

  /** A transaction of some other client; one naming an unknown lease fails and changes nothing. */
  datatype Txn =
    | Acquiring(requested: int, expiresAt: int)
    | Releasing(id: nat)
    | Committing(id: nat, items: seq<Item>)

  function Run(b: Books, txn: Txn): (r: Books)
    ensures |b.leases| <= |r.leases|
  {
    match txn
    case Acquiring(requested, expiresAt) => Acquire(b, requested, expiresAt).0
    case Releasing(id) => if id < |b.leases| then Retire(b, id, Released).0 else b
    case Committing(id, items) => if id < |b.leases| then CommitBatch(b, id, items).0 else b
  }

  function RunAll(b: Books, txns: seq<Txn>): (r: Books)
    ensures |b.leases| <= |r.leases|
    decreases |txns|
  {
    if txns == [] then b else RunAll(Run(b, txns[0]), txns[1..])
  }

  lemma RunSound(b: Books, txn: Txn)
    requires Sound(b)
    ensures Sound(Run(b, txn))
    ensures forall k :: 0 <= k < |b.leases| && b.leases[k].state != Active ==> Run(b, txn).leases[k] == b.leases[k]
  {
    match txn
    case Acquiring(requested, expiresAt) => AcquireSound(b, requested, expiresAt);
    case Releasing(id) => if id < |b.leases| { RetireSound(b, id, Released); }
    case Committing(id, items) => if id < |b.leases| { CommitBatchSound(b, id, items); }
  }

  /** Whatever other clients do, the books stay sound and a retired lease stays as it was. */
  lemma {:induction false} RunAllSound(b: Books, txns: seq<Txn>)
    requires Sound(b)
    ensures Sound(RunAll(b, txns))
    ensures forall k :: 0 <= k < |b.leases| && b.leases[k].state != Active ==> RunAll(b, txns).leases[k] == b.leases[k]
    decreases |txns|
  {
    if txns != [] {
      RunSound(b, txns[0]);
      RunAllSound(Run(b, txns[0]), txns[1..]);
    }
  }

  /** What others run before the i-th candidate's own transaction. */
  function Meanwhile(between: seq<seq<Txn>>, i: nat): seq<Txn> { if i < |between| then between[i] else [] }

  /** One candidate's turn: it ends retired, and a lease retired before is as it was. */
  lemma SweepStep(b: Books, txns: seq<Txn>, id: nat)
    requires Sound(b) && id < |b.leases|
    ensures
      var (after, done) := Retire(RunAll(b, txns), id, Expired);
      && Sound(after) && |b.leases| <= |after.leases| && after.leases[id].state != Active
      && (done ==> after.leases[id].state == Expired)
      && forall k :: 0 <= k < |b.leases| && b.leases[k].state != Active ==> after.leases[k] == b.leases[k]
  {
    RunAllSound(b, txns);
    RetireSound(RunAll(b, txns), id, Expired);
  }

  ghost predicate AreOverdue(b: Books, now: int, candidates: seq<nat>) {
    && (forall i :: 0 <= i < |candidates| ==> candidates[i] < |b.leases| && Reapable(b, candidates[i], now))
    && (forall k: nat :: k < |b.leases| && Reapable(b, k, now) ==> k in candidates)
  }

  /** The candidates from the i-th on, each retired in its own transaction. */
  function SweptFrom(b: Books, candidates: seq<nat>, between: seq<seq<Txn>>, i: nat): (r: (Books, seq<nat>))
    requires i <= |candidates| && forall k :: 0 <= k < |candidates| ==> candidates[k] < |b.leases|
    decreases |candidates| - i
  {
    if i == |candidates| then (b, [])
    else
      var (after, done) := Retire(RunAll(b, Meanwhile(between, i)), candidates[i], Expired);
      var (end, reclaimed) := SweptFrom(after, candidates, between, i + 1);
      (end, (if done then [candidates[i]] else []) + reclaimed)
  }

  lemma OverdueKnown(b: Books, now: int, candidates: seq<nat>)
    requires AreOverdue(b, now, candidates)
    ensures forall k :: 0 <= k < |candidates| ==> candidates[k] < |b.leases|
  {
  }

  lemma SweptNext(b: Books, candidates: seq<nat>, between: seq<seq<Txn>>, i: nat)
    requires i <= |candidates| && forall k :: 0 <= k < |candidates| ==> candidates[k] < |b.leases|
    ensures i == |candidates| ==> SweptFrom(b, candidates, between, i) == (b, [])
    ensures i < |candidates| ==>
      var (after, done) := Retire(RunAll(b, Meanwhile(between, i)), candidates[i], Expired);
      SweptFrom(b, candidates, between, i)
        == (SweptFrom(after, candidates, between, i + 1).0,
            (if done then [candidates[i]] else []) + SweptFrom(after, candidates, between, i + 1).1)
  {
  }

  /** Still active more than five seconds past its expiry. */
  ghost predicate Overdue(row: LeaseRow, now: int) { row.state == Active && row.expiresAt + 5_000_000 < now }

  /** What a pass has to achieve, whatever others did meanwhile. */
  ghost predicate Reaped(before: Books, now: int, after: Books, reclaimed: seq<nat>) {
    && |before.leases| <= |after.leases|
    && (forall k: nat :: k < |before.leases| && Overdue(before.leases[k], now) ==> after.leases[k].state != Active)
    && (forall k :: k in reclaimed ==>
         k < |before.leases| && Overdue(before.leases[k], now) && after.leases[k].state == Expired)
  }

  lemma {:induction false} SweptKeeps(b: Books, candidates: seq<nat>, between: seq<seq<Txn>>, i: nat)
    requires Sound(b) && i <= |candidates| && forall k :: 0 <= k < |candidates| ==> candidates[k] < |b.leases|
    ensures
      var (end, reclaimed) := SweptFrom(b, candidates, between, i);
      && Sound(end) && |b.leases| <= |end.leases|
      && (forall k :: 0 <= k < |b.leases| && b.leases[k].state != Active ==> end.leases[k] == b.leases[k])
      && (forall k :: i <= k < |candidates| ==> end.leases[candidates[k]].state != Active)
      && (forall k :: k in reclaimed ==> k in candidates && end.leases[k].state == Expired)
    decreases |candidates| - i
  {
    hide Sound, RunAll, Retire;
    if i < |candidates| {
      SweepStep(b, Meanwhile(between, i), candidates[i]);
      SweptKeeps(Retire(RunAll(b, Meanwhile(between, i)), candidates[i], Expired).0, candidates, between, i + 1);
    }
  }

  lemma SweptMeans(b: Books, now: int, candidates: seq<nat>, between: seq<seq<Txn>>)
    requires Sound(b) && AreOverdue(b, now, candidates)
    ensures
      var (end, reclaimed) := SweptFrom(b, candidates, between, 0);
      Sound(end) && Reaped(b, now, end, reclaimed)
  {
    hide Sound, SweptFrom;
    SweptKeeps(b, candidates, between, 0);
    assert forall k: nat :: k < |b.leases| ==> (Reapable(b, k, now) <==> Overdue(b.leases[k], now));
  }

  /** The database. `AcquireLease`, `Release` and `Commit` are one transaction each. */
  class LedgerStore {
    var books: Books

    constructor (total: int)
      requires 0 <= total
      ensures Sound(books) && books == Books(total, 0, 0, 0, [], map[])
    {
      books := Books(total, 0, 0, 0, [], map[]);
    }

    method AcquireLease(requested: int, expiresAt: int) returns (lease: Option<nat>)
      requires Sound(books)
      modifies this
      ensures Sound(books)
      ensures (books, lease) == Acquire(old(books), requested, expiresAt)
      ensures Grants(old(books), requested, expiresAt, books, lease)
    {
      AcquireSound(books, requested, expiresAt);
      var grant := Min(requested, books.Available());
      if grant <= 0 {
        return None;
      }
      lease := Some(|books.leases|);
      books := books.(leased := books.leased + grant,
                      leases := books.leases + [LeaseRow(grant, 0, expiresAt, Active)]);
    }

    method Release(id: nat) returns (done: bool)
      requires Sound(books) && id < |books.leases|
      modifies this
      ensures Sound(books)
      ensures (books, done) == Retire(old(books), id, Released)
      ensures GivesBack(old(books), id, Released, books, done)
    {
      RetireSound(books, id, Released);
      done := books.leases[id].state == Active;
      if done {
        var row := books.leases[id];
        books := books.(leased := books.leased - row.Outstanding(),
                        leases := books.leases[id := row.(state := Released)]);
      }
    }

    /** The reaper's first transaction: the active leases past the margin. */
    method Candidates(now: int) returns (candidates: seq<nat>)
      ensures AreOverdue(books, now, candidates)
    {
      candidates := [];
      for id := 0 to |books.leases|
        invariant forall i :: 0 <= i < |candidates| ==> candidates[i] < id && Reapable(books, candidates[i], now)
        invariant forall k: nat :: k < id && Reapable(books, k, now) ==> k in candidates
      {
        if Reapable(books, id, now) {
          candidates := candidates + [id];
        }
      }
    }

    /**
     One pass: select, then retire each candidate in a transaction of its own, with whatever
     others do in between. Every lease overdue at the start ends retired, and only such leases
     are reclaimed here.
     */
    method Reap(now: int, between: seq<seq<Txn>>) returns (reclaimed: seq<nat>)
      requires Sound(books)
      modifies this
      ensures Sound(books)
      ensures exists candidates: seq<nat> ::
        && AreOverdue(old(books), now, candidates)
        && (books, reclaimed) == SweptFrom(old(books), candidates, between, 0)
      ensures Reaped(old(books), now, books, reclaimed)
    {
      hide Sound, RunAll, Retire, Reapable, SweptFrom, AreOverdue, Reaped;
      var candidates := Candidates(now);
      reclaimed := [];
      OverdueKnown(books, now, candidates);
      ghost var whole := SweptFrom(books, candidates, between, 0);
      assert [] + whole.1 == whole.1;
      SweptMeans(books, now, candidates, between);
      for i := 0 to |candidates|
        invariant Sound(books) && |old(books).leases| <= |books.leases|
        invariant whole == (SweptFrom(books, candidates, between, i).0,
                            reclaimed + SweptFrom(books, candidates, between, i).1)
      {
        ghost var others := reclaimed;
        SweptNext(books, candidates, between, i);
        SweepStep(books, Meanwhile(between, i), candidates[i]);
        var (after, done) := Retire(RunAll(books, Meanwhile(between, i)), candidates[i], Expired);
        books := after;
        if done {
          reclaimed := reclaimed + [candidates[i]];
        }
        ghost var rest := SweptFrom(books, candidates, between, i + 1).1;
        assert others + ((if done then [candidates[i]] else []) + rest) == reclaimed + rest;
      }
      SweptNext(books, candidates, between, |candidates|);
      assert reclaimed + [] == reclaimed;
    }

    /** The loop over the items, the lease being open. */
    method CommitOpen(id: nat, items: seq<Item>) returns (results: seq<bool>)
      requires id < |books.leases|
      modifies this
      ensures (books, results) == CommitAll(old(books), id, items, {})
    {
      hide CommitAll;
      results := [];
      // The ids of the batch that are recorded, then each id as it is met.
      var already: set<nat> :=
        set k | 0 <= k < |items| && items[k].reservationId in books.reservations :: items[k].reservationId;
      ghost var seen: set<nat> := {};
      var i := 0;
      ghost var whole := CommitAll(books, id, items, {});
      assert items[0..] == items && [] + whole.1 == whole.1;
      while i < |items|
        invariant 0 <= i <= |items|
        invariant id < |books.leases| && |results| == i
        invariant forall k :: i <= k < |items| ==>
          (items[k].reservationId in already <==>
            items[k].reservationId in books.reservations || items[k].reservationId in seen)
        invariant whole == (CommitAll(books, id, items[i..], seen).0,
                            results + CommitAll(books, id, items[i..], seen).1)
      {
        ghost var before, others := books, results;
        var row := books.leases[id];
        var applied := Min(items[i].amount, row.Outstanding());
        var x := items[i].reservationId;
        if x in already || applied <= 0 {
          results := results + [false];
        } else {
          books := books.(committed := books.committed + applied,
                          leased := books.leased - applied,
                          leases := books.leases[id := row.(settled := row.settled + applied)],
                          reservations := books.reservations[x := applied]);
          results := results + [true];
        }
        already := already + {x};
        CommitAllStep(before, id, items, i, seen);
        seen := seen + {x};
        assert others + ([results[i]] + CommitAll(books, id, items[i + 1..], seen).1)
            == results + CommitAll(books, id, items[i + 1..], seen).1;
        i := i + 1;
      }
      CommitNone(books, id, seen);
      assert items[i..] == [] && results + [] == results;
    }

    /** `rejected` is the raised LeaseNotActiveError, after the anomalies were recorded. */
    method Commit(id: nat, items: seq<Item>) returns (results: seq<bool>, rejected: bool)
      requires Sound(books) && id < |books.leases|
      modifies this
      ensures Sound(books)
      ensures (books, results) == CommitBatch(old(books), id, items)
      ensures rejected == (items != [] && old(books.leases)[id].state != Active)
      ensures VerdictsTell(old(books), items, books, results)
      ensures old(books.leases)[id].state != Active ==> books == old(books)
    {
      hide Sound, CommitAll, VerdictsTell;
      CommitBatchSound(books, id, items);
      CommitBatchVerdicts(books, id, items);
      if items == [] {
        CommitNone(books, id, {});
        return [], false;
      }
      if books.leases[id].state != Active {
        return seq(|items|, i => false), true;
      }
      results := CommitOpen(id, items);
      rejected := false;
    }
  }
}
