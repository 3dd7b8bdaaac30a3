/**
 Clocks: why an early-expiring holder and a late reaper never overlap, and when the renewal
 sweep is sure to replace a lease while it can still be spent from.
 */
module Renewal {
  import opened Lease
  import opened Ledger
  import W = Overspend
  import opened Pool
  import S = Settlement

  /** The two clocks disagree by at most `skew`. */
  predicate Close(pepNow: int, ledgerNow: int, skew: int) { -skew <= pepNow - ledgerNow <= skew }

  /**
   A holder that may still reserve proves the ledger's clock is before expiry, so no reaper
   running by now, or within the reaper's own margin from now, reclaims the lease.
   */
  lemma ReserveBeforeReap(b: Books, v: LeaseView, amount: int, pepNow: int, ledgerNow: int, reapedAt: int, skew: int)
    requires v.id < |b.leases| && b.leases[v.id].expiresAt == v.expiresAt
    requires Close(pepNow, ledgerNow, skew) && reapedAt <= ledgerNow + SKEW_ALLOWANCE
    requires TryReserve(v, amount, pepNow, skew).Ok?
    ensures ledgerNow < v.expiresAt
    ensures !Reapable(b, v.id, reapedAt)
  {
  }

  // ------------------------------------------------------------------------------------
  // Over every run
  // ------------------------------------------------------------------------------------

  ghost predicate ClocksClose(w: W.World) {
    forall p :: 0 <= p < |w.peps| ==> Close(w.peps[p].clock, w.clock, w.skew)
  }

  /** A lease the reaper took is well past its expiry on the ledger's clock. */
  ghost predicate ReapedLate(w: W.World) {
    forall i :: 0 <= i < |w.books.leases| && w.books.leases[i].state == Expired ==>
      w.books.leases[i].expiresAt + SKEW_ALLOWANCE < w.clock
  }

  ghost predicate Clocked(w: W.World) { W.Inv(w) && ClocksClose(w) && ReapedLate(w) }

  /** Clocks move as they like, within the skew of the ledger's. */
  ghost predicate KeepsTime(w: W.World, step: W.Step) {
    step.Tick? ==> forall p :: 0 <= p < |step.clocks| ==> Close(step.clocks[p], step.clock, w.skew)
  }

  lemma FlushKeepsReapedLate(w: W.World, step: W.Step)
    requires Clocked(w) && step.Flush? && W.Enabled(w, step)
    ensures ReapedLate(W.Apply(w, step))
  {
    hide W.Matched, W.Indexed;
    var queue := w.peps[step.pep].queue;
    CommitBatchSound(w.books, queue[0].leaseId, Part(S.Items(queue[..step.count]), step.mask));
  }

  lemma OtherKeepsReapedLate(w: W.World, step: W.Step)
    requires Clocked(w) && !step.Flush? && W.Enabled(w, step)
    ensures ReapedLate(W.Apply(w, step))
  {
    hide W.Matched, W.Indexed, Sound;
  }

  lemma StepKeepsClocks(w: W.World, step: W.Step)
    requires ClocksClose(w) && W.Enabled(w, step) && KeepsTime(w, step)
    ensures ClocksClose(W.Apply(w, step)) && W.Apply(w, step).skew == w.skew
  {
  }

  lemma StepKeepsClocked(w: W.World, step: W.Step)
    requires Clocked(w) && W.Enabled(w, step) && KeepsTime(w, step)
    ensures Clocked(W.Apply(w, step))
  {
    hide W.Apply, W.Enabled, ReapedLate, ClocksClose, W.Inv, KeepsTime;
    W.StepKeepsInv(w, step);
    StepKeepsClocks(w, step);
    if step.Flush? {
      FlushKeepsReapedLate(w, step);
    } else {
      OtherKeepsReapedLate(w, step);
    }
  }

  ghost predicate TimedRun(w: W.World, steps: seq<W.Step>)
    decreases |steps|
  {
    steps == [] || !W.Enabled(w, steps[0]) || (KeepsTime(w, steps[0]) && TimedRun(W.Apply(w, steps[0]), steps[1..]))
  }

  lemma {:induction false} RunKeepsClocked(w: W.World, steps: seq<W.Step>)
    requires Clocked(w) && TimedRun(w, steps) && W.Exec(w, steps).Some?
    ensures Clocked(W.Exec(w, steps).value)
    decreases |steps|
  {
    hide Clocked, W.Apply, W.Enabled;
    if steps != [] {
      StepKeepsClocked(w, steps[0]);
      RunKeepsClocked(W.Apply(w, steps[0]), steps[1..]);
    }
  }

  /**
   In every run with clocks within the skew, a reservation that succeeds is on a lease whose
   expiry is still ahead of the ledger's clock, and which no reaper has taken or can take
   within its margin.
   */
  lemma ReservedIsUnreaped(total: int, peps: nat, skew: int, steps: seq<W.Step>, step: W.Step)
    requires 0 <= total && 0 <= skew && TimedRun(W.Start(total, peps, skew), steps)
    requires W.Exec(W.Start(total, peps, skew), steps).Some?
    requires step.Reserve? && W.Enabled(W.Exec(W.Start(total, peps, skew), steps).value, step)
    ensures
      var w := W.Exec(W.Start(total, peps, skew), steps).value;
      var lease := w.peps[step.pep].current.value;
      && lease < |w.books.leases| && w.clock < w.books.leases[lease].expiresAt
      && w.books.leases[lease].state != Expired
      && !Reapable(w.books, lease, w.clock + SKEW_ALLOWANCE)
  {
    hide W.Exec, W.Indexed, Sound;
    W.StartInv(total, peps, skew);
    RunKeepsClocked(W.Start(total, peps, skew), steps);
    var w := W.Exec(W.Start(total, peps, skew), steps).value;
    var lease, pep := w.peps[step.pep].current.value, w.peps[step.pep];
    ReserveBeforeReap(w.books, w.local[lease], step.amount, pep.clock, w.clock, w.clock + SKEW_ALLOWANCE, w.skew);
  }

  // ------------------------------------------------------------------------------------
  // Sweeps
  // ------------------------------------------------------------------------------------

  /** Sweep `k` of a renewer started at `start`, in quarter microseconds. */
  function SweepTime(start: int, k: nat, ttl: int): int { 4 * start + k * ttl }

  /** The sweep finds the lease due for renewal and still accepted by `reserve`. */
  predicate Hits(start: int, k: nat, ttl: int, skew: int, expiresAt: int) {
    4 * expiresAt - 2 * ttl <= SweepTime(start, k, ttl) < 4 * (expiresAt - skew)
  }

  /** At whole instants, a hit is what `_renew_due` and `check` say about the same lease. */
  lemma HitIsDueAndUsable(start: int, k: nat, cfg: Settings, v: LeaseView, now: int)
    requires v.state == Active && SweepTime(start, k, cfg.ttl) == 4 * now
    ensures Hits(start, k, cfg.ttl, cfg.skew, v.expiresAt)
       <==> RenewDue(v, now, cfg.ttl) && !Stale(v, now, cfg.skew)
  {
  }

  lemma {:induction false} FirstSweepAfter(start: int, ttl: int, moment: int) returns (k: nat)
    requires 0 < ttl && 4 * start <= moment
    ensures moment <= SweepTime(start, k, ttl) < moment + ttl
  {
    k := 0;
    while SweepTime(start, k, ttl) < moment
      invariant SweepTime(start, k, ttl) < moment + ttl
      decreases moment - SweepTime(start, k, ttl)
    {
      assert (k + 1) * ttl == k * ttl + ttl;
      k := k + 1;
    }
  }

  /** Enough room: wherever the sweeps fall, one of them hits. */
  lemma RoomyTtlAlwaysHits(start: int, ttl: int, skew: int, expiresAt: int) returns (k: nat)
    requires 0 < ttl && 4 * skew <= ttl && start <= expiresAt - ttl
    ensures Hits(start, k, ttl, skew, expiresAt)
  {
    k := FirstSweepAfter(start, ttl, 4 * expiresAt - 2 * ttl);
  }

  /** Too little room: a renewer whose sweep lands exactly on the margin never hits. */
  lemma TightTtlCanMiss(ttl: int, skew: int, expiresAt: int, k: nat)
    requires 0 < ttl < 4 * skew
    ensures !Hits(expiresAt - skew - ttl, k, ttl, skew, expiresAt)
  {
    if k >= 4 {
      assert k * ttl >= 4 * ttl;
    } else {
      assert k * ttl <= 3 * ttl;
    }
  }

  ghost predicate SomeSweepHits(start: int, ttl: int, skew: int, expiresAt: int) {
    exists k: nat :: Hits(start, k, ttl, skew, expiresAt)
  }

  ghost predicate EverySweeperHits(ttl: int, skew: int, expiresAt: int) {
    forall start :: start <= expiresAt - ttl ==> SomeSweepHits(start, ttl, skew, expiresAt)
  }

  /**
   The renewal guarantee holds for every phase of the sweep exactly when `4 * skew <= ttl`.
   The constructor only asks for `2 * skew < ttl`.
   */
  lemma RenewalGuarantee(ttl: int, skew: int, expiresAt: int)
    requires 0 < ttl && 0 <= skew
    ensures EverySweeperHits(ttl, skew, expiresAt) <==> 4 * skew <= ttl
  {
    if 4 * skew <= ttl {
      forall start | start <= expiresAt - ttl
        ensures SomeSweepHits(start, ttl, skew, expiresAt)
      {
        var k := RoomyTtlAlwaysHits(start, ttl, skew, expiresAt);
      }
    } else {
      var start := expiresAt - skew - ttl;
      forall k: nat
        ensures !Hits(start, k, ttl, skew, expiresAt)
      {
        TightTtlCanMiss(ttl, skew, expiresAt, k);
      }
      assert !SomeSweepHits(start, ttl, skew, expiresAt);
    }
  }

  /** With room, and sweeps at whole instants, some sweep finds the lease due and still usable. */
  lemma SweepRenewsInTime(start: int, cfg: Settings, v: LeaseView) returns (k: nat)
    requires v.state == Active && 0 < cfg.ttl && cfg.ttl % 4 == 0 && 4 * cfg.skew <= cfg.ttl
    requires start <= v.expiresAt - cfg.ttl
    ensures RenewDue(v, start + k * (cfg.ttl / 4), cfg.ttl) && !Stale(v, start + k * (cfg.ttl / 4), cfg.skew)
  {
    k := RoomyTtlAlwaysHits(start, cfg.ttl, cfg.skew, v.expiresAt);
    var quarter := cfg.ttl / 4;
    assert cfg.ttl == 4 * quarter;
    assert k * (4 * quarter) == 4 * (k * quarter);
    HitIsDueAndUsable(start, k, cfg, v, start + k * quarter);
  }

  /** Settings the constructor accepts for which the guarantee fails. */
  lemma AcceptedIsNotEnough(expiresAt: int)
    ensures exists cfg: Settings :: Accepted(cfg) && !EverySweeperHits(cfg.ttl, cfg.skew, expiresAt)
  {
    var cfg := Settings(1, 15_000_000, 5_000_000, 0.25);
    RenewalGuarantee(cfg.ttl, cfg.skew, expiresAt);
    assert Accepted(cfg);
  }
}
