/**
 Top-ups, renewal sweeps, priming and shutdown of one pool, interleaved at every await:
 which leases are acquired, replaced and released, and how often.
 */
module PoolLifecycle {
  import opened Wrappers

  import opened Dimensions
  import opened Lease
  import opened Pool

  datatype Kind = Topup | Prime

  /** A task awaiting ACQUIRE, or awaiting RELEASE of the lease it replaced. */
  datatype Task =
    | Acquiring(dim: Dimension, kind: Kind)
    | Releasing(dim: Dimension, kind: Kind, lease: nat)

  /**
   How far `aclose` has come. `todo` are the dimensions its loop has not looked at; `keys` are
   those it started with, since a dictionary that grows meanwhile makes the loop raise.
   */
  datatype Closing =
    | Open
    | Draining(todo: set<Dimension>)
    | Sweeping(todo: set<Dimension>, keys: set<Dimension>)
    | AwaitingRelease(todo: set<Dimension>, keys: set<Dimension>, lease: nat)
    | Finished
    | Aborted(todo: set<Dimension>)

  /** `received`, `called` and `lost` are history: grants seen, RELEASE calls made, and
      releases never made because what precedes the call raised. */
  datatype System = System(
    pool: PoolState, tasks: map<nat, Task>, nextTask: nat, closing: Closing,
    received: set<nat>, called: multiset<nat>, lost: multiset<nat>)

  datatype Step =
    | StartTopup(dim: Dimension)
    | StartPrime(dim: Dimension)
    | GrantArrives(task: nat, grant: Option<Grant>)
    | AcquireFails(task: nat)
    | ReleaseCalled(task: nat)
    | ReleaseSkipped(task: nat)
    | Close
    | Drain
    | CloseDimension(dim: Dimension)
    | CloseCalled
    | CloseRaises(called: bool)
    | SweepEnds

  function Start(): System {
    System(PoolState(map[], false), map[], 0, Open, {}, multiset{}, multiset{})
  }

  /** What a closing sweep, under way or broken off, has not looked at. */
  function Todo(c: Closing): set<Dimension> {
    match c
    case Open => {}
    case Draining(todo) => todo
    case Sweeping(todo, _) => todo
    case AwaitingRelease(todo, _, _) => todo
    case Finished => {}
    case Aborted(todo) => todo
  }

  predicate IsTopup(t: Task) { t.kind == Topup }

  ghost predicate Enabled(s: System, step: Step) {
    match step
    case StartTopup(d) => CanSchedule(s.pool, d, true)
    case StartPrime(d) => d !in s.pool.held
    case GrantArrives(k, grant) =>
      && k in s.tasks && s.tasks[k].Acquiring?
      && (grant.Some? ==> grant.value.id !in s.received)
    case AcquireFails(k) => k in s.tasks && s.tasks[k].Acquiring?
    case ReleaseCalled(k) => k in s.tasks && s.tasks[k].Releasing?
    case ReleaseSkipped(k) => k in s.tasks && s.tasks[k].Releasing?
    case Close => s.closing.Open? || s.closing.Finished? || s.closing.Aborted?
    case Drain => s.closing.Draining? && forall k :: k in s.tasks ==> !IsTopup(s.tasks[k])
    case CloseDimension(d) =>
      && s.closing.Sweeping? && d in s.closing.todo && d in s.pool.held
      && s.pool.held.Keys == s.closing.keys
    case CloseCalled => s.closing.AwaitingRelease?
    case CloseRaises(_) => s.closing.AwaitingRelease?
    case SweepEnds => s.closing.Sweeping? && (s.closing.todo == {} || s.pool.held.Keys != s.closing.keys)
  }

  /** A finished task gives its dimension's single-flight slot back, however it ended. */
  function Ended(s: System, k: nat): (r: System)
    requires k in s.tasks
  {
    var d := s.tasks[k].dim;
    s.(tasks := s.tasks - {k},
       pool := if s.tasks[k].kind == Topup && d in s.pool.held
               then s.pool.(held := s.pool.held[d := s.pool.held[d].(toppingUp := false)]) else s.pool)
  }

  function Apply(s: System, step: Step): (r: System)
    requires Enabled(s, step)
  {
    match step
    case StartTopup(d) =>
      s.(pool := Scheduled(s.pool, d),
         tasks := s.tasks[s.nextTask := Acquiring(d, Topup)], nextTask := s.nextTask + 1)
    case StartPrime(d) =>
      s.(tasks := s.tasks[s.nextTask := Acquiring(d, Prime)], nextTask := s.nextTask + 1)
    case GrantArrives(k, grant) =>
      var (pool, toRelease) := Granted(s.pool, s.tasks[k].dim, grant);
      var seen := s.(pool := pool, received := if grant.Some? then s.received + {grant.value.id} else s.received);
      if toRelease.None? then Ended(seen, k)
      else seen.(tasks := s.tasks[k := Releasing(s.tasks[k].dim, s.tasks[k].kind, toRelease.value)])
    case AcquireFails(k) => Ended(s, k)
    case ReleaseCalled(k) => Ended(s.(called := s.called + multiset{s.tasks[k].lease}), k)
    case ReleaseSkipped(k) => Ended(s.(lost := s.lost + multiset{s.tasks[k].lease}), k)
    case Close => s.(closing := Draining(Todo(s.closing)))
    case Drain =>
      s.(pool := s.pool.(closed := true), closing := Sweeping(s.pool.held.Keys, s.pool.held.Keys))
    case CloseDimension(d) =>
      var lease := s.pool.held[d].lease;
      var todo := s.closing.todo - {d};
      if lease.state != Active then s.(closing := Sweeping(todo, s.closing.keys))
      else
        s.(pool := WithLease(s.pool, d, lease.(state := Released)),
           closing := AwaitingRelease(todo, s.closing.keys, lease.id))
    case CloseCalled =>
      s.(called := s.called + multiset{s.closing.lease}, closing := Sweeping(s.closing.todo, s.closing.keys))
    case CloseRaises(called) =>
      // The exception leaves `aclose` as well.
      s.(called := if called then s.called + multiset{s.closing.lease} else s.called,
         lost := if called then s.lost else s.lost + multiset{s.closing.lease},
         closing := Aborted(s.closing.todo))
    case SweepEnds =>
      s.(closing := if s.pool.held.Keys != s.closing.keys then Aborted(s.closing.todo) else Finished)
  }

  ghost function Exec(s: System, steps: seq<Step>): Option<System>
    decreases |steps|
  {
    if steps == [] then Some(s)
    else if !Enabled(s, steps[0]) then None
    else Exec(Apply(s, steps[0]), steps[1..])
  }

  // ------------------------------------------------------------------------------------
  // Invariants
  // ------------------------------------------------------------------------------------

  /** Single flight: a dimension is marked exactly while one top-up task of its own exists. */
  ghost predicate SingleFlight(s: System) {
    && (forall k :: k in s.tasks ==> k < s.nextTask)
    && (forall k :: k in s.tasks && IsTopup(s.tasks[k]) ==>
         s.tasks[k].dim in s.pool.held && s.pool.held[s.tasks[k].dim].toppingUp)
    && (forall j, k :: j in s.tasks && k in s.tasks && j != k && IsTopup(s.tasks[j]) && IsTopup(s.tasks[k]) ==>
         s.tasks[j].dim != s.tasks[k].dim)
    && (forall d :: d in s.pool.held && s.pool.held[d].toppingUp ==>
         exists k :: k in s.tasks && IsTopup(s.tasks[k]) && s.tasks[k].dim == d)
  }

  lemma StartKeepsSingleFlight(s: System, step: Step)
    requires SingleFlight(s) && Enabled(s, step) && (step.StartTopup? || step.StartPrime?)
    ensures SingleFlight(Apply(s, step))
  {
    var after := Apply(s, step);
    forall d | d in after.pool.held && after.pool.held[d].toppingUp
      ensures exists k :: k in after.tasks && IsTopup(after.tasks[k]) && after.tasks[k].dim == d
    {
      if step == StartTopup(d) {
        assert after.tasks[s.nextTask] == Acquiring(d, Topup);
      } else {
        var k :| k in s.tasks && IsTopup(s.tasks[k]) && s.tasks[k].dim == d;
        assert after.tasks[k] == s.tasks[k];
      }
    }
  }

  lemma EndedKeepsSingleFlight(s: System, k: nat)
    requires SingleFlight(s) && k in s.tasks
    ensures SingleFlight(Ended(s, k))
  {
    var after := Ended(s, k);
    forall d | d in after.pool.held && after.pool.held[d].toppingUp
      ensures exists j :: j in after.tasks && IsTopup(after.tasks[j]) && after.tasks[j].dim == d
    {
      var j :| j in s.tasks && IsTopup(s.tasks[j]) && s.tasks[j].dim == d;
      assert j in after.tasks && after.tasks[j] == s.tasks[j];
    }
  }

  /** Only the leases of `held`, or the stage of a task, differ between the two. */
  lemma SameSlotsKeepSingleFlight(s: System, after: System)
    requires SingleFlight(s) && after.nextTask == s.nextTask && after.tasks.Keys == s.tasks.Keys
    requires forall k :: k in s.tasks ==>
      after.tasks[k].dim == s.tasks[k].dim && after.tasks[k].kind == s.tasks[k].kind
    requires forall d :: d in s.pool.held ==>
      d in after.pool.held && after.pool.held[d].toppingUp == s.pool.held[d].toppingUp
    requires forall d :: d in after.pool.held && d !in s.pool.held ==> !after.pool.held[d].toppingUp
    ensures SingleFlight(after)
  {
  }

  lemma GrantKeepsSingleFlight(s: System, step: Step)
    requires SingleFlight(s) && Enabled(s, step) && step.GrantArrives?
    ensures SingleFlight(Apply(s, step))
  {
    hide SingleFlight;
    var k, grant := step.task, step.grant;
    var (pool, toRelease) := Granted(s.pool, s.tasks[k].dim, grant);
    var seen := s.(pool := pool, received := if grant.Some? then s.received + {grant.value.id} else s.received);
    if toRelease.None? {
      SameSlotsKeepSingleFlight(s, seen);
      EndedKeepsSingleFlight(seen, k);
    } else {
      SameSlotsKeepSingleFlight(s, Apply(s, step));
    }
  }

  lemma StepKeepsSingleFlight(s: System, step: Step)
    requires SingleFlight(s) && Enabled(s, step)
    ensures SingleFlight(Apply(s, step))
  {
    match step
    case StartTopup(_) => StartKeepsSingleFlight(s, step);
    case StartPrime(_) => StartKeepsSingleFlight(s, step);
    case GrantArrives(_, _) => GrantKeepsSingleFlight(s, step);
    case AcquireFails(k) => EndedKeepsSingleFlight(s, k);
    case ReleaseCalled(k) => EndedKeepsSingleFlight(s.(called := s.called + multiset{s.tasks[k].lease}), k);
    case ReleaseSkipped(k) => EndedKeepsSingleFlight(s.(lost := s.lost + multiset{s.tasks[k].lease}), k);
    case CloseDimension(_) => SameSlotsKeepSingleFlight(s, Apply(s, step));
    case _ =>
  }

  lemma {:induction false} RunKeepsSingleFlight(s: System, steps: seq<Step>)
    requires SingleFlight(s) && Exec(s, steps).Some?
    ensures SingleFlight(Exec(s, steps).value)
    decreases |steps|
  {
    if steps != [] {
      StepKeepsSingleFlight(s, steps[0]);
      RunKeepsSingleFlight(Apply(s, steps[0]), steps[1..]);
    }
  }

  /** At most one top-up per dimension is ever in flight, whatever priming and closing do. */
  lemma OneTopupPerDimension(steps: seq<Step>, j: nat, k: nat)
    requires Exec(Start(), steps).Some?
    requires var s := Exec(Start(), steps).value;
      j in s.tasks && k in s.tasks && IsTopup(s.tasks[j]) && IsTopup(s.tasks[k]) && s.tasks[j].dim == s.tasks[k].dim
    ensures j == k
  {
    RunKeepsSingleFlight(Start(), steps);
  }

  // ------------------------------------------------------------------------------------
  // Duties to release
  // ------------------------------------------------------------------------------------

  function TaskDuty(tasks: map<nat, Task>, k: nat): multiset<nat> {
    if k in tasks && tasks[k].Releasing? then multiset{tasks[k].lease} else multiset{}
  }

  function TaskDuties(tasks: map<nat, Task>, n: nat): multiset<nat> {
    if n == 0 then multiset{} else TaskDuties(tasks, n - 1) + TaskDuty(tasks, n - 1)
  }

  function CloseDuty(c: Closing): multiset<nat> {
    if c.AwaitingRelease? then multiset{c.lease} else multiset{}
  }

  function DoneDuties(s: System): multiset<nat> { s.called + s.lost + CloseDuty(s.closing) }

  /** Every RELEASE this pool has made, given up on, or still has to make. */
  function Duties(s: System): multiset<nat> { DoneDuties(s) + TaskDuties(s.tasks, s.nextTask) }

  lemma {:induction false} OneTaskChanges(tasks: map<nat, Task>, later: map<nat, Task>, k: nat, n: nat)
    requires forall j :: 0 <= j < n && j != k ==> TaskDuty(later, j) == TaskDuty(tasks, j)
    ensures k < n ==> TaskDuties(later, n) + TaskDuty(tasks, k) == TaskDuties(tasks, n) + TaskDuty(later, k)
    ensures n <= k ==> TaskDuties(later, n) == TaskDuties(tasks, n)
  {
    hide TaskDuty;
    if n > 0 {
      OneTaskChanges(tasks, later, k, n - 1);
      var most, more := TaskDuties(tasks, n - 1), TaskDuties(later, n - 1);
      if n - 1 == k {
        assert more + TaskDuty(later, k) + TaskDuty(tasks, k) == most + TaskDuty(tasks, k) + TaskDuty(later, k);
      } else if k < n {
        var same := TaskDuty(tasks, n - 1);
        assert more + same + TaskDuty(tasks, k) == (more + TaskDuty(tasks, k)) + same;
        assert (most + TaskDuty(later, k)) + same == most + same + TaskDuty(later, k);
      }
    }
  }

  lemma {:induction false} NewTaskOwesNothing(s: System, t: Task)
    requires Numbered(s) && t.Acquiring?
    ensures TaskDuties(s.tasks[s.nextTask := t], s.nextTask + 1) == TaskDuties(s.tasks, s.nextTask)
  {
    OneTaskChanges(s.tasks, s.tasks[s.nextTask := t], s.nextTask, s.nextTask);
  }

  /** The one way to take a duty on: replacing a lease, or closing on one that is active. */
  function NewDuty(s: System, step: Step): multiset<nat>
    requires Enabled(s, step)
  {
    match step
    case GrantArrives(k, Some(_)) =>
      if s.tasks[k].dim in s.pool.held then multiset{s.pool.held[s.tasks[k].dim].lease.id} else multiset{}
    case CloseDimension(d) =>
      if s.pool.held[d].lease.state == Active then multiset{s.pool.held[d].lease.id} else multiset{}
    case _ => multiset{}
  }

  ghost predicate Numbered(s: System) { forall k :: k in s.tasks ==> k < s.nextTask }

  lemma DutiesAddUp(
    done: multiset<nat>, later: multiset<nat>, tasks: multiset<nat>, others: multiset<nat>,
    was: multiset<nat>, will: multiset<nat>, more: multiset<nat>)
    requires others + was == tasks + will && later + will == done + was + more
    ensures later + others == done + tasks + more
  {
    forall id: nat
      ensures (later + others)[id] == (done + tasks + more)[id]
    {
      assert (others + was)[id] == (tasks + will)[id] && (later + will)[id] == (done + was + more)[id];
    }
  }

  lemma TaskStepKeepsDuties(s: System, step: Step, k: nat)
    requires Numbered(s) && Enabled(s, step) && k in s.tasks && Apply(s, step).nextTask == s.nextTask
    requires forall j :: j != k ==> TaskDuty(Apply(s, step).tasks, j) == TaskDuty(s.tasks, j)
    requires DoneDuties(Apply(s, step)) + TaskDuty(Apply(s, step).tasks, k)
          == DoneDuties(s) + TaskDuty(s.tasks, k) + NewDuty(s, step)
    ensures Duties(Apply(s, step)) == Duties(s) + NewDuty(s, step)
  {
    hide TaskDuties, TaskDuty, Apply, Enabled, NewDuty, CloseDuty;
    var z := Apply(s, step);
    OneTaskChanges(s.tasks, z.tasks, k, s.nextTask);
    DutiesAddUp(DoneDuties(s), DoneDuties(z), TaskDuties(s.tasks, s.nextTask), TaskDuties(z.tasks, s.nextTask),
                TaskDuty(s.tasks, k), TaskDuty(z.tasks, k), NewDuty(s, step));
  }

  lemma GrantKeepsDuties(s: System, step: Step)
    requires Numbered(s) && Enabled(s, step) && step.GrantArrives?
    ensures Duties(Apply(s, step)) == Duties(s) + NewDuty(s, step)
  {
    hide TaskDuties, Duties;
    TaskStepKeepsDuties(s, step, step.task);
  }

  lemma FailKeepsDuties(s: System, step: Step)
    requires Numbered(s) && Enabled(s, step) && step.AcquireFails?
    ensures Duties(Apply(s, step)) == Duties(s) + NewDuty(s, step)
  {
    hide TaskDuties, Duties, CloseDuty;
    TaskStepKeepsDuties(s, step, step.task);
  }

  lemma ReleaseKeepsDuties(s: System, step: Step)
    requires Numbered(s) && Enabled(s, step) && (step.ReleaseCalled? || step.ReleaseSkipped?)
    ensures Duties(Apply(s, step)) == Duties(s) + NewDuty(s, step)
  {
    hide TaskDuties, Duties, CloseDuty, Numbered;
    var z := Apply(s, step);
    var was := TaskDuty(s.tasks, step.task);
    assert z.tasks == s.tasks - {step.task} && z.closing == s.closing && z.nextTask == s.nextTask;
    assert TaskDuty(z.tasks, step.task) == multiset{};
    assert z.called + z.lost == s.called + s.lost + was;
    assert DoneDuties(z) == DoneDuties(s) + was;
    TaskStepKeepsDuties(s, step, step.task);
  }

  lemma StartKeepsDuties(s: System, step: Step)
    requires Numbered(s) && Enabled(s, step) && (step.StartTopup? || step.StartPrime?)
    ensures Duties(Apply(s, step)) == Duties(s) + NewDuty(s, step)
  {
    hide TaskDuties;
    NewTaskOwesNothing(s, Acquiring(step.dim, if step.StartTopup? then Topup else Prime));
  }

  lemma CloseTakesDuty(s: System, step: Step)
    requires Enabled(s, step) && step.CloseDimension?
    ensures Duties(Apply(s, step)) == Duties(s) + NewDuty(s, step)
  {
    hide TaskDuties;
  }

  lemma CloseMeetsDuty(s: System, step: Step)
    requires Enabled(s, step) && (step.CloseCalled? || step.CloseRaises?)
    ensures Duties(Apply(s, step)) == Duties(s) + NewDuty(s, step)
  {
    hide TaskDuties;
  }

  lemma CloseKeepsDuties(s: System, step: Step)
    requires Enabled(s, step) && (step.Close? || step.Drain? || step.SweepEnds?)
    ensures Duties(Apply(s, step)) == Duties(s) + NewDuty(s, step)
  {
    hide TaskDuties;
  }

  /** No step loses a duty to release, and none but those two takes one on. */
  lemma StepKeepsDuties(s: System, step: Step)
    requires Numbered(s) && Enabled(s, step)
    ensures Duties(Apply(s, step)) == Duties(s) + NewDuty(s, step)
  {
    hide Duties, NewDuty, Apply, Enabled;
    if step.GrantArrives? {
      GrantKeepsDuties(s, step);
    } else if step.AcquireFails? {
      FailKeepsDuties(s, step);
    } else if step.ReleaseCalled? || step.ReleaseSkipped? {
      ReleaseKeepsDuties(s, step);
    } else if step.StartTopup? || step.StartPrime? {
      StartKeepsDuties(s, step);
    } else if step.CloseDimension? {
      CloseTakesDuty(s, step);
    } else if step.CloseCalled? || step.CloseRaises? {
      CloseMeetsDuty(s, step);
    } else {
      CloseKeepsDuties(s, step);
    }
  }

  // ------------------------------------------------------------------------------------
  // How often each lease is owed a release
  // ------------------------------------------------------------------------------------

  ghost predicate HeldAt(s: System, d: Dimension, id: nat) { d in s.pool.held && s.pool.held[d].lease.id == id }

  /** The pool holds the lease and may spend from it. */
  ghost predicate InUse(s: System, id: nat) {
    exists d :: HeldAt(s, d, id) && s.pool.held[d].lease.state == Active
  }

  /** Held leases were granted, once each; nothing is retired before the pool is closed. */
  ghost predicate HeldSound(s: System) {
    && Numbered(s)
    && (forall d :: d in s.pool.held ==> s.pool.held[d].lease.id in s.received)
    && (forall d, e :: d in s.pool.held && e in s.pool.held && d != e ==>
         s.pool.held[d].lease.id != s.pool.held[e].lease.id)
    && (s.closing.Sweeping? || s.closing.AwaitingRelease? || s.closing.Finished? || s.closing.Aborted? ==>
         s.pool.closed)
  }

  /** A grant replaces the lease although it was already retired, and so already owed a release. */
  ghost predicate RetiresAgain(s: System, step: Step, id: nat) {
    && step.GrantArrives? && step.grant.Some? && step.task in s.tasks
    && HeldAt(s, s.tasks[step.task].dim, id) && s.pool.held[s.tasks[step.task].dim].lease.state != Active
  }

  ghost predicate RetiredAgain(s: System, steps: seq<Step>, id: nat)
    decreases |steps|
  {
    steps != [] && Enabled(s, steps[0])
    && (RetiresAgain(s, steps[0], id) || RetiredAgain(Apply(s, steps[0]), steps[1..], id))
  }

  ghost predicate Counted(s: System, id: nat, again: bool) {
    && Duties(s)[id] == (if again then 2 else if id in s.received && !InUse(s, id) then 1 else 0)
    && (again ==> id in s.received && forall d :: !HeldAt(s, d, id))
  }

  lemma StepKeepsNumbers(s: System, step: Step)
    requires Numbered(s) && Enabled(s, step)
    ensures Numbered(Apply(s, step))
  {
  }

  lemma GrantKeepsHeld(s: System, step: Step)
    requires HeldSound(s) && Enabled(s, step) && step.GrantArrives?
    ensures HeldSound(Apply(s, step))
  {
    hide Numbered;
    StepKeepsNumbers(s, step);
    var z := Apply(s, step);
    if step.grant.Some? {
      var d := s.tasks[step.task].dim;
      assert forall e :: e in z.pool.held && e != d ==> e in s.pool.held && z.pool.held[e].lease == s.pool.held[e].lease;
      assert z.pool.held[d].lease == NewLease(step.grant.value);
    }
  }

  lemma OtherKeepsHeld(s: System, step: Step)
    requires HeldSound(s) && Enabled(s, step) && !step.GrantArrives?
    ensures HeldSound(Apply(s, step))
  {
    hide Numbered;
    StepKeepsNumbers(s, step);
    var z := Apply(s, step);
    assert forall e :: e in z.pool.held ==> e in s.pool.held && z.pool.held[e].lease.id == s.pool.held[e].lease.id;
  }

  lemma StepKeepsHeld(s: System, step: Step)
    requires HeldSound(s) && Enabled(s, step)
    ensures HeldSound(Apply(s, step))
  {
    hide HeldSound, Apply, Enabled;
    if step.GrantArrives? {
      GrantKeepsHeld(s, step);
    } else {
      OtherKeepsHeld(s, step);
    }
  }

  lemma GrantKeepsCounted(s: System, step: Step, id: nat, again: bool)
    requires HeldSound(s) && Counted(s, id, again) && Enabled(s, step) && step.GrantArrives?
    ensures Counted(Apply(s, step), id, again || RetiresAgain(s, step, id))
  {
    hide Duties;
    StepKeepsDuties(s, step);
    var z := Apply(s, step);
    if step.grant.Some? {
      var d := s.tasks[step.task].dim;
      assert forall e :: e in z.pool.held && e != d ==> e in s.pool.held && z.pool.held[e].lease == s.pool.held[e].lease;
      assert z.pool.held[d].lease == NewLease(step.grant.value);
      if HeldAt(s, d, id) {
        assert !InUse(z, id);
        if s.pool.held[d].lease.state == Active {
          assert InUse(s, id);
        }
      } else if id == step.grant.value.id {
        assert HeldAt(z, d, id);
      } else {
        SameHeldSameUse(s, z, id, d);
      }
    } else {
      assert forall e :: HeldAt(z, e, id) <==> HeldAt(s, e, id);
    }
  }

  lemma SameHeldSameUse(s: System, z: System, id: nat, d: Dimension)
    requires !HeldAt(s, d, id) && !HeldAt(z, d, id)
    requires forall e :: e != d ==> (e in s.pool.held <==> e in z.pool.held)
    requires forall e :: e in z.pool.held && e != d ==> z.pool.held[e].lease == s.pool.held[e].lease
    ensures InUse(z, id) <==> InUse(s, id)
    ensures forall e :: HeldAt(z, e, id) <==> HeldAt(s, e, id)
  {
    assert forall e :: HeldAt(z, e, id) <==> HeldAt(s, e, id);
  }

  lemma CloseKeepsCounted(s: System, step: Step, id: nat, again: bool)
    requires HeldSound(s) && Counted(s, id, again) && Enabled(s, step) && step.CloseDimension?
    ensures Counted(Apply(s, step), id, again)
  {
    hide Duties;
    StepKeepsDuties(s, step);
    var z := Apply(s, step);
    assert forall e :: HeldAt(z, e, id) <==> HeldAt(s, e, id);
    if HeldAt(s, step.dim, id) {
      if s.pool.held[step.dim].lease.state == Active {
        assert InUse(s, id);
      }
    }
  }

  lemma OtherKeepsCounted(s: System, step: Step, id: nat, again: bool)
    requires HeldSound(s) && Counted(s, id, again) && Enabled(s, step) && !step.GrantArrives? && !step.CloseDimension?
    ensures Counted(Apply(s, step), id, again)
  {
    hide Duties, HeldSound;
    var z := Apply(s, step);
    assert Numbered(s) by {
      SoundIsNumbered(s);
    }
    StepKeepsDuties(s, step);
    assert NewDuty(s, step) == multiset{};
    assert z.received == s.received;
    assert forall e :: e in z.pool.held <==> e in s.pool.held;
    assert forall e :: e in s.pool.held ==> z.pool.held[e].lease == s.pool.held[e].lease;
    assert forall e :: HeldAt(z, e, id) <==> HeldAt(s, e, id);
  }

  lemma SoundIsNumbered(s: System)
    requires HeldSound(s)
    ensures Numbered(s)
  {
  }

  lemma StepKeepsCounted(s: System, step: Step, id: nat, again: bool)
    requires HeldSound(s) && Counted(s, id, again) && Enabled(s, step)
    ensures Counted(Apply(s, step), id, again || RetiresAgain(s, step, id))
  {
    hide Counted, Apply, Enabled, HeldSound;
    if step.GrantArrives? {
      GrantKeepsCounted(s, step, id, again);
    } else if step.CloseDimension? {
      CloseKeepsCounted(s, step, id, again);
    } else {
      OtherKeepsCounted(s, step, id, again);
    }
  }

  lemma {:induction false} RunKeepsCounted(s: System, steps: seq<Step>, id: nat, again: bool)
    requires HeldSound(s) && Counted(s, id, again) && Exec(s, steps).Some?
    ensures HeldSound(Exec(s, steps).value)
    ensures Counted(Exec(s, steps).value, id, again || RetiredAgain(s, steps, id))
    decreases |steps|
  {
    hide Counted, HeldSound, Apply, Enabled;
    if steps != [] {
      StepKeepsHeld(s, steps[0]);
      StepKeepsCounted(s, steps[0], id, again);
      RunKeepsCounted(Apply(s, steps[0]), steps[1..], id, again || RetiresAgain(s, steps[0], id));
    }
  }

  lemma StartCounted(id: nat)
    ensures HeldSound(Start()) && Counted(Start(), id, false)
  {
  }

  /**
   Over every interleaving of requests, top-ups, primes, failures and closings, a lease is owed
   a RELEASE once it is granted and no longer in use, and a second one exactly when a grant
   arrived for its dimension after the closing sweep had already retired it.
   */
  lemma OwedTwiceIffRetiredAgain(steps: seq<Step>, id: nat)
    requires Exec(Start(), steps).Some?
    ensures
      var s := Exec(Start(), steps).value;
      && Duties(s)[id] <= 2
      && (Duties(s)[id] == 2 <==> RetiredAgain(Start(), steps, id))
      && (Duties(s)[id] == 0 <==> id !in s.received || InUse(s, id))
  {
    hide Duties, Exec;
    StartCounted(id);
    RunKeepsCounted(Start(), steps, id, false);
    var s := Exec(Start(), steps).value;
    if id !in s.received {
      assert !InUse(s, id);
    }
  }

  /** Then no lease in use is released, none but granted ones are, and none more than once. */
  lemma ReleasedAtMostOnce(steps: seq<Step>, id: nat)
    requires Exec(Start(), steps).Some?
    ensures
      var s := Exec(Start(), steps).value;
      && (!RetiredAgain(Start(), steps, id) ==> s.called[id] <= 1)
      && s.called[id] <= 2
      && (id in s.called ==> id in s.received)
      && (InUse(s, id) ==> s.called[id] == 0)
  {
    hide Exec;
    OwedTwiceIffRetiredAgain(steps, id);
  }

  // ------------------------------------------------------------------------------------
  // What a finished close leaves behind
  // ------------------------------------------------------------------------------------

  /** In use, in a pool that is closed, where the closing sweep will not look. */
  ghost predicate LeftOut(s: System, id: nat) {
    s.pool.closed && exists d :: HeldAt(s, d, id) && s.pool.held[d].lease.state == Active && d !in Todo(s.closing)
  }

  /** The lease is installed in a closed pool, in a dimension outside the sweep's `todo`. */
  ghost predicate InstallsOutside(s: System, step: Step, id: nat) {
    && step.GrantArrives? && step.grant.Some? && step.grant.value.id == id && step.task in s.tasks
    && s.pool.closed && s.tasks[step.task].dim !in Todo(s.closing)
  }

  /** The lease is replaced, or a further `aclose` sweeps every dimension again. */
  ghost predicate TakesUp(s: System, step: Step, id: nat) {
    || step.Drain?
    || (step.GrantArrives? && step.grant.Some? && step.task in s.tasks && HeldAt(s, s.tasks[step.task].dim, id))
  }

  ghost predicate NeverTakenUp(s: System, steps: seq<Step>, id: nat)
    decreases |steps|
  {
    steps == [] || !Enabled(s, steps[0])
    || (!TakesUp(s, steps[0], id) && NeverTakenUp(Apply(s, steps[0]), steps[1..], id))
  }

  /** At some point it was installed outside the sweep, and never taken up after that. */
  ghost predicate Stranded(s: System, steps: seq<Step>, id: nat)
    decreases |steps|
  {
    steps != [] && Enabled(s, steps[0])
    && ((InstallsOutside(s, steps[0], id) && NeverTakenUp(Apply(s, steps[0]), steps[1..], id))
        || Stranded(Apply(s, steps[0]), steps[1..], id))
  }

  lemma GrantLeavesOut(s: System, step: Step, id: nat)
    requires HeldSound(s) && Enabled(s, step) && step.GrantArrives?
    ensures LeftOut(Apply(s, step), id) <==> (LeftOut(s, id) && !TakesUp(s, step, id)) || InstallsOutside(s, step, id)
  {
    var z := Apply(s, step);
    assert z.closing == s.closing && z.pool.closed == s.pool.closed;
    if step.grant.Some? {
      var d := s.tasks[step.task].dim;
      assert forall e :: e in z.pool.held && e != d ==> e in s.pool.held && z.pool.held[e].lease == s.pool.held[e].lease;
      assert z.pool.held[d].lease == NewLease(step.grant.value);
      if id == step.grant.value.id {
        assert HeldAt(z, d, id);
        assert forall e :: !HeldAt(s, e, id);
      } else {
        assert !HeldAt(z, d, id);
        assert forall e :: e != d ==> (HeldAt(z, e, id) <==> HeldAt(s, e, id));
        if LeftOut(s, id) && !TakesUp(s, step, id) {
          var e :| HeldAt(s, e, id) && s.pool.held[e].lease.state == Active && e !in Todo(s.closing);
          assert HeldAt(z, e, id);
        }
      }
    } else {
      assert forall e :: HeldAt(z, e, id) <==> HeldAt(s, e, id);
    }
  }

  lemma StepLeavesOut(s: System, step: Step, id: nat)
    requires HeldSound(s) && Enabled(s, step)
    ensures LeftOut(Apply(s, step), id) <==> (LeftOut(s, id) && !TakesUp(s, step, id)) || InstallsOutside(s, step, id)
  {
    if step.GrantArrives? {
      GrantLeavesOut(s, step, id);
    } else if step.CloseDimension? {
      CloseLeavesOut(s, step, id);
    } else {
      OtherLeavesOut(s, step, id);
    }
  }

  lemma CloseLeavesOut(s: System, step: Step, id: nat)
    requires HeldSound(s) && Enabled(s, step) && step.CloseDimension?
    ensures LeftOut(Apply(s, step), id) <==> LeftOut(s, id)
  {
    var z := Apply(s, step);
    assert forall e :: HeldAt(z, e, id) <==> HeldAt(s, e, id);
    assert forall e :: HeldAt(s, e, id) && e != step.dim ==> z.pool.held[e] == s.pool.held[e];
    assert forall e :: e != step.dim ==> (e in Todo(z.closing) <==> e in Todo(s.closing));
  }

  lemma OtherLeavesOut(s: System, step: Step, id: nat)
    requires HeldSound(s) && Enabled(s, step) && !step.GrantArrives? && !step.CloseDimension?
    ensures LeftOut(Apply(s, step), id) <==> LeftOut(s, id) && !step.Drain?
  {
  }

  lemma {:induction false} RunLeavesOut(s: System, steps: seq<Step>, id: nat)
    requires HeldSound(s) && Exec(s, steps).Some?
    ensures LeftOut(Exec(s, steps).value, id)
       <==> (LeftOut(s, id) && NeverTakenUp(s, steps, id)) || Stranded(s, steps, id)
    decreases |steps|
  {
    hide LeftOut, HeldSound, Apply, Enabled, TakesUp, InstallsOutside;
    if steps != [] {
      StepKeepsHeld(s, steps[0]);
      StepLeavesOut(s, steps[0], id);
      RunLeavesOut(Apply(s, steps[0]), steps[1..], id);
    }
  }

  /**
   When `aclose` has finished, a grant received is owed no release at all exactly when it was
   installed outside the sweep and never taken up again; every other one was released, given
   up on, or is about to be released by a task, once, or twice if it was retired again.
   */
  lemma ClosedPoolReturnsEverything(steps: seq<Step>, id: nat)
    requires Exec(Start(), steps).Some? && Exec(Start(), steps).value.closing.Finished?
    requires id in Exec(Start(), steps).value.received
    ensures
      var s := Exec(Start(), steps).value;
      && (Duties(s)[id] == 0 <==> Stranded(Start(), steps, id))
      && (!Stranded(Start(), steps, id) && !RetiredAgain(Start(), steps, id) ==>
           s.called[id] + s.lost[id] + TaskDuties(s.tasks, s.nextTask)[id] == 1)
  {
    hide Exec;
    StartCounted(id);
    RunKeepsCounted(Start(), steps, id, false);
    OwedTwiceIffRetiredAgain(steps, id);
    RunLeavesOut(Start(), steps, id);
    var s := Exec(Start(), steps).value;
    assert !LeftOut(Start(), id);
    assert LeftOut(s, id) <==> InUse(s, id);
  }

  // ------------------------------------------------------------------------------------
  // Priming that is over in time
  // ------------------------------------------------------------------------------------

  /** No prime is started in a closed pool, or outstanding when it closes. */
  ghost predicate Timely(s: System, step: Step) {
    && (step.StartPrime? ==> !s.pool.closed)
    && (step.Drain? ==> forall k :: k in s.tasks ==> s.tasks[k].kind != Prime)
  }

  ghost predicate NoLatePrime(s: System, steps: seq<Step>)
    decreases |steps|
  {
    steps == [] || !Enabled(s, steps[0])
    || (Timely(s, steps[0]) && NoLatePrime(Apply(s, steps[0]), steps[1..]))
  }

  ghost predicate Settled(s: System) {
    && (s.pool.closed ==> s.tasks == map[])
    && (!s.pool.closed ==> forall d :: d in s.pool.held ==> s.pool.held[d].lease.state == Active)
  }

  lemma StepKeepsSettled(s: System, step: Step)
    requires HeldSound(s) && Settled(s) && Enabled(s, step) && Timely(s, step)
    ensures Settled(Apply(s, step))
  {
    if step.Drain? {
      assert forall k :: k !in s.tasks;
      assert s.tasks == map[];
    }
  }

  /** Then no lease is retired again and none is left out: both are the late prime's doing. */
  lemma {:induction false} OnlyLatePrimesHarm(s: System, steps: seq<Step>, id: nat)
    requires HeldSound(s) && Settled(s) && Exec(s, steps).Some? && NoLatePrime(s, steps)
    ensures !RetiredAgain(s, steps, id) && !Stranded(s, steps, id)
    decreases |steps|
  {
    hide HeldSound, Apply, Enabled;
    if steps != [] {
      NothingHarms(s, steps[0], id);
      StepKeepsHeld(s, steps[0]);
      StepKeepsSettled(s, steps[0]);
      OnlyLatePrimesHarm(Apply(s, steps[0]), steps[1..], id);
    }
  }

  lemma NothingHarms(s: System, step: Step, id: nat)
    requires HeldSound(s) && Settled(s) && Enabled(s, step)
    ensures !RetiresAgain(s, step, id) && !InstallsOutside(s, step, id)
  {
  }

  // ------------------------------------------------------------------------------------
  // Priming that is still in flight when the pool closes
  // ------------------------------------------------------------------------------------

  lemma Advance(s: System, step: Step, rest: seq<Step>)
    requires Enabled(s, step)
    ensures Exec(s, [step] + rest) == Exec(Apply(s, step), rest)
  {
    assert ([step] + rest)[1..] == rest;
  }

  lemma NothingLeft(s: System)
    ensures Exec(s, []) == Some(s)
  {
  }

  /** One lease held, a prime for `e` still asking, and `aclose` about to release what it holds. */
  function OnAPrime(d: Dimension, e: Dimension): System {
    System(PoolState(map[d := Held(NewLease(Grant(0, 10, 100)), false, false)], true), map[1 := Acquiring(e, Prime)],
           2, Sweeping({d}, {d}), {0}, multiset{}, multiset{})
  }

  ghost predicate ReleasedTwice(s: System, steps: seq<Step>) {
    && Exec(s, steps).Some?
    && var after := Exec(s, steps).value;
       && after.called[0] == 2 && after.lost == multiset{} && after.tasks == map[] && after.closing == Finished
       && 1 in after.received && after.called[1] == 0
  }

  ghost predicate CloseBrokenOff(s: System, steps: seq<Step>) {
    && Exec(s, steps).Some?
    && var after := Exec(s, steps).value;
       && after.called == multiset{0} && after.lost == multiset{} && after.tasks == map[] && after.closing.Aborted?
       && 1 in after.received && InUse(after, 1)
  }

  /** The lease already released has been replaced, and is about to be released again. */
  function Replaced(d: Dimension): System {
    System(PoolState(map[d := Held(NewLease(Grant(1, 10, 100)), false, false)], true), map[1 := Releasing(d, Prime, 0)],
           2, Sweeping({}, {d}), {0, 1}, multiset{0}, multiset{})
  }

  function Replacing(d: Dimension): (steps: seq<Step>) {
    [Step.CloseDimension(d), CloseCalled, GrantArrives(1, Some(Grant(1, 10, 100)))]
  }

  lemma ReachReplaced(d: Dimension, rest: seq<Step>)
    ensures Exec(OnAPrime(d, d), Replacing(d) + rest) == Exec(Replaced(d), rest)
  {
    hide Exec;
    var s, grant := OnAPrime(d, d), Some(Grant(1, 10, 100));
    var s1 := Apply(s, Step.CloseDimension(d));
    assert {d} - {d} == {} && s1.pool.held.Keys == {d};
    var s2 := Apply(s1, CloseCalled);
    assert s2.called == multiset{0};
    var s3 := Apply(s2, GrantArrives(1, grant));
    assert s3.tasks == map[1 := Releasing(d, Prime, 0)];
    assert s3.pool.held == map[d := Held(NewLease(Grant(1, 10, 100)), false, false)];
    assert s3 == Replaced(d);
    Advance(s2, GrantArrives(1, grant), rest);
    Advance(s1, CloseCalled, [GrantArrives(1, grant)] + rest);
    Advance(s, Step.CloseDimension(d), [CloseCalled] + ([GrantArrives(1, grant)] + rest));
    assert Replacing(d) + rest == [Step.CloseDimension(d)] + ([CloseCalled] + ([GrantArrives(1, grant)] + rest));
  }

  lemma LateGrantReleasesAgain(d: Dimension) returns (steps: seq<Step>)
    ensures ReleasedTwice(OnAPrime(d, d), steps)
  {
    var s := Apply(Replaced(d), ReleaseCalled(1));
    assert s.tasks == map[] && s.pool.held.Keys == {d};
    NothingLeft(Apply(s, SweepEnds));
    Advance(s, SweepEnds, []);
    assert [SweepEnds] + [] == [SweepEnds];
    var last := [ReleaseCalled(1)] + [SweepEnds];
    Advance(Replaced(d), ReleaseCalled(1), [SweepEnds]);
    ReachReplaced(d, last);
    steps := Replacing(d) + last;
  }

  /** A first lease of another dimension has arrived while `aclose` awaits a release. */
  function Grown(d: Dimension, e: Dimension): System
    requires e != d
  {
    var released := NewLease(Grant(0, 10, 100)).(state := Released);
    System(PoolState(map[d := Held(released, false, false), e := Held(NewLease(Grant(1, 10, 100)), false, false)], true),
           map[], 2, AwaitingRelease({}, {d}, 0), {0, 1}, multiset{}, multiset{})
  }

  lemma OneReleaseAwaited(d: Dimension, e: Dimension)
    requires e != d
    ensures Enabled(OnAPrime(d, e), Step.CloseDimension(d))
    ensures
      var s := Apply(OnAPrime(d, e), Step.CloseDimension(d));
      && s == Grown(d, e).(pool := s.pool, tasks := map[1 := Acquiring(e, Prime)], received := {0})
      && s.pool == PoolState(map[d := Grown(d, e).pool.held[d]], true)
  {
    assert {d} - {d} == {};
  }

  lemma ThenItGrows(d: Dimension, e: Dimension, s: System)
    requires e != d && s.pool == PoolState(map[d := Grown(d, e).pool.held[d]], true)
    requires s == Grown(d, e).(pool := s.pool, tasks := map[1 := Acquiring(e, Prime)], received := {0})
    ensures Enabled(s, GrantArrives(1, Some(Grant(1, 10, 100))))
    ensures Apply(s, GrantArrives(1, Some(Grant(1, 10, 100)))) == Grown(d, e)
  {
    var z := Apply(s, GrantArrives(1, Some(Grant(1, 10, 100))));
    assert z.tasks == map[] && z.pool.held == Grown(d, e).pool.held;
  }

  lemma ReachGrown(d: Dimension, e: Dimension, rest: seq<Step>)
    requires e != d
    ensures Exec(OnAPrime(d, e), [Step.CloseDimension(d), GrantArrives(1, Some(Grant(1, 10, 100)))] + rest)
         == Exec(Grown(d, e), rest)
  {
    hide *;
    var s, grant := OnAPrime(d, e), GrantArrives(1, Some(Grant(1, 10, 100)));
    OneReleaseAwaited(d, e);
    var s1 := Apply(s, Step.CloseDimension(d));
    ThenItGrows(d, e, s1);
    Advance(s1, grant, rest);
    Advance(s, Step.CloseDimension(d), [grant] + rest);
    assert [Step.CloseDimension(d), grant] + rest == [Step.CloseDimension(d)] + ([grant] + rest);
  }

  /** It grows the dictionary that `aclose` is walking. */
  lemma LateGrantBreaksOff(d: Dimension, e: Dimension) returns (steps: seq<Step>)
    requires e != d
    ensures CloseBrokenOff(OnAPrime(d, e), steps)
  {
    hide OnAPrime;
    var s := Apply(Grown(d, e), CloseCalled);
    assert e in s.pool.held.Keys && s.called == multiset{0};
    var end := Apply(s, SweepEnds);
    assert HeldAt(end, e, 1);
    NothingLeft(end);
    Advance(s, SweepEnds, []);
    assert [SweepEnds] + [] == [SweepEnds];
    var last := [CloseCalled] + [SweepEnds];
    Advance(Grown(d, e), CloseCalled, [SweepEnds]);
    ReachGrown(d, e, last);
    steps := [Step.CloseDimension(d), GrantArrives(1, Some(Grant(1, 10, 100)))] + last;
  }

  function Opening(d: Dimension, e: Dimension): (steps: seq<Step>) {
    [StartPrime(d), StartPrime(e), GrantArrives(0, Some(Grant(0, 10, 100))), Close, Drain]
  }

  /** Two primes, the pool closing between their grants. */
  lemma ReachOnAPrime(d: Dimension, e: Dimension, rest: seq<Step>)
    ensures Exec(Start(), Opening(d, e) + rest) == Exec(OnAPrime(d, e), rest)
  {
    hide Exec;
    var grant := Some(Grant(0, 10, 100));
    var s1 := Apply(Start(), StartPrime(d));
    var s2 := Apply(s1, StartPrime(e));
    var s3 := Apply(s2, GrantArrives(0, grant));
    assert s3.tasks == map[1 := Acquiring(e, Prime)];
    var s4 := Apply(s3, Close);
    var s5 := Apply(s4, Drain);
    assert s3.pool.held == map[d := Held(NewLease(Grant(0, 10, 100)), false, false)] && s3.received == {0};
    assert s5.pool.held.Keys == {d};
    assert s5 == OnAPrime(d, e);
    var r4, r3, r2 := [Drain] + rest, [Close] + ([Drain] + rest), [GrantArrives(0, grant)] + ([Close] + ([Drain] + rest));
    Advance(s4, Drain, rest);
    Advance(s3, Close, r4);
    Advance(s2, GrantArrives(0, grant), r3);
    Advance(s1, StartPrime(e), r2);
    Advance(Start(), StartPrime(d), [StartPrime(e)] + r2);
    assert Opening(d, e) + rest == [StartPrime(d)] + ([StartPrime(e)] + r2);
  }

  /** Two primes race, the pool closes between them: one lease is released twice, one never. */
  lemma LatePrimeReleasesTwice() returns (steps: seq<Step>)
    ensures ReleasedTwice(Start(), steps)
  {
    hide OnAPrime, Opening, Exec;
    var rest := LateGrantReleasesAgain(SpendBdt);
    ReachOnAPrime(SpendBdt, SpendBdt, rest);
    steps := Opening(SpendBdt, SpendBdt) + rest;
  }

  /** In another dimension, the late prime makes `aclose` raise, and its lease is never released. */
  lemma LatePrimeBreaksClose() returns (steps: seq<Step>)
    ensures CloseBrokenOff(Start(), steps)
  {
    hide OnAPrime, Opening, Exec;
    var rest := LateGrantBreaksOff(SpendBdt, ToolCalls);
    ReachOnAPrime(SpendBdt, ToolCalls, rest);
    steps := Opening(SpendBdt, ToolCalls) + rest;
  }

  // ------------------------------------------------------------------------------------
  // Nothing gets stuck
  // ------------------------------------------------------------------------------------

  /** However a top-up ends, its dimension can start another. */
  lemma EndedTopupFreesItsSlot(s: System, k: nat, step: Step)
    requires SingleFlight(s) && !s.pool.closed && k in s.tasks && IsTopup(s.tasks[k]) && Enabled(s, step)
    requires step in {AcquireFails(k), ReleaseCalled(k), ReleaseSkipped(k), GrantArrives(k, None)}
    ensures Enabled(Apply(s, step), StartTopup(s.tasks[k].dim)) && k !in Apply(s, step).tasks
  {
  }

  /** Where the sweep ends: every lease it had to look at is retired, and the active ones were released. */
  ghost predicate SweptUp(s: System, todo: set<Dimension>, end: System) {
    && end.closing.Finished? && end.pool.closed == s.pool.closed && end.lost == s.lost && end.tasks == s.tasks
    && end.pool.held.Keys == s.pool.held.Keys && s.called <= end.called
    && (forall d :: d in todo && d in s.pool.held ==> end.pool.held[d].lease.state != Active)
    && (forall d :: d in todo && d in s.pool.held && s.pool.held[d].lease.state == Active ==>
         s.pool.held[d].lease.id in end.called)
    && (forall d :: d in s.pool.held && d !in todo ==> end.pool.held[d] == s.pool.held[d])
  }

  lemma SweptOne(s: System, todo: set<Dimension>, d: Dimension, next: System, end: System)
    requires d in todo && d in s.pool.held && SweptUp(next, todo - {d}, end)
    requires next.pool.closed == s.pool.closed && next.lost == s.lost && next.tasks == s.tasks
    requires next.pool.held.Keys == s.pool.held.Keys && s.called <= next.called
    requires forall e :: e in s.pool.held && e != d ==> next.pool.held[e] == s.pool.held[e]
    requires next.pool.held[d].lease.state != Active
    requires s.pool.held[d].lease.state == Active ==> s.pool.held[d].lease.id in next.called
    ensures SweptUp(s, todo, end)
  {
  }

  lemma ExecTwo(s: System, a: Step, b: Step, rest: seq<Step>)
    requires Enabled(s, a) && Enabled(Apply(s, a), b)
    ensures Exec(s, [a, b] + rest) == Exec(Apply(Apply(s, a), b), rest)
  {
    hide Enabled, Apply;
    assert ([a, b] + rest)[1..] == [b] + rest && ([b] + rest)[1..] == rest;
  }

  lemma ExecOne(s: System, a: Step, rest: seq<Step>)
    requires Enabled(s, a)
    ensures Exec(s, [a] + rest) == Exec(Apply(s, a), rest)
  {
    hide Enabled, Apply;
    assert ([a] + rest)[1..] == rest;
  }

  /** From any point of the sweep, releasing what is left ends it. */
  lemma {:induction false} SweepCanEnd(s: System) returns (steps: seq<Step>)
    requires s.closing.Sweeping? && s.pool.held.Keys == s.closing.keys && s.closing.todo <= s.closing.keys
    ensures Exec(s, steps).Some? && SweptUp(s, s.closing.todo, Exec(s, steps).value)
    decreases |s.closing.todo|
  {
    hide Exec, SweptUp;
    var todo := s.closing.todo;
    if todo == {} {
      NothingMore(Apply(s, SweepEnds));
      NothingSwept(s);
      ExecOne(s, SweepEnds, []);
      steps := [SweepEnds] + [];
    } else {
      var d :| d in todo;
      var next := Apply(s, CloseDimension(d));
      if s.pool.held[d].lease.state == Active {
        next := Apply(next, CloseCalled);
        var rest := SweepCanEnd(next);
        ExecTwo(s, CloseDimension(d), CloseCalled, rest);
        SweptOne(s, todo, d, next, Exec(next, rest).value);
        steps := [CloseDimension(d), CloseCalled] + rest;
      } else {
        var rest := SweepCanEnd(next);
        ExecOne(s, CloseDimension(d), rest);
        SweptOne(s, todo, d, next, Exec(next, rest).value);
        steps := [CloseDimension(d)] + rest;
      }
    }
  }

  lemma NothingSwept(s: System)
    requires Enabled(s, SweepEnds) && s.closing.todo == {} && s.pool.held.Keys == s.closing.keys
    ensures SweptUp(s, {}, Apply(s, SweepEnds))
  {
  }

  lemma NothingMore(s: System)
    ensures Exec(s, []) == Some(s)
  {
  }

  /**
   Closing can always be finished once no top-up is under way: there is a run of it after which
   no held lease is active and each that was active has been released.
   */
  lemma CloseCanFinish(s: System) returns (steps: seq<Step>)
    requires s.closing.Open? && forall k :: k in s.tasks ==> !IsTopup(s.tasks[k])
    ensures Exec(s, steps).Some?
    ensures SweptUp(s.(pool := s.pool.(closed := true)), s.pool.held.Keys, Exec(s, steps).value)
  {
    hide Exec;
    var sweeping := Apply(Apply(s, Close), Drain);
    var rest := SweepCanEnd(sweeping);
    ExecTwo(s, Close, Drain, rest);
    steps := [Close, Drain] + rest;
  }
}
