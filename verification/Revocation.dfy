/**
 Revocations at an enforcement point: a set and a Bloom filter in front of it, fed by pushes
 that may be lost or repeated and by pulls that may fail, and the time within which a
 revocation must take hold.
 */
module Revocation {
  import opened Wrappers

  /** One committed revocation: its number in the log, its block id, and when it was committed. */
  datatype Entry = Entry(seqNo: nat, id: string, at: int)

  /** The bits a Bloom filter sets for an id. */
  type Positions = string -> set<nat>

  datatype Client = Client(revoked: set<string>, bits: set<nat>, since: nat, lastPull: Option<int>)

  const COLD: Client := Client({}, {}, 0, None)

  function Added(c: Client, id: string, p: Positions): (r: Client) {
    c.(revoked := c.revoked + {id}, bits := c.bits + p(id))
  }

  function AddedAll(c: Client, entries: seq<Entry>, p: Positions): (r: Client) {
    if entries == [] then c else Added(AddedAll(c, entries[..|entries| - 1], p), entries[|entries| - 1].id, p)
  }

  /** The server's cursor: the last number it sent, or the one it was asked about. */
  function NextSeq(entries: seq<Entry>, since: nat): (n: nat) {
    if entries == [] then since else entries[|entries| - 1].seqNo
  }

  /** A response merged in: the cursor and the freshness stamp move only now. */
  function Merged(c: Client, entries: seq<Entry>, next: nat, now: int, p: Positions): (r: Client) {
    AddedAll(c, entries, p).(since := next, lastPull := Some(now))
  }

  predicate Stale(c: Client, now: int, limit: int) { c.lastPull.None? || now - c.lastPull.value >= limit }

  /** None is the raised `OracleUnavailable`; the filter is asked first. */
  function Lookup(c: Client, id: string, now: int, limit: int, p: Positions): (r: Option<bool>) {
    if Stale(c, now, limit) then None
    else if !(p(id) <= c.bits) then Some(false)
    else Some(id in c.revoked)
  }

  /** Every member's bits are set. */
  ghost predicate Mirrors(c: Client, p: Positions) { forall id :: id in c.revoked ==> p(id) <= c.bits }

  /** Asking the filter first never changes the answer, however full the filter is. */
  lemma FilterFirstIsExact(c: Client, id: string, now: int, limit: int, p: Positions)
    requires Mirrors(c, p)
    ensures Lookup(c, id, now, limit, p) == if Stale(c, now, limit) then None else Some(id in c.revoked)
  {
  }

  lemma {:induction false} AddedAllKeeps(c: Client, entries: seq<Entry>, p: Positions)
    ensures
      var a := AddedAll(c, entries, p);
      && (Mirrors(c, p) ==> Mirrors(a, p)) && a.since == c.since && a.lastPull == c.lastPull
      && (forall id :: id in a.revoked <==> id in c.revoked || exists i :: 0 <= i < |entries| && entries[i].id == id)
  {
    if entries != [] {
      var init := entries[..|entries| - 1];
      AddedAllKeeps(c, init, p);
      assert forall i :: 0 <= i < |init| ==> init[i] == entries[i];
    }
  }

  // ------------------------------------------------------------------------------------
  // Runs
  // ------------------------------------------------------------------------------------

  /** A pull in flight: what it asked from, and once the server has read, what it read and when. */
  datatype Pull = Asked(since: nat) | Read(since: nat, entries: seq<Entry>, readAt: int)

  datatype World = World(log: seq<Entry>, clock: int, client: Client, pulls: map<nat, Pull>)

  /**
   `Push(k)` is a message about the k-th log entry arriving, in any order and any number of
   times or never; pulls may overlap, and fail at any point.
   */
  datatype Step =
    | Commit(seqNo: nat, id: string)
    | Tick(span: nat)
    | Push(k: nat)
    | Ask(pull: nat)
    | Serve(pull: nat)
    | Receive(pull: nat)
    | Fail(pull: nat)

  function Placed(s: seq<Entry>, e: Entry): (r: seq<Entry>) {
    if s == [] || s[|s| - 1].seqNo <= e.seqNo then s + [e] else Placed(s[..|s| - 1], e) + [s[|s| - 1]]
  }

  /** The server's answer: what is committed above the cursor, in numerical order. */
  function After(log: seq<Entry>, since: nat): (r: seq<Entry>) {
    if log == [] then []
    else
      var last, earlier := log[|log| - 1], After(log[..|log| - 1], since);
      if last.seqNo > since then Placed(earlier, last) else earlier
  }

  function Apply(w: World, step: Step, p: Positions): (r: World) {
    match step
    case Commit(n, id) => w.(log := w.log + [Entry(n, id, w.clock)])
    case Tick(span) => w.(clock := w.clock + span)
    case Push(k) => if k < |w.log| then w.(client := Added(w.client, w.log[k].id, p)) else w
    case Ask(x) => w.(pulls := w.pulls[x := Asked(w.client.since)])
    case Serve(x) =>
      if x in w.pulls && w.pulls[x].Asked? then
        w.(pulls := w.pulls[x := Read(w.pulls[x].since, After(w.log, w.pulls[x].since), w.clock)])
      else w
    case Receive(x) =>
      if x in w.pulls && w.pulls[x].Read? then
        var pull := w.pulls[x];
        w.(client := Merged(w.client, pull.entries, NextSeq(pull.entries, pull.since), w.clock, p), pulls := w.pulls - {x})
      else w
    case Fail(x) => w.(pulls := w.pulls - {x})
  }

  const START: World := World([], 0, COLD, map[])

  /** Where a run leads from a given state. */
  function Run(w: World, steps: seq<Step>, p: Positions): (r: World) {
    if steps == [] then w else Apply(Run(w, steps[..|steps| - 1], p), steps[|steps| - 1], p)
  }

  function Exec(steps: seq<Step>, p: Positions): (r: World) { Run(START, steps, p) }

  /** Where a pull's cursor stands: what it asked from, or what its answer will set. */
  function Cursor(pull: Pull): (n: nat) {
    match pull case Asked(since) => since case Read(since, entries, _) => NextSeq(entries, since)
  }

  /** Its answer may still arrive within the latency. */
  predicate Alive(w: World, pull: Pull, latency: int) { pull.Read? ==> w.clock - pull.readAt <= latency }

  /** No cursor already passed, or about to be set by a pull in flight, has reached the number. */
  ghost predicate AboveCursors(w: World, n: nat, latency: int) {
    n > w.client.since && forall x :: x in w.pulls && Alive(w, w.pulls[x], latency) ==> n > Cursor(w.pulls[x])
  }

  /** No number becomes visible behind a cursor, and an answer takes at most `latency`. */
  ghost predicate Timely(w: World, step: Step, latency: int) {
    match step
    case Commit(n, _) => AboveCursors(w, n, latency)
    case Receive(x) => x in w.pulls && w.pulls[x].Read? ==> Alive(w, w.pulls[x], latency)
    case _ => true
  }

  ghost predicate TimelyFrom(w: World, steps: seq<Step>, p: Positions, latency: int) {
    forall i :: 0 <= i < |steps| ==> Timely(Run(w, steps[..i], p), steps[i], latency)
  }

  ghost predicate TimelyRun(steps: seq<Step>, p: Positions, latency: int) { TimelyFrom(START, steps, p, latency) }

  /** Every log entry up to `n` is held. */
  ghost predicate HeldUpTo(w: World, n: nat) {
    forall i :: 0 <= i < |w.log| && w.log[i].seqNo <= n ==> w.log[i].id in w.client.revoked
  }

  /** An entry the answer to a pull must carry. */
  predicate Due(e: Entry, pull: Pull)
    requires pull.Read?
  {
    e.seqNo > pull.since && (e.at < pull.readAt || e.seqNo <= NextSeq(pull.entries, pull.since))
  }

  ghost predicate PullSound(w: World, pull: Pull) {
    && HeldUpTo(w, pull.since)
    && (pull.Read? ==>
        && pull.readAt <= w.clock
        && pull.since <= NextSeq(pull.entries, pull.since)
        && (forall e :: e in w.log && Due(e, pull) ==> e in pull.entries)
        && (forall e :: e in pull.entries ==> e in w.log))
  }

  ghost predicate ClientSound(w: World, p: Positions, latency: int) {
    && Mirrors(w.client, p)
    && (forall i :: 0 <= i < |w.log| ==> w.log[i].at <= w.clock)
    && HeldUpTo(w, w.client.since)
    && (forall id :: id in w.client.revoked ==> exists i :: 0 <= i < |w.log| && w.log[i].id == id)
    && (w.client.lastPull.Some? ==>
        && w.client.lastPull.value <= w.clock
        && forall i :: 0 <= i < |w.log| && w.log[i].at < w.client.lastPull.value - latency ==>
             w.log[i].id in w.client.revoked)
  }

  /** Answers too late to count promise nothing. */
  ghost predicate PullsSound(w: World, latency: int) {
    forall x :: x in w.pulls && Alive(w, w.pulls[x], latency) ==> PullSound(w, w.pulls[x])
  }

  ghost predicate Inv(w: World, p: Positions, latency: int) { ClientSound(w, p, latency) && PullsSound(w, latency) }

  lemma {:induction false} PlacedIs(s: seq<Entry>, e: Entry)
    ensures forall x :: x in Placed(s, e) <==> x in s || x == e
  {
    if s != [] && s[|s| - 1].seqNo > e.seqNo {
      PlacedIs(s[..|s| - 1], e);
      assert s == s[..|s| - 1] + [s[|s| - 1]];
    }
  }

  /** An entry the server has when it reads is in its answer exactly when it is above the cursor. */
  lemma {:induction false} AfterIs(log: seq<Entry>, since: nat)
    ensures forall e :: e in After(log, since) <==> e in log && e.seqNo > since
  {
    if log != [] {
      AfterIs(log[..|log| - 1], since);
      PlacedIs(After(log[..|log| - 1], since), log[|log| - 1]);
      assert log == log[..|log| - 1] + [log[|log| - 1]];
    }
  }

  ghost predicate Ascending(s: seq<Entry>) { forall i, j :: 0 <= i < j < |s| ==> s[i].seqNo <= s[j].seqNo }

  lemma {:induction false} PlacedAscends(s: seq<Entry>, e: Entry)
    requires Ascending(s)
    ensures Ascending(Placed(s, e))
  {
    if s != [] && s[|s| - 1].seqNo > e.seqNo {
      var init := s[..|s| - 1];
      PlacedAscends(init, e);
      PlacedIs(init, e);
      forall i | 0 <= i < |Placed(init, e)|
        ensures Placed(init, e)[i].seqNo <= s[|s| - 1].seqNo
      {
        assert Placed(init, e)[i] in Placed(init, e);
      }
    }
  }

  lemma {:induction false} AfterAscends(log: seq<Entry>, since: nat)
    ensures Ascending(After(log, since))
  {
    if log != [] {
      AfterAscends(log[..|log| - 1], since);
      PlacedAscends(After(log[..|log| - 1], since), log[|log| - 1]);
    }
  }

  lemma LastIsHighest(s: seq<Entry>, since: nat)
    requires Ascending(s) && forall e :: e in s ==> since < e.seqNo
    ensures since <= NextSeq(s, since) && forall e :: e in s ==> e.seqNo <= NextSeq(s, since)
  {
    if s != [] {
      assert s[|s| - 1] in s;
      forall e | e in s
        ensures e.seqNo <= NextSeq(s, since)
      {
        var i :| 0 <= i < |s| && s[i] == e;
      }
    }
  }

  lemma CommitKeepsPull(w: World, n: nat, id: string, p: Positions, pull: Pull)
    requires n > Cursor(pull) && PullSound(w, pull)
    ensures PullSound(Apply(w, Commit(n, id), p), pull)
  {
    var z := Apply(w, Commit(n, id), p);
    assert forall i :: 0 <= i < |w.log| ==> z.log[i] == w.log[i];
    assert forall e :: e in w.log ==> e in z.log;
  }

  lemma CommitClient(w: World, n: nat, id: string, p: Positions, latency: int)
    requires 0 <= latency && ClientSound(w, p, latency) && n > w.client.since
    ensures ClientSound(Apply(w, Commit(n, id), p), p, latency)
  {
    hide Mirrors;
    var z := Apply(w, Commit(n, id), p);
    assert forall i :: 0 <= i < |w.log| ==> z.log[i] == w.log[i];
    forall held | held in z.client.revoked
      ensures exists i :: 0 <= i < |z.log| && z.log[i].id == held
    {
      var i :| 0 <= i < |w.log| && w.log[i].id == held;
      assert z.log[i].id == held;
    }
  }

  lemma CommitKeeps(w: World, n: nat, id: string, p: Positions, latency: int)
    requires 0 <= latency && Inv(w, p, latency) && Timely(w, Commit(n, id), latency)
    ensures Inv(Apply(w, Commit(n, id), p), p, latency)
  {
    hide PullSound, ClientSound;
    CommitClient(w, n, id, p, latency);
    var z := Apply(w, Commit(n, id), p);
    forall x | x in z.pulls && Alive(z, z.pulls[x], latency)
      ensures PullSound(z, z.pulls[x])
    {
      CommitKeepsPull(w, n, id, p, w.pulls[x]);
    }
  }

  /** The set only grows and the log stays: whatever was sound stays sound. */
  lemma GrowthKeepsPull(w: World, z: World, pull: Pull)
    requires PullSound(w, pull) && z.log == w.log && w.clock <= z.clock && w.client.revoked <= z.client.revoked
    ensures PullSound(z, pull)
  {
  }

  lemma PushKeeps(w: World, k: nat, p: Positions, latency: int)
    requires Inv(w, p, latency)
    ensures Inv(Apply(w, Push(k), p), p, latency)
  {
    hide PullSound;
    var z := Apply(w, Push(k), p);
    forall x | x in z.pulls && Alive(z, z.pulls[x], latency)
      ensures PullSound(z, z.pulls[x])
    {
      GrowthKeepsPull(w, z, w.pulls[x]);
    }
  }

  lemma TickKeeps(w: World, span: nat, p: Positions, latency: int)
    requires Inv(w, p, latency)
    ensures Inv(Apply(w, Tick(span), p), p, latency)
  {
    hide PullSound;
    var z := Apply(w, Tick(span), p);
    forall x | x in z.pulls && Alive(z, z.pulls[x], latency)
      ensures PullSound(z, z.pulls[x])
    {
      GrowthKeepsPull(w, z, w.pulls[x]);
    }
  }

  lemma ServeSound(w: World, since: nat)
    requires PullSound(w, Asked(since))
    ensures PullSound(w, Read(since, After(w.log, since), w.clock))
  {
    AfterIs(w.log, since);
    AfterAscends(w.log, since);
    LastIsHighest(After(w.log, since), since);
  }

  /** Steps on the requests in flight leave the client's side alone. */
  lemma PullsKeep(w: World, step: Step, p: Positions, latency: int)
    requires Inv(w, p, latency) && (step.Ask? || step.Serve? || step.Fail?)
    ensures Inv(Apply(w, step, p), p, latency)
  {
    hide After, PullSound;
    var z := Apply(w, step, p);
    assert ClientSound(z, p, latency) by {
      ClientAlone(w, z, p, latency);
    }
    forall x | x in z.pulls && Alive(z, z.pulls[x], latency)
      ensures PullSound(z, z.pulls[x])
    {
      if x in w.pulls && z.pulls[x] == w.pulls[x] {
        GrowthKeepsPull(w, z, w.pulls[x]);
      } else if step.Serve? {
        ServeSound(w, w.pulls[x].since);
        GrowthKeepsPull(w, z, z.pulls[x]);
      } else {
        AskSound(w);
        GrowthKeepsPull(w, z, z.pulls[x]);
      }
    }
  }

  lemma ClientAlone(w: World, z: World, p: Positions, latency: int)
    requires ClientSound(w, p, latency) && z.log == w.log && z.clock == w.clock && z.client == w.client
    ensures ClientSound(z, p, latency)
  {
  }

  lemma AskSound(w: World)
    requires HeldUpTo(w, w.client.since)
    ensures PullSound(w, Asked(w.client.since))
  {
  }

  lemma SameMembersMirror(c: Client, d: Client, p: Positions)
    requires Mirrors(c, p) && c.revoked == d.revoked && c.bits == d.bits
    ensures Mirrors(d, p)
  {
  }

  lemma ReceiveClient(w: World, x: nat, p: Positions, latency: int)
    requires 0 <= latency && ClientSound(w, p, latency) && Timely(w, Receive(x), latency)
    requires x in w.pulls && w.pulls[x].Read? && PullSound(w, w.pulls[x])
    ensures ClientSound(Apply(w, Receive(x), p), p, latency)
  {
    hide HeldUpTo, Mirrors, AddedAll, PullSound, NextSeq;
    var pull, z := w.pulls[x], Apply(w, Receive(x), p);
    AddedAllKeeps(w.client, pull.entries, p);
    SameMembersMirror(AddedAll(w.client, pull.entries, p), z.client, p);
    ReceivedHeld(w, x, p);
    forall id | id in z.client.revoked
      ensures exists i :: 0 <= i < |z.log| && z.log[i].id == id
    {
      if id !in w.client.revoked {
        var i :| 0 <= i < |pull.entries| && pull.entries[i].id == id;
        assert pull.entries[i] in w.log;
      }
    }
  }

  lemma ReceiveKeeps(w: World, x: nat, p: Positions, latency: int)
    requires 0 <= latency && Inv(w, p, latency) && Timely(w, Receive(x), latency)
    ensures Inv(Apply(w, Receive(x), p), p, latency)
  {
    hide PullSound, ClientSound;
    if x in w.pulls && w.pulls[x].Read? {
      var pull, z := w.pulls[x], Apply(w, Receive(x), p);
      ReceiveClient(w, x, p, latency);
      AddedAllKeeps(w.client, pull.entries, p);
      forall y | y in z.pulls && Alive(z, z.pulls[y], latency)
        ensures PullSound(z, z.pulls[y])
      {
        GrowthKeepsPull(w, z, w.pulls[y]);
      }
    }
  }

  /** What a response delivers: everything before it was read, and everything up to its cursor. */
  lemma ReceivedHeld(w: World, x: nat, p: Positions)
    requires x in w.pulls && w.pulls[x].Read? && PullSound(w, w.pulls[x])
    ensures
      var pull := w.pulls[x];
      var z, next := Apply(w, Receive(x), p), NextSeq(pull.entries, pull.since);
      && HeldUpTo(z, next) && z.client.since == next
      && (forall e :: e in pull.entries ==> e in w.log) && pull.readAt <= w.clock
      && forall i :: 0 <= i < |w.log| && w.log[i].at < pull.readAt ==> w.log[i].id in z.client.revoked
  {
    var pull := w.pulls[x];
    var next := NextSeq(pull.entries, pull.since);
    AddedAllKeeps(w.client, pull.entries, p);
    if pull.entries != [] {
      assert pull.entries[|pull.entries| - 1] in w.log;
    }
    forall i | 0 <= i < |w.log| && (w.log[i].at < pull.readAt || w.log[i].seqNo <= next)
      ensures w.log[i].id in AddedAll(w.client, pull.entries, p).revoked
    {
      if w.log[i].seqNo > pull.since {
        assert w.log[i] in pull.entries;
      }
    }
  }

  lemma StepKeepsInv(w: World, step: Step, p: Positions, latency: int)
    requires 0 <= latency && Inv(w, p, latency) && Timely(w, step, latency)
    ensures Inv(Apply(w, step, p), p, latency)
  {
    hide Inv, Timely, Apply;
    match step
    case Commit(n, id) => CommitKeeps(w, n, id, p, latency);
    case Tick(span) => TickKeeps(w, span, p, latency);
    case Push(k) => PushKeeps(w, k, p, latency);
    case Receive(x) => ReceiveKeeps(w, x, p, latency);
    case _ => PullsKeep(w, step, p, latency);
  }

  lemma TimelyPrefix(w: World, steps: seq<Step>, p: Positions, latency: int, n: nat)
    requires TimelyFrom(w, steps, p, latency) && n <= |steps|
    ensures TimelyFrom(w, steps[..n], p, latency)
  {
    forall i | 0 <= i < n
      ensures Timely(Run(w, steps[..n][..i], p), steps[..n][i], latency)
    {
      assert steps[..n][..i] == steps[..i];
    }
  }

  lemma {:induction false} RunKeepsInv(w: World, steps: seq<Step>, p: Positions, latency: int)
    requires 0 <= latency && Inv(w, p, latency) && TimelyFrom(w, steps, p, latency)
    ensures Inv(Run(w, steps, p), p, latency)
    decreases |steps|
  {
    hide Timely, Apply, Inv;
    if steps != [] {
      var n := |steps| - 1;
      TimelyPrefix(w, steps, p, latency, n);
      RunKeepsInv(w, steps[..n], p, latency);
      assert Timely(Run(w, steps[..n], p), steps[n], latency);
      StepKeepsInv(Run(w, steps[..n], p), steps[n], p, latency);
    }
  }

  lemma StartSound(p: Positions, latency: int)
    ensures Inv(START, p, latency)
  {
  }

  // ------------------------------------------------------------------------------------
  // What every run promises
  // ------------------------------------------------------------------------------------

  /** Past the staleness limit and one latency, asking about the i-th entry never gives "clear". */
  ghost predicate TakenHold(w: World, i: nat, p: Positions, latency: int, limit: int)
    requires i < |w.log|
  {
    w.log[i].at + limit + latency <= w.clock ==> Lookup(w.client, w.log[i].id, w.clock, limit, p) != Some(false)
  }

  lemma SoundTakesHold(w: World, p: Positions, latency: int, limit: int, i: nat)
    requires 0 <= latency && Inv(w, p, latency) && i < |w.log|
    ensures TakenHold(w, i, p, latency, limit)
  {
    FilterFirstIsExact(w.client, w.log[i].id, w.clock, limit, p);
  }

  /**
   However pushes are lost, repeated or reordered and pulls fail or overlap: once a revocation
   has been in the log for the staleness limit plus one latency, asking about its id gives
   "revoked" or an error, never "clear", as long as no number becomes visible at or below a
   cursor already passed or about to be set.
   */
  lemma RevocationTakesHold(steps: seq<Step>, p: Positions, latency: int, limit: int, i: nat)
    requires 0 <= latency && TimelyRun(steps, p, latency)
    requires i < |Exec(steps, p).log|
    ensures TakenHold(Exec(steps, p), i, p, latency, limit)
  {
    hide Run, Inv;
    StartSound(p, latency);
    RunKeepsInv(START, steps, p, latency);
    SoundTakesHold(Exec(steps, p), p, latency, limit, i);
  }

  /** And nothing is called revoked that was not; everything up to the cursor is held. */
  lemma OnlyTheRevoked(steps: seq<Step>, p: Positions, latency: int, limit: int, id: string)
    requires 0 <= latency && TimelyRun(steps, p, latency)
    ensures
      var w := Exec(steps, p);
      && HeldUpTo(w, w.client.since)
      && (Lookup(w.client, id, w.clock, limit, p) == Some(true) ==> exists i :: 0 <= i < |w.log| && w.log[i].id == id)
  {
    hide Run, Timely;
    StartSound(p, latency);
    RunKeepsInv(START, steps, p, latency);
    FilterFirstIsExact(Exec(steps, p).client, id, Exec(steps, p).clock, limit, p);
  }

  // ------------------------------------------------------------------------------------
  // An entry committed behind a cursor
  // ------------------------------------------------------------------------------------

  /** Every cursor, passed or on its way, stands at the number or beyond. */
  ghost predicate Behind(w: World, n: nat) {
    n <= w.client.since && forall x :: x in w.pulls ==> n <= Cursor(w.pulls[x])
  }

  /** No answer in flight carries the entry. */
  ghost predicate NotCarried(w: World, e: Entry) {
    forall x :: x in w.pulls && w.pulls[x].Read? ==> e !in w.pulls[x].entries
  }

  lemma StepStaysBehind(w: World, step: Step, p: Positions, e: Entry)
    requires Behind(w, e.seqNo) && NotCarried(w, e)
    ensures Behind(Apply(w, step, p), e.seqNo) && NotCarried(Apply(w, step, p), e)
  {
    hide After, AddedAll, NextSeq;
    if step.Serve? && step.pull in w.pulls && w.pulls[step.pull].Asked? {
      var since := w.pulls[step.pull].since;
      AfterIs(w.log, since);
      AfterAscends(w.log, since);
      LastIsHighest(After(w.log, since), since);
    } else if step.Push? && step.k < |w.log| {
      assert Apply(w, step, p).client.since == w.client.since;
    }
  }

  lemma {:induction false} RunStaysBehind(w: World, steps: seq<Step>, p: Positions, e: Entry)
    requires Behind(w, e.seqNo) && NotCarried(w, e)
    ensures Behind(Run(w, steps, p), e.seqNo) && NotCarried(Run(w, steps, p), e)
    decreases |steps|
  {
    hide Apply, Behind, NotCarried;
    if steps != [] {
      RunStaysBehind(w, steps[..|steps| - 1], p, e);
      StepStaysBehind(Run(w, steps[..|steps| - 1], p), steps[|steps| - 1], p, e);
    }
  }

  lemma RunStep(w: World, steps: seq<Step>, step: Step, p: Positions)
    ensures Run(w, steps + [step], p) == Apply(Run(w, steps, p), step, p)
  {
    assert (steps + [step])[..|steps|] == steps;
  }

  lemma NothingRun(w: World, p: Positions)
    ensures Run(w, [], p) == w
  {
  }

  /** From a cursor below the entry, the next pull brings it. */
  lemma PullFromBelow(w: World, steps: seq<Step>, p: Positions, e: Entry) returns (more: seq<Step>)
    requires e in Run(w, steps, p).log && Run(w, steps, p).client.since < e.seqNo
    ensures !NotCarried(Run(w, more, p), e)
  {
    hide Run, After;
    var z := Run(w, steps, p);
    more := steps + [Ask(0)];
    RunStep(w, steps, Ask(0), p);
    RunStep(w, more, Serve(0), p);
    more := more + [Serve(0)];
    AfterIs(z.log, z.client.since);
    assert Run(w, more, p).pulls[0].entries == After(z.log, z.client.since);
  }

  /**
   An entry in the log that no answer in flight carries is in no answer of any run from here,
   if and only if every cursor has reached it.
   */
  lemma NeverPulledIff(w: World, p: Positions, e: Entry)
    requires e in w.log && NotCarried(w, e)
    ensures (forall steps: seq<Step> :: NotCarried(Run(w, steps, p), e)) <==> Behind(w, e.seqNo)
  {
    hide Run, NotCarried, NextSeq, After, AddedAll;
    NothingRun(w, p);
    if Behind(w, e.seqNo) {
      forall steps: seq<Step>
        ensures NotCarried(Run(w, steps, p), e)
      {
        RunStaysBehind(w, steps, p, e);
      }
    } else if w.client.since < e.seqNo {
      var more := PullFromBelow(w, [], p, e);
    } else {
      var x :| x in w.pulls && Cursor(w.pulls[x]) < e.seqNo;
      if w.pulls[x].Read? {
        RunStep(w, [], Receive(x), p);
        assert [] + [Receive(x)] == [Receive(x)];
        AddedAllKeeps(w.client, w.pulls[x].entries, p);
        var more := PullFromBelow(w, [Receive(x)], p, e);
      } else {
        RunStep(w, [], Serve(x), p);
        assert [] + [Serve(x)] == [Serve(x)];
        ServedFromBelow(w, x, p, e);
      }
    }
  }

  lemma ServedFromBelow(w: World, x: nat, p: Positions, e: Entry)
    requires x in w.pulls && w.pulls[x].Asked? && w.pulls[x].since < e.seqNo && e in w.log
    ensures !NotCarried(Apply(w, Serve(x), p), e)
  {
    AfterIs(w.log, w.pulls[x].since);
    assert Apply(w, Serve(x), p).pulls[x].entries == After(w.log, w.pulls[x].since);
  }

  // -- and what that does to the promise -----------------------------------------------------

  /** The i-th entry is the only one of its id, and the client does not hold it. */
  ghost predicate Unheld(w: World, p: Positions, i: nat) {
    && i < |w.log| && w.log[i].id !in w.client.revoked && Mirrors(w.client, p)
    && (forall j :: 0 <= j < |w.log| && j != i ==> w.log[j].id != w.log[i].id)
  }

  lemma AnswerLacks(w: World, p: Positions, i: nat, since: nat, j: nat)
    requires Unheld(w, p, i) && w.log[i].seqNo <= since && j < |After(w.log, since)|
    ensures After(w.log, since)[j].id != w.log[i].id
  {
    AfterIs(w.log, since);
    assert After(w.log, since)[j] in After(w.log, since);
    var k :| 0 <= k < |w.log| && w.log[k] == After(w.log, since)[j];
  }

  /** A pull whose cursor has passed the entry is received, and the entry is not held. */
  lemma ReceivedStaysUnheld(w: World, p: Positions, i: nat, x: nat)
    requires Unheld(w, p, i) && x in w.pulls && w.pulls[x].Read?
    requires forall j :: 0 <= j < |w.pulls[x].entries| ==> w.pulls[x].entries[j].id != w.log[i].id
    ensures
      var z := Apply(w, Receive(x), p);
      Unheld(z, p, i) && z.log == w.log && z.clock == w.clock && z.client.since == Cursor(w.pulls[x])
      && z.client.lastPull == Some(w.clock)
  {
    hide AddedAll;
    AddedAllKeeps(w.client, w.pulls[x].entries, p);
  }

  /** Asking again from a cursor that has passed the entry: fresh, and still without it. */
  lemma FreshWithout(w: World, p: Positions, i: nat)
    requires Unheld(w, p, i) && w.log[i].seqNo <= w.client.since
    ensures
      var z := Apply(Apply(Apply(w, Ask(0), p), Serve(0), p), Receive(0), p);
      Unheld(z, p, i) && z.log == w.log && z.clock == w.clock && z.client.lastPull == Some(w.clock)
  {
    hide After, AddedAll;
    var served := Apply(Apply(w, Ask(0), p), Serve(0), p);
    forall j | 0 <= j < |served.pulls[0].entries|
      ensures served.pulls[0].entries[j].id != w.log[i].id
    {
      AnswerLacks(w, p, i, w.client.since, j);
    }
    ReceivedStaysUnheld(served, p, i, 0);
  }

  lemma {:induction false} RunAppend(w: World, xs: seq<Step>, ys: seq<Step>, p: Positions)
    ensures Run(w, xs + ys, p) == Run(Run(w, xs, p), ys, p)
    decreases |ys|
  {
    if ys == [] {
      assert xs + ys == xs;
    } else {
      assert (xs + ys)[..|xs + ys| - 1] == xs + ys[..|ys| - 1];
      RunAppend(w, xs, ys[..|ys| - 1], p);
    }
  }

  lemma TimelyAppend(w: World, xs: seq<Step>, ys: seq<Step>, p: Positions, latency: int)
    requires TimelyFrom(w, xs, p, latency) && TimelyFrom(Run(w, xs, p), ys, p, latency)
    ensures TimelyFrom(w, xs + ys, p, latency)
  {
    hide Timely, Run;
    var all := xs + ys;
    forall i | 0 <= i < |all|
      ensures Timely(Run(w, all[..i], p), all[i], latency)
    {
      if i < |xs| {
        assert all[..i] == xs[..i];
      } else {
        assert all[..i] == xs + ys[..i - |xs|];
        RunAppend(w, xs, ys[..i - |xs|], p);
      }
    }
  }

  lemma OneTimelyStep(w: World, step: Step, p: Positions, latency: int)
    ensures Run(w, [step], p) == Apply(w, step, p)
    ensures Timely(w, step, latency) ==> TimelyFrom(w, [step], p, latency)
  {
    assert [step][..0] == [];
  }

  /** A run of a few steps, each timely where it is taken. */
  lemma ThenTimely(w: World, xs: seq<Step>, step: Step, p: Positions, latency: int)
    requires TimelyFrom(w, xs, p, latency) && Timely(Run(w, xs, p), step, latency)
    ensures TimelyFrom(w, xs + [step], p, latency)
    ensures Run(w, xs + [step], p) == Apply(Run(w, xs, p), step, p)
  {
    OneTimelyStep(Run(w, xs, p), step, p, latency);
    TimelyAppend(w, xs, [step], p, latency);
    RunStep(w, xs, step, p);
  }

  /** Once the client's own cursor has passed an entry it does not hold, "clear" is one pull away. */
  lemma PassedFails(w: World, xs: seq<Step>, p: Positions, i: nat, latency: int, limit: int) returns (steps: seq<Step>)
    requires 0 <= latency && 0 < limit && TimelyFrom(w, xs, p, latency)
    requires
      var v := Run(w, xs, p);
      Unheld(v, p, i) && v.log[i].seqNo <= v.client.since && v.log[i].at <= v.clock
    ensures
      var z := Run(w, steps, p);
      && TimelyFrom(w, steps, p, latency) && z.log == Run(w, xs, p).log
      && i < |z.log| && !TakenHold(z, i, p, latency, limit)
  {
    hide Run, TimelyFrom;
    var v := Run(w, xs, p);
    ThenTimely(w, xs, Tick(limit + latency), p, latency);
    steps := xs + [Tick(limit + latency)];
    var t := Run(w, steps, p);
    FreshWithout(t, p, i);
    ThenTimely(w, steps, Ask(0), p, latency);
    steps := steps + [Ask(0)];
    ThenTimely(w, steps, Serve(0), p, latency);
    steps := steps + [Serve(0)];
    ThenTimely(w, steps, Receive(0), p, latency);
    steps := steps + [Receive(0)];
    var z := Run(w, steps, p);
    FilterFirstIsExact(z.client, z.log[i].id, z.clock, limit, p);
  }

  /** The same when the cursor is that of a pull whose answer can still arrive in time. */
  lemma PassingFails(w: World, p: Positions, i: nat, x: nat, latency: int, limit: int) returns (steps: seq<Step>)
    requires 0 <= latency && 0 < limit && Unheld(w, p, i) && w.log[i].at <= w.clock
    requires x in w.pulls && Alive(w, w.pulls[x], latency) && w.log[i].seqNo <= Cursor(w.pulls[x])
    requires w.pulls[x].Read? ==>
      forall j :: 0 <= j < |w.pulls[x].entries| ==> w.pulls[x].entries[j].id != w.log[i].id
    ensures
      var z := Run(w, steps, p);
      TimelyFrom(w, steps, p, latency) && z.log == w.log && i < |z.log| && !TakenHold(z, i, p, latency, limit)
  {
    hide Run, TimelyFrom, After, AddedAll, NextSeq;
    NothingRun(w, p);
    steps := [];
    assert TimelyFrom(w, steps, p, latency) by {
      NothingTimely(w, p, latency);
    }
    if w.pulls[x].Asked? {
      ThenTimely(w, [], Serve(x), p, latency);
      steps := [] + [Serve(x)];
      ServedPast(w, p, i, x);
    }
    var v := Run(w, steps, p);
    assert v.pulls[x].Read? && Alive(v, v.pulls[x], latency);
    ReceivedStaysUnheld(v, p, i, x);
    ThenTimely(w, steps, Receive(x), p, latency);
    steps := steps + [Receive(x)];
    steps := PassedFails(w, steps, p, i, latency, limit);
  }

  lemma NothingTimely(w: World, p: Positions, latency: int)
    ensures TimelyFrom(w, [], p, latency)
  {
  }

  lemma ServedPast(w: World, p: Positions, i: nat, x: nat)
    requires Unheld(w, p, i) && x in w.pulls && w.pulls[x].Asked? && w.log[i].seqNo <= w.pulls[x].since
    ensures
      var z := Apply(w, Serve(x), p);
      && Unheld(z, p, i) && x in z.pulls && z.pulls[x].Read? && z.pulls[x].readAt == w.clock
      && w.log[i].seqNo <= Cursor(z.pulls[x])
      && forall j :: 0 <= j < |z.pulls[x].entries| ==> z.pulls[x].entries[j].id != w.log[i].id
  {
    hide After;
    var since := w.pulls[x].since;
    AfterIs(w.log, since);
    AfterAscends(w.log, since);
    LastIsHighest(After(w.log, since), since);
    forall j | 0 <= j < |After(w.log, since)|
      ensures After(w.log, since)[j].id != w.log[i].id
    {
      AnswerLacks(w, p, i, since, j);
    }
  }

  /**
   In any sound state, committing a new revocation is safe if and only if its number is above
   every cursor: then it takes hold in every timely run from here, and otherwise some timely
   run calls it clear past the limit.
   */
  lemma TakesHoldIffAboveCursors(w: World, n: nat, id: string, p: Positions, latency: int, limit: int)
    requires 0 <= latency && 0 < limit && Inv(w, p, latency)
    requires forall i :: 0 <= i < |w.log| ==> w.log[i].id != id
    ensures
      var z := Apply(w, Commit(n, id), p);
      (forall steps: seq<Step> :: TimelyFrom(z, steps, p, latency) && |w.log| < |Run(z, steps, p).log| ==>
        TakenHold(Run(z, steps, p), |w.log|, p, latency, limit))
      <==> AboveCursors(w, n, latency)
  {
    hide Run, TimelyFrom, Inv, TakenHold;
    var z, i := Apply(w, Commit(n, id), p), |w.log|;
    if AboveCursors(w, n, latency) {
      CommitKeeps(w, n, id, p, latency);
      forall steps: seq<Step> | TimelyFrom(z, steps, p, latency) && i < |Run(z, steps, p).log|
        ensures TakenHold(Run(z, steps, p), i, p, latency, limit)
      {
        RunKeepsInv(z, steps, p, latency);
        SoundTakesHold(Run(z, steps, p), p, latency, limit, i);
      }
    } else {
      NewIsUnheld(w, n, id, p, latency);
      NothingRun(z, p);
      if n <= w.client.since {
        NothingTimely(z, p, latency);
        var steps := PassedFails(z, [], p, i, latency, limit);
      } else {
        var x :| x in w.pulls && Alive(w, w.pulls[x], latency) && n <= Cursor(w.pulls[x]);
        AnswersOld(w, p, latency, x, id);
        var steps := PassingFails(z, p, i, x, latency, limit);
      }
    }
  }

  lemma NewIsUnheld(w: World, n: nat, id: string, p: Positions, latency: int)
    requires Inv(w, p, latency) && forall i :: 0 <= i < |w.log| ==> w.log[i].id != id
    ensures Unheld(Apply(w, Commit(n, id), p), p, |w.log|)
  {
  }

  lemma AnswersOld(w: World, p: Positions, latency: int, x: nat, id: string)
    requires Inv(w, p, latency) && x in w.pulls && Alive(w, w.pulls[x], latency)
    requires forall i :: 0 <= i < |w.log| ==> w.log[i].id != id
    ensures w.pulls[x].Read? ==>
      forall j :: 0 <= j < |w.pulls[x].entries| ==> w.pulls[x].entries[j].id != id
  {
    if w.pulls[x].Read? {
      forall j | 0 <= j < |w.pulls[x].entries|
        ensures w.pulls[x].entries[j].id != id
      {
        assert w.pulls[x].entries[j] in w.log;
      }
    }
  }

  function LateRun(span: nat): (r: seq<Step>) {
    [Commit(2, "a"), Ask(0), Serve(0), Receive(0), Commit(1, "b"), Tick(span), Ask(0), Serve(0), Receive(0)]
  }

  lemma {:induction false} ExecPrefix(steps: seq<Step>, k: nat, p: Positions)
    requires k < |steps|
    ensures Exec(steps[..k + 1], p) == Apply(Exec(steps[..k], p), steps[k], p)
  {
    assert steps[..k + 1][..k] == steps[..k];
  }

  const FIRST: Entry := Entry(2, "a", 0)
  const LATE: Entry := Entry(1, "b", 0)

  function HoldsFirst(p: Positions, at: int): (r: Client) { Client({"a"}, p("a"), 2, Some(at)) }

  lemma FirstPull(p: Positions)
    ensures
      var asked := Apply(Apply(START, Commit(2, "a"), p), Ask(0), p);
      Apply(Apply(asked, Serve(0), p), Receive(0), p) == World([FIRST], 0, HoldsFirst(p, 0), map[])
  {
    var asked := Apply(Apply(START, Commit(2, "a"), p), Ask(0), p);
    assert asked.log == [FIRST] && [FIRST][..0] == [];
    assert After([FIRST], 0) == [FIRST];
    var served := Apply(asked, Serve(0), p);
    assert served.pulls == map[0 := Read(0, [FIRST], 0)];
    assert AddedAll(COLD, [FIRST], p) == Added(COLD, "a", p);
    assert {} + p("a") == p("a") && {} + {"a"} == {"a"};
    assert served.pulls - {0} == map[];
  }

  lemma SecondPull(p: Positions, span: nat)
    ensures
      var late := Apply(Apply(World([FIRST], 0, HoldsFirst(p, 0), map[]), Commit(1, "b"), p), Tick(span), p);
      Apply(Apply(Apply(late, Ask(0), p), Serve(0), p), Receive(0), p)
      == World([FIRST, LATE], span, HoldsFirst(p, span), map[])
  {
    var late := Apply(Apply(World([FIRST], 0, HoldsFirst(p, 0), map[]), Commit(1, "b"), p), Tick(span), p);
    assert late.log == [FIRST, LATE] && [FIRST, LATE][..1] == [FIRST] && [FIRST][..0] == [];
    assert After([FIRST], 2) == [];
    assert After([FIRST, LATE], 2) == [];
    var served := Apply(Apply(late, Ask(0), p), Serve(0), p);
    assert served.pulls == map[0 := Read(2, [], span)];
    assert served.pulls - {0} == map[];
  }

  /**
   Such a run: with no push, the late id is called clear however long it has been in the log
   and however fresh the pulls are.
   */
  lemma LateCommitIsMissed(span: nat, limit: int, p: Positions)
    requires 0 < limit
    ensures
      var w := Exec(LateRun(span), p);
      && w.log == [FIRST, LATE] && LATE.at == 0 && w.clock == span
      && Lookup(w.client, LATE.id, w.clock, limit, p) == Some(false)
  {
    hide Apply, Run;
    var steps := LateRun(span);
    assert steps[..0] == [] && steps[..9] == steps;
    NothingRun(START, p);
    FirstPull(p);
    SecondPull(p, span);
    ExecPrefix(steps, 0, p);
    ExecPrefix(steps, 1, p);
    ExecPrefix(steps, 2, p);
    ExecPrefix(steps, 3, p);
    ExecPrefix(steps, 4, p);
    ExecPrefix(steps, 5, p);
    ExecPrefix(steps, 6, p);
    ExecPrefix(steps, 7, p);
    ExecPrefix(steps, 8, p);
  }

  // ------------------------------------------------------------------------------------
  // Pushes and failed pulls
  // ------------------------------------------------------------------------------------

  lemma {:induction false} HeldStays(w: World, steps: seq<Step>, p: Positions, id: string)
    requires Mirrors(w.client, p) && id in w.client.revoked
    ensures Mirrors(Run(w, steps, p).client, p) && id in Run(w, steps, p).client.revoked
    decreases |steps|
  {
    if steps != [] {
      var before, last := Run(w, steps[..|steps| - 1], p), steps[|steps| - 1];
      HeldStays(w, steps[..|steps| - 1], p, id);
      if last.Receive? && last.pull in before.pulls && before.pulls[last.pull].Read? {
        AddedAllKeeps(before.client, before.pulls[last.pull].entries, p);
      }
    }
  }

  /** A message that arrives takes hold at once and for good: the id is never called clear again. */
  lemma PushTakesHold(w: World, k: nat, steps: seq<Step>, p: Positions, now: int, limit: int)
    requires Mirrors(w.client, p) && k < |w.log|
    ensures
      var later := Run(Apply(w, Push(k), p), steps, p).client;
      Lookup(later, w.log[k].id, now, limit, p) == if Stale(later, now, limit) then None else Some(true)
  {
    HeldStays(Apply(w, Push(k), p), steps, p, w.log[k].id);
  }

  /** A pull that failed merges nothing later. */
  lemma FailedPullMergesNothing(w: World, pull: nat, p: Positions)
    ensures Apply(Apply(w, Fail(pull), p), Receive(pull), p).client == w.client
  {
  }

  // ------------------------------------------------------------------------------------
  // The revocation set
  // ------------------------------------------------------------------------------------

  class RevocationSet {
    const positions: Positions
    const limit: int
    var revoked: set<string>
    var bits: set<nat>
    var since: nat
    var lastPull: Option<int>

    constructor (positions: Positions, limit: int)
      ensures State() == COLD && Valid() && this.positions == positions && this.limit == limit
    {
      this.positions, this.limit := positions, limit;
      revoked, bits, since, lastPull := {}, {}, 0, None;
    }

    function State(): Client
      reads this
    {
      Client(revoked, bits, since, lastPull)
    }

    ghost predicate Valid()
      reads this
    {
      Mirrors(State(), positions)
    }

    /** None is the raised `OracleUnavailable`; otherwise the answer is exact membership. */
    method IsRevoked(id: string, now: int) returns (answer: Option<bool>)
      requires Valid()
      ensures answer == Lookup(State(), id, now, limit, positions)
      ensures answer.Some? ==> answer.value == (id in revoked)
      ensures answer.None? <==> lastPull.None? || now - lastPull.value >= limit
    {
      FilterFirstIsExact(State(), id, now, limit, positions);
      if lastPull.None? {
        return None;
      }
      if now - lastPull.value >= limit {
        return None;
      }
      if !(positions(id) <= bits) {
        return Some(false);
      }
      answer := Some(id in revoked);
    }

    /** The rest of a pull once the server has answered; None is a failed request. */
    method PullOnce(response: Option<(seq<Entry>, nat)>, now: int)
      requires Valid()
      modifies this
      ensures Valid()
      ensures State() == if response.None? then old(State())
        else Merged(old(State()), response.value.0, response.value.1, now, positions)
      ensures response.None? ==> State() == old(State())
      ensures response.Some? ==>
        && since == response.value.1 && lastPull == Some(now)
        && forall id :: id in revoked <==>
             id in old(revoked) || exists i :: 0 <= i < |response.value.0| && response.value.0[i].id == id
    {
      if response.None? {
        return;
      }
      var (entries, next) := response.value;
      for i := 0 to |entries|
        invariant State() == AddedAll(old(State()), entries[..i], positions)
      {
        assert entries[..i + 1][..i] == entries[..i];
        revoked := revoked + {entries[i].id};
        bits := bits + positions(entries[i].id);
      }
      assert entries[..|entries|] == entries;
      AddedAllKeeps(old(State()), entries, positions);
      since, lastPull := next, Some(now);
    }

    /** A push message; None is one that could not be read. */
    method HandlePush(id: Option<string>)
      requires Valid()
      modifies this`revoked, this`bits
      ensures Valid()
      ensures State() == if id.Some? then Added(old(State()), id.value, positions) else old(State())
      ensures revoked == if id.Some? then old(revoked) + {id.value} else old(revoked)
    {
      if id.Some? {
        revoked := revoked + {id.value};
        bits := bits + positions(id.value);
      }
    }
  }
}
