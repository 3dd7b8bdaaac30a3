/**
 A child that passes the narrowing check says what it can do: in every component its caveats
 mention, the whole chain folds to exactly the fold of the child's own caveats.
 */
module ChildTruth {
  import opened Wrappers

  import opened Attenuation
  import opened Bound
  import opened Caveats

  ghost predicate MentionsDeny(cs: seq<Caveat>) { exists i :: 0 <= i < |cs| && cs[i].ToolDeny? }

  ghost predicate MentionsApproval(cs: seq<Caveat>) { exists i :: 0 <= i < |cs| && cs[i].RequiresApproval? }

  /**
   `low` is at least as tight as `high` wherever both speak. `denies` and `approves` say
   whether the low side speaks in the two components whose silence is the empty set.
   */
  predicate Under(low: Authority, high: Authority, denies: bool, approves: bool) {
    && (low.scopes.Some? && high.scopes.Some? ==> low.scopes.value <= high.scopes.value)
    && (forall d :: d in low.budget && d in high.budget ==> low.budget[d] <= high.budget[d])
    && (low.notBefore.Some? && high.notBefore.Some? ==> low.notBefore.value >= high.notBefore.value)
    && (low.notAfter.Some? && high.notAfter.Some? ==> low.notAfter.value <= high.notAfter.value)
    && (low.toolsAllowed.Some? && high.toolsAllowed.Some? ==> low.toolsAllowed.value <= high.toolsAllowed.value)
    && (denies ==> low.toolsDenied >= high.toolsDenied)
    && (low.maxDepth.Some? && high.maxDepth.Some? ==> low.maxDepth.value <= high.maxDepth.value)
    && (low.intentHash.Some? && high.intentHash.Some? ==> low.intentHash == high.intentHash)
    && (approves ==> low.approval >= high.approval)
  }

  function Alone(c: Caveat): Authority { Tightened(UNBOUNDED, c) }

  /** `c` is not wider than `a`, atom by atom. */
  ghost predicate NoWider(c: Caveat, a: Caveat) {
    forall x, y :: x in Atoms(c) && y in Atoms(a) ==> !Wider(x, y)
  }

  lemma OneCaveatUnder(c: Caveat, a: Caveat)
    requires Valid(c) && Valid(a) && NoWider(c, a)
    ensures Under(Alone(c), Alone(a), c.ToolDeny?, c.RequiresApproval?)
  {
    if c.TimeWindow? && a.TimeWindow? {
      if c.notBefore.Some? && a.notBefore.Some? {
        assert TimeWindow(c.notBefore, None) in Atoms(c) && TimeWindow(a.notBefore, None) in Atoms(a);
      }
      if c.notAfter.Some? && a.notAfter.Some? {
        assert TimeWindow(None, c.notAfter) in Atoms(c) && TimeWindow(None, a.notAfter) in Atoms(a);
      }
    } else if !c.TimeWindow? && !a.TimeWindow? {
      assert c in Atoms(c) && a in Atoms(a);
    }
  }

  /** Tightening the low side by something under `a` keeps it under `a`. */
  lemma TightenLow(low: Authority, c: Caveat, a: Caveat, denies: bool, approves: bool)
    requires Under(low, Alone(a), denies, approves)
    requires Under(Alone(c), Alone(a), c.ToolDeny?, c.RequiresApproval?)
    ensures Under(Tightened(low, c), Alone(a), denies || c.ToolDeny?, approves || c.RequiresApproval?)
  {
  }

  /** Tightening the high side by `a` keeps the low side under it. */
  lemma TightenHigh(low: Authority, high: Authority, a: Caveat, denies: bool, approves: bool)
    requires Under(low, high, denies, approves) && Under(low, Alone(a), denies, approves)
    ensures Under(low, Tightened(high, a), denies, approves)
  {
  }

  lemma {:induction false} ChildUnderOne(child: seq<Caveat>, a: Caveat)
    requires Valid(a) && forall i :: 0 <= i < |child| ==> Valid(child[i]) && NoWider(child[i], a)
    ensures Under(Fold(child), Alone(a), MentionsDeny(child), MentionsApproval(child))
    decreases |child|
  {
    if child != [] {
      var init, last := child[..|child| - 1], child[|child| - 1];
      assert forall i :: 0 <= i < |init| ==> init[i] == child[i];
      ChildUnderOne(init, a);
      OneCaveatUnder(last, a);
      TightenLow(Fold(init), last, a, MentionsDeny(init), MentionsApproval(init));
    }
  }

  lemma {:induction false} ChildUnderAll(child: seq<Caveat>, ancestors: seq<Caveat>)
    requires forall i :: 0 <= i < |child| ==> Valid(child[i])
    requires forall k :: 0 <= k < |ancestors| ==> Valid(ancestors[k])
    requires forall i, k :: 0 <= i < |child| && 0 <= k < |ancestors| ==> NoWider(child[i], ancestors[k])
    ensures Under(Fold(child), Fold(ancestors), MentionsDeny(child), MentionsApproval(child))
    decreases |ancestors|
  {
    if ancestors != [] {
      var init, last := ancestors[..|ancestors| - 1], ancestors[|ancestors| - 1];
      assert forall k :: 0 <= k < |init| ==> init[k] == ancestors[k];
      ChildUnderAll(child, init);
      ChildUnderOne(child, last);
      TightenHigh(Fold(child), Fold(init), last, MentionsDeny(child), MentionsApproval(child));
    } else {
      assert Fold(ancestors) == UNBOUNDED;
    }
  }

  lemma {:induction false} AtomInAll(cs: seq<Caveat>, i: nat, atom: Caveat)
    requires i < |cs| && atom in Atoms(cs[i])
    ensures atom in AllAtoms(cs)
    decreases |cs|
  {
    if i < |cs| - 1 {
      AtomInAll(cs[..|cs| - 1], i, atom);
    }
  }

  // -- folding the ancestors in -----------------------------------------------------------

  /** Two folds one after the other, as one operation. */
  function Joined(high: Authority, low: Authority): (r: Authority) {
    Authority(
      if low.scopes.None? then high.scopes else Meet(high.scopes, low.scopes.value),
      map d | d in high.budget.Keys + low.budget.Keys ::
        if d !in low.budget then high.budget[d]
        else if d !in high.budget then low.budget[d] else MinReal(high.budget[d], low.budget[d]),
      if low.notBefore.None? then high.notBefore else Greatest(high.notBefore, low.notBefore.value),
      if low.notAfter.None? then high.notAfter else Least(high.notAfter, low.notAfter.value),
      if low.toolsAllowed.None? then high.toolsAllowed else Meet(high.toolsAllowed, low.toolsAllowed.value),
      high.toolsDenied + low.toolsDenied,
      if low.maxDepth.None? then high.maxDepth else Least(high.maxDepth, low.maxDepth.value),
      if low.intentHash.None? then high.intentHash else low.intentHash,
      high.approval + low.approval)
  }

  lemma MeetIsAssociative(high: Option<set<string>>, low: Option<set<string>>, s: set<string>)
    ensures Meet(if low.None? then high else Meet(high, low.value), s) == Meet(high, Meet(low, s).value)
  {
    if high.Some? && low.Some? {
      assert high.value * low.value * s == high.value * (low.value * s);
    }
  }

  lemma JoinedCeiling(high: Authority, low: Authority, c: Caveat)
    requires c.BudgetCeiling?
    ensures Tightened(Joined(high, low), c) == Joined(high, Tightened(low, c))
  {
    var left, right := Tightened(Joined(high, low), c), Joined(high, Tightened(low, c));
    assert left.budget.Keys == right.budget.Keys;
    assert left.budget == right.budget;
  }

  lemma JoinedUnites(high: Authority, low: Authority, c: Caveat)
    requires c.ToolDeny? || c.RequiresApproval?
    ensures Tightened(Joined(high, low), c) == Joined(high, Tightened(low, c))
  {
    var left, right := Tightened(Joined(high, low), c), Joined(high, Tightened(low, c));
    assert left.toolsDenied == right.toolsDenied && left.approval == right.approval;
  }

  lemma JoinedTightened(high: Authority, low: Authority, c: Caveat)
    ensures Tightened(Joined(high, low), c) == Joined(high, Tightened(low, c))
  {
    match c
    case ScopeSubset(s) => MeetIsAssociative(high.scopes, low.scopes, s);
    case ToolAllow(t) => MeetIsAssociative(high.toolsAllowed, low.toolsAllowed, t);
    case BudgetCeiling(_, _) => JoinedCeiling(high, low, c);
    case ToolDeny(_) => JoinedUnites(high, low, c);
    case RequiresApproval(_) => JoinedUnites(high, low, c);
    case _ =>
  }

  lemma {:induction false} FoldIsJoined(high: Authority, cs: seq<Caveat>)
    ensures FoldFrom(high, cs) == Joined(high, Fold(cs))
    decreases |cs|
  {
    if cs == [] {
      assert Joined(high, UNBOUNDED).budget == high.budget;
    } else {
      FoldIsJoined(high, cs[..|cs| - 1]);
      JoinedTightened(high, Fold(cs[..|cs| - 1]), cs[|cs| - 1]);
    }
  }

  /** The components of `whole` that `own` speaks in read as `own` alone does. */
  ghost predicate AgreesWhereMentioned(whole: Authority, own: Authority, denies: bool, approves: bool) {
    && (own.scopes.Some? ==> whole.scopes == own.scopes)
    && (forall d :: d in own.budget ==> d in whole.budget && whole.budget[d] == own.budget[d])
    && (own.notBefore.Some? ==> whole.notBefore == own.notBefore)
    && (own.notAfter.Some? ==> whole.notAfter == own.notAfter)
    && (own.toolsAllowed.Some? ==> whole.toolsAllowed == own.toolsAllowed)
    && (denies ==> whole.toolsDenied == own.toolsDenied)
    && (own.maxDepth.Some? ==> whole.maxDepth == own.maxDepth)
    && (own.intentHash.Some? ==> whole.intentHash == own.intentHash)
    && (approves ==> whole.approval == own.approval)
  }

  /**
   A child accepted by the mint-time check tells the truth, for any number of ancestors:
   wherever its caveats speak, the effective bound of the whole chain is the child's own.
   */
  lemma AcceptedChildTellsTheTruth(child: seq<Caveat>, ancestors: seq<Caveat>)
    requires forall i :: 0 <= i < |child| ==> Valid(child[i])
    requires forall k :: 0 <= k < |ancestors| ==> Valid(ancestors[k])
    requires Narrowing(child, ancestors)
    ensures AgreesWhereMentioned(
      Fold(ancestors + child), Fold(child), MentionsDeny(child), MentionsApproval(child))
  {
    forall i, k | 0 <= i < |child| && 0 <= k < |ancestors|
      ensures NoWider(child[i], ancestors[k])
    {
      forall x, y | x in Atoms(child[i]) && y in Atoms(ancestors[k])
        ensures !Wider(x, y)
      {
        AtomInAll(child, i, x);
        AtomInAll(ancestors, k, y);
      }
    }
    ChildUnderAll(child, ancestors);
    FoldAppend(UNBOUNDED, ancestors, child);
    FoldIsJoined(Fold(ancestors), child);
    var high, own := Fold(ancestors), Fold(child);
    var whole := Joined(high, own);
    if own.scopes.Some? && high.scopes.Some? {
      assert high.scopes.value * own.scopes.value == own.scopes.value;
    }
    if own.toolsAllowed.Some? && high.toolsAllowed.Some? {
      assert high.toolsAllowed.value * own.toolsAllowed.value == own.toolsAllowed.value;
    }
  }
}
