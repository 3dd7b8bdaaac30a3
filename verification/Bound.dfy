/**
 What a chain of caveats actually leaves: the fold the console and the audit record show,
 how it relates to what the chain allows, and why a child that passed the narrowing check
 shows exactly its own caveats.
 */
module Bound {
  import opened Wrappers

  import opened Attenuation
  import opened Caveats
  import opened Dimensions

  datatype Authority = Authority(
    scopes: Option<set<string>>, budget: map<Dimension, real>,
    notBefore: Option<int>, notAfter: Option<int>,
    toolsAllowed: Option<set<string>>, toolsDenied: set<string>,
    maxDepth: Option<int>, intentHash: Option<string>, approval: set<string>)

  const UNBOUNDED: Authority := Authority(None, map[], None, None, None, {}, None, None, {})

  function Meet(a: Option<set<string>>, b: set<string>): Option<set<string>> {
    if a.None? then Some(b) else Some(a.value * b)
  }

  function Least(a: Option<int>, b: int): Option<int> { if a.Some? && a.value <= b then a else Some(b) }

  function Greatest(a: Option<int>, b: int): Option<int> { if a.Some? && a.value >= b then a else Some(b) }

  function MinReal(a: real, b: real): real { if a <= b then a else b }

  /** One more caveat: sets intersect, ceilings fall, windows tighten, reversed kinds unite. */
  function Tightened(b: Authority, c: Caveat): (r: Authority) {
    match c
    case ScopeSubset(scopes) => b.(scopes := Meet(b.scopes, scopes))
    case BudgetCeiling(d, v) => b.(budget := b.budget[d := if d in b.budget then MinReal(b.budget[d], v) else v])
    case TimeWindow(nb, na) =>
      b.(notBefore := if nb.Some? then Greatest(b.notBefore, nb.value) else b.notBefore,
         notAfter := if na.Some? then Least(b.notAfter, na.value) else b.notAfter)
    case ToolAllow(tools) => b.(toolsAllowed := Meet(b.toolsAllowed, tools))
    case ToolDeny(tools) => b.(toolsDenied := b.toolsDenied + tools)
    case DepthLimit(n) => b.(maxDepth := Least(b.maxDepth, n))
    case IntentBound(h) => b.(intentHash := Some(h))
    case RequiresApproval(scopes) => b.(approval := b.approval + scopes)
    case ArgPredicate(_, _, _) => b
  }

  function FoldFrom(b: Authority, cs: seq<Caveat>): (r: Authority)
    decreases |cs|
  {
    if cs == [] then b else Tightened(FoldFrom(b, cs[..|cs| - 1]), cs[|cs| - 1])
  }

  function Fold(cs: seq<Caveat>): (r: Authority) { FoldFrom(UNBOUNDED, cs) }

  lemma {:induction false} FoldAppend(b: Authority, xs: seq<Caveat>, ys: seq<Caveat>)
    ensures FoldFrom(b, xs + ys) == FoldFrom(FoldFrom(b, xs), ys)
    decreases |ys|
  {
    if ys == [] {
      assert xs + ys == xs;
    } else {
      var last := |ys| - 1;
      assert (xs + ys)[..|xs + ys| - 1] == xs + ys[..last];
      FoldAppend(b, xs, ys[..last]);
    }
  }

  /** The nine accumulators, one caveat at a time. */
  method EffectiveBound(caveats: seq<Caveat>) returns (r: Authority)
    ensures r == Fold(caveats)
  {
    var scopes: Option<set<string>>, toolsAllowed: Option<set<string>> := None, None;
    var toolsDenied: set<string>, approval: set<string> := {}, {};
    var budget: map<Dimension, real> := map[];
    var notBefore: Option<int>, notAfter: Option<int>, maxDepth: Option<int> := None, None, None;
    var intentHash: Option<string> := None;
    for i := 0 to |caveats|
      invariant Authority(scopes, budget, notBefore, notAfter, toolsAllowed, toolsDenied, maxDepth, intentHash, approval)
             == Fold(caveats[..i])
    {
      assert caveats[..i + 1][..i] == caveats[..i];
      match caveats[i]
      case ScopeSubset(s) => scopes := Meet(scopes, s);
      case BudgetCeiling(d, v) => budget := budget[d := if d in budget then MinReal(budget[d], v) else v];
      case TimeWindow(nb, na) =>
        if nb.Some? {
          notBefore := Greatest(notBefore, nb.value);
        }
        if na.Some? {
          notAfter := Least(notAfter, na.value);
        }
      case ToolAllow(t) => toolsAllowed := Meet(toolsAllowed, t);
      case ToolDeny(t) => toolsDenied := toolsDenied + t;
      case DepthLimit(n) => maxDepth := Least(maxDepth, n);
      case IntentBound(h) => intentHash := Some(h);
      case RequiresApproval(s) => approval := approval + s;
      case ArgPredicate(_, _, _) =>
    }
    assert caveats[..|caveats|] == caveats;
    r := Authority(scopes, budget, notBefore, notAfter, toolsAllowed, toolsDenied, maxDepth, intentHash, approval);
  }

  // ------------------------------------------------------------------------------------
  // The bound, field by field
  // ------------------------------------------------------------------------------------

  /** What all the sets of one kind have in common; none if there is no such caveat. */
  ghost predicate Common(cs: seq<Caveat>, scopes: bool, r: Option<set<string>>) {
    && (r.Some? <==> exists i :: 0 <= i < |cs| && (if scopes then cs[i].ScopeSubset? else cs[i].ToolAllow?))
    && (r.Some? ==> forall x :: x in r.value <==>
         forall i :: 0 <= i < |cs| ==>
           && (scopes && cs[i].ScopeSubset? ==> x in cs[i].scopes)
           && (!scopes && cs[i].ToolAllow? ==> x in cs[i].tools))
  }

  /** The lowest ceiling on each dimension that has one. */
  ghost predicate Lowest(cs: seq<Caveat>, budget: map<Dimension, real>) {
    && (forall d :: d in budget <==> exists i :: 0 <= i < |cs| && cs[i].BudgetCeiling? && cs[i].dim == d)
    && (forall d :: d in budget ==> BudgetCeiling(d, budget[d]) in cs)
    && (forall i :: 0 <= i < |cs| && cs[i].BudgetCeiling? && cs[i].dim in budget ==> budget[cs[i].dim] <= cs[i].ceiling)
  }

  /** The latest beginning, the earliest end and the smallest depth. */
  ghost predicate Narrowest(cs: seq<Caveat>, from: Option<int>, until: Option<int>, depth: Option<int>) {
    && (from.Some? ==> exists i :: 0 <= i < |cs| && cs[i].TimeWindow? && cs[i].notBefore == from)
    && (until.Some? ==> exists i :: 0 <= i < |cs| && cs[i].TimeWindow? && cs[i].notAfter == until)
    && (depth.Some? ==> DepthLimit(depth.value) in cs)
    && (forall i :: 0 <= i < |cs| && cs[i].TimeWindow? && cs[i].notBefore.Some? ==>
         from.Some? && cs[i].notBefore.value <= from.value)
    && (forall i :: 0 <= i < |cs| && cs[i].TimeWindow? && cs[i].notAfter.Some? ==>
         until.Some? && until.value <= cs[i].notAfter.value)
    && (forall i :: 0 <= i < |cs| && cs[i].DepthLimit? ==> depth.Some? && depth.value <= cs[i].maxDepth)
  }

  /** The last intent named. */
  ghost predicate LastNamed(cs: seq<Caveat>, intent: Option<string>) {
    if intent.None? then forall i :: 0 <= i < |cs| ==> !cs[i].IntentBound?
    else exists k :: 0 <= k < |cs| && cs[k] == IntentBound(intent.value) && forall i :: k < i < |cs| ==> !cs[i].IntentBound?
  }

  /** Everything denied, and everything that needs approval. */
  ghost predicate United(cs: seq<Caveat>, denied: set<string>, approval: set<string>) {
    && (forall x :: x in denied <==> exists i :: 0 <= i < |cs| && cs[i].ToolDeny? && x in cs[i].tools)
    && (forall x :: x in approval <==> exists i :: 0 <= i < |cs| && cs[i].RequiresApproval? && x in cs[i].scopes)
  }

  /** Each field of the bound, read off the caveats without any order but that of the intents. */
  lemma {:induction false} FoldIs(cs: seq<Caveat>)
    ensures
      var b := Fold(cs);
      && Common(cs, true, b.scopes) && Common(cs, false, b.toolsAllowed) && Lowest(cs, b.budget)
      && Narrowest(cs, b.notBefore, b.notAfter, b.maxDepth) && LastNamed(cs, b.intentHash)
      && United(cs, b.toolsDenied, b.approval)
    decreases |cs|
  {
    hide Common, Lowest, Narrowest, LastNamed, United;
    if cs == [] {
      NothingFolded();
    } else {
      var n := |cs| - 1;
      var before := Fold(cs[..n]);
      FoldIs(cs[..n]);
      assert cs == cs[..n] + [cs[n]];
      CommonStep(cs[..n], cs[n], before);
      LowestStep(cs[..n], cs[n], before);
      NarrowestStep(cs[..n], cs[n], before);
      LastStep(cs[..n], cs[n], before);
      UnitedStep(cs[..n], cs[n], before);
    }
  }

  lemma NothingFolded()
    ensures Common([], true, None) && Common([], false, None) && Lowest([], map[]) && Narrowest([], None, None, None)
    ensures LastNamed([], None) && United([], {}, {})
  {
  }

  lemma CommonStep(cs: seq<Caveat>, c: Caveat, b: Authority)
    requires Common(cs, true, b.scopes) && Common(cs, false, b.toolsAllowed)
    ensures Common(cs + [c], true, Tightened(b, c).scopes) && Common(cs + [c], false, Tightened(b, c).toolsAllowed)
  {
    var all := cs + [c];
    assert all[|cs|] == c && forall i :: 0 <= i < |cs| ==> all[i] == cs[i];
  }

  lemma LowestStep(cs: seq<Caveat>, c: Caveat, b: Authority)
    requires Lowest(cs, b.budget)
    ensures Lowest(cs + [c], Tightened(b, c).budget)
  {
    var all := cs + [c];
    assert all[|cs|] == c && forall i :: 0 <= i < |cs| ==> all[i] == cs[i];
  }

  lemma NarrowestStep(cs: seq<Caveat>, c: Caveat, b: Authority)
    requires Narrowest(cs, b.notBefore, b.notAfter, b.maxDepth)
    ensures var t := Tightened(b, c); Narrowest(cs + [c], t.notBefore, t.notAfter, t.maxDepth)
  {
    var all := cs + [c];
    assert all[|cs|] == c && forall i :: 0 <= i < |cs| ==> all[i] == cs[i];
  }

  lemma LastStep(cs: seq<Caveat>, c: Caveat, b: Authority)
    requires LastNamed(cs, b.intentHash)
    ensures LastNamed(cs + [c], Tightened(b, c).intentHash)
  {
    var all := cs + [c];
    assert all[|cs|] == c && forall i :: 0 <= i < |cs| ==> all[i] == cs[i];
  }

  lemma UnitedStep(cs: seq<Caveat>, c: Caveat, b: Authority)
    requires United(cs, b.toolsDenied, b.approval)
    ensures United(cs + [c], Tightened(b, c).toolsDenied, Tightened(b, c).approval)
  {
    var all := cs + [c];
    assert all[|cs|] == c && forall i :: 0 <= i < |cs| ==> all[i] == cs[i];
  }

  // ------------------------------------------------------------------------------------
  // The bound against the chain
  // ------------------------------------------------------------------------------------

  /** What a reader of the bound would let through. */
  ghost predicate Permits(b: Authority, ctx: Context)
    requires ValidContext(ctx)
  {
    && (b.scopes.Some? ==> ctx.operation in b.scopes.value)
    && (forall d :: d in b.budget ==> ctx.requested[d] <= b.budget[d])
    && (b.notBefore.Some? ==> b.notBefore.value <= ctx.now)
    && (b.notAfter.Some? ==> ctx.now < b.notAfter.value)
    && (b.toolsAllowed.Some? ==> ctx.tool.Some? && ctx.tool.value in b.toolsAllowed.value)
    && (ctx.tool.Some? ==> ctx.tool.value !in b.toolsDenied)
    && (b.maxDepth.Some? ==> ctx.depth <= b.maxDepth.value)
    && (b.intentHash.Some? ==> ctx.intent == b.intentHash.value)
    && ctx.operation !in b.approval
  }

  /** The two things the fold does not hold: argument predicates, and all intents but the last. */
  ghost predicate Unfolded(cs: seq<Caveat>, ctx: Context)
    requires ValidContext(ctx)
  {
    forall i :: 0 <= i < |cs| && (cs[i].ArgPredicate? || cs[i].IntentBound?) ==> Allows(cs[i], ctx)
  }

  lemma TightenedPermits(b: Authority, c: Caveat, ctx: Context)
    requires ValidContext(ctx)
    ensures c.ArgPredicate? ==> (Permits(Tightened(b, c), ctx) <==> Permits(b, ctx))
    ensures c.IntentBound? ==>
      (Permits(Tightened(b, c), ctx) <==> Permits(b.(intentHash := None), ctx) && Allows(c, ctx))
    ensures !c.ArgPredicate? && !c.IntentBound? ==>
      (Permits(Tightened(b, c), ctx) <==> Permits(b, ctx) && Allows(c, ctx))
  {
    var t := Tightened(b, c);
    if c.BudgetCeiling? && Permits(t, ctx) {
      assert c.dim in t.budget;
      forall d | d in b.budget
        ensures ctx.requested[d] <= b.budget[d]
      {
        assert d in t.budget;
      }
    }
  }

  /** Every intent the chain names is the request's own, so the last one is too. */
  lemma {:induction false} IntentFolded(cs: seq<Caveat>, ctx: Context)
    requires ValidContext(ctx) && Unfolded(cs, ctx)
    ensures Fold(cs).intentHash.Some? ==> Fold(cs).intentHash.value == ctx.intent
    decreases |cs|
  {
    if cs != [] {
      var init := cs[..|cs| - 1];
      assert Unfolded(init, ctx) by {
        assert forall i :: 0 <= i < |init| ==> init[i] == cs[i];
      }
      IntentFolded(init, ctx);
      assert cs[|cs| - 1].IntentBound? ==> Allows(cs[|cs| - 1], ctx);
    }
  }

  /**
   The exact relation, for every chain and request: the chain allows what the bound permits
   and the unfolded caveats allow.
   */
  lemma {:induction false} ChainIsBoundAndUnfolded(cs: seq<Caveat>, ctx: Context)
    requires ValidContext(ctx)
    ensures AllAllow(cs, ctx) <==> Permits(Fold(cs), ctx) && Unfolded(cs, ctx)
    decreases |cs|
  {
    if cs != [] {
      var init, last := cs[..|cs| - 1], cs[|cs| - 1];
      ChainIsBoundAndUnfolded(init, ctx);
      TightenedPermits(Fold(init), last, ctx);
      assert cs == init + [last];
      assert AllAllow(cs, ctx) <==> AllAllow(init, ctx) && Allows(last, ctx);
      assert Unfolded(cs, ctx) <==>
        Unfolded(init, ctx) && (last.ArgPredicate? || last.IntentBound? ==> Allows(last, ctx));
      if Unfolded(init, ctx) {
        IntentFolded(init, ctx);
      }
    }
  }

  /** The bound never understates a chain. */
  lemma BoundIsUpper(cs: seq<Caveat>, ctx: Context)
    requires ValidContext(ctx) && AllAllow(cs, ctx)
    ensures Permits(Fold(cs), ctx)
  {
    ChainIsBoundAndUnfolded(cs, ctx);
  }

  ghost predicate IntentsAgree(cs: seq<Caveat>) {
    forall i, j :: 0 <= i < |cs| && 0 <= j < |cs| && cs[i].IntentBound? && cs[j].IntentBound? ==> cs[i] == cs[j]
  }

  lemma {:induction false} LastIntent(cs: seq<Caveat>, i: nat)
    requires i < |cs| && cs[i].IntentBound? && IntentsAgree(cs)
    ensures Fold(cs).intentHash == Some(cs[i].intentHash)
    decreases |cs|
  {
    var init, last := cs[..|cs| - 1], cs[|cs| - 1];
    if last.IntentBound? {
      assert last == cs[i];
    } else {
      assert forall k :: 0 <= k < |init| ==> init[k] == cs[k];
      LastIntent(init, i);
    }
  }

  /** With no argument predicate and one intent, the bound is exact. */
  lemma BoundIsExact(cs: seq<Caveat>, ctx: Context)
    requires ValidContext(ctx) && IntentsAgree(cs)
    requires forall i :: 0 <= i < |cs| ==> !cs[i].ArgPredicate?
    ensures AllAllow(cs, ctx) <==> Permits(Fold(cs), ctx)
  {
    ChainIsBoundAndUnfolded(cs, ctx);
    if Permits(Fold(cs), ctx) {
      forall i | 0 <= i < |cs| && cs[i].IntentBound?
        ensures Allows(cs[i], ctx)
      {
        LastIntent(cs, i);
      }
    }
  }

  /** Two intents: the bound shows the last and permits what the chain denies. */
  lemma DisagreeingIntentsAreInexact(a: string, b: string)
    requires a != b
    ensures
      var cs := [IntentBound(a), IntentBound(b)];
      var ctx := AnyRequest().(intent := b);
      ValidContext(ctx) && Permits(Fold(cs), ctx) && !AllAllow(cs, ctx)
  {
    var cs := [IntentBound(a), IntentBound(b)];
    var ctx := AnyRequest().(intent := b);
    assert cs[..1] == [IntentBound(a)] && [IntentBound(a)][..0] == [];
    assert FoldFrom(UNBOUNDED, []) == UNBOUNDED;
    assert Fold([IntentBound(a)]) == UNBOUNDED.(intentHash := Some(a));
    assert Fold(cs) == UNBOUNDED.(intentHash := Some(b));
    assert !Allows(cs[0], ctx);
  }

  // ------------------------------------------------------------------------------------
  // Dead tokens
  // ------------------------------------------------------------------------------------

  predicate IsDead(b: Authority) {
    || (b.scopes.Some? && b.scopes.value == {})
    || (b.notBefore.Some? && b.notAfter.Some? && b.notAfter.value <= b.notBefore.value)
  }

  /** The ways to be inert that `IsDead` does not look at. */
  predicate IsSilent(b: Authority) {
    || (b.toolsAllowed.Some? && b.toolsAllowed.value <= b.toolsDenied)
    || (b.scopes.Some? && b.scopes.value <= b.approval)
  }

  /** Ceilings and depths no caveat can make negative. */
  ghost predicate NonNegative(b: Authority) {
    && (forall d :: d in b.budget ==> 0.0 <= b.budget[d])
    && (b.maxDepth.Some? ==> 0 <= b.maxDepth.value)
  }

  lemma {:induction false} FoldNonNegative(cs: seq<Caveat>)
    requires forall i :: 0 <= i < |cs| ==> Valid(cs[i])
    ensures NonNegative(Fold(cs))
    decreases |cs|
  {
    if cs != [] {
      assert forall i :: 0 <= i < |cs| - 1 ==> cs[..|cs| - 1][i] == cs[i];
      FoldNonNegative(cs[..|cs| - 1]);
    }
  }

  lemma {:induction false} SomethingOutside(s: set<string>) returns (x: string)
    ensures x !in s
    ensures forall y :: y in s ==> |y| < |x|
    decreases |s|
  {
    if s == {} {
      x := "";
    } else {
      var y :| y in s;
      var shorter := SomethingOutside(s - {y});
      x := if |y| < |shorter| then shorter else y + "x";
      assert forall z :: z in s ==> z == y || z in s - {y};
    }
  }

  /** Some valid request gets through, unless the bound is dead or silent. */
  lemma LivelyBoundPermits(b: Authority) returns (ctx: Context)
    requires NonNegative(b) && !IsDead(b) && !IsSilent(b)
    ensures ValidContext(ctx) && Permits(b, ctx)
  {
    ctx := AnyRequest();
    var operation := SomethingOutside(b.approval);
    if b.scopes.Some? {
      operation :| operation in b.scopes.value && operation !in b.approval;
    }
    var tool: Option<string> := None;
    if b.toolsAllowed.Some? {
      var t :| t in b.toolsAllowed.value && t !in b.toolsDenied;
      tool := Some(t);
    }
    var now := if b.notBefore.Some? then b.notBefore.value
               else if b.notAfter.Some? then b.notAfter.value - 1 else 0;
    ctx := ctx.(operation := operation, tool := tool, now := now,
                intent := if b.intentHash.Some? then b.intentHash.value else "");
    forall d | d in b.budget
      ensures ctx.requested[d] <= b.budget[d]
    {
      EveryDimensionListed(d);
    }
  }

  /**
   A bound reported dead permits nothing; and a bound permits nothing exactly when it is
   dead or silent, so the report misses precisely the silent ones.
   */
  lemma DeadOrSilentIffInert(b: Authority)
    requires NonNegative(b)
    ensures (forall ctx: Context :: ValidContext(ctx) ==> !Permits(b, ctx)) <==> IsDead(b) || IsSilent(b)
  {
    if !IsDead(b) && !IsSilent(b) {
      var ctx := LivelyBoundPermits(b);
    }
  }

  /** So the bound of any chain permits nothing exactly when it is dead or silent. */
  lemma ChainBoundInert(cs: seq<Caveat>)
    requires forall i :: 0 <= i < |cs| ==> Valid(cs[i])
    ensures (forall ctx: Context :: ValidContext(ctx) ==> !Permits(Fold(cs), ctx))
       <==> IsDead(Fold(cs)) || IsSilent(Fold(cs))
  {
    FoldNonNegative(cs);
    DeadOrSilentIffInert(Fold(cs));
  }

  /** A token whose bound is dead authorizes nothing at all. */
  lemma DeadChainAllowsNothing(cs: seq<Caveat>, ctx: Context)
    requires ValidContext(ctx) && IsDead(Fold(cs))
    ensures !AllAllow(cs, ctx)
  {
    ChainIsBoundAndUnfolded(cs, ctx);
  }
}
