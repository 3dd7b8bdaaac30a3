/**
 The holder's own fold: an agent identity folds the caveats it added against its grant with
 separate code. It must show what the chain fold shows for the same token.
 */
module Identity {
  import opened Wrappers

  import opened Bound
  import opened Caveats
  import opened ChildTruth
  import opened Dimensions

  /** Money is exact at four places; every other dimension is a count. */
  datatype Budget = Budget(spend: real, toolCalls: int, rowsRead: int, externalEmails: int, wallClock: int)
  {
    function Get(d: Dimension): real {
      match d
      case SpendBdt => spend
      case ToolCalls => toolCalls as real
      case RowsRead => rowsRead as real
      case ExternalEmails => externalEmails as real
      case WallClockS => wallClock as real
    }
  }

  /** What a token's authority block granted. */
  datatype Grant = Grant(
    scopes: set<string>, maxDepth: int, intentHash: string, notBefore: int, expiresAt: int, budget: Budget)

  ghost predicate ValidGrant(g: Grant) {
    && 1 <= g.maxDepth <= MAX_DELEGATION_DEPTH && g.notBefore < g.expiresAt
    && forall d: Dimension :: 0.0 <= g.budget.Get(d) && FourPlaces(g.budget.Get(d))
  }

  function Ceilings(g: Grant, dims: seq<Dimension>): (r: seq<Caveat>)
    ensures |r| == |dims|
    ensures forall i :: 0 <= i < |r| ==> r[i] == BudgetCeiling(dims[i], g.budget.Get(dims[i]))
  {
    seq(|dims|, i requires 0 <= i < |dims| => BudgetCeiling(dims[i], g.budget.Get(dims[i])))
  }

  /** The grant rendered as caveats, so that one fold and one check cover it too. */
  function GrantCaveats(g: Grant): (r: seq<Caveat>) {
    [ScopeSubset(g.scopes), DepthLimit(g.maxDepth), IntentBound(g.intentHash),
     TimeWindow(Some(g.notBefore), Some(g.expiresAt))]
    + Ceilings(g, EVERY_DIMENSION)
  }

  datatype ScaleError = NotWhole(dim: Dimension)

  predicate WholeUnits(d: Dimension, scaled: int) { d == SpendBdt || scaled % 10000 == 0 }

  /** Rebuilds a budget from scaled units; a fractional count is an error, never floored. */
  function FromScaled(values: map<Dimension, int>): (r: Result<Budget, ScaleError>)
    requires forall d: Dimension :: d in values
    ensures r.Ok? <==> forall d: Dimension :: WholeUnits(d, values[d])
    ensures r.Ok? ==> forall d: Dimension :: r.value.Get(d) == values[d] as real / 10000.0
    ensures r.Err? ==> !WholeUnits(r.error.dim, values[r.error.dim])
  {
    if !WholeUnits(ToolCalls, values[ToolCalls]) then Err(NotWhole(ToolCalls))
    else if !WholeUnits(RowsRead, values[RowsRead]) then Err(NotWhole(RowsRead))
    else if !WholeUnits(ExternalEmails, values[ExternalEmails]) then Err(NotWhole(ExternalEmails))
    else if !WholeUnits(WallClockS, values[WallClockS]) then Err(NotWhole(WallClockS))
    else
      RebuiltExactly(values);
      Ok(Rebuilt(values))
  }

  function Rebuilt(values: map<Dimension, int>): (b: Budget)
    requires forall d: Dimension :: d in values
  {
    Budget(values[SpendBdt] as real / 10000.0, values[ToolCalls] / 10000, values[RowsRead] / 10000,
           values[ExternalEmails] / 10000, values[WallClockS] / 10000)
  }

  lemma RebuiltExactly(values: map<Dimension, int>)
    requires forall d: Dimension :: d in values
    requires WholeUnits(ToolCalls, values[ToolCalls]) && WholeUnits(RowsRead, values[RowsRead])
    requires WholeUnits(ExternalEmails, values[ExternalEmails]) && WholeUnits(WallClockS, values[WallClockS])
    ensures forall d: Dimension ::
      WholeUnits(d, values[d]) && Rebuilt(values).Get(d) == values[d] as real / 10000.0
  {
  }

  function MinInt(a: int, b: int): int { if a <= b then a else b }

  function MaxInt(a: int, b: int): int { if a >= b then a else b }

  function Units(v: real): int { (v * 10000.0).Floor }

  function FoldedUnits(known: Authority, g: Grant, d: Dimension): int {
    if d in known.budget then MinInt(Units(g.budget.Get(d)), Units(known.budget[d])) else Units(g.budget.Get(d))
  }

  function EffectiveBudget(known: Authority, g: Grant): (r: Result<Budget, ScaleError>) {
    AllDimensionsListed();
    FromScaled(map d | d in EVERY_DIMENSION :: FoldedUnits(known, g, d))
  }

  function MetWithGrant(bound: Authority, g: Grant, budget: map<Dimension, real>): (r: Authority) {
    bound.(
      scopes := Some(if bound.scopes.None? then g.scopes else g.scopes * bound.scopes.value),
      maxDepth := Some(if bound.maxDepth.None? then g.maxDepth else MinInt(g.maxDepth, bound.maxDepth.value)),
      intentHash := if bound.intentHash.None? then Some(g.intentHash) else bound.intentHash,
      notBefore := Some(if bound.notBefore.None? then g.notBefore else MaxInt(g.notBefore, bound.notBefore.value)),
      notAfter := Some(if bound.notAfter.None? then g.expiresAt else MinInt(g.expiresAt, bound.notAfter.value)),
      budget := budget)
  }

  /** `AgentIdentity.__post_init__`: the known caveats folded alone, then met with the grant. */
  function AgentAuthority(known: seq<Caveat>, g: Grant): (r: Result<Authority, ScaleError>) {
    match EffectiveBudget(Fold(known), g)
    case Err(e) => Err(e)
    case Ok(budget) => Ok(MetWithGrant(Fold(known), g, map d | d in EVERY_DIMENSION :: budget.Get(d)))
  }

  // ------------------------------------------------------------------------------------
  // Agreement
  // ------------------------------------------------------------------------------------

  /** Folding distinct ceilings sets exactly those entries of the budget. */
  ghost predicate SetsCeilings(before: Authority, after: Authority, g: Grant, dims: seq<Dimension>) {
    && after == before.(budget := after.budget)
    && (forall d :: d in after.budget <==> d in before.budget || d in dims)
    && (forall d :: d in dims ==> after.budget[d] == g.budget.Get(d))
    && (forall d :: d in before.budget ==> after.budget[d] == before.budget[d])
  }

  lemma {:induction false} CeilingsFold(b: Authority, g: Grant, dims: seq<Dimension>)
    requires forall i, j :: 0 <= i < j < |dims| ==> dims[i] != dims[j]
    requires forall d :: d in dims ==> d !in b.budget
    ensures SetsCeilings(b, FoldFrom(b, Ceilings(g, dims)), g, dims)
    decreases |dims|
  {
    if dims != [] {
      var init, last := dims[..|dims| - 1], dims[|dims| - 1];
      assert Ceilings(g, dims)[..|dims| - 1] == Ceilings(g, init);
      assert dims == init + [last];
      CeilingsFold(b, g, init);
      assert last !in FoldFrom(b, Ceilings(g, init)).budget;
    }
  }

  lemma HeadFold(g: Grant)
    ensures FoldFrom(UNBOUNDED, GrantCaveats(g)[..4]) == Authority(
      Some(g.scopes), map[], Some(g.notBefore), Some(g.expiresAt), None, {}, Some(g.maxDepth), Some(g.intentHash), {})
  {
    var s, n, h, w := ScopeSubset(g.scopes), DepthLimit(g.maxDepth), IntentBound(g.intentHash),
      TimeWindow(Some(g.notBefore), Some(g.expiresAt));
    assert GrantCaveats(g)[..4] == [s, n, h, w];
    assert [s, n, h, w][..3] == [s, n, h] && [s, n, h][..2] == [s, n] && [s, n][..1] == [s] && [s][..0] == [];
    assert FoldFrom(UNBOUNDED, []) == UNBOUNDED;
    assert FoldFrom(UNBOUNDED, [s]) == Tightened(UNBOUNDED, s);
    assert FoldFrom(UNBOUNDED, [s, n]) == Tightened(FoldFrom(UNBOUNDED, [s]), n);
    assert FoldFrom(UNBOUNDED, [s, n, h]) == Tightened(FoldFrom(UNBOUNDED, [s, n]), h);
    assert FoldFrom(UNBOUNDED, [s, n, h, w]) == Tightened(FoldFrom(UNBOUNDED, [s, n, h]), w);
  }

  lemma GrantFold(g: Grant)
    ensures
      var whole := Fold(GrantCaveats(g));
      && (forall d: Dimension :: d in whole.budget && whole.budget[d] == g.budget.Get(d))
      && whole == Authority(Some(g.scopes), whole.budget, Some(g.notBefore), Some(g.expiresAt),
                            None, {}, Some(g.maxDepth), Some(g.intentHash), {})
  {
    var head := FoldFrom(UNBOUNDED, GrantCaveats(g)[..4]);
    HeadFold(g);
    assert GrantCaveats(g) == GrantCaveats(g)[..4] + Ceilings(g, EVERY_DIMENSION);
    FoldAppend(UNBOUNDED, GrantCaveats(g)[..4], Ceilings(g, EVERY_DIMENSION));
    CeilingsFold(head, g, EVERY_DIMENSION);
    AllDimensionsListed();
  }

  lemma {:induction false} FoldedCeilingsExact(cs: seq<Caveat>)
    requires forall i :: 0 <= i < |cs| ==> Valid(cs[i])
    ensures forall d :: d in Fold(cs).budget ==> FourPlaces(Fold(cs).budget[d])
    decreases |cs|
  {
    if cs != [] {
      var init, last := cs[..|cs| - 1], cs[|cs| - 1];
      assert forall i :: 0 <= i < |init| ==> init[i] == cs[i];
      FoldedCeilingsExact(init);
      assert Valid(last);
      forall d | d in Fold(cs).budget
        ensures FourPlaces(Fold(cs).budget[d])
      {
        assert Fold(cs).budget[d] == (if last.BudgetCeiling? then last.ceiling else 0.0)
          || (d in Fold(init).budget && Fold(cs).budget[d] == Fold(init).budget[d]);
      }
    }
  }

  /** The tighter of grant and caveats, per dimension. */
  function Tighter(known: Authority, g: Grant, d: Dimension): real {
    if d in known.budget then MinReal(g.budget.Get(d), known.budget[d]) else g.budget.Get(d)
  }

  lemma UnitsOfTighter(known: Authority, g: Grant, d: Dimension)
    requires FourPlaces(g.budget.Get(d)) && (d in known.budget ==> FourPlaces(known.budget[d]))
    ensures FoldedUnits(known, g, d) as real == Tighter(known, g, d) * 10000.0
  {
  }

  /** Every count the fold leaves is a whole number. */
  ghost predicate CountsStayWhole(known: Authority, g: Grant) {
    forall d: Dimension :: WholeUnits(d, FoldedUnits(known, g, d))
  }

  lemma HolderBudget(known: seq<Caveat>, g: Grant, whole: Authority)
    requires ValidGrant(g) && forall i :: 0 <= i < |known| ==> Valid(known[i])
    requires EffectiveBudget(Fold(known), g).Ok?
    requires whole == Joined(Fold(GrantCaveats(g)), Fold(known))
    ensures (map d | d in EVERY_DIMENSION :: EffectiveBudget(Fold(known), g).value.Get(d)) == whole.budget
  {
    GrantFold(g);
    FoldedCeilingsExact(known);
    AllDimensionsListed();
    forall d: Dimension
      ensures d in whole.budget && EffectiveBudget(Fold(known), g).value.Get(d) == whole.budget[d]
    {
      UnitsOfTighter(Fold(known), g, d);
      assert EffectiveBudget(Fold(known), g).value.Get(d) == FoldedUnits(Fold(known), g, d) as real / 10000.0;
    }
  }

  /** Meeting a bound with the grant field by field is joining it to the grant's own fold. */
  lemma MetIsJoined(bound: Authority, g: Grant, granted: Authority)
    requires granted == Authority(Some(g.scopes), granted.budget, Some(g.notBefore), Some(g.expiresAt),
                                  None, {}, Some(g.maxDepth), Some(g.intentHash), {})
    ensures MetWithGrant(bound, g, Joined(granted, bound).budget) == Joined(granted, bound)
  {
    assert {} + bound.toolsDenied == bound.toolsDenied && {} + bound.approval == bound.approval;
  }

  /**
   The holder's fold exists exactly when the folded counts are whole, and then it is, on every
   field, the effective bound of the grant followed by the caveats.
   */
  lemma HolderFoldIsChainFold(known: seq<Caveat>, g: Grant)
    requires ValidGrant(g) && forall i :: 0 <= i < |known| ==> Valid(known[i])
    ensures AgentAuthority(known, g).Ok? <==> CountsStayWhole(Fold(known), g)
    ensures AgentAuthority(known, g).Ok? ==> AgentAuthority(known, g).value == Fold(GrantCaveats(g) + known)
  {
    AllDimensionsListed();
    if AgentAuthority(known, g).Ok? {
      GrantFold(g);
      FoldAppend(UNBOUNDED, GrantCaveats(g), known);
      FoldIsJoined(Fold(GrantCaveats(g)), known);
      HolderBudget(known, g, Joined(Fold(GrantCaveats(g)), Fold(known)));
      MetIsJoined(Fold(known), g, Fold(GrantCaveats(g)));
    }
  }

  /** A fractional count ceiling: the chain fold shows it, the holder's fold refuses it. */
  lemma FractionalCountRefused(g: Grant)
    requires ValidGrant(g) && 1 <= g.budget.toolCalls
    ensures
      var known := [BudgetCeiling(ToolCalls, 0.5)];
      && Valid(known[0]) && AgentAuthority(known, g).Err?
      && Fold(GrantCaveats(g) + known).budget[ToolCalls] == 0.5
  {
    var c := BudgetCeiling(ToolCalls, 0.5);
    var known := [c];
    assert known[..0] == [];
    assert FoldFrom(UNBOUNDED, []) == UNBOUNDED;
    assert Fold(known) == Tightened(UNBOUNDED, c);
    assert FoldedUnits(Fold(known), g, ToolCalls) == 5000;
    HolderFoldIsChainFold(known, g);
    GrantFold(g);
    FoldAppend(UNBOUNDED, GrantCaveats(g), known);
    FoldIsJoined(Fold(GrantCaveats(g)), known);
  }
}
