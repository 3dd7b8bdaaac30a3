/**
 Steps 3 to 7 of the decision pipeline. The first failing step wins; a denial anywhere
 outranks an escalation; and the caveat list the caller supplies only names causes.
 */
module Decision {
  import opened Wrappers

  import opened Caveats
  import opened Datalog
  import opened Dimensions
  import opened Identity
  import opened Tokens

  datatype Outcome = Allowed | Denied | Escalated

  datatype Code =
    | Granted | TokenRevoked | AncestorRevoked | FailClosed
    | ScopeNotGranted | IntentDiffers | TooDeep
    | CaveatDenied(reason: Reason) | AuthorizerDenied | VerificationLimit
    | BundleStale | PolicyDenied | DriftEscalation | ApprovalRequired
    | MandateExhausted | LeaseUnavailable

  /** `failing` is the position of the caveat that caused it, when one did. */
  datatype Verdict = Verdict(outcome: Outcome, code: Code, failing: Option<nat>)

  datatype Lookup = Clear | Revoked | Unknown

  datatype PolicyAnswer = NoPolicy | Policy(allowed: bool, stale: bool)

  datatype BudgetAnswer = NoPool | Covered | Short(mandate: bool)

  /** What `authorize_request` reports: a limit is not a refusal, but it is not permission. */
  datatype EngineAnswer = EngineLimit | EnginePass | EngineFail

  datatype DriftMode = Off | LogOnly | Strict

  /** The five oracles, as the answers they give for this token and this request. */
  datatype Oracles = Oracles(
    revocation: string -> Lookup, engine: EngineAnswer, policy: PolicyAnswer,
    drift: Option<real>, mode: DriftMode, budget: BudgetAnswer)

  const DRIFT_ESCALATION_THRESHOLD: real := 0.7

  function Deny(code: Code): Verdict { Verdict(Denied, code, None) }

  /** The first id not known to be clear decides; the last id is the token's own. */
  function RevocationStep(ids: seq<string>, lookup: string -> Lookup, from: nat): (r: Option<Verdict>)
    requires from <= |ids|
    decreases |ids| - from
  {
    if from == |ids| then None
    else
      match lookup(ids[from])
      case Clear => RevocationStep(ids, lookup, from + 1)
      case Unknown => Some(Deny(FailClosed))
      case Revoked => Some(Deny(if from == |ids| - 1 then TokenRevoked else AncestorRevoked))
  }

  /** The first denial, else the first escalation. */
  function CaveatStep(cs: seq<Caveat>, ctx: Context, from: nat, escalation: Option<Verdict>): (r: Option<Verdict>)
    requires ValidContext(ctx) && from <= |cs|
    decreases |cs| - from
  {
    if from == |cs| then escalation
    else
      match Evaluate(cs[from], ctx)
      case Deny(reason) => Some(Verdict(Denied, CaveatDenied(reason), Some(from)))
      case Escalate =>
        var first := if escalation.Some? then escalation else Some(Verdict(Escalated, ApprovalRequired, Some(from)));
        CaveatStep(cs, ctx, from + 1, first)
      case _ => CaveatStep(cs, ctx, from + 1, escalation)
  }

  function GrantStep(g: Grant, ctx: Context): (r: Option<Verdict>) {
    if ctx.operation !in g.scopes then Some(Deny(ScopeNotGranted))
    else if ctx.intent != g.intentHash then Some(Deny(IntentDiffers))
    else if ctx.depth > g.maxDepth then Some(Deny(TooDeep))
    else None
  }

  function LaterSteps(o: Oracles, caveat: Option<Verdict>): (r: Verdict) {
    match o.policy
    case NoPolicy => Deny(FailClosed)
    case Policy(allowed, stale) =>
      if stale then Deny(BundleStale)
      else if !allowed then Deny(PolicyDenied)
      else if o.mode == Strict && o.drift.Some? && o.drift.value > DRIFT_ESCALATION_THRESHOLD then
        Verdict(Escalated, DriftEscalation, None)
      else if caveat.Some? then caveat.value
      else
        match o.budget
        case NoPool => Deny(FailClosed)
        case Covered => Verdict(Allowed, Granted, None)
        case Short(mandate) => Deny(if mandate then MandateExhausted else LeaseUnavailable)
  }

  function Decided(t: Token, ctx: Context, caveats: seq<Caveat>, o: Oracles): (v: Verdict)
    requires ValidContext(ctx)
  {
    var revoked := RevocationStep(t.revocationIds, o.revocation, 0);
    var granted := GrantStep(t.grant, ctx);
    var caveat := CaveatStep(caveats, ctx, 0, None);
    if revoked.Some? then revoked.value
    else if granted.Some? then granted.value
    else if caveat.Some? && caveat.value.outcome == Denied then caveat.value
    else if o.engine == EngineLimit then Deny(VerificationLimit)
    else if o.engine == EngineFail then Deny(AuthorizerDenied)
    else LaterSteps(o, caveat)
  }

  // ------------------------------------------------------------------------------------
  // The loops
  // ------------------------------------------------------------------------------------

  /** The first caveat that asks for approval. */
  ghost predicate FirstAsks(cs: seq<Caveat>, ctx: Context, k: nat)
    requires ValidContext(ctx)
  {
    k < |cs| && Evaluate(cs[k], ctx) == Escalate && forall i :: 0 <= i < k ==> Evaluate(cs[i], ctx) != Escalate
  }

  method EvaluateCaveats(cs: seq<Caveat>, ctx: Context) returns (r: Option<Verdict>)
    requires ValidContext(ctx)
    ensures r == CaveatStep(cs, ctx, 0, None)
    ensures r.Some? && r.value.outcome == Denied ==>
      exists k :: 0 <= k < |cs| && Evaluate(cs[k], ctx).Deny? && r.value.failing == Some(k)
        && r.value.code == CaveatDenied(Evaluate(cs[k], ctx).reason)
        && forall i :: 0 <= i < k ==> !Evaluate(cs[i], ctx).Deny?
    ensures r.Some? && r.value.outcome != Denied ==>
      && (forall i :: 0 <= i < |cs| ==> !Evaluate(cs[i], ctx).Deny?)
      && exists k: nat :: FirstAsks(cs, ctx, k) && r.value == Verdict(Escalated, ApprovalRequired, Some(k))
    ensures r.None? ==> forall i :: 0 <= i < |cs| ==> !Evaluate(cs[i], ctx).Deny? && Evaluate(cs[i], ctx) != Escalate
  {
    var escalation: Option<Verdict> := None;
    for index := 0 to |cs|
      invariant CaveatStep(cs, ctx, 0, None) == CaveatStep(cs, ctx, index, escalation)
      invariant forall i :: 0 <= i < index ==> !Evaluate(cs[i], ctx).Deny?
      invariant escalation.Some? ==>
        exists k: nat :: (
          k < index && FirstAsks(cs, ctx, k) && escalation.value == Verdict(Escalated, ApprovalRequired, Some(k)))
      invariant escalation.None? ==> forall i :: 0 <= i < index ==> Evaluate(cs[i], ctx) != Escalate
    {
      match Evaluate(cs[index], ctx)
      case Deny(reason) =>
        return Some(Verdict(Denied, CaveatDenied(reason), Some(index)));
      case Escalate =>
        if escalation.None? {
          escalation := Some(Verdict(Escalated, ApprovalRequired, Some(index)));
        }
      case Allow =>
      case Unmodelled =>
    }
    r := escalation;
  }

  method Decide(t: Token, ctx: Context, caveats: seq<Caveat>, o: Oracles) returns (v: Verdict)
    requires ValidContext(ctx)
    ensures v == Decided(t, ctx, caveats, o)
  {
    for position := 0 to |t.revocationIds|
      invariant RevocationStep(t.revocationIds, o.revocation, 0) == RevocationStep(t.revocationIds, o.revocation, position)
    {
      match o.revocation(t.revocationIds[position])
      case Clear =>
      case Unknown => return Deny(FailClosed);
      case Revoked =>
        var isSelf := position == |t.revocationIds| - 1;
        return Deny(if isSelf then TokenRevoked else AncestorRevoked);
    }
    if ctx.operation !in t.grant.scopes {
      return Deny(ScopeNotGranted);
    }
    if ctx.intent != t.grant.intentHash {
      return Deny(IntentDiffers);
    }
    if ctx.depth > t.grant.maxDepth {
      return Deny(TooDeep);
    }
    var caveat := EvaluateCaveats(caveats, ctx);
    if caveat.Some? && caveat.value.outcome == Denied {
      return caveat.value;
    }
    if o.engine == EngineLimit {
      return Deny(VerificationLimit);
    }
    if o.engine == EngineFail {
      return Deny(AuthorizerDenied);
    }
    v := LaterSteps(o, caveat);
  }

  // ------------------------------------------------------------------------------------
  // The caveat list only explains
  // ------------------------------------------------------------------------------------

  /** The caveats the blocks carry, block by block, are well formed for this request. */
  ghost predicate CarriesChain(t: Token, chain: seq<seq<Caveat>>, ctx: Context) {
    && |chain| == |t.blocks|
    && (forall b :: 0 <= b < |chain| ==> Carries(t.blocks[b], chain[b]))
    && (forall b, i :: 0 <= b < |chain| && 0 <= i < |chain[b]| ==>
         Valid(chain[b][i]) && WholeSeconds(chain[b][i]) && SameTyped(chain[b][i], ctx))
  }

  ghost predicate OnChain(c: Caveat, chain: seq<seq<Caveat>>) {
    exists b, i :: 0 <= b < |chain| && 0 <= i < |chain[b]| && chain[b][i] == c
  }

  /** The engine is believed: unless it hit a limit, its answer is what the token's checks say. */
  ghost predicate EngineFaithful(o: Oracles, t: Token, ctx: Context)
    requires ValidContext(ctx) && Renderable(ctx)
  {
    o.engine != EngineLimit ==> (o.engine == EnginePass <==> Authorized(t, RequestFacts(ctx)))
  }

  ghost predicate AsksApproval(cs: seq<Caveat>, ctx: Context)
    requires ValidContext(ctx)
  {
    exists i :: 0 <= i < |cs| && Evaluate(cs[i], ctx) == Escalate
  }

  ghost predicate SomeDenies(cs: seq<Caveat>, ctx: Context)
    requires ValidContext(ctx)
  {
    exists i :: 0 <= i < |cs| && Evaluate(cs[i], ctx).Deny?
  }

  lemma {:induction false} CaveatStepMeans(cs: seq<Caveat>, ctx: Context, from: nat, escalation: Option<Verdict>)
    requires ValidContext(ctx) && from <= |cs|
    requires escalation.Some? ==> escalation.value.outcome == Escalated
    ensures
      var r := CaveatStep(cs, ctx, from, escalation);
      && (SomeDenies(cs[from..], ctx) <==> r.Some? && r.value.outcome == Denied)
      && (!SomeDenies(cs[from..], ctx) ==>
           && (r.Some? <==> escalation.Some? || AsksApproval(cs[from..], ctx))
           && (r.Some? ==> r.value.outcome == Escalated))
    decreases |cs| - from
  {
    if from < |cs| {
      assert cs[from..] == [cs[from]] + cs[from + 1..];
      match Evaluate(cs[from], ctx)
      case Deny(_) =>
        assert cs[from..][0] == cs[from];
      case Escalate =>
        var first := if escalation.Some? then escalation else Some(Verdict(Escalated, ApprovalRequired, Some(from)));
        CaveatStepMeans(cs, ctx, from + 1, first);
        assert cs[from..][0] == cs[from];
      case Allow =>
        CaveatStepMeans(cs, ctx, from + 1, escalation);
      case Unmodelled =>
        CaveatStepMeans(cs, ctx, from + 1, escalation);
    }
  }

  /** A request the token's own checks accept is accepted by every caveat the chain carries. */
  lemma AuthorizedMeansChainAllows(t: Token, chain: seq<seq<Caveat>>, ctx: Context, c: Caveat)
    requires ValidContext(ctx) && Renderable(ctx) && CarriesChain(t, chain, ctx)
    requires Authorized(t, RequestFacts(ctx)) && OnChain(c, chain)
    ensures Evaluate(c, ctx) == Allow || (c.RequiresApproval? && Evaluate(c, ctx) == Escalate)
  {
    var b, i :| 0 <= b < |chain| && 0 <= i < |chain[b]| && chain[b][i] == c;
    assert t.blocks[b] in t.blocks;
    if !c.RequiresApproval? {
      PassingBlockPassesCaveats(t.grant, t.blocks[b], chain[b], RequestFacts(ctx), i);
      CompilerPreservesMeaning(c, ctx);
    }
  }

  /** The part of the decision before policy: nothing the supplied list can change. */
  lemma OutcomeFromChain(t: Token, chain: seq<seq<Caveat>>, ctx: Context, caveats: seq<Caveat>, o: Oracles)
    requires ValidContext(ctx) && Renderable(ctx) && CarriesChain(t, chain, ctx) && EngineFaithful(o, t, ctx)
    requires forall c :: c in caveats ==> OnChain(c, chain)
    ensures
      var v := Decided(t, ctx, caveats, o);
      var early := RevocationStep(t.revocationIds, o.revocation, 0).Some? || GrantStep(t.grant, ctx).Some?;
      && (early || o.engine != EnginePass ==> v.outcome == Denied)
      && (!early && o.engine == EnginePass ==>
           && !SomeDenies(caveats, ctx)
           && v == LaterSteps(o, CaveatStep(caveats, ctx, 0, None)))
  {
    RevocationDenies(t.revocationIds, o.revocation, 0);
    CaveatStepMeans(caveats, ctx, 0, None);
    assert caveats[0..] == caveats;
    if o.engine == EnginePass && SomeDenies(caveats, ctx) {
      var i :| 0 <= i < |caveats| && Evaluate(caveats[i], ctx).Deny?;
      assert caveats[i] in caveats;
      AuthorizedMeansChainAllows(t, chain, ctx, caveats[i]);
    }
  }

  lemma {:induction false} RevocationDenies(ids: seq<string>, lookup: string -> Lookup, from: nat)
    requires from <= |ids|
    ensures
      var r := RevocationStep(ids, lookup, from);
      && (r.Some? ==> r.value.outcome == Denied)
      && (r.None? <==> forall i :: from <= i < |ids| ==> lookup(ids[i]) == Clear)
    decreases |ids| - from
  {
    if from < |ids| {
      RevocationDenies(ids, lookup, from + 1);
    }
  }

  /** The outcome is decided without looking at what the caveats ask. */
  ghost predicate SettledElsewhere(t: Token, ctx: Context, o: Oracles) {
    || RevocationStep(t.revocationIds, o.revocation, 0).Some?
    || GrantStep(t.grant, ctx).Some?
    || o.engine != EnginePass
    || o.policy != Policy(true, false)
    || (o.mode == Strict && o.drift.Some? && o.drift.value > DRIFT_ESCALATION_THRESHOLD)
  }

  /**
   Any two lists of the chain's caveats give the same outcome if and only if they ask for
   approval alike, or revocation, grant, engine, policy or drift settles it. With no approval
   on the chain, every sublist, the empty one included, decides the same.
   */
  lemma CaveatListOnlyExplains(
    t: Token, chain: seq<seq<Caveat>>, ctx: Context, some: seq<Caveat>, others: seq<Caveat>, o: Oracles)
    requires ValidContext(ctx) && Renderable(ctx) && CarriesChain(t, chain, ctx) && EngineFaithful(o, t, ctx)
    requires forall c :: c in some ==> OnChain(c, chain)
    requires forall c :: c in others ==> OnChain(c, chain)
    ensures Decided(t, ctx, some, o).outcome == Decided(t, ctx, others, o).outcome
      <==> (AsksApproval(some, ctx) <==> AsksApproval(others, ctx)) || SettledElsewhere(t, ctx, o)
    ensures (forall c :: OnChain(c, chain) ==> !c.RequiresApproval?) ==>
      !AsksApproval(some, ctx) && !AsksApproval(others, ctx)
  {
    hide CarriesChain, EngineFaithful, RevocationStep, GrantStep;
    OutcomeFromChain(t, chain, ctx, some, o);
    OutcomeFromChain(t, chain, ctx, others, o);
    CaveatStepMeans(some, ctx, 0, None);
    CaveatStepMeans(others, ctx, 0, None);
    assert some[0..] == some && others[0..] == others;
  }

  // -- a chain whose approval must be listed -----------------------------------------------

  const APPROVED_SCOPE: string := "mail:send"

  function AskingGrant(): Grant { Grant({APPROVED_SCOPE}, 1, "i", 0, 10 * SECOND, Budget(0.0, 0, 0, 0, 0)) }

  function AskingChain(): seq<Caveat> { [RequiresApproval({APPROVED_SCOPE})] }

  ghost function AskingToken(): Token {
    Token(AskingGrant(), [MintedBlock("a", "r", 1, AskingChain())], ["id"])
  }

  function AskingRequest(): Context {
    Context(APPROVED_SCOPE, map d | d in EVERY_DIMENSION :: 0.0, 0, "i", SECOND, None, map[])
  }

  function AgreeingOracles(): Oracles {
    Oracles((id: string) => Clear, EnginePass, Policy(true, false), None, Off, Covered)
  }

  lemma AskingIsCovered()
    ensures ValidContext(AskingRequest()) && Renderable(AskingRequest()) && ValidGrant(AskingGrant())
    ensures GrantCovers(AskingGrant(), AskingRequest())
  {
    AllDimensionsListed();
  }

  lemma AskingIsCarried()
    ensures Compilable(AskingChain())
    ensures Carries(MintedBlock("a", "r", 1, AskingChain()), AskingChain())
  {
    hide MintedBlock, Carries;
    MintedBlockCarries("a", "r", 1, AskingChain());
  }

  lemma AskingIsOnChain(ctx: Context)
    ensures CarriesChain(AskingToken(), [AskingChain()], ctx)
  {
    hide Carries, MintedBlock, Compilable;
    AskingIsCarried();
  }

  lemma AskingIsAuthorized()
    ensures ValidContext(AskingRequest()) && Renderable(AskingRequest())
    ensures Authorized(AskingToken(), RequestFacts(AskingRequest()))
  {
    hide RequestFacts, AuthorityPasses, MintedBlock, Carries, Passes, Compile, Compilable, GrantCovers, Renderable,
         ValidContext, ValidGrant, BlockPasses;
    var ctx, g := AskingRequest(), AskingGrant();
    AskingIsCovered();
    AuthorityChecksMeanGrant(g, ctx);
    AskingIsCarried();
    var block := MintedBlock("a", "r", 1, AskingChain());
    ApprovalNeverDenies(AskingChain()[0], RequestFacts(ctx));
    CarriedBlockPasses(g, block, AskingChain(), RequestFacts(ctx));
  }

  /** Listed, its approval is asked for; left out, the request goes through. */
  lemma ApprovalMustBeListed()
    ensures
      var t, ctx, o := AskingToken(), AskingRequest(), AgreeingOracles();
      && ValidContext(ctx) && Renderable(ctx) && CarriesChain(t, [AskingChain()], ctx) && EngineFaithful(o, t, ctx)
      && Decided(t, ctx, AskingChain(), o).outcome == Escalated
      && Decided(t, ctx, [], o).outcome == Allowed
  {
    hide CarriesChain, RequestFacts, Authorized, MintedBlock;
    AskingIsAuthorized();
    AskingIsOnChain(AskingRequest());
    var t, ctx, o := AskingToken(), AskingRequest(), AgreeingOracles();
    RevocationDenies(t.revocationIds, o.revocation, 0);
    CaveatStepMeans(AskingChain(), ctx, 0, None);
    assert AskingChain()[0..] == AskingChain() && Evaluate(AskingChain()[0], ctx) == Escalate;
  }

  // -- what of a list the decision depends on -----------------------------------------------

  /** The reason of the first caveat that denies. */
  function FirstReason(cs: seq<Caveat>, ctx: Context): (r: Option<Reason>)
    requires ValidContext(ctx)
  {
    if cs == [] then None
    else if Evaluate(cs[0], ctx).Deny? then Some(Evaluate(cs[0], ctx).reason)
    else FirstReason(cs[1..], ctx)
  }

  lemma {:induction false} CaveatStepReason(cs: seq<Caveat>, ctx: Context, from: nat, escalation: Option<Verdict>)
    requires ValidContext(ctx) && from <= |cs|
    requires escalation.Some? ==> escalation.value.outcome == Escalated && escalation.value.code == ApprovalRequired
    ensures
      var r, reason := CaveatStep(cs, ctx, from, escalation), FirstReason(cs[from..], ctx);
      && (reason.Some? ==> r.Some? && r.value.outcome == Denied && r.value.code == CaveatDenied(reason.value))
      && (reason.None? && r.Some? ==> r.value.outcome == Escalated && r.value.code == ApprovalRequired)
      && (reason.None? ==> (r.Some? <==> escalation.Some? || AsksApproval(cs[from..], ctx)))
    decreases |cs| - from
  {
    CaveatStepMeans(cs, ctx, from, escalation);
    if from < |cs| {
      assert cs[from..][0] == cs[from] && cs[from..][1..] == cs[from + 1..];
      assert cs[from..] == [cs[from]] + cs[from + 1..];
      match Evaluate(cs[from], ctx)
      case Deny(_) =>
      case Escalate =>
        CaveatStepReason(cs, ctx, from + 1,
          if escalation.Some? then escalation else Some(Verdict(Escalated, ApprovalRequired, Some(from))));
      case _ => CaveatStepReason(cs, ctx, from + 1, escalation);
    }
  }

  /** Two lists with the same first reason that ask for approval alike decide alike, code and all. */
  lemma SameReasonSameDecision(t: Token, ctx: Context, some: seq<Caveat>, others: seq<Caveat>, o: Oracles)
    requires ValidContext(ctx)
    requires FirstReason(some, ctx) == FirstReason(others, ctx)
    requires AsksApproval(some, ctx) <==> AsksApproval(others, ctx)
    ensures Decided(t, ctx, some, o).outcome == Decided(t, ctx, others, o).outcome
    ensures Decided(t, ctx, some, o).code == Decided(t, ctx, others, o).code
  {
    hide RevocationStep, GrantStep, CaveatStep, FirstReason, AsksApproval;
    CaveatStepReason(some, ctx, 0, None);
    CaveatStepReason(others, ctx, 0, None);
    assert some[0..] == some && others[0..] == others;
  }

  // ------------------------------------------------------------------------------------
  // Which denial
  // ------------------------------------------------------------------------------------

  /** The first id that is not known to be clear. */
  ghost predicate FirstUnclear(ids: seq<string>, lookup: string -> Lookup, i: nat) {
    i < |ids| && lookup(ids[i]) != Clear && forall j :: 0 <= j < i ==> lookup(ids[j]) == Clear
  }

  lemma {:induction false} RevocationCode(ids: seq<string>, lookup: string -> Lookup, from: nat, i: nat)
    requires from <= i && FirstUnclear(ids, lookup, i)
    ensures RevocationStep(ids, lookup, from) == Some(Deny(
      if lookup(ids[i]) == Unknown then FailClosed else if i + 1 == |ids| then TokenRevoked else AncestorRevoked))
    decreases i - from
  {
    if from < i {
      RevocationCode(ids, lookup, from + 1, i);
    }
  }

  /** The token's own id is its last; an id that cannot be looked up denies like a revoked one. */
  lemma RevokedDecides(t: Token, ctx: Context, caveats: seq<Caveat>, o: Oracles, i: nat)
    requires ValidContext(ctx) && FirstUnclear(t.revocationIds, o.revocation, i)
    ensures
      var v := Decided(t, ctx, caveats, o);
      && v.outcome == Denied && v.failing.None?
      && (v.code == FailClosed <==> o.revocation(t.revocationIds[i]) == Unknown)
      && (v.code == TokenRevoked <==> o.revocation(t.revocationIds[i]) == Revoked && i + 1 == |t.revocationIds|)
      && (v.code == AncestorRevoked <==> o.revocation(t.revocationIds[i]) == Revoked && i + 1 < |t.revocationIds|)
  {
    RevocationCode(t.revocationIds, o.revocation, 0, i);
  }

  ghost predicate AllClear(t: Token, o: Oracles) {
    forall i :: 0 <= i < |t.revocationIds| ==> o.revocation(t.revocationIds[i]) == Clear
  }

  /** With every id clear, the first of scope, intent and depth that the grant does not cover. */
  lemma GrantDecides(t: Token, ctx: Context, caveats: seq<Caveat>, o: Oracles)
    requires ValidContext(ctx) && AllClear(t, o)
    ensures
      var v, g := Decided(t, ctx, caveats, o), t.grant;
      && (ctx.operation !in g.scopes <==> v == Verdict(Denied, ScopeNotGranted, None))
      && (ctx.operation in g.scopes && ctx.intent != g.intentHash <==> v == Verdict(Denied, IntentDiffers, None))
      && (ctx.operation in g.scopes && ctx.intent == g.intentHash && g.maxDepth < ctx.depth
          <==> v == Verdict(Denied, TooDeep, None))
  {
    RevocationDenies(t.revocationIds, o.revocation, 0);
    CaveatStepCode(caveats, ctx, 0, None);
  }

  lemma {:induction false} CaveatStepCode(cs: seq<Caveat>, ctx: Context, from: nat, escalation: Option<Verdict>)
    requires ValidContext(ctx) && from <= |cs|
    requires escalation.Some? ==> escalation.value.code == ApprovalRequired
    ensures
      var r := CaveatStep(cs, ctx, from, escalation);
      r.Some? ==> r.value.code == ApprovalRequired || r.value.code.CaveatDenied?
    decreases |cs| - from
  {
    if from < |cs| {
      match Evaluate(cs[from], ctx)
      case Deny(_) =>
      case Escalate =>
        CaveatStepCode(cs, ctx, from + 1,
          if escalation.Some? then escalation else Some(Verdict(Escalated, ApprovalRequired, Some(from))));
      case _ => CaveatStepCode(cs, ctx, from + 1, escalation);
    }
  }

  ghost predicate GrantMet(t: Token, ctx: Context) {
    ctx.operation in t.grant.scopes && ctx.intent == t.grant.intentHash && ctx.depth <= t.grant.maxDepth
  }

  /** Then the first caveat that denies, by position and reason. */
  lemma CaveatDecides(t: Token, ctx: Context, caveats: seq<Caveat>, o: Oracles, k: nat)
    requires ValidContext(ctx) && AllClear(t, o) && GrantMet(t, ctx)
    requires k < |caveats| && Evaluate(caveats[k], ctx).Deny?
    requires forall i :: 0 <= i < k ==> !Evaluate(caveats[i], ctx).Deny?
    ensures Decided(t, ctx, caveats, o) == Verdict(Denied, CaveatDenied(Evaluate(caveats[k], ctx).reason), Some(k))
  {
    RevocationDenies(t.revocationIds, o.revocation, 0);
    FirstDenierDecides(caveats, ctx, 0, None, k);
  }

  lemma {:induction false} FirstDenierDecides(
    cs: seq<Caveat>, ctx: Context, from: nat, escalation: Option<Verdict>, k: nat)
    requires ValidContext(ctx) && from <= k < |cs| && Evaluate(cs[k], ctx).Deny?
    requires forall i :: from <= i < k ==> !Evaluate(cs[i], ctx).Deny?
    ensures CaveatStep(cs, ctx, from, escalation)
         == Some(Verdict(Denied, CaveatDenied(Evaluate(cs[k], ctx).reason), Some(k)))
    decreases k - from
  {
    if from < k {
      match Evaluate(cs[from], ctx)
      case Deny(_) =>
      case Escalate =>
        FirstDenierDecides(cs, ctx, from + 1,
          if escalation.Some? then escalation else Some(Verdict(Escalated, ApprovalRequired, Some(from))), k);
      case _ => FirstDenierDecides(cs, ctx, from + 1, escalation, k);
    }
  }

  ghost predicate StrictDrift(o: Oracles) { o.mode == Strict && o.drift.Some? && o.drift.value > 0.7 }

  /** Past the listed caveats: the engine, then the policy bundle, each with its own denial. */
  lemma PolicyDecides(t: Token, ctx: Context, caveats: seq<Caveat>, o: Oracles)
    requires ValidContext(ctx) && AllClear(t, o) && GrantMet(t, ctx) && !SomeDenies(caveats, ctx)
    ensures
      var v := Decided(t, ctx, caveats, o);
      && (o.engine == EngineLimit ==> v == Verdict(Denied, VerificationLimit, None))
      && (o.engine == EngineFail ==> v == Verdict(Denied, AuthorizerDenied, None))
      && (o.engine == EnginePass ==>
           match o.policy
           case NoPolicy => v == Verdict(Denied, FailClosed, None)
           case Policy(allowed, stale) =>
             && (stale ==> v == Verdict(Denied, BundleStale, None))
             && (!stale && !allowed ==> v == Verdict(Denied, PolicyDenied, None)))
  {
    RevocationDenies(t.revocationIds, o.revocation, 0);
    CaveatStepMeans(caveats, ctx, 0, None);
    assert caveats[0..] == caveats;
  }

  /** The token's own checks pass wherever the grant covers the request and the chain allows it. */
  lemma ClearedIsAuthorized(t: Token, chain: seq<seq<Caveat>>, ctx: Context)
    requires ValidContext(ctx) && Renderable(ctx) && ValidGrant(t.grant) && CarriesChain(t, chain, ctx)
    requires GrantCovers(t.grant, ctx)
    requires forall c :: OnChain(c, chain) && !c.RequiresApproval? ==> Allows(c, ctx)
    ensures Authorized(t, RequestFacts(ctx))
  {
    hide RequestFacts, GrantCovers, BlockPasses, Carries, Compile;
    AuthorityChecksMeanGrant(t.grant, ctx);
    forall b | b in t.blocks
      ensures BlockPasses(b, RequestFacts(ctx) + AuthorityFacts(t.grant) + OwnFacts(b))
    {
      var k :| 0 <= k < |t.blocks| && t.blocks[k] == b;
      forall i | 0 <= i < |chain[k]|
        ensures CompiledPasses(chain[k][i], RequestFacts(ctx))
      {
        assert OnChain(chain[k][i], chain);
        CarriedCompiles(t.blocks[k], chain[k], i);
        CompiledOrApproval(chain[k][i], ctx);
      }
      CarriedBlockPasses(t.grant, b, chain[k], RequestFacts(ctx));
    }
  }

  lemma CarriedCompiles(block: seq<Statement>, cs: seq<Caveat>, i: nat)
    requires Carries(block, cs) && i < |cs|
    ensures Valid(cs[i]) && Compile(cs[i]).Some?
  {
  }

  lemma CompiledOrApproval(c: Caveat, ctx: Context)
    requires ValidContext(ctx) && Renderable(ctx) && Valid(c) && WholeSeconds(c) && SameTyped(c, ctx)
    requires Compile(c).Some? && (!c.RequiresApproval? ==> Allows(c, ctx))
    ensures CompiledPasses(c, RequestFacts(ctx))
  {
    if c.RequiresApproval? {
      ApprovalNeverDenies(c, RequestFacts(ctx));
    } else {
      CompilerPreservesMeaning(c, ctx);
    }
  }

  /** Everything a request got past, however little the caller could read of its chain. */
  ghost predicate Cleared(t: Token, chain: seq<seq<Caveat>>, ctx: Context, o: Oracles)
    requires ValidContext(ctx)
  {
    && (forall i :: 0 <= i < |t.revocationIds| ==> o.revocation(t.revocationIds[i]) == Clear)
    && GrantCovers(t.grant, ctx)
    && (forall c :: OnChain(c, chain) && !c.RequiresApproval? ==> Allows(c, ctx))
    && o.policy == Policy(true, false)
  }

  /**
   Allow, and likewise escalate, means the whole chain passed: no ancestor revoked, every grant
   check including one per budget dimension, every caveat of every block, and a fresh policy.
   */
  lemma NotDeniedMeansCleared(t: Token, chain: seq<seq<Caveat>>, ctx: Context, caveats: seq<Caveat>, o: Oracles)
    requires ValidContext(ctx) && Renderable(ctx) && ValidGrant(t.grant)
    requires CarriesChain(t, chain, ctx) && EngineFaithful(o, t, ctx)
    requires forall c :: c in caveats ==> OnChain(c, chain)
    requires Decided(t, ctx, caveats, o).outcome != Denied
    ensures Cleared(t, chain, ctx, o)
    ensures Decided(t, ctx, caveats, o).outcome == Allowed ==> o.budget == Covered && AllAllow(caveats, ctx)
  {
    OutcomeFromChain(t, chain, ctx, caveats, o);
    RevocationDenies(t.revocationIds, o.revocation, 0);
    AuthorityChecksMeanGrant(t.grant, ctx);
    forall c | OnChain(c, chain) && !c.RequiresApproval?
      ensures Allows(c, ctx)
    {
      AuthorizedMeansChainAllows(t, chain, ctx, c);
    }
    CaveatStepMeans(caveats, ctx, 0, None);
    assert caveats[0..] == caveats;
    if Decided(t, ctx, caveats, o).outcome == Allowed {
      forall i | 0 <= i < |caveats|
        ensures Allows(caveats[i], ctx)
      {
        assert caveats[i] in caveats;
        AuthorizedMeansChainAllows(t, chain, ctx, caveats[i]);
      }
    }
  }

  /**
   And a request that got past all of it is never denied but by the budget: it escalates on
   strict drift above 0.7, else if a listed caveat asks for approval; otherwise it is allowed
   if and only if the budget covers it.
   */
  lemma ClearedDecides(t: Token, chain: seq<seq<Caveat>>, ctx: Context, caveats: seq<Caveat>, o: Oracles)
    requires ValidContext(ctx) && Renderable(ctx) && ValidGrant(t.grant)
    requires CarriesChain(t, chain, ctx) && EngineFaithful(o, t, ctx) && o.engine != EngineLimit
    requires forall c :: c in caveats ==> OnChain(c, chain)
    requires Cleared(t, chain, ctx, o)
    ensures
      var v := Decided(t, ctx, caveats, o);
      if StrictDrift(o) then v == Verdict(Escalated, DriftEscalation, None)
      else if AsksApproval(caveats, ctx) then v.outcome == Escalated && v.code == ApprovalRequired
      else
        && (v == Verdict(Allowed, Granted, None) <==> o.budget == Covered)
        && (v == Verdict(Denied, FailClosed, None) <==> o.budget == NoPool)
        && (v == Verdict(Denied, MandateExhausted, None) <==> o.budget == Short(true))
        && (v == Verdict(Denied, LeaseUnavailable, None) <==> o.budget == Short(false))
  {
    hide CarriesChain, GrantCovers, Authorized, RequestFacts;
    ClearedIsAuthorized(t, chain, ctx);
    OutcomeFromChain(t, chain, ctx, caveats, o);
    RevocationDenies(t.revocationIds, o.revocation, 0);
    CoveredMeetsGrant(t, ctx);
    CaveatStepReason(caveats, ctx, 0, None);
    CaveatStepMeans(caveats, ctx, 0, None);
    assert caveats[0..] == caveats;
  }

  lemma CoveredMeetsGrant(t: Token, ctx: Context)
    requires ValidContext(ctx) && GrantCovers(t.grant, ctx)
    ensures GrantStep(t.grant, ctx).None?
  {
  }
}
