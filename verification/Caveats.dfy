/**
 The nine caveat kinds and their meaning for one request. Decimals are reals; instants are
 integers in microseconds (see `Stamps` for how an instant is written).
 */
module Caveats {
  import opened Wrappers

  import opened Dimensions

  const MAX_DELEGATION_DEPTH: int := 8

  datatype ArgOp = Le | Lt | Ge | Gt | Eq | Ne | In | NotIn

  /** What one argument of a call can be: a quantity or a piece of text. */
  datatype Scalar = Num(n: real) | Text(t: string)

  datatype ArgValue = One(scalar: Scalar) | Many(members: set<string>)

  datatype Caveat =
    | ScopeSubset(scopes: set<string>)
    | BudgetCeiling(dim: Dimension, ceiling: real)
    | TimeWindow(notBefore: Option<int>, notAfter: Option<int>)
    | ToolAllow(tools: set<string>)
    | ToolDeny(tools: set<string>)
    | ArgPredicate(path: string, op: ArgOp, value: ArgValue)
    | DepthLimit(maxDepth: int)
    | IntentBound(intentHash: string)
    | RequiresApproval(scopes: set<string>)

  predicate IsMembership(op: ArgOp) { op == In || op == NotIn }

  predicate IsOrdering(op: ArgOp) { op == Le || op == Lt || op == Ge || op == Gt }

  /** `value` has at most four decimal places, the scale of every quantity in a token. */
  predicate FourPlaces(v: real) { (v * 10000.0).Floor as real == v * 10000.0 }

  /**
   What the models accept at construction. The last conjunct of `ArgPredicate` is ours: an
   ordering against text goes through a text-to-number conversion that is not modelled.
   */
  ghost predicate Valid(c: Caveat) {
    match c
    case BudgetCeiling(_, v) => 0.0 <= v && FourPlaces(v)
    case TimeWindow(nb, na) =>
      && (nb.Some? || na.Some?)
      && (nb.Some? && na.Some? ==> nb.value < na.value)
    case ArgPredicate(path, op, value) =>
      && path != ""
      && (IsMembership(op) <==> value.Many?)
      && (IsOrdering(op) ==> value.scalar.Num?)
    case DepthLimit(n) => 0 <= n <= MAX_DELEGATION_DEPTH
    case _ => true
  }

  /** What the verifier says about one call; every dimension is present. */
  datatype Context = Context(
    operation: string, requested: map<Dimension, real>, depth: int, intent: string,
    now: int, tool: Option<string>, args: map<string, Scalar>)

  ghost predicate ValidContext(ctx: Context) {
    && (forall d: Dimension :: d in ctx.requested && 0.0 <= ctx.requested[d])
    && 0 <= ctx.depth
  }

  datatype Reason =
    | ScopeAttenuatedAway | BudgetExhaustedCaveat | TokenNotYetValid | TokenExpired
    | ToolDenied | ArgPredicateFailed | DepthExceeded | IntentMismatch

  /** `Unmodelled` stands for the one comparison `Valid` and a numeric argument rule out. */
  datatype Verdict = Allow | Deny(reason: Reason) | Escalate | Unmodelled

  /** A scalar comparison; an ordering needs two quantities. */
  function Compare(left: Scalar, op: ArgOp, right: Scalar): (r: Option<bool>) {
    match op
    case Eq => Some(left == right)
    case Ne => Some(left != right)
    case Le => if left.Num? && right.Num? then Some(left.n <= right.n) else None
    case Lt => if left.Num? && right.Num? then Some(left.n < right.n) else None
    case Ge => if left.Num? && right.Num? then Some(left.n >= right.n) else None
    case Gt => if left.Num? && right.Num? then Some(left.n > right.n) else None
    case _ => None
  }

  function Satisfied(actual: Scalar, op: ArgOp, value: ArgValue): (r: Option<bool>) {
    match value
    case Many(members) =>
      var member := actual.Text? && actual.t in members;
      Some(if op == In then member else !member)
    case One(scalar) => Compare(actual, op, scalar)
  }

  function Evaluate(c: Caveat, ctx: Context): (v: Verdict)
    requires ValidContext(ctx)
  {
    match c
    case ScopeSubset(scopes) => if ctx.operation in scopes then Allow else Deny(ScopeAttenuatedAway)
    case BudgetCeiling(d, ceiling) =>
      if ctx.requested[d] <= ceiling then Allow else Deny(BudgetExhaustedCaveat)
    case TimeWindow(nb, na) =>
      if nb.Some? && ctx.now < nb.value then Deny(TokenNotYetValid)
      else if na.Some? && ctx.now >= na.value then Deny(TokenExpired)
      else Allow
    case ToolAllow(tools) =>
      if ctx.tool.Some? && ctx.tool.value in tools then Allow else Deny(ToolDenied)
    case ToolDeny(tools) =>
      if ctx.tool.None? || ctx.tool.value !in tools then Allow else Deny(ToolDenied)
    case ArgPredicate(path, op, value) =>
      if path !in ctx.args then Allow
      else
        (match Satisfied(ctx.args[path], op, value)
         case None => Unmodelled
         case Some(true) => Allow
         case Some(false) => Deny(ArgPredicateFailed))
    case DepthLimit(n) => if ctx.depth <= n then Allow else Deny(DepthExceeded)
    case IntentBound(h) => if ctx.intent == h then Allow else Deny(IntentMismatch)
    case RequiresApproval(scopes) => if ctx.operation in scopes then Escalate else Allow
  }

  /** Which refusal a caveat gives, and that only an approval escalates. */
  lemma RefusesAs(c: Caveat, ctx: Context)
    requires ValidContext(ctx)
    ensures Evaluate(c, ctx) == Escalate <==> c.RequiresApproval? && ctx.operation in c.scopes
    ensures Evaluate(c, ctx).Deny? ==>
      match Evaluate(c, ctx).reason
      case ScopeAttenuatedAway => c.ScopeSubset?
      case BudgetExhaustedCaveat => c.BudgetCeiling?
      case TokenNotYetValid => c.TimeWindow? && c.notBefore.Some? && ctx.now < c.notBefore.value
      case TokenExpired =>
        && c.TimeWindow? && c.notAfter.Some? && c.notAfter.value <= ctx.now
        && (c.notBefore.Some? ==> c.notBefore.value <= ctx.now)
      case ToolDenied => c.ToolAllow? || c.ToolDeny?
      case ArgPredicateFailed => c.ArgPredicate?
      case DepthExceeded => c.DepthLimit?
      case IntentMismatch => c.IntentBound?
  {
  }

  predicate Allows(c: Caveat, ctx: Context)
    requires ValidContext(ctx)
  {
    Evaluate(c, ctx) == Allow
  }

  predicate AllAllow(cs: seq<Caveat>, ctx: Context)
    requires ValidContext(ctx)
  {
    forall i :: 0 <= i < |cs| ==> Allows(cs[i], ctx)
  }
}
