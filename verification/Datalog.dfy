/**
 The clauses a caveat compiles to, the facts a request is rendered to, and what the token's
 own authorizer makes of the two: `check if` is existential, `reject if` is vacuous.
 */
module Datalog {
  import opened Ordering
  import opened Wrappers

  import opened Caveats
  import opened Dimensions

  const SECOND: int := 1_000_000

  datatype Term = Int(i: int) | Str(s: string) | Date(seconds: int)

  /** The predicates this system writes; `Foreign` is any other, in somebody else's block. */
  datatype Predicate =
    | Operation | Requested | Time | Tool | Arg | CurrentDepth | RequestIntent
    | GrantedScope | GrantedIntent
    | Agent | Role | DeclaredDepth | ApprovalScope
    | Foreign(name: string)

  datatype Fact = Fact(name: Predicate, key: Option<string>, term: Term)

  datatype Rel = LeR | LtR | GeR | GtR | EqR | NeR

  /** What a clause asks of its one variable. */
  datatype Test = Cmp(rel: Rel, term: Term) | InSet(members: set<string>) | NotInSet(members: set<string>)

  /** The body `name(key, $v), test`; `Join` is the body `name($v), other($v)`. */
  datatype Body = Match(name: Predicate, key: Option<string>, test: Test) | Join(name: Predicate, other: Predicate)

  datatype Clause = CheckIf(body: Body) | RejectIf(body: Body)

  /** A block is facts and clauses; only the clauses decide anything. */
  datatype Statement = Does(clause: Clause) | Says(fact: Fact)

  /** Comparisons are typed: terms of different types have no answer, nor have ordered strings. */
  function Holds(test: Test, v: Term): (r: Option<bool>) {
    match test
    case InSet(members) => Some(v.Str? && v.s in members)
    case NotInSet(members) => Some(!(v.Str? && v.s in members))
    case Cmp(rel, t) =>
      if v.Str? && t.Str? then
        (match rel
         case EqR => Some(v == t)
         case NeR => Some(v != t)
         case _ => None)
      else if v.Int? && t.Int? then Some(Ordered(v.i, rel, t.i))
      else if v.Date? && t.Date? then Some(Ordered(v.seconds, rel, t.seconds))
      else None
  }

  function Ordered(a: int, rel: Rel, b: int): (r: bool) {
    match rel
    case LeR => a <= b
    case LtR => a < b
    case GeR => a >= b
    case GtR => a > b
    case EqR => a == b
    case NeR => a != b
  }

  ghost predicate Solved(body: Body, facts: set<Fact>) {
    match body
    case Match(name, key, test) =>
      exists f :: f in facts && f.name == name && f.key == key && Holds(test, f.term) == Some(true)
    case Join(name, other) =>
      exists f :: f in facts && f.name == name && f.key.None? && Fact(other, None, f.term) in facts
  }

  ghost predicate Passes(clause: Clause, facts: set<Fact>) {
    match clause
    case CheckIf(body) => Solved(body, facts)
    case RejectIf(body) => !Solved(body, facts)
  }

  ghost predicate BlockPasses(block: seq<Statement>, facts: set<Fact>) {
    forall i :: 0 <= i < |block| && block[i].Does? ==> Passes(block[i].clause, facts)
  }

  // ------------------------------------------------------------------------------------
  // Compilation
  // ------------------------------------------------------------------------------------

  /** Quantities are written as integers of 1/10000; None is the raised CaveatError. */
  function Scale(v: real): (r: Option<int>)
    ensures r.Some? <==> FourPlaces(v)
    ensures r.Some? ==> r.value as real == v * 10000.0
  {
    var scaled := v * 10000.0;
    if scaled.Floor as real == scaled then Some(scaled.Floor) else None
  }

  function ToTerm(v: Scalar): (r: Option<Term>) {
    match v
    case Text(t) => Some(Str(t))
    case Num(n) => if Scale(n).Some? then Some(Int(Scale(n).value)) else None
  }

  /** A date literal keeps whole seconds only. */
  function ToDate(instant: int): (r: Term) { Date(instant / SECOND) }

  function Negated(op: ArgOp): (rel: Rel)
    requires !IsMembership(op)
  {
    match op
    case Le => GtR
    case Lt => GeR
    case Ge => LtR
    case Gt => LeR
    case Eq => NeR
    case Ne => EqR
  }

  function Check(name: Predicate, key: Option<string>, test: Test): (s: Statement) {
    Does(CheckIf(Match(name, key, test)))
  }

  function Reject(name: Predicate, key: Option<string>, test: Test): (s: Statement) {
    Does(RejectIf(Match(name, key, test)))
  }

  /** The scopes of an approval become facts, one each. */
  function ApprovalFacts(scopes: seq<string>): (r: seq<Statement>)
    ensures |r| == |scopes|
    ensures forall i :: 0 <= i < |r| ==> r[i] == Says(Fact(ApprovalScope, None, Str(scopes[i])))
  {
    seq(|scopes|, i requires 0 <= i < |scopes| => Says(Fact(ApprovalScope, None, Str(scopes[i]))))
  }

  function Compile(c: Caveat): (r: Option<seq<Statement>>)
    requires c.ArgPredicate? ==> (IsMembership(c.op) <==> c.value.Many?)
  {
    match c
    case ScopeSubset(scopes) => Some([Check(Operation, None, InSet(scopes))])
    case BudgetCeiling(d, v) =>
      if Scale(v).None? then None
      else Some([Check(Requested, Some(Name(d)), Cmp(LeR, Int(Scale(v).value)))])
    case TimeWindow(nb, na) =>
      Some((if nb.Some? then [Check(Time, None, Cmp(GeR, ToDate(nb.value)))] else [])
           + (if na.Some? then [Check(Time, None, Cmp(LtR, ToDate(na.value)))] else []))
    case ToolAllow(tools) => Some([Check(Tool, None, InSet(tools))])
    case ToolDeny(tools) => Some([Reject(Tool, None, InSet(tools))])
    case ArgPredicate(path, op, value) =>
      if op == In then Some([Reject(Arg, Some(path), NotInSet(value.members))])
      else if op == NotIn then Some([Reject(Arg, Some(path), InSet(value.members))])
      else if ToTerm(value.scalar).None? then None
      else Some([Reject(Arg, Some(path), Cmp(Negated(op), ToTerm(value.scalar).value))])
    case DepthLimit(n) => Some([Check(CurrentDepth, None, Cmp(LeR, Int(n)))])
    case IntentBound(h) => Some([Check(RequestIntent, None, Cmp(EqR, Str(h)))])
    case RequiresApproval(scopes) => Some(ApprovalFacts(Listing(scopes)))
  }

  /** Every quantity the request mentions can be written at the token's scale. */
  ghost predicate Renderable(ctx: Context) {
    && (forall d :: d in ctx.requested ==> FourPlaces(ctx.requested[d]))
    && (forall p :: p in ctx.args && ctx.args[p].Num? ==> FourPlaces(ctx.args[p].n))
  }

  /** The request as facts. Rendering raises exactly when the request is not `Renderable`. */
  ghost function RequestFacts(ctx: Context): (facts: set<Fact>)
    requires ValidContext(ctx) && Renderable(ctx)
  {
    {Fact(Operation, None, Str(ctx.operation)),
     Fact(CurrentDepth, None, Int(ctx.depth)),
     Fact(RequestIntent, None, Str(ctx.intent)),
     Fact(Time, None, ToDate(ctx.now))}
    + (set d: Dimension | d in ctx.requested :: Fact(Requested, Some(Name(d)), Int(Scale(ctx.requested[d]).value)))
    + (if ctx.tool.Some? then {Fact(Tool, None, Str(ctx.tool.value))} else {})
    + (set p | p in ctx.args :: Fact(Arg, Some(p), ToTerm(ctx.args[p]).value))
  }

  // ------------------------------------------------------------------------------------
  // The compiler preserves meaning
  // ------------------------------------------------------------------------------------

  predicate Whole(bound: Option<int>) { bound.Some? ==> bound.value % SECOND == 0 }

  predicate WholeSeconds(c: Caveat) { c.TimeWindow? ==> Whole(c.notBefore) && Whole(c.notAfter) }

  /** A scalar predicate meets an argument of its own type, or none at all. */
  predicate SameTyped(c: Caveat, ctx: Context) {
    c.ArgPredicate? && c.value.One? && c.path in ctx.args ==>
      (c.value.scalar.Num? <==> ctx.args[c.path].Num?)
  }

  ghost predicate CompiledPasses(c: Caveat, facts: set<Fact>)
    requires Valid(c)
  {
    Compile(c).Some? && BlockPasses(Compile(c).value, facts)
  }

  lemma OneClause(statement: Statement, facts: set<Fact>)
    requires statement.Does?
    ensures BlockPasses([statement], facts) <==> Passes(statement.clause, facts)
  {
    assert [statement][0] == statement;
  }

  lemma ScaleKeepsOrder(a: real, b: real)
    requires FourPlaces(a) && FourPlaces(b)
    ensures a <= b <==> Scale(a).value <= Scale(b).value
    ensures a < b <==> Scale(a).value < Scale(b).value
    ensures a == b <==> Scale(a).value == Scale(b).value
  {
  }

  lemma WindowClauses(c: Caveat, ctx: Context)
    requires Valid(c) && c.TimeWindow? && ValidContext(ctx) && Renderable(ctx)
    ensures CompiledPasses(c, RequestFacts(ctx)) <==>
      && (c.notBefore.Some? ==> ctx.now / SECOND >= c.notBefore.value / SECOND)
      && (c.notAfter.Some? ==> ctx.now / SECOND < c.notAfter.value / SECOND)
  {
    var facts := RequestFacts(ctx);
    var now := Fact(Time, None, ToDate(ctx.now));
    assert now in facts;
    forall rel: Rel, bound: int
      ensures Solved(Match(Time, None, Cmp(rel, ToDate(bound))), facts)
         <==> Ordered(ctx.now / SECOND, rel, bound / SECOND)
    {
      assert Holds(Cmp(rel, ToDate(bound)), now.term) == Some(Ordered(ctx.now / SECOND, rel, bound / SECOND));
    }
    var block := Compile(c).value;
    if c.notBefore.Some? {
      assert block[0] == Check(Time, None, Cmp(GeR, ToDate(c.notBefore.value)));
    }
    if c.notAfter.Some? {
      assert block[|block| - 1] == Check(Time, None, Cmp(LtR, ToDate(c.notAfter.value)));
    }
  }

  function ArgTest(c: Caveat): (t: Test)
    requires Valid(c) && c.ArgPredicate? && Compile(c).Some?
  {
    Compile(c).value[0].clause.body.test
  }

  /** The compiled test is the predicate negated: it finds what the predicate refuses. */
  lemma ArgTestNegates(c: Caveat, actual: Scalar)
    requires Valid(c) && c.ArgPredicate? && Compile(c).Some? && ToTerm(actual).Some?
    requires c.value.One? ==> (c.value.scalar.Num? <==> actual.Num?)
    ensures Holds(ArgTest(c), ToTerm(actual).value) == Some(true) <==> Satisfied(actual, c.op, c.value) == Some(false)
    ensures Satisfied(actual, c.op, c.value).Some?
  {
    if c.value.One? && c.value.scalar.Num? {
      ScaleKeepsOrder(actual.n, c.value.scalar.n);
    }
  }

  lemma ArgClause(c: Caveat, ctx: Context)
    requires Valid(c) && c.ArgPredicate? && ValidContext(ctx) && Renderable(ctx)
    requires Compile(c).Some? && SameTyped(c, ctx)
    ensures CompiledPasses(c, RequestFacts(ctx)) <==> Allows(c, ctx)
  {
    hide Holds, Satisfied, Scale, FourPlaces;
    var facts := RequestFacts(ctx);
    var statement := Compile(c).value[0];
    OneClause(statement, facts);
    if c.path in ctx.args {
      var f := Fact(Arg, Some(c.path), ToTerm(ctx.args[c.path]).value);
      assert f in facts;
      assert Solved(statement.clause.body, facts) <==> Holds(ArgTest(c), f.term) == Some(true);
      ArgTestNegates(c, ctx.args[c.path]);
    }
  }

  lemma BudgetClause(c: Caveat, ctx: Context)
    requires Valid(c) && c.BudgetCeiling? && ValidContext(ctx) && Renderable(ctx)
    ensures CompiledPasses(c, RequestFacts(ctx)) <==> Allows(c, ctx)
  {
    var facts := RequestFacts(ctx);
    var f := Fact(Requested, Some(Name(c.dim)), Int(Scale(ctx.requested[c.dim]).value));
    assert f in facts;
    ScaleKeepsOrder(ctx.requested[c.dim], c.ceiling);
    forall g | g in facts && g.name == Requested && g.key == f.key
      ensures g == f
    {
      var e: Dimension :| e in ctx.requested && g == Fact(Requested, Some(Name(e)), Int(Scale(ctx.requested[e]).value));
      NamesDiffer(c.dim, e);
    }
    OneClause(Compile(c).value[0], facts);
  }

  lemma ToolClause(c: Caveat, ctx: Context)
    requires (c.ToolAllow? || c.ToolDeny?) && ValidContext(ctx) && Renderable(ctx)
    ensures CompiledPasses(c, RequestFacts(ctx)) <==> Allows(c, ctx)
  {
    var facts := RequestFacts(ctx);
    assert ctx.tool.Some? ==> Fact(Tool, None, Str(ctx.tool.value)) in facts;
    OneClause(Compile(c).value[0], facts);
  }

  lemma ScopeClause(c: Caveat, ctx: Context)
    requires c.ScopeSubset? && ValidContext(ctx) && Renderable(ctx)
    ensures CompiledPasses(c, RequestFacts(ctx)) <==> Allows(c, ctx)
  {
    var facts := RequestFacts(ctx);
    assert Fact(Operation, None, Str(ctx.operation)) in facts;
    OneClause(Compile(c).value[0], facts);
  }

  lemma DepthClause(c: Caveat, ctx: Context)
    requires Valid(c) && c.DepthLimit? && ValidContext(ctx) && Renderable(ctx)
    ensures CompiledPasses(c, RequestFacts(ctx)) <==> Allows(c, ctx)
  {
    var facts := RequestFacts(ctx);
    assert Fact(CurrentDepth, None, Int(ctx.depth)) in facts;
    OneClause(Compile(c).value[0], facts);
  }

  lemma IntentClause(c: Caveat, ctx: Context)
    requires c.IntentBound? && ValidContext(ctx) && Renderable(ctx)
    ensures CompiledPasses(c, RequestFacts(ctx)) <==> Allows(c, ctx)
  {
    var facts := RequestFacts(ctx);
    assert Fact(RequestIntent, None, Str(ctx.intent)) in facts;
    OneClause(Compile(c).value[0], facts);
  }

  /**
   For every caveat but an approval and every request, the compiled clauses pass over the
   request's facts exactly when the caveat allows the request.
   */
  lemma CompilerPreservesMeaning(c: Caveat, ctx: Context)
    requires Valid(c) && ValidContext(ctx) && Renderable(ctx) && Compile(c).Some?
    requires !c.RequiresApproval? && WholeSeconds(c) && SameTyped(c, ctx)
    ensures CompiledPasses(c, RequestFacts(ctx)) <==> Allows(c, ctx)
  {
    match c
    case TimeWindow(nb, na) => WindowClauses(c, ctx);
    case ArgPredicate(_, _, _) => ArgClause(c, ctx);
    case BudgetCeiling(_, _) => BudgetClause(c, ctx);
    case ScopeSubset(_) => ScopeClause(c, ctx);
    case ToolAllow(_) => ToolClause(c, ctx);
    case ToolDeny(_) => ToolClause(c, ctx);
    case DepthLimit(_) => DepthClause(c, ctx);
    case IntentBound(_) => IntentClause(c, ctx);
  }

  /** An approval compiles to facts alone: the token's authorizer never sees an escalation. */
  lemma ApprovalNeverDenies(c: Caveat, facts: set<Fact>)
    requires c.RequiresApproval?
    ensures CompiledPasses(c, facts)
  {
  }

  // -- sub-second bounds -------------------------------------------------------------------

  /** A truncated lower bound only lets more through, a truncated upper bound only less. */
  lemma TruncationIsOneSided(now: int, bound: int)
    ensures now >= bound ==> now / SECOND >= bound / SECOND
    ensures now / SECOND < bound / SECOND ==> now < bound
    ensures bound % SECOND == 0 ==> (now >= bound <==> now / SECOND >= bound / SECOND)
    ensures now < (bound / SECOND) * SECOND <==> now / SECOND < bound / SECOND
  {
  }

  function At(ctx: Context, now: int): Context { ctx.(now := now) }

  ghost predicate AgreesAtEveryInstant(c: Caveat, ctx: Context)
    requires Valid(c) && ValidContext(ctx) && Renderable(ctx)
  {
    forall now: int :: CompiledPasses(c, RequestFacts(At(ctx, now))) <==> Allows(c, At(ctx, now))
  }

  /** A window and its compiled form agree at every instant exactly when its bounds are whole seconds. */
  lemma WindowAgreesIffWhole(c: Caveat, ctx: Context)
    requires Valid(c) && c.TimeWindow? && ValidContext(ctx) && Renderable(ctx)
    ensures AgreesAtEveryInstant(c, ctx) <==> WholeSeconds(c)
  {
    if WholeSeconds(c) {
      forall now: int
        ensures CompiledPasses(c, RequestFacts(At(ctx, now))) <==> Allows(c, At(ctx, now))
      {
        CompilerPreservesMeaning(c, At(ctx, now));
      }
    } else {
      var low := if c.notBefore.Some? then c.notBefore.value else c.notAfter.value - SECOND;
      var high := if c.notAfter.Some? then c.notAfter.value else low + 2 * SECOND;
      var moment := if low / SECOND == high / SECOND then low
                     else if !Whole(c.notBefore) then (low / SECOND) * SECOND
                     else (high / SECOND) * SECOND;
      WindowClauses(c, At(ctx, moment));
    }
  }
}
