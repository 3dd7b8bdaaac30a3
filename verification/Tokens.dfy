/**
 A token as its authorizer sees it: an authority block, then attenuation blocks, each block's
 checks reading the request, the authority block's facts and the block's own facts only.
 */
module Tokens {
  import opened Wrappers

  import opened Caveats
  import opened Datalog
  import opened Dimensions
  import opened Identity

  datatype Token = Token(grant: Grant, blocks: seq<seq<Statement>>, revocationIds: seq<string>)

  /** The authority facts its own checks join with. */
  function AuthorityFacts(g: Grant): (r: set<Fact>) {
    (set s | s in g.scopes :: Fact(GrantedScope, None, Str(s))) + {Fact(GrantedIntent, None, Str(g.intentHash))}
  }

  function DimensionCheck(g: Grant, d: Dimension): (c: Clause) {
    CheckIf(Match(Requested, Some(Name(d)), Cmp(LeR, Int(Units(g.budget.Get(d))))))
  }

  /** The checks `mint_root` writes: one per budget dimension, naming it. */
  function AuthorityChecks(g: Grant): (r: seq<Clause>) {
    [CheckIf(Join(Operation, GrantedScope)),
     CheckIf(Match(CurrentDepth, None, Cmp(LeR, Int(g.maxDepth)))),
     CheckIf(Join(RequestIntent, GrantedIntent))]
    + seq(|EVERY_DIMENSION|, i requires 0 <= i < |EVERY_DIMENSION| => DimensionCheck(g, EVERY_DIMENSION[i]))
    + [CheckIf(Match(Time, None, Cmp(GeR, ToDate(g.notBefore)))),
       CheckIf(Match(Time, None, Cmp(LtR, ToDate(g.expiresAt))))]
  }

  ghost function OwnFacts(block: seq<Statement>): set<Fact> {
    set i | 0 <= i < |block| && block[i].Says? :: block[i].fact
  }

  ghost predicate AuthorityPasses(g: Grant, request: set<Fact>) {
    forall c :: c in AuthorityChecks(g) ==> Passes(c, request + AuthorityFacts(g))
  }

  ghost predicate BlocksPass(t: Token, request: set<Fact>) {
    forall b :: b in t.blocks ==> BlockPasses(b, request + AuthorityFacts(t.grant) + OwnFacts(b))
  }

  /** Every check in every block passes: what `authorize_request` asks of the engine. */
  ghost predicate Authorized(t: Token, request: set<Fact>) {
    AuthorityPasses(t.grant, request) && BlocksPass(t, request)
  }

  /** Appending any block whatever, forged facts included, can only narrow. */
  lemma AppendingNarrows(t: Token, block: seq<Statement>, request: set<Fact>)
    requires Authorized(t.(blocks := t.blocks + [block]), request)
    ensures Authorized(t, request)
  {
    forall b | b in t.blocks
      ensures BlockPasses(b, request + AuthorityFacts(t.grant) + OwnFacts(b))
    {
      assert b in t.blocks + [block];
    }
  }

  // -- minted blocks ---------------------------------------------------------------------

  /** The names a minted attenuation block gives its facts; no check reads any of them. */
  predicate Spoken(p: Predicate) { p.Agent? || p.Role? || p.DeclaredDepth? || p.ApprovalScope? }

  /** The names a caveat's clause reads. */
  predicate Read(p: Predicate) {
    p.Operation? || p.Requested? || p.Time? || p.Tool? || p.Arg? || p.CurrentDepth? || p.RequestIntent?
  }

  ghost predicate Compilable(cs: seq<Caveat>) {
    forall i :: 0 <= i < |cs| ==> Valid(cs[i]) && Compile(cs[i]).Some?
  }

  ghost function Flatten<T>(parts: seq<seq<T>>): seq<T> {
    if parts == [] then [] else Flatten(parts[..|parts| - 1]) + parts[|parts| - 1]
  }

  lemma {:induction false} FlattenMembers<T>(parts: seq<seq<T>>, x: T)
    ensures x in Flatten(parts) <==> exists i :: 0 <= i < |parts| && x in parts[i]
  {
    if parts != [] {
      FlattenMembers(parts[..|parts| - 1], x);
    }
  }

  ghost function Compiled(cs: seq<Caveat>): (r: seq<seq<Statement>>)
    requires Compilable(cs)
    ensures |r| == |cs| && forall i :: 0 <= i < |cs| ==> r[i] == Compile(cs[i]).value
  {
    seq(|cs|, i requires 0 <= i < |cs| => Compile(cs[i]).value)
  }

  ghost function CompileAll(cs: seq<Caveat>): (r: seq<Statement>)
    requires Compilable(cs)
  {
    Flatten(Compiled(cs))
  }

  /** The body `attenuate` appends: who the child is, then its caveats compiled. */
  ghost function MintedBlock(agent: string, role: string, depth: int, cs: seq<Caveat>): (r: seq<Statement>)
    requires Compilable(cs)
  {
    [Says(Fact(Agent, None, Str(agent))), Says(Fact(Role, None, Str(role))),
     Says(Fact(DeclaredDepth, None, Int(depth)))]
    + CompileAll(cs)
  }

  ghost predicate FromCaveats(cs: seq<Caveat>, s: Statement)
    requires Compilable(cs)
  {
    exists i :: 0 <= i < |cs| && s in Compile(cs[i]).value
  }

  /** The block speaks only identity and approvals, and its clauses are those of `cs`. */
  ghost predicate Carries(block: seq<Statement>, cs: seq<Caveat>) {
    && Compilable(cs)
    && (forall s :: s in block && s.Says? ==> Spoken(s.fact.name))
    && (forall s :: s in block && s.Does? ==> FromCaveats(cs, s))
    && (forall s :: FromCaveats(cs, s) ==> s in block)
  }

  lemma CompiledStatement(c: Caveat, s: Statement)
    requires Valid(c) && Compile(c).Some? && s in Compile(c).value
    ensures s.Does? ==> s.clause.body.Match? && Read(s.clause.body.name)
    ensures s.Says? ==> Spoken(s.fact.name)
  {
    var k :| 0 <= k < |Compile(c).value| && Compile(c).value[k] == s;
  }

  lemma CompileAllMembers(cs: seq<Caveat>, s: Statement)
    requires Compilable(cs)
    ensures s in CompileAll(cs) <==> FromCaveats(cs, s)
  {
    FlattenMembers(Compiled(cs), s);
  }

  lemma MintedBlockCarries(agent: string, role: string, depth: int, cs: seq<Caveat>)
    requires Compilable(cs)
    ensures Carries(MintedBlock(agent, role, depth, cs), cs)
  {
    var block := MintedBlock(agent, role, depth, cs);
    var head := [Says(Fact(Agent, None, Str(agent))), Says(Fact(Role, None, Str(role))),
                 Says(Fact(DeclaredDepth, None, Int(depth)))];
    forall s
      ensures s in block <==> s in head || FromCaveats(cs, s)
    {
      CompileAllMembers(cs, s);
    }
    forall s | s in block && s.Says?
      ensures Spoken(s.fact.name)
    {
      if FromCaveats(cs, s) {
        var i :| 0 <= i < |cs| && s in Compile(cs[i]).value;
        CompiledStatement(cs[i], s);
      }
    }
  }

  /** Facts under names a body does not mention leave its solutions alone. */
  lemma IrrelevantFacts(body: Body, facts: set<Fact>, extra: set<Fact>)
    requires body.Match? && forall f :: f in extra ==> f.name != body.name
    ensures Solved(body, facts + extra) <==> Solved(body, facts)
  {
    if Solved(body, facts) {
      var f :| f in facts && f.name == body.name && f.key == body.key && Holds(body.test, f.term) == Some(true);
      assert f in facts + extra;
    }
  }

  /** A caveat's clause sees the same request whichever token carries it. */
  lemma ClauseIgnoresToken(g: Grant, block: seq<Statement>, clause: Clause, request: set<Fact>)
    requires clause.body.Match? && Read(clause.body.name)
    requires forall s :: s in block && s.Says? ==> Spoken(s.fact.name)
    ensures Passes(clause, request + AuthorityFacts(g) + OwnFacts(block)) <==> Passes(clause, request)
  {
    forall f | f in OwnFacts(block)
      ensures f.name != clause.body.name
    {
      var i :| 0 <= i < |block| && block[i].Says? && block[i].fact == f;
      assert block[i] in block;
    }
    IrrelevantFacts(clause.body, request + AuthorityFacts(g), OwnFacts(block));
    IrrelevantFacts(clause.body, request, AuthorityFacts(g));
  }

  lemma PassingBlockPassesCaveats(g: Grant, block: seq<Statement>, cs: seq<Caveat>, request: set<Fact>, i: nat)
    requires Carries(block, cs) && i < |cs|
    requires BlockPasses(block, request + AuthorityFacts(g) + OwnFacts(block))
    ensures CompiledPasses(cs[i], request)
  {
    var compiled := Compile(cs[i]).value;
    forall k | 0 <= k < |compiled| && compiled[k].Does?
      ensures Passes(compiled[k].clause, request)
    {
      var s := compiled[k];
      assert FromCaveats(cs, s);
      var j :| 0 <= j < |block| && block[j] == s;
      CompiledStatement(cs[i], s);
      ClauseIgnoresToken(g, block, s.clause, request);
    }
  }

  lemma PassingCaveatsPassBlock(g: Grant, block: seq<Statement>, cs: seq<Caveat>, request: set<Fact>)
    requires Carries(block, cs)
    requires forall i :: 0 <= i < |cs| ==> CompiledPasses(cs[i], request)
    ensures BlockPasses(block, request + AuthorityFacts(g) + OwnFacts(block))
  {
    forall j | 0 <= j < |block| && block[j].Does?
      ensures Passes(block[j].clause, request + AuthorityFacts(g) + OwnFacts(block))
    {
      var s := block[j];
      assert s in block;
      var i :| 0 <= i < |cs| && s in Compile(cs[i]).value;
      CompiledStatement(cs[i], s);
      ClauseIgnoresToken(g, block, s.clause, request);
      assert CompiledPasses(cs[i], request);
    }
  }

  /** A block that carries caveats passes in its token exactly when each one's clauses pass the request. */
  lemma CarriedBlockPasses(g: Grant, block: seq<Statement>, cs: seq<Caveat>, request: set<Fact>)
    requires Carries(block, cs)
    ensures BlockPasses(block, request + AuthorityFacts(g) + OwnFacts(block))
       <==> forall i :: 0 <= i < |cs| ==> CompiledPasses(cs[i], request)
  {
    if BlockPasses(block, request + AuthorityFacts(g) + OwnFacts(block)) {
      forall i: nat | i < |cs|
        ensures CompiledPasses(cs[i], request)
      {
        PassingBlockPassesCaveats(g, block, cs, request, i);
      }
    } else if forall i :: 0 <= i < |cs| ==> CompiledPasses(cs[i], request) {
      PassingCaveatsPassBlock(g, block, cs, request);
    }
  }

  // -- the grant's own checks --------------------------------------------------------------

  /** What the grant says of a request, at the precision of the token's dates. */
  ghost predicate GrantCovers(g: Grant, ctx: Context)
    requires ValidContext(ctx)
  {
    && ctx.operation in g.scopes && ctx.intent == g.intentHash && ctx.depth <= g.maxDepth
    && (forall d: Dimension :: ctx.requested[d] <= g.budget.Get(d))
    && g.notBefore / SECOND <= ctx.now / SECOND < g.expiresAt / SECOND
  }

  /** A grant check compiled like a caveat passes exactly when that caveat allows. */
  lemma GrantCheckIsCaveat(g: Grant, ctx: Context, c: Caveat, k: nat, clause: Clause)
    requires ValidContext(ctx) && Renderable(ctx) && Valid(c) && Compile(c).Some? && k < |Compile(c).value|
    requires Compile(c).value[k] == Does(clause)
    ensures Passes(clause, RequestFacts(ctx) + AuthorityFacts(g)) <==> Passes(clause, RequestFacts(ctx))
  {
    CompiledStatement(c, Compile(c).value[k]);
    IrrelevantFacts(clause.body, RequestFacts(ctx), AuthorityFacts(g));
  }

  lemma RequestedWithinGrant(g: Grant, ctx: Context, d: Dimension)
    requires ValidGrant(g) && ValidContext(ctx) && Renderable(ctx)
    ensures Passes(DimensionCheck(g, d), RequestFacts(ctx) + AuthorityFacts(g)) <==> ctx.requested[d] <= g.budget.Get(d)
  {
    var c := BudgetCeiling(d, g.budget.Get(d));
    BudgetClause(c, ctx);
    OneClause(Compile(c).value[0], RequestFacts(ctx));
    GrantCheckIsCaveat(g, ctx, c, 0, DimensionCheck(g, d));
  }

  function DepthCheck(g: Grant): Clause { CheckIf(Match(CurrentDepth, None, Cmp(LeR, Int(g.maxDepth)))) }

  lemma DepthWithinGrant(g: Grant, ctx: Context)
    requires ValidGrant(g) && ValidContext(ctx) && Renderable(ctx)
    ensures Passes(DepthCheck(g), RequestFacts(ctx) + AuthorityFacts(g)) <==> ctx.depth <= g.maxDepth
  {
    var c := DepthLimit(g.maxDepth);
    DepthClause(c, ctx);
    OneClause(Compile(c).value[0], RequestFacts(ctx));
    GrantCheckIsCaveat(g, ctx, c, 0, DepthCheck(g));
  }

  function LowerCheck(g: Grant): Clause { CheckIf(Match(Time, None, Cmp(GeR, ToDate(g.notBefore)))) }

  function UpperCheck(g: Grant): Clause { CheckIf(Match(Time, None, Cmp(LtR, ToDate(g.expiresAt)))) }

  lemma TimeWithinGrant(g: Grant, ctx: Context)
    requires ValidGrant(g) && ValidContext(ctx) && Renderable(ctx)
    ensures
      var facts := RequestFacts(ctx) + AuthorityFacts(g);
      && (Passes(LowerCheck(g), facts) <==> ctx.now / SECOND >= g.notBefore / SECOND)
      && (Passes(UpperCheck(g), facts) <==> ctx.now / SECOND < g.expiresAt / SECOND)
  {
    var from, until := TimeWindow(Some(g.notBefore), None), TimeWindow(None, Some(g.expiresAt));
    WindowClauses(from, ctx);
    WindowClauses(until, ctx);
    assert Compile(from).value == [Does(LowerCheck(g))] && Compile(until).value == [Does(UpperCheck(g))];
    OneClause(Does(LowerCheck(g)), RequestFacts(ctx));
    OneClause(Does(UpperCheck(g)), RequestFacts(ctx));
    GrantCheckIsCaveat(g, ctx, from, 0, LowerCheck(g));
    GrantCheckIsCaveat(g, ctx, until, 0, UpperCheck(g));
  }

  /** A join over a fact stated once is membership of its term. */
  lemma JoinOverOne(name: Predicate, other: Predicate, term: Term, facts: set<Fact>)
    requires Fact(name, None, term) in facts
    requires forall f :: f in facts && f.name == name ==> f == Fact(name, None, term)
    ensures Passes(CheckIf(Join(name, other)), facts) <==> Fact(other, None, term) in facts
  {
    if Fact(other, None, term) in facts {
      assert Solved(Join(name, other), facts);
    }
  }

  lemma MembershipInGrant(g: Grant, ctx: Context)
    requires ValidContext(ctx) && Renderable(ctx)
    ensures
      var facts := RequestFacts(ctx) + AuthorityFacts(g);
      && (Passes(CheckIf(Join(Operation, GrantedScope)), facts) <==> ctx.operation in g.scopes)
      && (Passes(CheckIf(Join(RequestIntent, GrantedIntent)), facts) <==> ctx.intent == g.intentHash)
  {
    var facts := RequestFacts(ctx) + AuthorityFacts(g);
    JoinOverOne(Operation, GrantedScope, Str(ctx.operation), facts);
    JoinOverOne(RequestIntent, GrantedIntent, Str(ctx.intent), facts);
  }

  /** The authority block's checks say exactly that the grant covers the request. */
  lemma AuthorityChecksMeanGrant(g: Grant, ctx: Context)
    requires ValidGrant(g) && ValidContext(ctx) && Renderable(ctx)
    ensures AuthorityPasses(g, RequestFacts(ctx)) <==> GrantCovers(g, ctx)
  {
    hide Passes, RequestFacts, AuthorityFacts;
    var facts := RequestFacts(ctx) + AuthorityFacts(g);
    MembershipInGrant(g, ctx);
    DepthWithinGrant(g, ctx);
    TimeWithinGrant(g, ctx);
    forall d: Dimension
      ensures Passes(DimensionCheck(g, d), facts) <==> ctx.requested[d] <= g.budget.Get(d)
    {
      RequestedWithinGrant(g, ctx, d);
    }
    ChecksListed(g);
  }

  /** The ten checks, by name. */
  lemma ChecksListed(g: Grant)
    ensures forall c :: c in AuthorityChecks(g) <==>
      || c in {CheckIf(Join(Operation, GrantedScope)), DepthCheck(g), CheckIf(Join(RequestIntent, GrantedIntent)),
               LowerCheck(g), UpperCheck(g)}
      || exists d: Dimension :: c == DimensionCheck(g, d)
  {
    var checks := AuthorityChecks(g);
    forall d: Dimension
      ensures DimensionCheck(g, d) in checks
    {
      EveryDimensionListed(d);
      var i :| 0 <= i < |EVERY_DIMENSION| && EVERY_DIMENSION[i] == d;
      assert checks[3 + i] == DimensionCheck(g, d);
    }
    assert checks[0] in checks && checks[1] in checks && checks[2] in checks && checks[8] in checks && checks[9] in checks;
    forall c | c in checks
      ensures || c in {CheckIf(Join(Operation, GrantedScope)), DepthCheck(g), CheckIf(Join(RequestIntent, GrantedIntent)),
                       LowerCheck(g), UpperCheck(g)}
              || exists d: Dimension :: c == DimensionCheck(g, d)
    {
      var k :| 0 <= k < |checks| && checks[k] == c;
      if 3 <= k < 8 {
        assert c == DimensionCheck(g, EVERY_DIMENSION[k - 3]);
      }
    }
  }
}
