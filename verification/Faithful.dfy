/**
 Compiling a caveat list, rendering the block and reading it back yields the same authority:
 nothing is unrecognized, nothing is lost, and every request gets the same verdict.
 */
module Faithful {
  import opened Digits
  import O = Ordering
  import Stamps
  import opened Wrappers

  import opened BlockReader
  import opened Caveats
  import opened Datalog
  import D = Decision
  import opened Dimensions
  import opened ReadBack
  import opened Rendering
  import opened RoundTrip
  import opened Splitter
  import T = Tokens

  ghost predicate AllWritable(cs: seq<Caveat>) { forall i :: 0 <= i < |cs| ==> Writable(cs[i]) }

  ghost function AllSides(cs: seq<Caveat>): (r: seq<Caveat>) {
    if cs == [] then [] else AllSides(cs[..|cs| - 1]) + Sides(cs[|cs| - 1])
  }

  function ScopesOf(c: Caveat): (r: set<string>) { if c.RequiresApproval? then c.scopes else {} }

  ghost function AllScopes(cs: seq<Caveat>): (r: set<string>) {
    if cs == [] then {} else AllScopes(cs[..|cs| - 1]) + ScopesOf(cs[|cs| - 1])
  }

  /** What reading the block is to give: sides in order, and one approval for all of them. */
  ghost function ReadCaveats(cs: seq<Caveat>): (r: seq<Caveat>) {
    AllSides(cs) + (if AllScopes(cs) == {} then [] else [RequiresApproval(AllScopes(cs))])
  }

  // ------------------------------------------------------------------------------------
  // One caveat's statements
  // ------------------------------------------------------------------------------------

  lemma CompiledSort(c: Caveat)
    requires Writable(c)
    ensures forall i :: 0 <= i < |Compile(c).value| ==> Compile(c).value[i].Says? == c.RequiresApproval?
    ensures FactsOf(Compile(c).value) == (if c.RequiresApproval? then Compile(c).value else [])
    ensures ClausesOf(Compile(c).value) == (if c.RequiresApproval? then [] else Compile(c).value)
  {
    hide Constructible, Plain, FactsOf, ClausesOf, O.Listing, Scale, ToTerm, Negated;
    AllOfOneSort(Compile(c).value, c.RequiresApproval?);
  }

  lemma BareMembers(members: set<string>)
    requires SafeSet(members)
    ensures BareTest(InSet(members)) && BareTest(NotInSet(members))
  {
  }

  lemma CompiledBare(c: Caveat)
    requires Writable(c)
    ensures BareBlock(Compile(c).value)
  {
    hide Stamps.IsSecond, O.Listing, IsScope, IsHex64, Name;
    match c
    case ScopeSubset(scopes) =>
      forall s | s in scopes
        ensures SetSafe(s)
      {
        ScopesAreSafe(s);
      }
      BareMembers(scopes);
    case ToolAllow(tools) => BareMembers(tools);
    case ToolDeny(tools) => BareMembers(tools);
    case BudgetCeiling(d, _) => NameIsBare(d);
    case IntentBound(h) => HexIsBare(h);
    case RequiresApproval(scopes) =>
      var list := O.Listing(scopes);
      assert forall i :: 0 <= i < |list| ==> list[i] in scopes;
    case ArgPredicate(_, _, value) =>
      if value.Many? {
        BareMembers(value.members);
      }
    case _ =>
  }

  lemma {:induction false} ApprovalsRead(st: Progress, list: seq<string>)
    requires !st.raised && forall i :: 0 <= i < |list| ==> Bare(list[i])
    requires BareBlock(ApprovalFacts(list)) && Short(ApprovalFacts(list))
    ensures ReadAll(st, Texts(ApprovalFacts(list))) == st.(approvals := st.approvals + Elements(list, 0))
    decreases |list|
  {
    hide FactRead, ClauseRead, StatementText, StatementRead, StatementWritable, BareStatement, Texts, Short, Elements;
    if list == [] {
      NoElements();
      NoTexts();
      assert st.approvals + {} == st.approvals;
    } else {
      var n := |list| - 1;
      var init, block := list[..n], ApprovalFacts(list);
      assert block[..n] == ApprovalFacts(init);
      TextsLast(block);
      assert Texts(block)[..n] == Texts(block[..n]);
      ApprovalsRead(st, init);
      var f := Fact(ApprovalScope, None, Str(list[n]));
      assert block[n] == Says(f) && Texts(block)[n] == StatementText(Says(f));
      var before := ReadAll(st, Texts(ApprovalFacts(init)));
      FactReads(before, f);
      ElementsGrow(list);
      assert st.approvals + Elements(init, 0) + {list[n]} == st.approvals + Elements(list, 0);
    }
  }

  lemma NoElements()
    ensures Elements([], 0) == {}
  {
  }

  lemma ElementsGrow(list: seq<string>)
    requires list != []
    ensures Elements(list, 0) == Elements(list[..|list| - 1], 0) + {list[|list| - 1]}
  {
    hide Elements;
    var init := list[..|list| - 1];
    forall x
      ensures x in Elements(list, 0) <==> x in Elements(init, 0) + {list[|list| - 1]}
    {
      ElementsAre(list, 0, x);
      ElementsAre(init, 0, x);
      if x in Elements(init, 0) {
        var j :| 0 <= j < |init| && init[j] == x;
        assert list[j] == x;
      }
      if x in Elements(list, 0) {
        var j :| 0 <= j < |list| && list[j] == x;
        assert j < |init| ==> init[j] == x;
      }
    }
  }

  lemma ListingElements(members: set<string>)
    ensures Elements(O.Listing(members), 0) == members
  {
    var list := O.Listing(members);
    forall x
      ensures x in Elements(list, 0) <==> x in members
    {
      ElementsAre(list, 0, x);
    }
  }

  // ------------------------------------------------------------------------------------
  // All of them
  // ------------------------------------------------------------------------------------

  lemma CompileAllStep(cs: seq<Caveat>)
    requires T.Compilable(cs) && cs != []
    ensures
      var init := cs[..|cs| - 1];
      T.Compilable(init) && T.CompileAll(cs) == T.CompileAll(init) + Compile(cs[|cs| - 1]).value
  {
    hide Compile, Valid;
    assert T.Compiled(cs)[..|cs| - 1] == T.Compiled(cs[..|cs| - 1]);
  }

  ghost predicate BareCompiled(cs: seq<Caveat>)
    requires T.Compilable(cs)
  {
    BareBlock(FactsOf(T.CompileAll(cs))) && BareBlock(ClausesOf(T.CompileAll(cs)))
  }

  /** The statements of a caveat list, last caveat apart. */
  lemma SplitLast(cs: seq<Caveat>)
    requires T.Compilable(cs) && AllWritable(cs) && cs != []
    ensures
      var init, last := cs[..|cs| - 1], cs[|cs| - 1];
      && T.Compilable(init) && AllWritable(init) && Writable(last) && Valid(last)
      && FactsOf(T.CompileAll(cs)) == FactsOf(T.CompileAll(init)) + FactsOf(Compile(last).value)
      && ClausesOf(T.CompileAll(cs)) == ClausesOf(T.CompileAll(init)) + ClausesOf(Compile(last).value)
  {
    hide Compile, Constructible, Plain;
    var init, last := cs[..|cs| - 1], cs[|cs| - 1];
    CompileAllStep(cs);
    FilterAppend(T.CompileAll(init), Compile(last).value);
  }

  lemma SortBare(c: Caveat)
    requires Writable(c)
    ensures BareBlock(FactsOf(Compile(c).value)) && BareBlock(ClausesOf(Compile(c).value))
  {
    hide Compile, Constructible, Plain, BareStatement;
    CompiledBare(c);
    CompiledSort(c);
  }

  lemma {:induction false} AllCompiledBare(cs: seq<Caveat>)
    requires T.Compilable(cs) && AllWritable(cs)
    ensures BareCompiled(cs)
  {
    hide Compile, Constructible, Plain, BareStatement;
    if cs != [] {
      SplitLast(cs);
      AllCompiledBare(cs[..|cs| - 1]);
      SortBare(cs[|cs| - 1]);
    }
  }

  lemma NoTexts()
    ensures BareBlock([]) && Texts([]) == []
  {
  }

  lemma OneCaveatClauses(st: Progress, c: Caveat)
    requires Writable(c) && !st.raised
    requires BareBlock(ClausesOf(Compile(c).value)) && Short(ClausesOf(Compile(c).value))
    ensures ReadAll(st, Texts(ClausesOf(Compile(c).value))) == st.(caveats := st.caveats + Sides(c))
  {
    hide Constructible, Plain, BareStatement, StatementRead, StatementText, ReadsAs, WellFormed, Texts, Short, ClausesOf;
    CompiledSort(c);
    NoTexts();
    if c.RequiresApproval? {
      assert st.caveats + Sides(c) == st.caveats;
    } else {
      CaveatReads(c);
      ReadEach(st, Compile(c).value, Sides(c));
    }
  }

  lemma OneCaveatFacts(st: Progress, c: Caveat)
    requires Writable(c) && !st.raised
    requires BareBlock(FactsOf(Compile(c).value)) && Short(FactsOf(Compile(c).value))
    ensures ReadAll(st, Texts(FactsOf(Compile(c).value))) == st.(approvals := st.approvals + ScopesOf(c))
  {
    hide Constructible, BareStatement, StatementRead, StatementText, WellFormed, Texts, Short, FactsOf, O.Listing;
    CompiledSort(c);
    NoTexts();
    if c.RequiresApproval? {
      var list := O.Listing(c.scopes);
      assert forall i :: 0 <= i < |list| ==> list[i] in list;
      ApprovalsRead(st, list);
      ListingElements(c.scopes);
    } else {
      assert st.approvals + {} == st.approvals;
    }
  }

  lemma AppendedRead(st: Progress, a: seq<Statement>, b: seq<Statement>)
    requires BareBlock(a) && BareBlock(b)
    ensures BareBlock(a + b) && (Short(a + b) <==> Short(a) && Short(b))
    ensures ReadAll(st, Texts(a + b)) == ReadAll(ReadAll(st, Texts(a)), Texts(b))
  {
    hide BareStatement, StatementRead, Texts, WellFormed;
    TextsAppend(a, b);
    ReadAllAppend(st, Texts(a), Texts(b));
  }

  lemma Reassociate(a: seq<Caveat>, b: seq<Caveat>, c: seq<Caveat>)
    ensures a + b + c == a + (b + c)
  {
  }

  lemma {:induction false} ClausesRead(st: Progress, cs: seq<Caveat>)
    requires T.Compilable(cs) && AllWritable(cs) && BareCompiled(cs) && !st.raised
    requires Short(ClausesOf(T.CompileAll(cs)))
    ensures ReadAll(st, Texts(ClausesOf(T.CompileAll(cs)))) == st.(caveats := st.caveats + AllSides(cs))
    decreases |cs|
  {
    hide Compile, Constructible, Plain, BareStatement, StatementRead, Sides, WellFormed, Texts, Short;
    if cs == [] {
      assert st.caveats + AllSides(cs) == st.caveats;
      NoTexts();
    } else {
      var init, last := cs[..|cs| - 1], cs[|cs| - 1];
      SplitLast(cs);
      AllCompiledBare(init);
      SortBare(last);
      AppendedRead(st, ClausesOf(T.CompileAll(init)), ClausesOf(Compile(last).value));
      ClausesRead(st, init);
      OneCaveatClauses(st.(caveats := st.caveats + AllSides(init)), last);
      Reassociate(st.caveats, AllSides(init), Sides(last));
    }
  }

  lemma {:induction false} FactsRead(st: Progress, cs: seq<Caveat>)
    requires T.Compilable(cs) && AllWritable(cs) && BareCompiled(cs) && !st.raised
    requires Short(FactsOf(T.CompileAll(cs)))
    ensures ReadAll(st, Texts(FactsOf(T.CompileAll(cs)))) == st.(approvals := st.approvals + AllScopes(cs))
    decreases |cs|
  {
    hide Compile, Constructible, Plain, BareStatement, StatementRead, ScopesOf, WellFormed, Texts, Short;
    if cs == [] {
      assert st.approvals + AllScopes(cs) == st.approvals;
      NoTexts();
    } else {
      var init, last := cs[..|cs| - 1], cs[|cs| - 1];
      SplitLast(cs);
      AllCompiledBare(init);
      SortBare(last);
      AppendedRead(st, FactsOf(T.CompileAll(init)), FactsOf(Compile(last).value));
      FactsRead(st, init);
      OneCaveatFacts(st.(approvals := st.approvals + AllScopes(init)), last);
      assert st.approvals + AllScopes(init) + ScopesOf(last) == st.approvals + AllScopes(cs);
    }
  }

  // ------------------------------------------------------------------------------------
  // The round trip
  // ------------------------------------------------------------------------------------

  function Identity(agent: string, role: string, depth: int): (r: seq<Statement>) {
    [Says(Fact(Agent, None, Str(agent))), Says(Fact(Role, None, Str(role))), Says(Fact(DeclaredDepth, None, Int(depth)))]
  }

  lemma IdentityRead(agent: string, role: string, depth: int)
    requires Bare(agent) && Bare(role)
    ensures BareBlock(Identity(agent, role, depth))
    ensures Short(Identity(agent, role, depth)) ==>
      ReadAll(EMPTY, Texts(Identity(agent, role, depth))) == Progress([], [], {}, [agent], [role], [IntText(depth)], false)
  {
    hide StatementRead, StatementText, WellFormed, BareStatement, IntText;
    var block := Identity(agent, role, depth);
    IdentityBare(agent, role, depth);
    var texts := Texts(block);
    if Short(block) {
      assert texts == [texts[0], texts[1], texts[2]];
      assert ReadAll(EMPTY, texts[..0]) == EMPTY;
      assert texts[..1][..0] == texts[..0] && texts[..2][..1] == texts[..1] && texts[..2] == texts[..|texts| - 1];
      FactReads(EMPTY, block[0].fact);
      assert ReadAll(EMPTY, texts[..1]) == EMPTY.(agents := [agent]);
      FactReads(EMPTY.(agents := [agent]), block[1].fact);
      assert ReadAll(EMPTY, texts[..2]) == EMPTY.(agents := [agent], roles := [role]);
      FactReads(EMPTY.(agents := [agent], roles := [role]), block[2].fact);
    }
  }

  lemma IdentityBare(agent: string, role: string, depth: int)
    requires Bare(agent) && Bare(role)
    ensures BareBlock(Identity(agent, role, depth))
  {
  }

  lemma MintedSplits(agent: string, role: string, depth: int, cs: seq<Caveat>)
    requires T.Compilable(cs)
    ensures
      var block := T.MintedBlock(agent, role, depth, cs);
      && FactsOf(block) == Identity(agent, role, depth) + FactsOf(T.CompileAll(cs))
      && ClausesOf(block) == ClausesOf(T.CompileAll(cs))
  {
    hide Compile, Valid;
    FilterAppend(Identity(agent, role, depth), T.CompileAll(cs));
    AllOfOneSort(Identity(agent, role, depth), true);
    assert [] + ClausesOf(T.CompileAll(cs)) == ClausesOf(T.CompileAll(cs));
  }

  /** The block can be written, and is within the reader's two limits. */
  ghost predicate WithinLimits(block: seq<Statement>) {
    var rendered := FactsOf(block) + ClausesOf(block);
    BareBlock(rendered) && Short(rendered) && |rendered| <= MAX_STATEMENTS_PER_BLOCK
  }

  lemma MintedReadsAll(agent: string, role: string, depth: int, cs: seq<Caveat>)
    requires T.Compilable(cs) && AllWritable(cs) && Bare(agent) && Bare(role)
    ensures
      var block := T.MintedBlock(agent, role, depth, cs);
      var rendered := FactsOf(block) + ClausesOf(block);
      && BareBlock(rendered)
      && (Short(rendered) ==>
          ReadAll(EMPTY, Texts(rendered))
          == Progress(AllSides(cs), [], AllScopes(cs), [agent], [role], [IntText(depth)], false))
  {
    hide Compile, Constructible, Plain, BareStatement, StatementRead, IntText, WellFormed, Texts, Short, FactsOf, ClausesOf,
         T.CompileAll, T.MintedBlock, Identity;
    MintedSplits(agent, role, depth, cs);
    AllCompiledBare(cs);
    IdentityRead(agent, role, depth);
    var ids, facts, clauses := Identity(agent, role, depth), FactsOf(T.CompileAll(cs)), ClausesOf(T.CompileAll(cs));
    AppendedRead(EMPTY, ids, facts);
    AppendedRead(EMPTY, ids + facts, clauses);
    if Short(ids + facts + clauses) {
      var named := Progress([], [], {}, [agent], [role], [IntText(depth)], false);
      FactsRead(named, cs);
      assert {} + AllScopes(cs) == AllScopes(cs);
      ClausesRead(named.(approvals := AllScopes(cs)), cs);
      assert [] + AllSides(cs) == AllSides(cs);
    }
  }

  /**
   The block appended for a child, rendered and read back within the limits: every statement
   is recognized, the identity is the one given, and the caveats are those given, windows one
   side at a time and approvals merged.
   */
  lemma MintedBlockReadsBack(agent: string, role: string, depth: int, cs: seq<Caveat>)
    requires T.Compilable(cs) && AllWritable(cs) && Bare(agent) && Bare(role)
    requires WithinLimits(T.MintedBlock(agent, role, depth, cs))
    ensures BlockRead(Source(T.MintedBlock(agent, role, depth, cs)))
         == Some(ParsedBlock(ReadCaveats(cs), [], [agent], [role], [IntText(depth)]))
  {
    hide Compile, Constructible, Plain, BareStatement, StatementRead, IntText, WellFormed, Texts, Short, FactsOf, ClausesOf,
         T.CompileAll, T.MintedBlock, Statements, Rendered, ReadAll, AllSides, AllScopes;
    var block := T.MintedBlock(agent, role, depth, cs);
    var rendered := FactsOf(block) + ClausesOf(block);
    MintedReadsAll(agent, role, depth, cs);
    TextsWellFormed(rendered);
    RenderedSplits(Texts(rendered), MAX_STATEMENTS_PER_BLOCK);
  }

  /** With labels the rules accept, so does the identity, and nothing is ambiguous. */
  lemma MintedIdentityReadsBack(
    agent: string, role: string, depth: int, cs: seq<Caveat>, acceptable: string -> bool, number: string -> Option<int>)
    requires T.Compilable(cs) && AllWritable(cs) && Bare(agent) && Bare(role)
    requires WithinLimits(T.MintedBlock(agent, role, depth, cs))
    requires acceptable(agent) && acceptable(role) && number(IntText(depth)) == Some(depth)
    ensures
      var block := BlockRead(Source(T.MintedBlock(agent, role, depth, cs)));
      block.Some? && IdentityOf(block.value, acceptable, number) == (BlockIdentity(Some(agent), Some(role), Some(depth)), [])
  {
    hide BlockRead, WithinLimits, T.MintedBlock, Source, ReadCaveats, AllWritable;
    MintedBlockReadsBack(agent, role, depth, cs);
    var none: seq<string> := [];
    assert none + none + none + none + none + none == none;
  }

  /** Past the cap, what is rendered last is neither read nor reported. */
  lemma PastTheCapIsLost(block: seq<Statement>)
    requires BareBlock(FactsOf(block) + ClausesOf(block))
    requires |FactsOf(block) + ClausesOf(block)| > MAX_STATEMENTS_PER_BLOCK
    ensures BlockRead(Source(block))
         == Concluded(ReadAll(EMPTY, Texts(FactsOf(block) + ClausesOf(block))[..MAX_STATEMENTS_PER_BLOCK]))
  {
    hide BareStatement, StatementRead, WellFormed, Texts, Statements, Rendered;
    TextsWellFormed(FactsOf(block) + ClausesOf(block));
    RenderedSplits(Texts(FactsOf(block) + ClausesOf(block)), MAX_STATEMENTS_PER_BLOCK);
  }

  // ------------------------------------------------------------------------------------
  // The same verdict
  // ------------------------------------------------------------------------------------

  /** The caveat as its block holds it: window bounds in whole seconds. */
  function Truncated(c: Caveat): (r: Caveat) {
    if c.TimeWindow? then TimeWindow(Floored(c.notBefore), Floored(c.notAfter)) else c
  }

  lemma WholeIsTruncated(c: Caveat)
    requires WholeSeconds(c)
    ensures Truncated(c) == c
  {
  }

  lemma SomeDeniesAppend(a: seq<Caveat>, b: seq<Caveat>, ctx: Context)
    requires ValidContext(ctx)
    ensures D.SomeDenies(a + b, ctx) <==> D.SomeDenies(a, ctx) || D.SomeDenies(b, ctx)
    ensures D.AsksApproval(a + b, ctx) <==> D.AsksApproval(a, ctx) || D.AsksApproval(b, ctx)
  {
    hide Evaluate;
    var ab := a + b;
    assert forall i :: 0 <= i < |a| ==> ab[i] == a[i];
    assert forall i :: 0 <= i < |b| ==> ab[|a| + i] == b[i];
    if D.SomeDenies(ab, ctx) {
      var i :| 0 <= i < |ab| && Evaluate(ab[i], ctx).Deny?;
      assert if i < |a| then ab[i] == a[i] else ab[i] == b[i - |a|];
    }
    if D.AsksApproval(ab, ctx) {
      var i :| 0 <= i < |ab| && Evaluate(ab[i], ctx) == Escalate;
      assert if i < |a| then ab[i] == a[i] else ab[i] == b[i - |a|];
    }
  }

  lemma OneOnly(c: Caveat, ctx: Context)
    requires ValidContext(ctx)
    ensures D.SomeDenies([c], ctx) <==> Evaluate(c, ctx).Deny?
    ensures D.AsksApproval([c], ctx) <==> Evaluate(c, ctx) == Escalate
  {
    hide Evaluate;
    assert [c][0] == c;
  }

  lemma SidesDeny(c: Caveat, ctx: Context)
    requires ValidContext(ctx) && Valid(c)
    ensures D.SomeDenies(Sides(c), ctx) <==> Evaluate(Truncated(c), ctx).Deny?
    ensures !D.AsksApproval(Sides(c), ctx)
  {
    if c.TimeWindow? {
      var lower, upper := TimeWindow(Floored(c.notBefore), None), TimeWindow(None, Floored(c.notAfter));
      OneOnly(lower, ctx);
      OneOnly(upper, ctx);
      SomeDeniesAppend(if c.notBefore.Some? then [lower] else [], if c.notAfter.Some? then [upper] else [], ctx);
    } else {
      OneOnly(c, ctx);
    }
  }

  lemma {:induction false} AllSidesDeny(cs: seq<Caveat>, ctx: Context)
    requires ValidContext(ctx) && T.Compilable(cs)
    ensures D.SomeDenies(AllSides(cs), ctx) <==> exists i :: 0 <= i < |cs| && Evaluate(Truncated(cs[i]), ctx).Deny?
    ensures !D.AsksApproval(AllSides(cs), ctx)
    decreases |cs|
  {
    hide Evaluate, Truncated, Sides, Compile, Valid;
    if cs != [] {
      var n := |cs| - 1;
      AllSidesDeny(cs[..n], ctx);
      SidesDeny(cs[n], ctx);
      SomeDeniesAppend(AllSides(cs[..n]), Sides(cs[n]), ctx);
      if exists i :: 0 <= i < |cs| && Evaluate(Truncated(cs[i]), ctx).Deny? {
        var i :| 0 <= i < |cs| && Evaluate(Truncated(cs[i]), ctx).Deny?;
        assert i < n ==> cs[..n][i] == cs[i];
      }
    }
  }

  lemma {:induction false} ScopesAsk(cs: seq<Caveat>, ctx: Context)
    requires ValidContext(ctx)
    ensures ctx.operation in AllScopes(cs) <==> D.AsksApproval(cs, ctx)
    decreases |cs|
  {
    if cs != [] {
      var n := |cs| - 1;
      ScopesAsk(cs[..n], ctx);
      OneOnly(cs[n], ctx);
      SomeDeniesAppend(cs[..n], [cs[n]], ctx);
      assert cs == cs[..n] + [cs[n]];
    }
  }

  /**
   The read-back list denies a request exactly when one of the truncated caveats does, and
   asks for approval exactly when one of the originals does.
   */
  lemma ReadVerdict(cs: seq<Caveat>, ctx: Context)
    requires ValidContext(ctx) && T.Compilable(cs)
    ensures D.SomeDenies(ReadCaveats(cs), ctx) <==> exists i :: 0 <= i < |cs| && Evaluate(Truncated(cs[i]), ctx).Deny?
    ensures D.AsksApproval(ReadCaveats(cs), ctx) <==> D.AsksApproval(cs, ctx)
  {
    hide Truncated, Sides, Compile, Valid;
    AllSidesDeny(cs, ctx);
    ScopesAsk(cs, ctx);
    var approval := RequiresApproval(AllScopes(cs));
    OneOnly(approval, ctx);
    SomeDeniesAppend(AllSides(cs), if AllScopes(cs) == {} then [] else [approval], ctx);
  }

  /** With whole-second windows, reading a block back changes no verdict on any request. */
  lemma ReadBackKeepsVerdict(agent: string, role: string, depth: int, cs: seq<Caveat>, ctx: Context)
    requires T.Compilable(cs) && AllWritable(cs) && Bare(agent) && Bare(role)
    requires WithinLimits(T.MintedBlock(agent, role, depth, cs)) && ValidContext(ctx)
    requires forall i :: 0 <= i < |cs| ==> WholeSeconds(cs[i])
    ensures
      var block := BlockRead(Source(T.MintedBlock(agent, role, depth, cs)));
      && block.Some? && block.value.unrecognized == []
      && (D.SomeDenies(block.value.caveats, ctx) <==> D.SomeDenies(cs, ctx))
      && (D.AsksApproval(block.value.caveats, ctx) <==> D.AsksApproval(cs, ctx))
  {
    hide Compile, Valid, Evaluate, BlockRead, Writable, WithinLimits, Source, T.MintedBlock, Truncated, WholeSeconds;
    MintedBlockReadsBack(agent, role, depth, cs);
    ReadVerdict(cs, ctx);
    forall i | 0 <= i < |cs|
      ensures Truncated(cs[i]) == cs[i]
    {
      WholeIsTruncated(cs[i]);
    }
  }

  // ------------------------------------------------------------------------------------
  // The same decision
  // ------------------------------------------------------------------------------------

  lemma {:induction false} FirstReasonAppend(a: seq<Caveat>, b: seq<Caveat>, ctx: Context)
    requires ValidContext(ctx)
    ensures D.FirstReason(a + b, ctx) == if D.FirstReason(a, ctx).Some? then D.FirstReason(a, ctx) else D.FirstReason(b, ctx)
    decreases |a|
  {
    hide Evaluate;
    if a == [] {
      assert a + b == b;
    } else {
      assert (a + b)[1..] == a[1..] + b && (a + b)[0] == a[0];
      FirstReasonAppend(a[1..], b, ctx);
    }
  }

  lemma OneReason(c: Caveat, ctx: Context)
    requires ValidContext(ctx)
    ensures D.FirstReason([c], ctx) == if Evaluate(c, ctx).Deny? then Some(Evaluate(c, ctx).reason) else None
  {
    hide Evaluate;
    assert [c][1..] == [];
  }

  /** A window and its sides refuse for the same reason, the lower bound first. */
  lemma SidesReason(c: Caveat, ctx: Context)
    requires ValidContext(ctx) && Valid(c) && WholeSeconds(c)
    ensures D.FirstReason(Sides(c), ctx) == D.FirstReason([c], ctx)
  {
    OneReason(c, ctx);
    if c.TimeWindow? {
      WholeIsTruncated(c);
      var lower, upper := TimeWindow(Floored(c.notBefore), None), TimeWindow(None, Floored(c.notAfter));
      OneReason(lower, ctx);
      OneReason(upper, ctx);
      FirstReasonAppend(if c.notBefore.Some? then [lower] else [], if c.notAfter.Some? then [upper] else [], ctx);
    }
  }

  lemma {:induction false} AllSidesReason(cs: seq<Caveat>, ctx: Context)
    requires ValidContext(ctx) && T.Compilable(cs) && forall i :: 0 <= i < |cs| ==> WholeSeconds(cs[i])
    ensures D.FirstReason(AllSides(cs), ctx) == D.FirstReason(cs, ctx)
    decreases |cs|
  {
    hide Evaluate, Sides, Compile, Valid, WholeSeconds, D.FirstReason;
    if cs != [] {
      var init, last := cs[..|cs| - 1], cs[|cs| - 1];
      AllSidesReason(init, ctx);
      SidesReason(last, ctx);
      FirstReasonAppend(AllSides(init), Sides(last), ctx);
      FirstReasonAppend(init, [last], ctx);
      assert cs == init + [last];
    }
  }

  lemma ReadReason(cs: seq<Caveat>, ctx: Context)
    requires ValidContext(ctx) && T.Compilable(cs) && forall i :: 0 <= i < |cs| ==> WholeSeconds(cs[i])
    ensures D.FirstReason(ReadCaveats(cs), ctx) == D.FirstReason(cs, ctx)
  {
    hide Compile, Valid, WholeSeconds, AllSides, D.FirstReason;
    AllSidesReason(cs, ctx);
    var approval := RequiresApproval(AllScopes(cs));
    OneReason(approval, ctx);
    if AllScopes(cs) == {} {
      assert AllSides(cs) + [] == AllSides(cs);
    } else {
      FirstReasonAppend(AllSides(cs), [approval], ctx);
    }
  }

  /** One delegation: who the block was minted for, and with which caveats. */
  datatype Child = Child(agent: string, role: string, depth: int, caveats: seq<Caveat>)

  /** Its block can be written within the reader's limits, its windows in whole seconds. */
  ghost predicate Legible(c: Child) {
    && T.Compilable(c.caveats) && AllWritable(c.caveats) && Bare(c.agent) && Bare(c.role)
    && WithinLimits(T.MintedBlock(c.agent, c.role, c.depth, c.caveats))
    && forall i :: 0 <= i < |c.caveats| ==> WholeSeconds(c.caveats[i])
  }

  /** The caveats shown for one block: rendered, and read. */
  ghost function ShownFor(c: Child): (r: seq<Caveat>)
    requires Legible(c)
  {
    var block := BlockRead(Source(T.MintedBlock(c.agent, c.role, c.depth, c.caveats)));
    if block.Some? then block.value.caveats else []
  }

  /** And for a chain, block after block. */
  ghost function ReadChain(children: seq<Child>): (r: seq<Caveat>)
    requires forall i :: 0 <= i < |children| ==> Legible(children[i])
    decreases |children|
  {
    if children == [] then [] else ReadChain(children[..|children| - 1]) + ShownFor(children[|children| - 1])
  }

  ghost function Originals(children: seq<Child>): (r: seq<Caveat>)
    decreases |children|
  {
    if children == [] then []
    else Originals(children[..|children| - 1]) + children[|children| - 1].caveats
  }

  lemma OneChildReads(c: Child, ctx: Context)
    requires Legible(c) && ValidContext(ctx)
    ensures D.FirstReason(ShownFor(c), ctx) == D.FirstReason(c.caveats, ctx)
    ensures D.AsksApproval(ShownFor(c), ctx) <==> D.AsksApproval(c.caveats, ctx)
  {
    hide Compile, Valid, Writable, WholeSeconds, WithinLimits, D.FirstReason, BlockRead, D.AsksApproval, ReadCaveats;
    MintedBlockReadsBack(c.agent, c.role, c.depth, c.caveats);
    ReadReason(c.caveats, ctx);
    ReadVerdict(c.caveats, ctx);
  }

  lemma {:induction false} ChainReads(children: seq<Child>, ctx: Context)
    requires (forall i :: 0 <= i < |children| ==> Legible(children[i])) && ValidContext(ctx)
    ensures D.FirstReason(ReadChain(children), ctx) == D.FirstReason(Originals(children), ctx)
    ensures D.AsksApproval(ReadChain(children), ctx) <==> D.AsksApproval(Originals(children), ctx)
    decreases |children|
  {
    hide Legible, ShownFor, D.FirstReason, D.AsksApproval, D.SomeDenies;
    if children != [] {
      var init, last := children[..|children| - 1], children[|children| - 1];
      ChainReads(init, ctx);
      OneChildReads(last, ctx);
      FirstReasonAppend(ReadChain(init), ShownFor(last), ctx);
      FirstReasonAppend(Originals(init), last.caveats, ctx);
      SomeDeniesAppend(ReadChain(init), ShownFor(last), ctx);
      SomeDeniesAppend(Originals(init), last.caveats, ctx);
    }
  }

  /**
   Deciding from the caveats read back off a chain of minted blocks is deciding from those it
   was minted with: same outcome, same code, whatever the oracles answer.
   */
  lemma ReadBackDecides(t: T.Token, children: seq<Child>, ctx: Context, o: D.Oracles)
    requires (forall i :: 0 <= i < |children| ==> Legible(children[i])) && ValidContext(ctx)
    ensures D.Decided(t, ctx, ReadChain(children), o).outcome == D.Decided(t, ctx, Originals(children), o).outcome
    ensures D.Decided(t, ctx, ReadChain(children), o).code == D.Decided(t, ctx, Originals(children), o).code
  {
    hide Legible, D.FirstReason, ReadChain, Originals, D.Decided;
    ChainReads(children, ctx);
    D.SameReasonSameDecision(t, ctx, ReadChain(children), Originals(children), o);
  }
}
