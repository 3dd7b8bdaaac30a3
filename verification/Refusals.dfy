/**
 Blocks the reader raises on. A statement whose shape is recognized is handed to the caveat
 models, and what they refuse is not caught: exactly which texts that is.
 */
module Refusals {
  import opened Digits
  import opened Wrappers

  import opened BlockReader
  import opened Caveats
  import opened Clauses
  import opened Dimensions
  import P = Patterns
  import opened ReadBack
  import opened Rendering
  import opened RoundTrip
  import opened Splitter

  /**
   A scope that is none, a negative ceiling, a depth past the limit, an intent that is no hash,
   an argument without a path.
   */
  ghost predicate TermRefused(k: Kind, caps: seq<string>)
    requires Captured(k, caps)
  {
    CapturedTerms(k, caps);
    match k
    case ScopeSubsetRe => MembersOf(caps[1]).Some? && exists s :: s in MembersOf(caps[1]).value && !IsScope(s)
    case BudgetCeilingRe => DimensionNamed(caps[0]).Some? && IntOf(caps[2]) < 0
    case DepthLimitRe => IntOf(caps[1]) > 8
    case IntentBoundRe => !IsHex64(caps[1])
    case ArgInRe => caps[0] == "" && MembersOf(caps[2]).Some?
    case ArgNotInRe => caps[0] == "" && MembersOf(caps[2]).Some?
    case ArgNumberRe => caps[0] == ""
    case ArgStringRe => caps[0] == "" && (caps[2] == "==" || caps[2] == "!=")
    case _ => false
  }

  lemma CeilingRefused(d: Dimension, n: int)
    ensures Constructible(BudgetCeiling(d, Unscaled(n))) <==> 0 <= n
  {
  }

  lemma BuildRaisesIff(k: Kind, caps: seq<string>)
    requires Captured(k, caps)
    ensures Build(k, caps).Raised? <==> TermRefused(k, caps)
  {
    hide Captured, Grammar, P.Fits, P.Runs, MembersOf, Moment, IsScope, IsHex64, DimensionNamed, IsIntText;
    CapturedTerms(k, caps);
    match k
    case BudgetCeilingRe =>
      if DimensionNamed(caps[0]).Some? {
        CeilingRefused(DimensionNamed(caps[0]).value, IntOf(caps[2]));
      }
    case _ =>
  }

  /** The text is the shape filled in, with a refused term. */
  ghost predicate SpellsRefused(k: Kind, caps: seq<string>, statement: string) {
    Captured(k, caps) && TermRefused(k, caps) && P.Render(Grammar(k), caps, 0, "") == statement
  }

  /** A statement of at most the length limit, recognized, with a refused term. */
  ghost predicate Trips(statement: string) {
    && |statement| <= MAX_STATEMENT_LENGTH && IsClauseText(statement)
    && exists k, caps :: SpellsRefused(k, caps, statement)
  }

  lemma SpelledRaises(k: Kind, caps: seq<string>, statement: string)
    requires SpellsRefused(k, caps, statement)
    ensures ClauseRead(statement).Raised?
  {
    hide Build, TermRefused;
    ShapeIsRead(k, caps);
    BuildRaisesIff(k, caps);
  }

  lemma ClauseRaisesIff(statement: string)
    ensures ClauseRead(statement).Raised? <==> exists k, caps :: SpellsRefused(k, caps, statement)
  {
    hide Build, Grammar, Captured, TermRefused;
    if ClauseRead(statement).Raised? {
      var shape := FirstShape(TABLE, Fitting(statement), 0).value;
      RecognizedIsCaptured(shape.0, statement);
      BuildRaisesIff(shape.0, shape.1);
      assert SpellsRefused(shape.0, shape.1, statement);
    }
    if k, caps :| SpellsRefused(k, caps, statement) {
      SpelledRaises(k, caps, statement);
    }
  }

  lemma StatementRaisesIff(st: Progress, statement: string)
    requires !st.raised
    ensures StatementRead(st, statement).raised <==> Trips(statement)
  {
    hide ClauseRead, FactRead;
    ClauseRaisesIff(statement);
  }

  lemma {:induction false} ReadingRaisesIff(st: Progress, statements: seq<string>)
    requires !st.raised
    ensures ReadAll(st, statements).raised <==> exists i :: 0 <= i < |statements| && Trips(statements[i])
    decreases |statements|
  {
    hide StatementRead, Trips;
    if statements != [] {
      var init, last := statements[..|statements| - 1], statements[|statements| - 1];
      ReadingRaisesIff(st, init);
      assert forall i :: 0 <= i < |init| ==> init[i] == statements[i];
      if ReadAll(st, init).raised {
        RaisedOnceRaised(ReadAll(st, init), last);
      } else {
        StatementRaisesIff(ReadAll(st, init), last);
      }
    }
  }

  lemma RaisedOnceRaised(st: Progress, statement: string)
    requires st.raised
    ensures StatementRead(st, statement).raised
  {
  }

  /**
   Reading a block raises if and only if, among the statements within the cap, one of at most
   the length limit begins as a clause, has one of the shapes, and has a term there that the
   caveat model of that shape refuses.
   */
  lemma BlockRaisesIff(source: string)
    ensures BlockRead(source).None? <==>
      var statements := Statements(source, MAX_STATEMENTS_PER_BLOCK);
      exists i :: 0 <= i < |statements| && Trips(statements[i])
  {
    hide ReadAll, Trips, Statements;
    ReadingRaisesIff(EMPTY, Statements(source, MAX_STATEMENTS_PER_BLOCK));
  }

  // ------------------------------------------------------------------------------------
  // One such block
  // ------------------------------------------------------------------------------------

  /** A scope set whose one member is no scope. */
  const UNSCOPED: string := "check if operation($op), [\"x\"].contains($op)"

  /** The member as the reader captures it. */
  const MEMBER: string := "\"x\""

  lemma UnscopedText()
    ensures "check if operation($" + ("op" + ("), [" + (MEMBER + ("].contains($" + ("op" + ")"))))) == UNSCOPED
  {
  }

  lemma UnscopedIsShape()
    ensures
      var caps := ["op", MEMBER];
      Captured(ScopeSubsetRe, caps) && P.Render(Grammar(ScopeSubsetRe), caps, 0, "") == UNSCOPED
  {
    hide P.Render, Grammar, Captured;
    assert P.Shaped(P.Ident, "op") && P.Shaped(P.Inner, MEMBER);
    SetShape(ScopeSubsetRe, ["op", MEMBER]);
    UnscopedText();
  }

  lemma NotAScope()
    ensures MembersOf(MEMBER) == Some({"x"}) && !IsScope("x")
  {
    SetReads(["x"]);
    assert SetText(["x"]) == MEMBER;
    assert Elements(["x"], 0) == {"x"};
    assert Anchored("x") == "x";
  }

  lemma UnscopedTrips()
    ensures Trips(UNSCOPED)
  {
    hide P.Render, Grammar, Captured, MembersOf, IsScope;
    var caps := ["op", MEMBER];
    UnscopedIsShape();
    NotAScope();
    assert "x" in {"x"};
    assert SpellsRefused(ScopeSubsetRe, caps, UNSCOPED);
    UnscopedBegins();
  }

  lemma UnscopedPieces()
    ensures "check if operation($op), [" + (MEMBER + "].contains($op)") == UNSCOPED
  {
  }

  lemma UnscopedBegins()
    ensures IsClauseText(UNSCOPED)
  {
    hide UNSCOPED;
    var front, back := "check if operation($op), [", MEMBER + "].contains($op)";
    UnscopedPieces();
    assert "check if " + "operation($op), [" == front;
    assert "check if " <= front + back;
  }

  lemma UnscopedTrimmed()
    ensures Trimmed(UNSCOPED)
  {
    assert UNSCOPED[0] == 'c' && UNSCOPED[|UNSCOPED| - 1] == ')';
  }

  lemma UnscopedCloses()
    ensures Closed(UNSCOPED, false)
  {
    hide Closed, Quote;
    ClosedPlain("check if operation($op), [");
    ClosedPlain("].contains($op)");
    ClosedQuote("x");
    MemberIsQuoted();
    ClosedPair(MEMBER, "].contains($op)");
    ClosedPair("check if operation($op), [", MEMBER + "].contains($op)");
    UnscopedPieces();
  }

  lemma MemberIsQuoted()
    ensures Quote("x") == MEMBER
  {
  }

  /** A single statement, rendered, splits into itself. */
  lemma OneSplits(statement: string)
    requires Closed(statement, false) && Trimmed(statement)
    ensures Statements(statement + ";\n", MAX_STATEMENTS_PER_BLOCK) == [statement]
  {
    hide Closed, Statements, Trimmed;
    assert [statement][..0] == [];
    assert Rendered([statement]) == "" + statement + ";\n" == statement + ";\n";
    RenderedSplits([statement], MAX_STATEMENTS_PER_BLOCK);
  }

  /** Reading it raises, where an unknown statement would be reported. */
  lemma UnscopedBlockRaises()
    ensures BlockRead(UNSCOPED + ";\n").None?
  {
    hide BlockRead, Trips, Statements, Closed, Trimmed, UNSCOPED;
    UnscopedCloses();
    UnscopedTrimmed();
    OneSplits(UNSCOPED);
    UnscopedTrips();
    assert [UNSCOPED][0] == UNSCOPED;
    BlockRaisesIff(UNSCOPED + ";\n");
  }
}
