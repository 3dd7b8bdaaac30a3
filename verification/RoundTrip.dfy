/**
 Compile, render, split, read: a block compiled from caveats comes back with nothing
 unrecognized and the same verdict on every request.
 */
module RoundTrip {
  import opened Digits
  import O = Ordering
  import Stamps
  import opened Strings
  import opened Wrappers

  import opened BlockReader
  import opened Caveats
  import opened Clauses
  import opened Datalog
  import opened Dimensions
  import P = Patterns
  import opened ReadBack
  import opened Rendering
  import opened Splitter

  // ------------------------------------------------------------------------------------
  // One caveat
  // ------------------------------------------------------------------------------------

  predicate Bare(s: string) { QUOTE !in s }

  /** The strings a renderer that escapes nothing writes unambiguously, and four-digit years. */
  ghost predicate Plain(c: Caveat) {
    match c
    case ToolAllow(tools) => SafeSet(tools)
    case ToolDeny(tools) => SafeSet(tools)
    case ArgPredicate(path, _, value) =>
      && Bare(path)
      && (value.Many? ==> SafeSet(value.members))
      && (value.One? && value.scalar.Text? ==> Bare(value.scalar.t))
    case TimeWindow(nb, na) =>
      (nb.Some? ==> Stamps.IsSecond(nb.value / SECOND)) && (na.Some? ==> Stamps.IsSecond(na.value / SECOND))
    case RequiresApproval(scopes) => forall s :: s in scopes ==> Bare(s)
    case _ => true
  }

  ghost predicate Writable(c: Caveat) { Valid(c) && Constructible(c) && Plain(c) && Compile(c).Some? }

  function Floored(bound: Option<int>): (r: Option<int>) {
    if bound.Some? then Some(bound.value / SECOND * SECOND) else None
  }

  /** What a caveat is read back as: a window one side at a time and in whole seconds, an approval elsewhere. */
  function Sides(c: Caveat): (r: seq<Caveat>) {
    match c
    case TimeWindow(nb, na) =>
      (if nb.Some? then [TimeWindow(Floored(nb), None)] else []) + (if na.Some? then [TimeWindow(None, Floored(na))] else [])
    case RequiresApproval(_) => []
    case _ => [c]
  }

  lemma AnchoredLacks(s: string, c: char)
    requires c !in Anchored(s) && c != '\n'
    ensures c !in s
  {
    assert s == Anchored(s) || s == Anchored(s) + ['\n'];
  }

  lemma WordLacks(s: string)
    requires IsWord(s)
    ensures SetSafe(s)
  {
  }

  lemma JoinedLacks(left: string, right: string, c: char)
    requires c !in left && c !in right && c != ':'
    ensures c !in left + [':'] + right
  {
  }

  lemma ScopesAreSafe(s: string)
    requires IsScope(s)
    ensures SetSafe(s)
  {
    hide IsWord, Anchored;
    var body := Anchored(s);
    var k :| 0 <= k < |body| && body[k] == ':' && IsWord(body[..k]) && IsWord(body[k + 1..]);
    var left, right := body[..k], body[k + 1..];
    WordLacks(left);
    WordLacks(right);
    assert body == left + [':'] + right;
    JoinedLacks(left, right, QUOTE);
    JoinedLacks(left, right, ',');
    JoinedLacks(left, right, ']');
    AnchoredLacks(s, QUOTE);
    AnchoredLacks(s, ',');
    AnchoredLacks(s, ']');
  }

  lemma HexIsBare(s: string)
    requires IsHex64(s)
    ensures Bare(s)
  {
    assert forall i :: 0 <= i < 64 ==> Anchored(s)[i] != QUOTE;
    AnchoredLacks(s, QUOTE);
  }

  lemma NameIsBare(d: Dimension)
    ensures Bare(Name(d)) && DimensionNamed(Name(d)) == Some(d)
  {
  }

  ghost predicate ReadsAs(s: Statement, c: Caveat) {
    s.Does? && StatementWritable(s) && ClauseRead(StatementText(s)) == Is(c)
  }

  lemma SetBuilds(k: Kind, v: string, members: set<string>)
    requires k.ScopeSubsetRe? || k.ToolAllowRe? || k.ToolDenyRe?
    requires Captured(k, [v, SetText(O.Listing(members))]) && SafeSet(members)
    ensures Build(k, [v, SetText(O.Listing(members))])
         == Made(if k.ScopeSubsetRe? then ScopeSubset(members) else if k.ToolAllowRe? then ToolAllow(members) else ToolDeny(members))
  {
    hide Captured, Grammar, O.Listing, SetText, MembersOf;
    ListingReads(members);
  }

  lemma SetCaveatReads(c: Caveat)
    requires Writable(c) && (c.ScopeSubset? || c.ToolAllow? || c.ToolDeny?)
    ensures ReadsAs(Compile(c).value[0], c)
  {
    hide ClauseRead, ClauseText, Build, Captured, Grammar, Head, O.Listing, SetText, Named, IsScope;
    match c
    case ScopeSubset(scopes) =>
      forall s | s in scopes
        ensures SetSafe(s)
      {
        ScopesAreSafe(s);
      }
      ScopeHead();
      SetClauseReads(ScopeSubsetRe, "check if ", Operation, scopes);
      SetBuilds(ScopeSubsetRe, Variable(Operation), scopes);
    case ToolAllow(tools) =>
      ToolHeads();
      SetClauseReads(ToolAllowRe, "check if ", Tool, tools);
      SetBuilds(ToolAllowRe, Variable(Tool), tools);
    case ToolDeny(tools) =>
      ToolHeads();
      SetClauseReads(ToolDenyRe, "reject if ", Tool, tools);
      SetBuilds(ToolDenyRe, Variable(Tool), tools);
  }

  lemma CeilingReads(d: Dimension, v: real)
    requires Writable(BudgetCeiling(d, v))
    ensures ReadsAs(Compile(BudgetCeiling(d, v)).value[0], BudgetCeiling(d, v))
  {
    hide ClauseRead, ClauseText, Captured, Grammar, Named, Name;
    NameIsBare(d);
    var n := Scale(v).value;
    BudgetReads(Name(d), n);
    NumberReads(n);
    assert Unscaled(n) == v;
  }

  lemma DepthCaveatReads(n: int)
    requires Writable(DepthLimit(n))
    ensures ReadsAs(Compile(DepthLimit(n)).value[0], DepthLimit(n))
  {
    hide ClauseRead, ClauseText, Captured, Grammar;
    DepthReads(n);
    NumberReads(n);
  }

  lemma IntentCaveatReads(h: string)
    requires Writable(IntentBound(h))
    ensures ReadsAs(Compile(IntentBound(h)).value[0], IntentBound(h))
  {
    hide ClauseRead, ClauseText, Captured, Grammar;
    HexIsBare(h);
    IntentReads(h);
  }

  lemma ArgSetReads(c: Caveat)
    requires Writable(c) && c.ArgPredicate? && c.value.Many?
    ensures ReadsAs(Compile(c).value[0], c)
  {
    hide ClauseRead, ClauseText, Captured, Grammar, O.Listing, SetText, MembersOf;
    KeyedSetClauseReads(if c.op == In then ArgInRe else ArgNotInRe, c.path, c.value.members);
    ListingReads(c.value.members);
  }

  lemma ArgScalarReads(c: Caveat)
    requires Writable(c) && c.ArgPredicate? && c.value.One?
    ensures ReadsAs(Compile(c).value[0], c)
  {
    hide ClauseRead, ClauseText, Captured, Grammar, RelText, Relation;
    var rel := Negated(c.op);
    RelationReads(rel);
    assert Denegated(rel) == c.op;
    if c.value.scalar.Num? {
      var n := Scale(c.value.scalar.n).value;
      ArgNumberReads(c.path, rel, n);
      NumberReads(n);
      assert Unscaled(n) == c.value.scalar.n;
    } else {
      ArgStringReads(c.path, rel, c.value.scalar.t);
    }
  }

  lemma SideReads(lower: bool, seconds: int)
    requires Stamps.IsSecond(seconds)
    ensures ReadsAs(Check(Time, None, Cmp(if lower then GeR else LtR, Date(seconds))),
                    if lower then TimeWindow(Some(seconds * SECOND), None) else TimeWindow(None, Some(seconds * SECOND)))
  {
    hide ClauseRead, ClauseText, Captured, Grammar, Stamps.IsSecond, Stamps.Text, Moment;
    TimeReads(lower, seconds);
    DateReads(seconds);
  }

  ghost predicate ReadsAsEach(statements: seq<Statement>, cs: seq<Caveat>) {
    |statements| == |cs| && forall i :: 0 <= i < |cs| ==> ReadsAs(statements[i], cs[i])
  }

  /** Every clause of a compiled caveat is read back as that caveat, or as its side of the window. */
  lemma CaveatReads(c: Caveat)
    requires Writable(c) && !c.RequiresApproval?
    ensures ReadsAsEach(Compile(c).value, Sides(c))
  {
    hide ReadsAs, Constructible, Stamps.IsSecond;
    match c
    case TimeWindow(nb, na) =>
      if nb.Some? {
        SideReads(true, nb.value / SECOND);
      }
      if na.Some? {
        SideReads(false, na.value / SECOND);
      }
    case ArgPredicate(_, _, value) =>
      if value.Many? {
        ArgSetReads(c);
      } else {
        ArgScalarReads(c);
      }
    case ScopeSubset(_) => SetCaveatReads(c);
    case ToolAllow(_) => SetCaveatReads(c);
    case ToolDeny(_) => SetCaveatReads(c);
    case BudgetCeiling(d, v) => CeilingReads(d, v);
    case DepthLimit(n) => DepthCaveatReads(n);
    case IntentBound(h) => IntentCaveatReads(h);
  }

  // ------------------------------------------------------------------------------------
  // Facts
  // ------------------------------------------------------------------------------------

  lemma {:induction false} NameStops(name: string, rest: string)
    requires forall i :: 0 <= i < |name| ==> IsNameChar(name[i])
    requires rest != "" && !IsNameChar(rest[0])
    ensures NameLength(name + rest) == |name|
    decreases |name|
  {
    if name == "" {
      assert name + rest == rest;
    } else {
      assert (name + rest)[1..] == name[1..] + rest && (name + rest)[0] == name[0];
      NameStops(name[1..], rest);
    }
  }

  lemma FactSplits(name: string, terms: string)
    requires name != "" && !IsDigit(name[0]) && forall i :: 0 <= i < |name| ==> IsNameChar(name[i])
    ensures FactParts(name + "(" + terms + ")") == Some((name, terms))
  {
    var s := name + "(" + terms + ")";
    assert s == name + ("(" + terms + ")");
    NameStops(name, "(" + terms + ")");
    assert s[|name| + 1..|s| - 1] == terms;
  }

  predicate SpokenFact(f: Fact) {
    && f.key.None?
    && ((f.name.Agent? || f.name.Role? || f.name.ApprovalScope?) ==> f.term.Str? && Bare(f.term.s))
    && (f.name.DeclaredDepth? ==> f.term.Int?)
    && (f.name.Agent? || f.name.Role? || f.name.ApprovalScope? || f.name.DeclaredDepth?)
  }

  lemma FactNames(f: Fact)
    requires SpokenFact(f)
    ensures
      var name := Named(f.name);
      && name != "" && !IsDigit(name[0]) && (forall i :: 0 <= i < |name| ==> IsNameChar(name[i]))
      && name !in AUTHORITY_FACTS
      && |name| > 3 && (name[0] != 'c' && (name[0] != 'r' || name[1] != 'e' || name[2] != 'j'))
  {
    var name := Named(f.name);
    assert name[0] in {'a', 'r', 'd'} && |name| in {4, 5, 14, 17};
    assert name !in AUTHORITY_FACTS;
  }

  lemma IntTrimmed(i: int)
    ensures Trimmed(IntText(i)) && Strip(IntText(i)) == IntText(i)
  {
    NumberReads(i);
    var s := IntText(i);
    assert forall j :: 0 <= j < |s| ==> P.InClass(P.Number, s[j]);
    StripLead(' ', s);
  }

  /** What one fact adds to what was read. */
  function Noted(st: Progress, f: Fact): (r: Progress)
    requires SpokenFact(f)
  {
    match f.name
    case Agent => st.(agents := st.agents + [f.term.s])
    case Role => st.(roles := st.roles + [f.term.s])
    case ApprovalScope => st.(approvals := st.approvals + {f.term.s})
    case _ => st.(depths := st.depths + [IntText(f.term.i)])
  }

  lemma NotClauseText(name: string, rest: string)
    requires |name| > 3 && name[0] != 'c' && (name[0] != 'r' || name[1] != 'e' || name[2] != 'j')
    ensures !IsClauseText(name + rest)
  {
    var text := name + rest;
    assert text[0] == name[0] && text[1] == name[1] && text[2] == name[2];
  }

  lemma FactTextParts(f: Fact)
    requires SpokenFact(f)
    ensures
      var text := StatementText(Says(f));
      FactParts(text) == Some((Named(f.name), TermText(f.term))) && !IsClauseText(text)
  {
    hide FactParts, TermText, IsClauseText, Named;
    var name, terms := Named(f.name), TermText(f.term);
    FactNames(f);
    FactSplits(name, terms);
    NotClauseText(name, "(" + terms + ")");
    Assoc(name, "(", terms + ")");
    Assoc("(", terms, ")");
    Assoc(name + "(", terms, ")");
  }

  lemma FactReads(st: Progress, f: Fact)
    requires SpokenFact(f) && !st.raised && |StatementText(Says(f))| <= MAX_STATEMENT_LENGTH
    ensures StatementRead(st, StatementText(Says(f))) == Noted(st, f)
  {
    hide ClauseRead, Strip, Quoted, IntText, FactParts, StatementText, IsClauseText;
    var terms := TermText(f.term);
    FactNames(f);
    FactTextParts(f);
    if f.name.DeclaredDepth? {
      IntTrimmed(f.term.i);
    } else {
      QuoteReads(f.term.s);
      StripLead(' ', terms);
    }
  }

  // ------------------------------------------------------------------------------------
  // Every rendered statement stays whole
  // ------------------------------------------------------------------------------------

  lemma {:induction false} ClosedAppend(a: string, q: bool, b: string)
    requires Closed(a, q) && Closed(b, false)
    ensures Closed(a + b, q)
    decreases |a|
  {
    if a == "" {
      assert a + b == b;
    } else {
      assert (a + b)[1..] == a[1..] + b && (a + b)[0] == a[0];
      ClosedAppend(a[1..], if a[0] == QUOTE then !q else q, b);
    }
  }

  lemma {:induction false} ClosedPlain(a: string)
    requires QUOTE !in a && ';' !in a
    ensures Closed(a, false)
  {
    if a != "" {
      ClosedPlain(a[1..]);
    }
  }

  lemma {:induction false} ClosedWithin(a: string)
    requires QUOTE !in a
    ensures Closed(a + [QUOTE], true)
    decreases |a|
  {
    if a == "" {
      assert (a + [QUOTE])[1..] == "";
    } else {
      assert (a + [QUOTE])[1..] == a[1..] + [QUOTE];
      ClosedWithin(a[1..]);
    }
  }

  lemma ClosedQuote(a: string)
    requires Bare(a)
    ensures Closed(Quote(a), false)
  {
    ClosedWithin(a);
    assert Quote(a)[1..] == a + [QUOTE];
  }

  lemma {:induction false} ClosedSet(list: seq<string>)
    requires forall i :: 0 <= i < |list| ==> Bare(list[i])
    ensures Closed(SetText(list), false)
  {
    if list != [] {
      ClosedQuote(list[0]);
      if |list| > 1 {
        ClosedSet(list[1..]);
        ClosedPlain(", ");
        ClosedAppend(Quote(list[0]), false, ", ");
        ClosedAppend(Quote(list[0]) + ", ", false, SetText(list[1..]));
      }
    }
  }

  ghost predicate BareTerm(t: Term) { DateWritable(t) && (t.Str? ==> Bare(t.s)) }

  lemma IntTextShape(i: int)
    ensures Closed(IntText(i), false) && Trimmed(IntText(i))
  {
    hide Closed;
    NumberReads(i);
    IntTrimmed(i);
    assert forall j :: 0 <= j < |IntText(i)| ==> P.InClass(P.Number, IntText(i)[j]);
    ClosedPlain(IntText(i));
  }

  lemma DateTextShape(s: string)
    requires P.Shaped(P.DateC, s)
    ensures Closed(s, false) && Trimmed(s)
  {
    hide Closed;
    assert forall j :: 0 <= j < |s| ==> P.InClass(P.DateC, s[j]);
    ClosedPlain(s);
  }

  lemma TermTextShape(t: Term)
    requires BareTerm(t)
    ensures Closed(TermText(t), false) && Trimmed(TermText(t))
  {
    hide Closed, Trimmed, IntText, Stamps.Text, Stamps.IsSecond, Moment, P.Shaped;
    match t
    case Int(i) => IntTextShape(i);
    case Str(s) =>
      ClosedQuote(s);
      QuoteReads(s);
    case Date(seconds) =>
      DateReads(seconds);
      DateTextShape(TermText(t));
  }

  ghost predicate BareTest(test: Test) {
    match test
    case InSet(members) => forall m :: m in members ==> Bare(m)
    case NotInSet(members) => forall m :: m in members ==> Bare(m)
    case Cmp(_, term) => BareTerm(term)
  }

  lemma ClosedPair(a: string, b: string)
    requires Closed(a, false) && Closed(b, false)
    ensures Closed(a + b, false)
  {
    ClosedAppend(a, false, b);
  }

  lemma SetTestShape(open: string, members: set<string>, v: string)
    requires (open == "[" || open == "![") && (forall m :: m in members ==> Bare(m)) && QUOTE !in v && ';' !in v
    ensures
      var text := open + (SetText(O.Listing(members)) + ("].contains($" + (v + ")")));
      Closed(text, false) && text != "" && text[|text| - 1] == ')'
  {
    hide Closed, SetText, O.Listing;
    var list := O.Listing(members);
    assert forall i :: 0 <= i < |list| ==> list[i] in list;
    ClosedSet(list);
    var tail := "].contains($" + (v + ")");
    ClosedPlain(tail);
    ClosedPlain(open);
    ClosedPair(SetText(list), tail);
    ClosedPair(open, SetText(list) + tail);
  }

  lemma CmpText(rel: Rel, term: string, v: string)
    ensures "$" + (v + (" " + (RelText(rel) + (" " + term)))) == ("$" + (v + (" " + (RelText(rel) + " ")))) + term
  {
  }

  lemma TrimmedEnds(text: string)
    requires Trimmed(text)
    ensures text != "" && !IsSpace(text[|text| - 1])
  {
  }

  lemma TestTextShape(test: Test, v: string)
    requires BareTest(test) && QUOTE !in v && ';' !in v
    ensures
      var text := TestText(test, v);
      Closed(text, false) && text != "" && !IsSpace(text[|text| - 1])
  {
    hide Closed, SetText, O.Listing, TermText, Trimmed;
    match test
    case InSet(members) => SetTestShape("[", members, v);
    case NotInSet(members) => SetTestShape("![", members, v);
    case Cmp(rel, term) =>
      TermTextShape(term);
      var front := "$" + (v + (" " + (RelText(rel) + " ")));
      ClosedPlain(front);
      ClosedPair(front, TermText(term));
      CmpText(rel, TermText(term), v);
      TrimmedEnds(TermText(term));
  }

  /** The names and variables the compiler writes. */
  predicate Ours(p: Predicate) { !p.Foreign? }

  lemma NamesClosed(p: Predicate)
    requires Ours(p)
    ensures Closed(Named(p), false) && QUOTE !in Variable(p) && ';' !in Variable(p)
  {
    hide Closed;
    assert QUOTE !in Named(p) && ';' !in Named(p);
    ClosedPlain(Named(p));
  }

  lemma NamesTrimmed(p: Predicate)
    requires Ours(p)
    ensures Named(p) != "" && !IsSpace(Named(p)[0])
  {
  }

  ghost predicate BareStatement(s: Statement) {
    match s
    case Does(clause) =>
      && clause.body.Match? && Ours(clause.body.name) && BareTest(clause.body.test)
      && (clause.body.key.Some? ==> Bare(clause.body.key.value))
    case Says(fact) => fact.key.None? && Ours(fact.name) && BareTerm(fact.term)
  }

  lemma FrontShape(check: bool, name: Predicate, key: Option<string>)
    requires Ours(name) && (key.Some? ==> Bare(key.value))
    ensures
      var front := Front(if check then "check if " else "reject if ", name, key);
      Closed(front, false) && front != "" && !IsSpace(front[0])
  {
    hide Closed, Named;
    var verb := if check then "check if " else "reject if ";
    NamesClosed(name);
    var variable := "$" + (Variable(name) + "), ");
    ClosedPlain(variable);
    ClosedPlain(verb);
    ClosedPlain("(");
    ClosedPair(verb, Named(name));
    if key.Some? {
      ClosedQuote(key.value);
      ClosedPlain(", ");
      ClosedPair(", ", variable);
      ClosedPair(Quote(key.value), ", " + variable);
      ClosedPair("(", Quote(key.value) + (", " + variable));
    } else {
      ClosedPair("(", variable);
    }
    ClosedPair(verb + Named(name), if key.Some? then "(" + (Quote(key.value) + (", " + variable)) else "(" + variable);
  }

  /** No rendered statement is cut inside, or loses anything to trimming. */
  lemma StatementShape(s: Statement)
    requires BareStatement(s)
    ensures StatementWritable(s) && Closed(StatementText(s), false) && Trimmed(StatementText(s))
  {
    hide Closed, Named, TestText, TermText, Front;
    match s
    case Does(clause) =>
      var body := clause.body;
      NamesClosed(body.name);
      TestTextShape(body.test, Variable(body.name));
      FrontShape(clause.CheckIf?, body.name, body.key);
      ClosedPair(Front(if clause.CheckIf? then "check if " else "reject if ", body.name, body.key),
                 TestText(body.test, Variable(body.name)));
    case Says(fact) =>
      NamesClosed(fact.name);
      NamesTrimmed(fact.name);
      TermTextShape(fact.term);
      ClosedPlain("(");
      ClosedPlain(")");
      ClosedPair(Named(fact.name), "(");
      ClosedPair(Named(fact.name) + "(", TermText(fact.term));
      ClosedPair(Named(fact.name) + "(" + TermText(fact.term), ")");
  }

  // ------------------------------------------------------------------------------------
  // The block
  // ------------------------------------------------------------------------------------

  /** The renderer groups facts ahead of checks, each in order. */
  ghost function FactsOf(block: seq<Statement>): (r: seq<Statement>) {
    if block == [] then []
    else FactsOf(block[..|block| - 1]) + (if block[|block| - 1].Says? then [block[|block| - 1]] else [])
  }

  ghost function ClausesOf(block: seq<Statement>): (r: seq<Statement>) {
    if block == [] then []
    else ClausesOf(block[..|block| - 1]) + (if block[|block| - 1].Does? then [block[|block| - 1]] else [])
  }

  ghost predicate BareBlock(block: seq<Statement>) { forall i :: 0 <= i < |block| ==> BareStatement(block[i]) }

  ghost function TextOf(s: Statement): (r: string) { if StatementWritable(s) then StatementText(s) else "" }

  ghost function Texts(block: seq<Statement>): (r: seq<string>)
    ensures |r| == |block| && forall i :: 0 <= i < |r| ==> r[i] == TextOf(block[i])
  {
    seq(|block|, i requires 0 <= i < |block| => TextOf(block[i]))
  }

  lemma TextsWellFormed(block: seq<Statement>)
    requires BareBlock(block)
    ensures WellFormed(Texts(block))
  {
    hide Closed, Trimmed, StatementText;
    forall i | 0 <= i < |block|
      ensures Closed(Texts(block)[i], false) && Trimmed(Texts(block)[i])
    {
      StatementShape(block[i]);
    }
  }

  ghost predicate Short(block: seq<Statement>)
    requires BareBlock(block)
  {
    forall i :: 0 <= i < |block| ==> |Texts(block)[i]| <= MAX_STATEMENT_LENGTH
  }

  /** What the block renders to. */
  ghost function Source(block: seq<Statement>): (r: string)
    requires BareBlock(FactsOf(block) + ClausesOf(block))
  {
    Rendered(Texts(FactsOf(block) + ClausesOf(block)))
  }

  lemma {:induction false} FilterAppend(a: seq<Statement>, b: seq<Statement>)
    ensures FactsOf(a + b) == FactsOf(a) + FactsOf(b)
    ensures ClausesOf(a + b) == ClausesOf(a) + ClausesOf(b)
    decreases |b|
  {
    if b == [] {
      assert a + b == a;
    } else {
      var init := b[..|b| - 1];
      assert (a + b)[..|a + b| - 1] == a + init && (a + b)[|a + b| - 1] == b[|b| - 1];
      FilterAppend(a, init);
    }
  }

  lemma {:induction false} AllOfOneSort(block: seq<Statement>, facts: bool)
    requires forall i :: 0 <= i < |block| ==> block[i].Says? == facts
    ensures FactsOf(block) == (if facts then block else []) && ClausesOf(block) == (if facts then [] else block)
  {
    if block != [] {
      var init := block[..|block| - 1];
      AllOfOneSort(init, facts);
      assert block == init + [block[|block| - 1]];
    }
  }

  lemma TextsAppend(a: seq<Statement>, b: seq<Statement>)
    requires BareBlock(a) && BareBlock(b)
    ensures BareBlock(a + b) && Texts(a + b) == Texts(a) + Texts(b)
    ensures Short(a + b) <==> Short(a) && Short(b)
  {
    hide BareStatement, StatementText;
    var ab := a + b;
    assert forall i :: 0 <= i < |b| ==> ab[|a| + i] == b[i];
    assert Texts(ab) == Texts(a) + Texts(b);
    if Short(ab) {
      assert forall i :: 0 <= i < |a| ==> Texts(a)[i] == Texts(ab)[i];
      assert forall i :: 0 <= i < |b| ==> Texts(b)[i] == Texts(ab)[|a| + i];
    }
  }

  // -- clauses -----------------------------------------------------------------------------

  lemma BareIsWritable(s: Statement)
    requires BareStatement(s)
    ensures StatementWritable(s)
  {
  }

  lemma TextsLast(block: seq<Statement>)
    requires BareBlock(block) && block != []
    ensures
      var init, last := block[..|block| - 1], block[|block| - 1];
      && BareBlock(init) && StatementWritable(last) && Texts(block) == Texts(init) + [StatementText(last)]
      && (Short(block) ==> Short(init) && |StatementText(last)| <= MAX_STATEMENT_LENGTH)
  {
    hide BareStatement, StatementText, StatementWritable;
    var init := block[..|block| - 1];
    BareIsWritable(block[|block| - 1]);
    assert forall i :: 0 <= i < |init| ==> Texts(block)[i] == Texts(init)[i];
    assert Texts(block)[|block| - 1] == StatementText(block[|block| - 1]);
  }

  lemma {:induction false} ReadEach(st: Progress, block: seq<Statement>, cs: seq<Caveat>)
    requires BareBlock(block) && Short(block) && ReadsAsEach(block, cs) && !st.raised
    ensures ReadAll(st, Texts(block)) == st.(caveats := st.caveats + cs)
    decreases |block|
  {
    hide ReadsAs, ClauseRead, FactRead, StatementText, StatementRead, BareStatement, StatementWritable, Texts, Short;
    if block == [] {
      assert st.caveats + cs == st.caveats;
    } else {
      var n := |block| - 1;
      var init, last := block[..n], block[n];
      TextsLast(block);
      assert Texts(block)[..n] == Texts(init);
      ReadEach(st, init, cs[..n]);
      assert cs == cs[..n] + [cs[n]];
      assert ReadsAs(last, cs[n]);
      OneReads(ReadAll(st, Texts(init)), last, cs[n]);
    }
  }

  lemma OneReads(st: Progress, s: Statement, c: Caveat)
    requires !st.raised && StatementWritable(s) && ReadsAs(s, c) && |StatementText(s)| <= MAX_STATEMENT_LENGTH
    ensures StatementRead(st, StatementText(s)) == st.(caveats := st.caveats + [c])
  {
    hide ClauseRead, FactRead, TestText, Named;
    assert IsClauseText(StatementText(s)) by {
      var clause := s.clause;
      FrontBegins(clause.CheckIf?, clause.body.name, clause.body.key, TestText(clause.body.test, Variable(clause.body.name)));
    }
  }

  lemma FrontBegins(check: bool, name: Predicate, key: Option<string>, rest: string)
    ensures IsClauseText(Front(if check then "check if " else "reject if ", name, key) + rest)
  {
    hide Named, Variable;
    var verb := if check then "check if " else "reject if ";
    assert verb <= Front(verb, name, key);
  }
}
