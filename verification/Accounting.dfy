/**
 Nothing in a block is dropped silently: every statement the reader looks at has exactly one
 fate, and what is read of a block is what the fates of its statements say.
 */
module Accounting {
  import opened Digits
  import Stamps
  import opened Strings
  import opened Wrappers

  import opened BlockReader
  import opened Caveats
  import opened Clauses
  import opened Datalog
  import opened Dimensions
  import P = Patterns
  import opened ReadBack
  import opened Refusals
  import opened Rendering
  import opened RoundTrip
  import opened Splitter

  // ------------------------------------------------------------------------------------
  // Terms
  // ------------------------------------------------------------------------------------

  /** `s` is the literal of `v`, which holds no quote. */
  predicate LiteralOf(s: string, v: string) { s == Quote(v) && QUOTE !in v }

  lemma QuotedIff(s: string, v: string)
    ensures Quoted(s) == Some(v) <==> LiteralOf(s, v)
  {
  }

  /** The parts between commas, trimmed, are the literals of `members` in order, from part `i` on. */
  ghost predicate Lists(parts: seq<string>, members: seq<string>, i: nat) {
    |members| == |parts| && forall j :: i <= j < |parts| ==> LiteralOf(Strip(parts[j]), members[j])
  }

  /** The text between the brackets of a set literal with exactly these members. */
  ghost predicate SetOf(text: string, members: set<string>) {
    if Strip(text) == "" then members == {}
    else exists list :: Lists(Split(Strip(text), ','), list, 0) && members == set v | v in list
  }

  lemma {:induction false} PartsRead(parts: seq<string>, list: seq<string>, i: nat)
    requires i <= |parts| && Lists(parts, list, i)
    ensures PartsFrom(parts, i) == Some(set v | v in list[i..])
    decreases |parts| - i
  {
    hide Quoted, Strip, LiteralOf;
    if i < |parts| {
      QuotedIff(Strip(parts[i]), list[i]);
      PartsRead(parts, list, i + 1);
      var rest := list[i + 1..];
      assert list[i..] == [list[i]] + rest;
      assert (set v | v in list[i..]) == {list[i]} + (set v | v in rest);
    } else {
      assert (set v | v in list[i..]) == {};
    }
  }

  lemma {:induction false} PartsAreListed(parts: seq<string>, i: nat) returns (list: seq<string>)
    requires i <= |parts| && PartsFrom(parts, i).Some?
    ensures Lists(parts, list, i)
    decreases |parts| - i
  {
    if i == |parts| {
      list := parts;
    } else {
      var more := PartsAreListed(parts, i + 1);
      QuotedIff(Strip(parts[i]), Quoted(Strip(parts[i])).value);
      list := more[i := Quoted(Strip(parts[i])).value];
    }
  }

  /** A set is read exactly where every part is a literal, and holds what the literals hold. */
  lemma SetReadIff(text: string, members: set<string>)
    ensures MembersOf(text) == Some(members) <==> SetOf(text, members)
  {
    hide Split, Strip, Quoted, LiteralOf;
    var parts := Split(Strip(text), ',');
    if Strip(text) != "" {
      if MembersOf(text) == Some(members) {
        var list := PartsAreListed(parts, 0);
        PartsRead(parts, list, 0);
        assert list[0..] == list;
      }
      if SetOf(text, members) {
        var list :| Lists(parts, list, 0) && members == set v | v in list;
        PartsRead(parts, list, 0);
        assert list[0..] == list;
      }
    }
  }

  lemma MomentReadIff(text: string)
    requires Stamps.IsDateText(text)
    ensures Moment(text).None? <==> forall f :: Stamps.Real(f) ==> Stamps.Text(f) != text
  {
    hide Stamps.Text, Stamps.Real;
    if f :| Stamps.Real(f) && Stamps.Text(f) == text {
      Stamps.TextRoundTrip(f);
    }
    if Moment(text).Some? {
      Stamps.ParsedIsText(text);
    }
  }

  // ------------------------------------------------------------------------------------
  // Clauses
  // ------------------------------------------------------------------------------------

  /** The text is the shape with these runs filled in. */
  ghost predicate Spells(k: Kind, caps: seq<string>, s: string) {
    Captured(k, caps) && P.Render(Grammar(k), caps, 0, "") == s
  }

  /**
   A term the shape lets through is none after all: a set with a part that is no literal, no
   such dimension, no such second, an ordering against text, a negative depth.
   */
  ghost predicate NoTerm(k: Kind, caps: seq<string>)
    requires Captured(k, caps)
  {
    CapturedTerms(k, caps);
    match k
    case ScopeSubsetRe => forall m :: !SetOf(caps[1], m)
    case ToolAllowRe => forall m :: !SetOf(caps[1], m)
    case ToolDenyRe => forall m :: !SetOf(caps[1], m)
    case ArgInRe => forall m :: !SetOf(caps[2], m)
    case ArgNotInRe => forall m :: !SetOf(caps[2], m)
    case BudgetCeilingRe => caps[0] !in {"spend_bdt", "tool_calls", "rows_read", "external_emails", "wall_clock_s"}
    case TimeLowerRe => forall f :: Stamps.Real(f) ==> Stamps.Text(f) != caps[1]
    case TimeUpperRe => forall f :: Stamps.Real(f) ==> Stamps.Text(f) != caps[1]
    case ArgStringRe => caps[2] != "==" && caps[2] != "!="
    case DepthLimitRe => IntOf(caps[1]) < 0
    case _ => false
  }

  lemma NoSetIff(text: string)
    ensures MembersOf(text).None? <==> forall m :: !SetOf(text, m)
  {
    hide MembersOf, SetOf;
    forall m: set<string>
      ensures MembersOf(text) == Some(m) <==> SetOf(text, m)
    {
      SetReadIff(text, m);
    }
    if MembersOf(text).Some? {
      assert SetOf(text, MembersOf(text).value);
    }
  }

  lemma BuildRefusesIff(k: Kind, caps: seq<string>)
    requires Captured(k, caps)
    ensures Build(k, caps).Refused? <==> NoTerm(k, caps)
  {
    hide Captured, Grammar, P.Fits, P.Runs, MembersOf, SetOf, Moment, Stamps.Real, Stamps.Text, Constructible, IsIntText;
    CapturedTerms(k, caps);
    match k
    case ScopeSubsetRe => NoSetIff(caps[1]);
    case ToolAllowRe => NoSetIff(caps[1]);
    case ToolDenyRe => NoSetIff(caps[1]);
    case ArgInRe => NoSetIff(caps[2]);
    case ArgNotInRe => NoSetIff(caps[2]);
    case TimeLowerRe => MomentReadIff(caps[1]);
    case TimeUpperRe => MomentReadIff(caps[1]);
    case _ =>
  }

  /** The caveat compiles to the clause the text spells. */
  ghost predicate CompilesTo(c: Caveat, k: Kind, caps: seq<string>)
    requires Captured(k, caps)
  {
    && Valid(c) && WholeSeconds(c) && Spelled(k, caps).Some?
    && Compile(c) == Some([Does(Spelled(k, caps).value)])
  }

  /** Of valid caveats, one at most compiles to any clause. */
  lemma CompileInjective(c: Caveat, d: Caveat, clause: Clause)
    requires Valid(c) && WholeSeconds(c) && Compile(c) == Some([Does(clause)])
    requires Valid(d) && WholeSeconds(d) && Compile(d) == Some([Does(clause)])
    ensures c == d
  {
    assert [Does(clause)][0] == Does(clause);
    assert !c.RequiresApproval? && !d.RequiresApproval?;
    if c.BudgetCeiling? {
      NamesDiffer(c.dim, d.dim);
    }
  }

  // ------------------------------------------------------------------------------------
  // Facts
  // ------------------------------------------------------------------------------------

  /** `name(terms)`, the name in small letters, digits and underscores, no digit first. */
  ghost predicate FactForm(s: string, name: string, terms: string) {
    && name != "" && !IsDigit(name[0]) && (forall i :: 0 <= i < |name| ==> IsNameChar(name[i]))
    && s == name + "(" + terms + ")"
  }

  lemma {:induction false} NameChars(s: string)
    ensures forall i :: 0 <= i < NameLength(s) ==> IsNameChar(s[i])
    decreases |s|
  {
    if s != "" && IsNameChar(s[0]) {
      NameChars(s[1..]);
      forall i | 0 <= i < NameLength(s)
        ensures IsNameChar(s[i])
      {
        assert i > 0 ==> s[i] == s[1..][i - 1];
      }
    }
  }

  lemma FactPartsIff(s: string, name: string, terms: string)
    ensures FactParts(s) == Some((name, terms)) <==> FactForm(s, name, terms)
  {
    hide NameLength, IsNameChar;
    if FactForm(s, name, terms) {
      FactSplits(name, terms);
    }
    if FactParts(s) == Some((name, terms)) {
      var n := NameLength(s);
      NameChars(s);
      assert s == s[..n] + [s[n]] + s[n + 1..|s| - 1] + [s[|s| - 1]];
    }
  }

  /** What one statement comes to; `Grants` is what the authority block says of its grant. */
  datatype Fate =
    | Shows(caveat: Caveat) | Grants | Approves(scope: string)
    | NamesAgent(who: string) | NamesRole(role: string) | Declares(depth: string)
    | Unknown(verbatim: string)

  /** A fact whose name and terms are known says this. */
  ghost predicate Tells(name: string, terms: string, f: Fate) {
    match f
    case Grants =>
      name in {"budget", "expires_at", "intent", "issued_at", "mandate", "max_depth", "not_before",
               "principal", "scope", "task"}
    case Approves(v) => name == "requires_approval" && LiteralOf(Strip(terms), v)
    case NamesAgent(v) => name == "agent" && LiteralOf(Strip(terms), v)
    case NamesRole(v) => name == "role" && LiteralOf(Strip(terms), v)
    case Declares(text) => name == "declared_depth" && text == Strip(terms)
    case _ => false
  }

  ghost predicate TellingFact(s: string, name: string, terms: string, f: Fate) {
    FactForm(s, name, terms) && Tells(name, terms, f)
  }

  ghost predicate FactFate(s: string, f: Fate) {
    if f.Unknown? then
      f.verbatim == s && forall name, terms, g :: !TellingFact(s, name, terms, g)
    else exists name, terms :: TellingFact(s, name, terms, f)
  }

  // ------------------------------------------------------------------------------------
  // Fates
  // ------------------------------------------------------------------------------------

  ghost predicate ShowsBy(s: string, c: Caveat, k: Kind, caps: seq<string>) {
    Spells(k, caps, s) && !TermRefused(k, caps) && CompilesTo(c, k, caps)
  }

  /**
   A clause shows the caveat that compiles to it, repeats the grant's own check, or is unknown:
   no shape renders to it but with a term that is none.
   */
  ghost predicate ClauseFate(s: string, f: Fate) {
    match f
    case Shows(c) => exists k, caps :: ShowsBy(s, c, k, caps)
    case Grants => exists caps :: Spells(GrantScopeRe, caps, s) || Spells(GrantIntentRe, caps, s)
    case Unknown(text) => text == s && forall k, caps :: Spells(k, caps, s) ==> NoTerm(k, caps)
    case _ => false
  }

  /** An over-long statement is unknown, cut; the others are clauses or facts. */
  ghost predicate HasFate(s: string, f: Fate) {
    if |s| > 4096 then f == Unknown(s[..4096])
    else if "check if " <= s || "reject if " <= s then ClauseFate(s, f)
    else FactFate(s, f)
  }

  // -- the reader agrees -------------------------------------------------------------------

  /** What the reader makes of one statement; None where it raises. */
  ghost function FateRead(s: string): (r: Option<Fate>) {
    if |s| > MAX_STATEMENT_LENGTH then Some(Unknown(s[..MAX_STATEMENT_LENGTH]))
    else if IsClauseText(s) then
      match ClauseRead(s)
      case Refused => Some(Unknown(s))
      case Recognized => Some(Grants)
      case Is(c) => Some(Shows(c))
      case Raised => None
    else
      var fact := FactParts(s);
      if fact.None? then Some(Unknown(s)) else Some(Told(s, fact.value.0, fact.value.1))
  }

  ghost function Told(s: string, name: string, terms: string): (f: Fate) {
    var member := Quoted(Strip(terms));
    if name in AUTHORITY_FACTS then Grants
    else if name == "declared_depth" then Declares(Strip(terms))
    else if member.None? then Unknown(s)
    else if name == "requires_approval" then Approves(member.value)
    else if name == "agent" then NamesAgent(member.value)
    else if name == "role" then NamesRole(member.value)
    else Unknown(s)
  }

  /** The checks the authority block makes of its own grant. */
  predicate IsGrant(k: Kind) { k.GrantScopeRe? || k.GrantIntentRe? }

  lemma BuildKinds(k: Kind, caps: seq<string>)
    requires Captured(k, caps)
    ensures Build(k, caps).Recognized? <==> IsGrant(k)
    ensures IsGrant(k) ==> !NoTerm(k, caps) && !TermRefused(k, caps)
    ensures IsGrant(k) ==> Spelled(k, caps).Some? && Spelled(k, caps).value.body.Join?
  {
    hide Captured, Grammar, P.Fits, P.Runs, MembersOf, SetOf, Moment, Constructible, DimensionNamed, IsIntText, IntOf;
  }

  lemma CompilesToIff(c: Caveat, k: Kind, caps: seq<string>)
    requires Captured(k, caps) && !TermRefused(k, caps)
    ensures CompilesTo(c, k, caps) <==> Build(k, caps) == Is(c)
  {
    hide Captured, Grammar, P.Fits, P.Runs, Build, TermRefused, Spelled, Compile, Valid, WholeSeconds;
    BuildRaisesIff(k, caps);
    BuildRefusesIff(k, caps);
    BuildKinds(k, caps);
    if Build(k, caps).Is? {
      ReadCompilesBack(k, caps);
      if CompilesTo(c, k, caps) {
        CompileInjective(c, Build(k, caps).caveat, Spelled(k, caps).value);
      }
    } else if CompilesTo(c, k, caps) {
      NothingCompiles(c, k, caps);
    }
  }

  /** No valid caveat compiles to the grant's checks, or to a clause with a term that is none. */
  lemma NothingCompiles(c: Caveat, k: Kind, caps: seq<string>)
    requires Captured(k, caps) && CompilesTo(c, k, caps)
    ensures !IsGrant(k) && !NoTerm(k, caps)
  {
    hide Captured, Grammar, P.Fits, P.Runs, MembersOf, SetOf, Moment, Stamps.Real, Stamps.Text;
    hide IsIntText, IntOf, FourPlaces, Scale;
    CapturedTerms(k, caps);
    var clause := Spelled(k, caps).value;
    assert [Does(clause)][0] == Does(clause);
    assert !c.RequiresApproval?;
    match k
    case ScopeSubsetRe => NoSetIff(caps[1]);
    case ToolAllowRe => NoSetIff(caps[1]);
    case ToolDenyRe => NoSetIff(caps[1]);
    case ArgInRe => NoSetIff(caps[2]);
    case ArgNotInRe => NoSetIff(caps[2]);
    case TimeLowerRe => MomentReadIff(caps[1]);
    case TimeUpperRe => MomentReadIff(caps[1]);
    case _ =>
  }

  /** A text one shape renders has that shape's fate. */
  lemma SpelledFate(k: Kind, caps: seq<string>, s: string)
    requires Spells(k, caps, s)
    ensures ClauseRead(s) == Build(k, caps)
    ensures forall l, more :: Spells(l, more, s) ==> l == k && more == caps
  {
    hide Build, Captured, Grammar, ClauseRead;
    ShapeIsRead(k, caps);
    forall l, more | Spells(l, more, s)
      ensures l == k && more == caps
    {
      OneFilling(k, caps, l, more, s);
    }
  }

  lemma OneFilling(k: Kind, caps: seq<string>, l: Kind, more: seq<string>, s: string)
    requires Spells(k, caps, s) && Spells(l, more, s)
    ensures l == k && more == caps
  {
    hide Grammar;
    GrammarDelimited(k);
    GrammarDelimited(l);
    P.MatchRender(Grammar(k), caps, 0, "");
    P.MatchRender(Grammar(l), more, 0, "");
    assert caps[0..] == caps && more[0..] == more;
    if l != k {
      OneShapeAtMost(k, l, s);
    }
  }

  lemma ClauseFateIff(s: string, f: Fate)
    ensures ClauseFate(s, f) <==>
      match ClauseRead(s)
      case Refused => f == Unknown(s)
      case Recognized => f == Grants
      case Is(c) => f == Shows(c)
      case Raised => false
  {
    hide Build, Captured, Grammar, TermRefused, NoTerm, CompilesTo, ClauseRead, P.Render;
    if k, caps :| Spells(k, caps, s) {
      SpelledFate(k, caps, s);
      BuildRaisesIff(k, caps);
      BuildRefusesIff(k, caps);
      BuildKinds(k, caps);
      if f.Shows? && !TermRefused(k, caps) {
        CompilesToIff(f.caveat, k, caps);
      }
      assert f.Shows? ==> (ClauseFate(s, f) <==> ShowsBy(s, f.caveat, k, caps));
      assert f.Grants? ==> (ClauseFate(s, f) <==> IsGrant(k));
      assert f.Unknown? ==> (ClauseFate(s, f) <==> f.verbatim == s && NoTerm(k, caps));
    } else {
      NoShapeRefused(s);
    }
  }

  lemma NoShapeRefused(s: string)
    ensures (exists k, caps :: Spells(k, caps, s)) || ClauseRead(s).Refused?
  {
    hide Build, Captured, Grammar, P.Render;
    var shape := FirstShape(TABLE, Fitting(s), 0);
    if shape.Some? {
      RecognizedIsCaptured(shape.value.0, s);
      assert Spells(shape.value.0, shape.value.1, s);
    }
  }

  lemma ToldIff(s: string, name: string, terms: string, f: Fate)
    requires !f.Unknown?
    ensures Tells(name, terms, f) <==> Told(s, name, terms) == f
  {
    hide Quoted, LiteralOf, Strip;
    var member := Quoted(Strip(terms));
    forall v: string
      ensures LiteralOf(Strip(terms), v) <==> member == Some(v)
    {
      QuotedIff(Strip(terms), v);
    }
  }

  lemma FactFateIff(s: string, f: Fate)
    ensures FactFate(s, f) <==>
      var fact := FactParts(s);
      f == if fact.None? then Unknown(s) else Told(s, fact.value.0, fact.value.1)
  {
    hide FactParts, FactForm, Tells, Told;
    var fact := FactParts(s);
    forall name, terms
      ensures FactForm(s, name, terms) <==> fact == Some((name, terms))
    {
      FactPartsIff(s, name, terms);
    }
    if fact.Some? {
      var name, terms := fact.value.0, fact.value.1;
      forall g: Fate | !g.Unknown?
        ensures Tells(name, terms, g) <==> Told(s, name, terms) == g
      {
        ToldIff(s, name, terms, g);
      }
      ToldUnknown(s, name, terms);
      assert forall g :: TellingFact(s, name, terms, g) <==> Tells(name, terms, g);
    }
  }

  lemma ToldUnknown(s: string, name: string, terms: string)
    ensures Told(s, name, terms).Unknown? ==> Told(s, name, terms) == Unknown(s)
    ensures forall g :: Tells(name, terms, g) ==> !g.Unknown?
  {
  }

  /** A statement has the fate the reader gives it and no other; it has none exactly where reading raises. */
  lemma FateIff(s: string, f: Fate)
    ensures HasFate(s, f) <==> FateRead(s) == Some(f)
  {
    hide ClauseFate, FactFate, ClauseRead, FactParts, Told;
    ClauseFateIff(s, f);
    FactFateIff(s, f);
  }

  // ------------------------------------------------------------------------------------
  // The block
  // ------------------------------------------------------------------------------------

  /** One fate for each statement, in order. */
  ghost predicate Accounted(statements: seq<string>, fates: seq<Fate>) {
    |fates| == |statements| && forall i :: 0 <= i < |statements| ==> HasFate(statements[i], fates[i])
  }

  ghost function ShownBy(f: Fate): Option<Caveat> { if f.Shows? then Some(f.caveat) else None }

  ghost function UnknownIn(f: Fate): Option<string> { if f.Unknown? then Some(f.verbatim) else None }

  ghost function AgentIn(f: Fate): Option<string> { if f.NamesAgent? then Some(f.who) else None }

  ghost function RoleIn(f: Fate): Option<string> { if f.NamesRole? then Some(f.role) else None }

  ghost function DepthIn(f: Fate): Option<string> { if f.Declares? then Some(f.depth) else None }

  /** What is picked out of the fates, in order, repeats included. */
  ghost function Picked<T>(fates: seq<Fate>, pick: Fate -> Option<T>): (r: seq<T>) {
    if fates == [] then []
    else
      var last := pick(fates[|fates| - 1]);
      Picked(fates[..|fates| - 1], pick) + (if last.Some? then [last.value] else [])
  }

  ghost function Approvals(fates: seq<Fate>): (r: set<string>) { set f | f in fates && f.Approves? :: f.scope }

  /** The block these fates add up to: approvals, if any, are one caveat after the others. */
  ghost function Sum(fates: seq<Fate>): (b: ParsedBlock) {
    ParsedBlock(
      Picked(fates, ShownBy) + (if Approvals(fates) == {} then [] else [RequiresApproval(Approvals(fates))]),
      Picked(fates, UnknownIn), Picked(fates, AgentIn), Picked(fates, RoleIn), Picked(fates, DepthIn))
  }

  /** The loop's progress after statements with these fates. */
  ghost function Gathered(fates: seq<Fate>): (st: Progress) {
    Progress(Picked(fates, ShownBy), Picked(fates, UnknownIn), Approvals(fates),
             Picked(fates, AgentIn), Picked(fates, RoleIn), Picked(fates, DepthIn), false)
  }

  ghost function After(st: Progress, f: Fate): (r: Progress) {
    match f
    case Shows(c) => st.(caveats := st.caveats + [c])
    case Grants => st
    case Approves(v) => st.(approvals := st.approvals + {v})
    case NamesAgent(v) => st.(agents := st.agents + [v])
    case NamesRole(v) => st.(roles := st.roles + [v])
    case Declares(text) => st.(depths := st.depths + [text])
    case Unknown(text) => st.(unrecognized := st.unrecognized + [text])
  }

  lemma StatementStep(st: Progress, s: string)
    requires !st.raised
    ensures StatementRead(st, s) == match FateRead(s) case None => st.(raised := true) case Some(f) => After(st, f)
  {
    hide ClauseRead, FactParts, Quoted, Strip;
  }

  lemma GatheredStep(init: seq<Fate>, f: Fate)
    ensures Gathered(init + [f]) == After(Gathered(init), f)
  {
  }

  lemma NothingGathered()
    ensures Gathered([]) == EMPTY
  {
  }

  lemma {:induction false} ReadingGathers(statements: seq<string>, fates: seq<Fate>)
    requires Accounted(statements, fates)
    ensures ReadAll(EMPTY, statements) == Gathered(fates)
    ensures !ReadAll(EMPTY, statements).raised
    decreases |statements|
  {
    hide StatementRead, HasFate, FateRead, Picked, Approvals, After;
    if statements == [] {
      NothingGathered();
    } else {
      var n := |statements| - 1;
      ReadingGathers(statements[..n], fates[..n]);
      assert fates == fates[..n] + [fates[n]];
      GatheredStep(fates[..n], fates[n]);
      FateIff(statements[n], fates[n]);
      StatementStep(ReadAll(EMPTY, statements[..n]), statements[n]);
    }
  }

  /** One statement has no fate only where it trips the reader. */
  lemma FateOrTrips(s: string)
    ensures (exists f :: HasFate(s, f)) <==> !Trips(s)
  {
    hide HasFate, FateRead, Trips;
    StatementStep(EMPTY, s);
    StatementRaisesIff(EMPTY, s);
    NotRaised(s);
    if FateRead(s).Some? {
      FateIff(s, FateRead(s).value);
    }
    if f :| HasFate(s, f) {
      FateIff(s, f);
    }
  }

  lemma NotRaised(s: string)
    ensures FateRead(s).Some? ==> !After(EMPTY, FateRead(s).value).raised
  {
    hide FateRead;
  }

  lemma {:induction false} FatesExist(statements: seq<string>) returns (fates: seq<Fate>)
    requires forall i :: 0 <= i < |statements| ==> !Trips(statements[i])
    ensures Accounted(statements, fates)
    decreases |statements|
  {
    hide HasFate, Trips;
    if statements == [] {
      fates := [];
    } else {
      var n := |statements| - 1;
      var init := FatesExist(statements[..n]);
      FateOrTrips(statements[n]);
      var last :| HasFate(statements[n], last);
      fates := init + [last];
      forall i | 0 <= i < |statements|
        ensures HasFate(statements[i], fates[i])
      {
        assert i < n ==> HasFate(statements[..n][i], init[i]);
      }
    }
  }

  /** Fates are unique. */
  lemma OneFate(s: string, f: Fate, g: Fate)
    requires HasFate(s, f) && HasFate(s, g)
    ensures f == g
  {
    hide HasFate, FateRead;
    FateIff(s, f);
    FateIff(s, g);
  }

  /**
   Reading a block does not raise exactly when each of its statements within the cap has a fate,
   and what is read is then what the fates add up to: every caveat, claim and unknown statement
   in order, and nothing else.
   */
  lemma BlockAccounts(source: string)
    ensures BlockRead(source).Some? <==> exists fates :: Accounted(Statements(source, 512), fates)
    ensures forall fates :: Accounted(Statements(source, 512), fates) ==> BlockRead(source) == Some(Sum(fates))
  {
    hide ReadAll, Accounted, Statements, Trips, Picked, Approvals;
    var statements := Statements(source, 512);
    BlockRaisesIff(source);
    if BlockRead(source).Some? {
      var fates := FatesExist(statements);
    }
    forall fates | Accounted(statements, fates)
      ensures BlockRead(source) == Some(Sum(fates))
    {
      ReadingGathers(statements, fates);
    }
  }

  /** The unknown statements are reported, and what is reported is unknown. */
  lemma {:induction false} PickedMember<T(!new)>(fates: seq<Fate>, pick: Fate -> Option<T>, x: T)
    ensures x in Picked(fates, pick) <==> exists f :: f in fates && pick(f) == Some(x)
    decreases |fates|
  {
    if fates != [] {
      var n := |fates| - 1;
      PickedMember(fates[..n], pick, x);
      assert fates == fates[..n] + [fates[n]];
    }
  }

  /** A statement read as unknown is in the report; whatever is in the report is such a statement. */
  lemma ReportedIff(source: string, text: string)
    requires BlockRead(source).Some?
    ensures text in BlockRead(source).value.unrecognized <==>
      exists s :: s in Statements(source, 512) && HasFate(s, Unknown(text))
  {
    hide Statements, HasFate, BlockRead;
    BlockAccounts(source);
    var fates :| Accounted(Statements(source, 512), fates);
    PickedMember(fates, UnknownIn, text);
    if f :| f in fates && UnknownIn(f) == Some(text) {
      var i :| 0 <= i < |fates| && fates[i] == f;
      assert HasFate(Statements(source, 512)[i], Unknown(text));
    }
    if s :| s in Statements(source, 512) && HasFate(s, Unknown(text)) {
      var i :| 0 <= i < |fates| && Statements(source, 512)[i] == s;
      OneFate(s, fates[i], Unknown(text));
      assert UnknownIn(fates[i]) == Some(text);
    }
  }
}
