/**
 What a recognized statement is taken to mean. A caveat read back compiles to exactly the
 clause the statement spells, so what is shown for a token is what its authorizer enforces.
 */
module ReadBack {
  import opened Digits
  import Stamps
  import opened Strings
  import opened Wrappers

  import opened Caveats
  import opened Clauses
  import opened Datalog
  import opened Dimensions
  import P = Patterns
  import opened Splitter

  // ------------------------------------------------------------------------------------
  // Terms
  // ------------------------------------------------------------------------------------

  /** The text of one string literal, or None if this is not exactly one. */
  function Quoted(s: string): (r: Option<string>) {
    if |s| >= 2 && s[0] == QUOTE && s[|s| - 1] == QUOTE && QUOTE !in s[1..|s| - 1] then Some(s[1..|s| - 1])
    else None
  }

  /** Every part must be a literal; one that is not spoils the set. */
  function PartsFrom(parts: seq<string>, i: nat): (r: Option<set<string>>)
    requires i <= |parts|
    decreases |parts| - i
  {
    if i == |parts| then Some({})
    else
      var member, more := Quoted(Strip(parts[i])), PartsFrom(parts, i + 1);
      if member.None? || more.None? then None else Some({member.value} + more.value)
  }

  /** The contents of a set literal; nothing at all is the empty set. */
  function MembersOf(rendered: string): (r: Option<set<string>>) {
    var inner := Strip(rendered);
    if inner == "" then Some({}) else PartsFrom(Split(inner, ','), 0)
  }

  method ReadMembers(rendered: string) returns (r: Option<set<string>>)
    ensures r == MembersOf(rendered)
  {
    var inner := Strip(rendered);
    if inner == "" {
      return Some({});
    }
    var parts := Split(inner, ',');
    var members: set<string> := {};
    assert PartsFrom(parts, 0).Some? ==> {} + PartsFrom(parts, 0).value == PartsFrom(parts, 0).value;
    for i := 0 to |parts|
      invariant PartsFrom(parts, 0) ==
        if PartsFrom(parts, i).None? then None else Some(members + PartsFrom(parts, i).value)
    {
      var member := Quoted(Strip(parts[i]));
      if member.None? {
        return None;
      }
      ghost var more := PartsFrom(parts, i + 1);
      if more.Some? {
        assert members + ({member.value} + more.value) == members + {member.value} + more.value;
      }
      members := members + {member.value};
    }
    r := Some(members);
  }

  function DimensionNamed(name: string): (r: Option<Dimension>)
    ensures r.Some? ==> Name(r.value) == name
    ensures r.None? ==> forall d: Dimension :: Name(d) != name
  {
    if name == Name(SpendBdt) then Some(SpendBdt)
    else if name == Name(ToolCalls) then Some(ToolCalls)
    else if name == Name(RowsRead) then Some(RowsRead)
    else if name == Name(ExternalEmails) then Some(ExternalEmails)
    else if name == Name(WallClockS) then Some(WallClockS)
    else None
  }

  /** The rank of a date literal; None where it is no calendar second. */
  function Moment(rendered: string): (r: Option<int>)
    requires Stamps.IsDateText(rendered)
  {
    var fields := Stamps.Parsed(rendered);
    if fields.Some? then Some(Stamps.Rank(fields.value)) else None
  }

  function Relation(op: string): (rel: Rel)
    requires P.IsOperator(op)
  {
    if op == "<=" then LeR else if op == "<" then LtR else if op == ">=" then GeR
    else if op == ">" then GtR else if op == "==" then EqR else NeR
  }

  /** The operator a rendered comparison was compiled from. */
  function Denegated(rel: Rel): (op: ArgOp)
    ensures !IsMembership(op) && Negated(op) == rel
  {
    match rel
    case GtR => Le
    case GeR => Lt
    case LtR => Ge
    case LeR => Gt
    case NeR => Eq
    case EqR => Ne
  }

  // ------------------------------------------------------------------------------------
  // Caveats
  // ------------------------------------------------------------------------------------

  /** `Raised` is the model's own refusal, which the reader does not catch. */
  datatype Reading = Is(caveat: Caveat) | Recognized | Refused | Raised

  predicate IsWord(s: string) {
    && s != "" && 'a' <= s[0] <= 'z'
    && forall i :: 0 <= i < |s| ==> 'a' <= s[i] <= 'z' || IsDigit(s[i]) || s[i] == '_'
  }

  /** A pattern's end anchor lets one trailing newline by. */
  function Anchored(s: string): string { if s != "" && s[|s| - 1] == '\n' then s[..|s| - 1] else s }

  /** `resource:verb` */
  predicate IsScope(s: string) {
    var body := Anchored(s);
    exists k :: 0 <= k < |body| && body[k] == ':' && IsWord(body[..k]) && IsWord(body[k + 1..])
  }

  predicate IsHex64(s: string) {
    var body := Anchored(s);
    |body| == 64 && forall i :: 0 <= i < 64 ==> IsDigit(body[i]) || 'a' <= body[i] <= 'f'
  }

  /** What the caveat models accept at construction, term by term. */
  predicate Constructible(c: Caveat) {
    match c
    case ScopeSubset(scopes) => forall s :: s in scopes ==> IsScope(s)
    case BudgetCeiling(_, v) => 0.0 <= v && FourPlaces(v)
    case TimeWindow(nb, na) => (nb.Some? || na.Some?) && (nb.Some? && na.Some? ==> nb.value < na.value)
    case ArgPredicate(path, op, value) => path != "" && (IsMembership(op) <==> value.Many?)
    case DepthLimit(n) => 0 <= n <= MAX_DELEGATION_DEPTH
    case IntentBound(h) => IsHex64(h)
    case _ => true
  }

  function Made(c: Caveat): (r: Reading) { if Constructible(c) then Is(c) else Raised }

  /** Undoes the scaling of quantities. */
  function Unscaled(n: int): (v: real)
    ensures v * 10000.0 == n as real && Scale(v) == Some(n)
  {
    var v := n as real / 10000.0;
    assert v * 10000.0 == n as real;
    v
  }

  predicate Captured(k: Kind, caps: seq<string>) {
    |caps| == P.Runs(Grammar(k)) && P.Fits(Grammar(k), caps, 0)
  }

  lemma FitsCompared(op: string, tail: P.Pattern, caps: seq<string>, i: nat)
    requires i + P.Runs(Compared(op, tail)) == |caps| && P.Fits(Compared(op, tail), caps, i)
    ensures i + 1 + P.Runs(tail) == |caps| && P.Fits(tail, caps, i + 1)
  {
    assert P.Runs(P.Use(P.Lit(op, tail))) == P.Runs(tail);
    assert P.Fits(P.Use(P.Lit(op, tail)), caps, i + 1) == P.Fits(tail, caps, i + 1);
  }

  lemma FitsKeyed(tail: P.Pattern, caps: seq<string>, i: nat)
    requires i + P.Runs(Keyed(tail)) == |caps| && P.Fits(Keyed(tail), caps, i)
    ensures i + 1 + P.Runs(tail) == |caps| && P.Fits(tail, caps, i + 1)
  {
  }

  lemma FitsOperated(tail: P.Pattern, caps: seq<string>, i: nat)
    requires i + P.Runs(Operated(tail)) == |caps| && P.Fits(Operated(tail), caps, i)
    ensures i + 2 + P.Runs(tail) == |caps| && P.IsOperator(caps[i + 1]) && P.Fits(tail, caps, i + 2)
  {
    FitsCompared(" ", P.Run(P.OpC, P.Lit(" ", tail)), caps, i);
  }

  lemma MembershipRuns(open: string)
    ensures P.Runs(Membership(open)) == 1
  {
  }

  lemma CapturedArg(k: Kind, caps: seq<string>)
    requires IsArg(k) && Captured(k, caps)
    ensures k.ArgInRe? || k.ArgNotInRe? ==> |caps| == 3
    ensures k.ArgNumberRe? ==> |caps| == 4 && P.IsOperator(caps[2]) && IsIntText(caps[3])
    ensures k.ArgStringRe? ==> |caps| == 4 && P.IsOperator(caps[2])
  {
    hide P.Shaped, Membership, Operated, TextEnd;
    CapturedTest(k, caps);
    if k.ArgNumberRe? {
      FitsOperated(NumberEnd(), caps, 1);
      LastRun(P.Number, caps, 3);
      IntShaped(caps[3]);
    } else if k.ArgStringRe? {
      FitsOperated(P.Lit("\"", TextEnd()), caps, 1);
      OpenTextRuns();
    } else {
      MembershipRuns("), [");
      MembershipRuns("), ![");
    }
  }

  lemma CapturedTest(k: Kind, caps: seq<string>)
    requires IsArg(k) && Captured(k, caps)
    ensures |caps| == 1 + P.Runs(ArgTail(k)) && P.Fits(ArgTail(k), caps, 1)
  {
    hide ArgTail, P.Shaped;
    FitsKeyed(ArgTail(k), caps, 0);
  }

  lemma LastRun(cls: P.Class, caps: seq<string>, i: nat)
    requires i + P.Runs(P.Run(cls, P.End)) == |caps| && P.Fits(P.Run(cls, P.End), caps, i)
    ensures |caps| == i + 1 && P.Shaped(cls, caps[i])
  {
  }

  lemma IntShaped(s: string)
    requires P.Shaped(P.Number, s)
    ensures IsIntText(s)
  {
  }

  lemma OpenTextRuns()
    ensures P.Runs(P.Lit("\"", TextEnd())) == 1
  {
  }

  lemma CapturedSet(k: Kind, caps: seq<string>)
    requires (k.ScopeSubsetRe? || k.ToolAllowRe? || k.ToolDenyRe?) && Captured(k, caps)
    ensures |caps| == 2
  {
    MembershipRuns("), [");
  }

  lemma CapturedNumber(k: Kind, caps: seq<string>)
    requires (k.BudgetCeilingRe? || k.DepthLimitRe?) && Captured(k, caps)
    ensures k.BudgetCeilingRe? ==> |caps| == 3 && IsIntText(caps[2])
    ensures k.DepthLimitRe? ==> |caps| == 2 && IsIntText(caps[1])
  {
    if k.BudgetCeilingRe? {
      FitsKeyed(Compared(" <= ", NumberEnd()), caps, 0);
      FitsCompared(" <= ", NumberEnd(), caps, 1);
    } else {
      FitsCompared(" <= ", NumberEnd(), caps, 0);
    }
  }

  lemma CapturedOther(k: Kind, caps: seq<string>)
    requires Captured(k, caps)
    ensures k.IntentBoundRe? ==> |caps| == 2
    ensures k.TimeLowerRe? || k.TimeUpperRe? ==> |caps| == 2 && Stamps.IsDateText(caps[1])
  {
    if k.TimeLowerRe? {
      FitsCompared(" >= ", P.Run(P.DateC, P.End), caps, 0);
    } else if k.TimeUpperRe? {
      FitsCompared(" < ", P.Run(P.DateC, P.End), caps, 0);
    } else if k.IntentBoundRe? {
      FitsCompared(" == \"", TextEnd(), caps, 0);
    }
  }

  /** What the runs of each shape have captured. */
  lemma CapturedTerms(k: Kind, caps: seq<string>)
    requires Captured(k, caps)
    ensures k.ScopeSubsetRe? || k.ToolAllowRe? || k.ToolDenyRe? ==> |caps| == 2
    ensures k.IntentBoundRe? ==> |caps| == 2
    ensures k.BudgetCeilingRe? ==> |caps| == 3 && IsIntText(caps[2])
    ensures k.TimeLowerRe? || k.TimeUpperRe? ==> |caps| == 2 && Stamps.IsDateText(caps[1])
    ensures k.ArgInRe? || k.ArgNotInRe? ==> |caps| == 3
    ensures k.ArgNumberRe? ==> |caps| == 4 && P.IsOperator(caps[2]) && IsIntText(caps[3])
    ensures k.ArgStringRe? ==> |caps| == 4 && P.IsOperator(caps[2])
    ensures k.DepthLimitRe? ==> |caps| == 2 && IsIntText(caps[1])
  {
    if IsArg(k) {
      CapturedArg(k, caps);
    } else if k.ScopeSubsetRe? || k.ToolAllowRe? || k.ToolDenyRe? {
      CapturedSet(k, caps);
    } else if k.BudgetCeilingRe? || k.DepthLimitRe? {
      CapturedNumber(k, caps);
    } else {
      CapturedOther(k, caps);
    }
  }

  function Build(k: Kind, caps: seq<string>): (r: Reading)
    requires Captured(k, caps)
  {
    CapturedTerms(k, caps);
    match k
    case GrantScopeRe => Recognized
    case GrantIntentRe => Recognized
    case ScopeSubsetRe =>
      var scopes := MembersOf(caps[1]);
      if scopes.None? then Refused else Made(ScopeSubset(scopes.value))
    case BudgetCeilingRe =>
      var d := DimensionNamed(caps[0]);
      if d.None? then Refused else Made(BudgetCeiling(d.value, Unscaled(IntOf(caps[2]))))
    case TimeLowerRe =>
      var moment := Moment(caps[1]);
      if moment.None? then Refused else Made(TimeWindow(Some(moment.value * SECOND), None))
    case TimeUpperRe =>
      var moment := Moment(caps[1]);
      if moment.None? then Refused else Made(TimeWindow(None, Some(moment.value * SECOND)))
    case ToolAllowRe =>
      var tools := MembersOf(caps[1]);
      if tools.None? then Refused else Made(ToolAllow(tools.value))
    case ToolDenyRe =>
      var tools := MembersOf(caps[1]);
      if tools.None? then Refused else Made(ToolDeny(tools.value))
    case ArgInRe =>
      var members := MembersOf(caps[2]);
      if members.None? then Refused else Made(ArgPredicate(caps[0], In, Many(members.value)))
    case ArgNotInRe =>
      var members := MembersOf(caps[2]);
      if members.None? then Refused else Made(ArgPredicate(caps[0], NotIn, Many(members.value)))
    case ArgNumberRe =>
      Made(ArgPredicate(caps[0], Denegated(Relation(caps[2])), One(Num(Unscaled(IntOf(caps[3]))))))
    case ArgStringRe =>
      var op := Denegated(Relation(caps[2]));
      if op != Eq && op != Ne then Refused else Made(ArgPredicate(caps[0], op, One(Text(caps[3]))))
    case DepthLimitRe =>
      var depth := IntOf(caps[1]);
      if depth < 0 then Refused else Made(DepthLimit(depth))
    case IntentBoundRe => Made(IntentBound(caps[1]))
  }

  // ------------------------------------------------------------------------------------
  // What the statement spells
  // ------------------------------------------------------------------------------------

  function Checks(name: Predicate, key: Option<string>, test: Test): Option<Clause> {
    Some(CheckIf(Match(name, key, test)))
  }

  function Rejects(name: Predicate, key: Option<string>, test: Test): Option<Clause> {
    Some(RejectIf(Match(name, key, test)))
  }

  /** The clause a text of this shape denotes; None where a term of it is no term. */
  function Spelled(k: Kind, caps: seq<string>): (r: Option<Clause>)
    requires Captured(k, caps)
  {
    CapturedTerms(k, caps);
    match k
    case GrantScopeRe => Some(CheckIf(Join(Operation, GrantedScope)))
    case GrantIntentRe => Some(CheckIf(Join(RequestIntent, GrantedIntent)))
    case ScopeSubsetRe =>
      if MembersOf(caps[1]).None? then None else Checks(Operation, None, InSet(MembersOf(caps[1]).value))
    case ToolAllowRe =>
      if MembersOf(caps[1]).None? then None else Checks(Tool, None, InSet(MembersOf(caps[1]).value))
    case ToolDenyRe =>
      if MembersOf(caps[1]).None? then None else Rejects(Tool, None, InSet(MembersOf(caps[1]).value))
    case ArgInRe =>
      if MembersOf(caps[2]).None? then None else Rejects(Arg, Some(caps[0]), NotInSet(MembersOf(caps[2]).value))
    case ArgNotInRe =>
      if MembersOf(caps[2]).None? then None else Rejects(Arg, Some(caps[0]), InSet(MembersOf(caps[2]).value))
    case BudgetCeilingRe => Checks(Requested, Some(caps[0]), Cmp(LeR, Int(IntOf(caps[2]))))
    case DepthLimitRe => Checks(CurrentDepth, None, Cmp(LeR, Int(IntOf(caps[1]))))
    case IntentBoundRe => Checks(RequestIntent, None, Cmp(EqR, Str(caps[1])))
    case ArgNumberRe => Rejects(Arg, Some(caps[0]), Cmp(Relation(caps[2]), Int(IntOf(caps[3]))))
    case ArgStringRe => Rejects(Arg, Some(caps[0]), Cmp(Relation(caps[2]), Str(caps[3])))
    case TimeLowerRe =>
      if Moment(caps[1]).None? then None else Checks(Time, None, Cmp(GeR, Date(Moment(caps[1]).value)))
    case TimeUpperRe =>
      if Moment(caps[1]).None? then None else Checks(Time, None, Cmp(LtR, Date(Moment(caps[1]).value)))
  }

  lemma ReadArgCompilesBack(k: Kind, caps: seq<string>)
    requires IsArg(k) && Captured(k, caps) && Build(k, caps).Is?
    ensures
      var c := Build(k, caps).caveat;
      && c.ArgPredicate? && Valid(c)
      && Spelled(k, caps).Some? && Compile(c) == Some([Does(Spelled(k, caps).value)])
  {
    hide Grammar, P.Fits, P.Runs, MembersOf, IntOf, Relation, P.IsOperator, IsIntText, FourPlaces, Scale;
    CapturedArg(k, caps);
    var c := Build(k, caps).caveat;
    if k.ArgNumberRe? {
      var v := Unscaled(IntOf(caps[3]));
      assert c == ArgPredicate(caps[0], Denegated(Relation(caps[2])), One(Num(v)));
      assert ToTerm(c.value.scalar) == Some(Int(IntOf(caps[3])));
    }
  }

  lemma OneSidedCompiles(seconds: int)
    ensures Compile(TimeWindow(Some(seconds * SECOND), None)) == Some([Check(Time, None, Cmp(GeR, Date(seconds)))])
    ensures Compile(TimeWindow(None, Some(seconds * SECOND))) == Some([Check(Time, None, Cmp(LtR, Date(seconds)))])
  {
    assert ToDate(seconds * SECOND) == Date(seconds);
    var lower, upper := Check(Time, None, Cmp(GeR, Date(seconds))), Check(Time, None, Cmp(LtR, Date(seconds)));
    assert [lower] + [] == [lower] && [] + [upper] == [upper];
  }

  lemma ReadCheckCompilesBack(k: Kind, caps: seq<string>)
    requires !IsArg(k) && Captured(k, caps) && Build(k, caps).Is?
    ensures
      var c := Build(k, caps).caveat;
      && !c.ArgPredicate? && Valid(c) && WholeSeconds(c) && !c.RequiresApproval?
      && Spelled(k, caps).Some? && Compile(c) == Some([Does(Spelled(k, caps).value)])
  {
    hide Grammar, P.Fits, P.Runs, MembersOf, Moment, IntOf, IsScope, IsHex64, DimensionNamed, Stamps.IsDateText, IsIntText;
    CapturedTerms(k, caps);
    match k
    case BudgetCeilingRe => assert Scale(Unscaled(IntOf(caps[2]))) == Some(IntOf(caps[2]));
    case TimeLowerRe => OneSidedCompiles(Moment(caps[1]).value);
    case TimeUpperRe => OneSidedCompiles(Moment(caps[1]).value);
    case _ =>
  }

  /**
   A caveat read from any recognized text, whoever wrote it, compiles to the one clause that
   text spells: an inverted operator or swapped set test would break this.
   */
  lemma ReadCompilesBack(k: Kind, caps: seq<string>)
    requires Captured(k, caps) && Build(k, caps).Is?
    ensures
      var c := Build(k, caps).caveat;
      && Valid(c) && WholeSeconds(c) && !c.RequiresApproval?
      && Spelled(k, caps).Some? && Compile(c) == Some([Does(Spelled(k, caps).value)])
  {
    if IsArg(k) {
      ReadArgCompilesBack(k, caps);
    } else {
      ReadCheckCompilesBack(k, caps);
    }
  }

  /** And so it means, on every request, what the token's authorizer makes of that text. */
  lemma ReadMeansSpelled(k: Kind, caps: seq<string>, ctx: Context)
    requires Captured(k, caps) && Build(k, caps).Is?
    requires ValidContext(ctx) && Renderable(ctx) && SameTyped(Build(k, caps).caveat, ctx)
    ensures Spelled(k, caps).Some?
    ensures Passes(Spelled(k, caps).value, RequestFacts(ctx)) <==> Allows(Build(k, caps).caveat, ctx)
  {
    ReadCompilesBack(k, caps);
    var c, clause := Build(k, caps).caveat, Spelled(k, caps).value;
    CompilerPreservesMeaning(c, ctx);
    OneClause(Does(clause), RequestFacts(ctx));
  }

  // ------------------------------------------------------------------------------------
  // One statement
  // ------------------------------------------------------------------------------------

  /** The first shape of the table that fits. */
  function FirstShape(order: seq<Kind>, fits: Kind -> Option<seq<string>>, i: nat): (r: Option<(Kind, seq<string>)>)
    requires i <= |order|
    ensures r.Some? ==> fits(r.value.0) == Some(r.value.1)
    decreases |order| - i
  {
    if i == |order| then None
    else if fits(order[i]).Some? then Some((order[i], fits(order[i]).value))
    else FirstShape(order, fits, i + 1)
  }

  lemma {:induction false} OnlyShapeIsFirst(order: seq<Kind>, fits: Kind -> Option<seq<string>>, i: nat, at: nat)
    requires i <= at < |order| && fits(order[at]).Some?
    requires forall k :: fits(k).Some? ==> k == order[at]
    ensures FirstShape(order, fits, i) == Some((order[at], fits(order[at]).value))
    decreases at - i
  {
    if fits(order[i]).None? {
      OnlyShapeIsFirst(order, fits, i + 1, at);
    }
  }

  function Fitting(statement: string): Kind -> Option<seq<string>> {
    (k: Kind) => P.Recognize(Grammar(k), statement, "")
  }

  lemma RecognizedIsCaptured(k: Kind, statement: string)
    requires P.Recognize(Grammar(k), statement, "").Some?
    ensures
      var caps := P.Recognize(Grammar(k), statement, "").value;
      Captured(k, caps) && P.Render(Grammar(k), caps, 0, "") == statement
  {
    var caps := P.Recognize(Grammar(k), statement, "").value;
    assert caps[0..] == caps;
    P.MatchOnlyRendered(Grammar(k), statement, "", caps, 0);
  }

  function ClauseRead(statement: string): (r: Reading) {
    var shape := FirstShape(TABLE, Fitting(statement), 0);
    if shape.None? then Refused
    else
      RecognizedIsCaptured(shape.value.0, statement);
      Build(shape.value.0, shape.value.1)
  }

  method ReadClause(statement: string) returns (r: Reading)
    ensures r == ClauseRead(statement)
  {
    var order, fits := TABLE, Fitting(statement);
    for i := 0 to |order|
      invariant FirstShape(order, fits, 0) == FirstShape(order, fits, i)
    {
      var caps := fits(order[i]);
      if caps.Some? {
        RecognizedIsCaptured(order[i], statement);
        return Build(order[i], caps.value);
      }
    }
    r := Refused;
  }

  /** The text of a shape filled in is read as that shape and no other. */
  lemma ShapeIsRead(k: Kind, caps: seq<string>)
    requires Captured(k, caps)
    ensures ClauseRead(P.Render(Grammar(k), caps, 0, "")) == Build(k, caps)
  {
    var statement := P.Render(Grammar(k), caps, 0, "");
    var fits := Fitting(statement);
    GrammarDelimited(k);
    P.MatchRender(Grammar(k), caps, 0, "");
    assert caps[0..] == caps;
    EveryKindListed(k);
    var order := TABLE;
    var at :| 0 <= at < |order| && order[at] == k;
    forall l | fits(l).Some?
      ensures l == k
    {
      if l != k {
        OneShapeAtMost(k, l, statement);
      }
    }
    OnlyShapeIsFirst(order, fits, 0, at);
  }
}
