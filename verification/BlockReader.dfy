/**
 Reading a whole block: the statement loop, what it makes of facts, and that a block compiled
 from caveats is read back complete.
 */
module BlockReader {
  import opened Digits
  import opened Wrappers

  import opened Caveats
  import opened ReadBack
  import opened Splitter

  const MAX_STATEMENTS_PER_BLOCK: nat := 512
  const MAX_STATEMENT_LENGTH: nat := 4096

  // ------------------------------------------------------------------------------------
  // The reader
  // ------------------------------------------------------------------------------------

  predicate IsNameChar(c: char) { 'a' <= c <= 'z' || IsDigit(c) || c == '_' }

  function NameLength(s: string): (n: nat)
    ensures n <= |s| && (n < |s| ==> !IsNameChar(s[n]))
  {
    if s == "" || !IsNameChar(s[0]) then 0 else 1 + NameLength(s[1..])
  }

  /** `name(terms)`: the name before the first parenthesis, the terms up to the last. */
  function FactParts(s: string): (r: Option<(string, string)>) {
    var n := NameLength(s);
    if n == 0 || IsDigit(s[0]) || n + 2 > |s| || s[n] != '(' || s[|s| - 1] != ')' then None
    else Some((s[..n], s[n + 1..|s| - 1]))
  }

  const AUTHORITY_FACTS: set<string> := {
    "budget", "expires_at", "intent", "issued_at", "mandate", "max_depth", "not_before",
    "principal", "scope", "task"}

  /** What the loop has gathered; `raised` once a model refused a term. */
  datatype Progress = Progress(
    caveats: seq<Caveat>, unrecognized: seq<string>, approvals: set<string>,
    agents: seq<string>, roles: seq<string>, depths: seq<string>, raised: bool)

  const EMPTY: Progress := Progress([], [], {}, [], [], [], false)

  /** A fact never adds a caveat of its own and never raises. */
  function FactRead(st: Progress, statement: string): (r: Progress)
    ensures r.caveats == st.caveats && r.raised == st.raised
  {
    var fact := FactParts(statement);
    if fact.None? then st.(unrecognized := st.unrecognized + [statement])
    else
      var name, terms := fact.value.0, fact.value.1;
      if name in AUTHORITY_FACTS then st
      else if name == "agent" || name == "role" || name == "requires_approval" then
        var member := Quoted(Strip(terms));
        if member.None? then st.(unrecognized := st.unrecognized + [statement])
        else if name == "requires_approval" then st.(approvals := st.approvals + {member.value})
        else if name == "agent" then st.(agents := st.agents + [member.value])
        else st.(roles := st.roles + [member.value])
      else if name == "declared_depth" then st.(depths := st.depths + [Strip(terms)])
      else st.(unrecognized := st.unrecognized + [statement])
  }

  predicate IsClauseText(s: string) { "check if " <= s || "reject if " <= s }

  function StatementRead(st: Progress, statement: string): (r: Progress) {
    if st.raised then st
    else if |statement| > MAX_STATEMENT_LENGTH then
      st.(unrecognized := st.unrecognized + [statement[..MAX_STATEMENT_LENGTH]])
    else if IsClauseText(statement) then
      match ClauseRead(statement)
      case Refused => st.(unrecognized := st.unrecognized + [statement])
      case Recognized => st
      case Is(c) => st.(caveats := st.caveats + [c])
      case Raised => st.(raised := true)
    else FactRead(st, statement)
  }

  function ReadAll(st: Progress, statements: seq<string>): (r: Progress) {
    if statements == [] then st
    else StatementRead(ReadAll(st, statements[..|statements| - 1]), statements[|statements| - 1])
  }

  /** `agents`, `roles` and `depths` are what the identity facts claimed, repeats included. */
  datatype ParsedBlock = ParsedBlock(
    caveats: seq<Caveat>, unrecognized: seq<string>, agents: seq<string>, roles: seq<string>, depths: seq<string>)

  function Concluded(st: Progress): (r: Option<ParsedBlock>) {
    if st.raised then None
    else
      var approval := if st.approvals == {} then [] else [RequiresApproval(st.approvals)];
      Some(ParsedBlock(st.caveats + approval, st.unrecognized, st.agents, st.roles, st.depths))
  }

  function BlockRead(source: string): (r: Option<ParsedBlock>) {
    Concluded(ReadAll(EMPTY, Statements(source, MAX_STATEMENTS_PER_BLOCK)))
  }

  method ParseBlockSource(source: string) returns (r: Option<ParsedBlock>)
    ensures r == BlockRead(source)
  {
    hide ClauseRead, FactRead;
    var statements := FastStatements(source, MAX_STATEMENTS_PER_BLOCK);
    var caveats: seq<Caveat> := [];
    var unrecognized: seq<string> := [];
    var rest := EMPTY;
    for i := 0 to |statements|
      invariant !rest.raised && rest.caveats == [] && rest.unrecognized == []
      invariant ReadAll(EMPTY, statements[..i]) == rest.(caveats := caveats, unrecognized := unrecognized)
    {
      assert statements[..i + 1][..i] == statements[..i];
      var statement := statements[i];
      if |statement| > MAX_STATEMENT_LENGTH {
        unrecognized := unrecognized + [statement[..MAX_STATEMENT_LENGTH]];
      } else if IsClauseText(statement) {
        var clause := ReadClause(statement);
        match clause
        case Refused => unrecognized := unrecognized + [statement];
        case Recognized =>
        case Is(c) => caveats := caveats + [c];
        case Raised =>
          RaisedStays(rest.(caveats := caveats, unrecognized := unrecognized, raised := true), statements, i + 1);
          return None;
      } else {
        var after := FactRead(rest.(caveats := caveats, unrecognized := unrecognized), statement);
        unrecognized := after.unrecognized;
        rest := after.(caveats := [], unrecognized := []);
      }
    }
    assert statements[..|statements|] == statements;
    r := Concluded(rest.(caveats := caveats, unrecognized := unrecognized));
  }

  // ------------------------------------------------------------------------------------
  // Identity
  // ------------------------------------------------------------------------------------

  datatype BlockIdentity = BlockIdentity(agent: Option<string>, role: Option<string>, depth: Option<int>)

  /** A claim made twice is no claim. */
  function Sole(claims: seq<string>): (r: Option<string>) { if |claims| == 1 then Some(claims[0]) else None }

  function Repeated(name: string, claims: seq<string>): (r: seq<string>) { if |claims| > 1 then [name] else [] }

  function SafeLabel(claims: seq<string>, acceptable: string -> bool): (r: Option<string>) {
    if Sole(claims).Some? && acceptable(Sole(claims).value) then Sole(claims) else None
  }

  function Unsafe(name: string, claims: seq<string>, acceptable: string -> bool): (r: seq<string>) {
    if Sole(claims).Some? && !acceptable(Sole(claims).value) then [name] else []
  }

  /**
   The identity facts folded, and the names that could not be: `acceptable` is the rule for labels,
   `number` how a depth is read.
   */
  function IdentityOf(b: ParsedBlock, acceptable: string -> bool, number: string -> Option<int>)
    : (r: (BlockIdentity, seq<string>))
  {
    var depth := if Sole(b.depths).Some? then number(Sole(b.depths).value) else None;
    (BlockIdentity(SafeLabel(b.agents, acceptable), SafeLabel(b.roles, acceptable), depth),
     Repeated("agent", b.agents) + Repeated("role", b.roles) + Repeated("declared_depth", b.depths)
     + Unsafe("agent", b.agents, acceptable) + Unsafe("role", b.roles, acceptable)
     + (if Sole(b.depths).Some? && depth.None? then ["declared_depth"] else []))
  }

  /** A field that was claimed at all is either carried out or named, never both and never neither. */
  lemma ClaimsAccountedFor(b: ParsedBlock, acceptable: string -> bool, number: string -> Option<int>)
    ensures
      var (identity, ambiguous) := IdentityOf(b, acceptable, number);
      && ("agent" in ambiguous <==> b.agents != [] && identity.agent.None?)
      && ("role" in ambiguous <==> b.roles != [] && identity.role.None?)
      && ("declared_depth" in ambiguous <==> b.depths != [] && identity.depth.None?)
      && (forall v :: identity.agent == Some(v) <==> b.agents == [v] && acceptable(v))
      && (forall v :: identity.role == Some(v) <==> b.roles == [v] && acceptable(v))
      && (forall n :: identity.depth == Some(n) <==> exists text :: b.depths == [text] && number(text) == Some(n))
  {
  }

  lemma {:induction false} RaisedStays(st: Progress, statements: seq<string>, i: nat)
    requires i <= |statements| && st.raised && ReadAll(EMPTY, statements[..i]) == st
    ensures ReadAll(EMPTY, statements) == st
    decreases |statements| - i
  {
    if i < |statements| {
      assert statements[..i + 1][..i] == statements[..i];
      RaisedStays(st, statements, i + 1);
    } else {
      assert statements[..i] == statements;
    }
  }

  lemma {:induction false} ReadAllAppend(st: Progress, a: seq<string>, b: seq<string>)
    ensures ReadAll(st, a + b) == ReadAll(ReadAll(st, a), b)
    decreases |b|
  {
    if b == [] {
      assert a + b == a;
    } else {
      assert (a + b)[..|a + b| - 1] == a + b[..|b| - 1];
      ReadAllAppend(st, a, b[..|b| - 1]);
    }
  }
}
