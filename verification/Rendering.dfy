/**
 How a block is written out, nothing escaped, and that each compiled clause, written out, is
 read back as the caveat it came from.
 */
module Rendering {
  import opened Digits
  import O = Ordering
  import Stamps
  import opened Strings
  import opened Wrappers

  import opened Clauses
  import opened Datalog
  import P = Patterns
  import opened ReadBack
  import opened Splitter

  // ------------------------------------------------------------------------------------
  // Text
  // ------------------------------------------------------------------------------------

  function Quote(s: string): (r: string) { [QUOTE] + s + [QUOTE] }

  function SetText(list: seq<string>): (r: string) {
    if list == [] then "" else if |list| == 1 then Quote(list[0]) else Quote(list[0]) + ", " + SetText(list[1..])
  }

  predicate DateWritable(t: Term) { t.Date? ==> Stamps.IsSecond(t.seconds) }

  function TermText(t: Term): (r: string)
    requires DateWritable(t)
  {
    match t
    case Int(i) => IntText(i)
    case Str(s) => Quote(s)
    case Date(seconds) => Stamps.Text(Stamps.FieldsAt(seconds))
  }

  function RelText(rel: Rel): (r: string) {
    match rel
    case LeR => "<="
    case LtR => "<"
    case GeR => ">="
    case GtR => ">"
    case EqR => "=="
    case NeR => "!="
  }

  function Named(p: Predicate): (r: string) {
    match p
    case Operation => "operation"
    case Requested => "requested"
    case Time => "time"
    case Tool => "tool"
    case Arg => "arg"
    case CurrentDepth => "current_depth"
    case RequestIntent => "request_intent"
    case GrantedScope => "scope"
    case GrantedIntent => "intent"
    case Agent => "agent"
    case Role => "role"
    case DeclaredDepth => "declared_depth"
    case ApprovalScope => "requires_approval"
    case Foreign(name) => name
  }

  /** The variable the compiler uses over a predicate. */
  function Variable(p: Predicate): (r: string) {
    match p
    case Operation => "op"
    case Time => "t"
    case Tool => "t"
    case CurrentDepth => "d"
    case RequestIntent => "h"
    case _ => "v"
  }

  predicate TestWritable(test: Test) { test.Cmp? ==> DateWritable(test.term) }

  function TestText(test: Test, v: string): (r: string)
    requires TestWritable(test)
  {
    match test
    case InSet(members) => "[" + (SetText(O.Listing(members)) + ("].contains($" + (v + ")")))
    case NotInSet(members) => "![" + (SetText(O.Listing(members)) + ("].contains($" + (v + ")")))
    case Cmp(rel, term) => "$" + (v + (" " + (RelText(rel) + (" " + TermText(term)))))
  }

  function Front(verb: string, name: Predicate, key: Option<string>): (r: string) {
    var variable := "$" + (Variable(name) + "), ");
    verb + Named(name) + (if key.Some? then "(" + (Quote(key.value) + (", " + variable)) else "(" + variable)
  }

  function ClauseText(verb: string, name: Predicate, key: Option<string>, test: Test): (r: string)
    requires TestWritable(test)
  {
    Front(verb, name, key) + TestText(test, Variable(name))
  }

  predicate StatementWritable(s: Statement) {
    match s
    case Does(clause) => clause.body.Match? && TestWritable(clause.body.test)
    case Says(fact) => fact.key.None? && DateWritable(fact.term)
  }

  function StatementText(s: Statement): (r: string)
    requires StatementWritable(s)
  {
    match s
    case Does(clause) =>
      var body := clause.body;
      ClauseText(if clause.CheckIf? then "check if " else "reject if ", body.name, body.key, body.test)
    case Says(fact) => Named(fact.name) + "(" + TermText(fact.term) + ")"
  }

  // ------------------------------------------------------------------------------------
  // Sets
  // ------------------------------------------------------------------------------------

  /** A member that survives being written in a set: no quote, comma or bracket. */
  predicate SetSafe(s: string) { QUOTE !in s && ',' !in s && ']' !in s }

  lemma SplitHead(head: string, tail: string)
    requires ',' !in head
    ensures Split(head + "," + tail, ',') == [head] + Split(tail, ',')
    decreases |head|
  {
    var s := head + "," + tail;
    if head == "" {
      assert s == "," + tail && s[0] == ',' && s[1..] == tail;
      assert [""] + Split(tail, ',') == [head] + Split(tail, ',');
    } else {
      assert s[0] == head[0] && s[1..] == head[1..] + "," + tail;
      SplitHead(head[1..], tail);
      assert [head[0]] + head[1..] == head;
    }
  }

  lemma SplitWhole(s: string)
    requires ',' !in s
    ensures Split(s, ',') == [s]
  {
    if s != "" {
      SplitWhole(s[1..]);
      assert [s[0]] + s[1..] == s;
    }
  }

  lemma QuoteReads(s: string)
    requires QUOTE !in s
    ensures Quoted(Quote(s)) == Some(s) && Trimmed(Quote(s))
    ensures ',' !in s ==> ',' !in Quote(s) && ',' !in " " + Quote(s)
  {
    var q := Quote(s);
    assert q[1..|q| - 1] == s;
  }

  lemma StripLead(c: char, text: string)
    requires IsSpace(c) && Trimmed(text)
    ensures Strip([c] + text) == text && Strip(text) == text
  {
    assert ([c] + text)[1..] == text;
    assert StripLeft(text) == text;
  }

  ghost predicate AllSafe(list: seq<string>) { forall i :: 0 <= i < |list| ==> SetSafe(list[i]) }

  function Elements(list: seq<string>, i: nat): (r: set<string>)
    requires i <= |list|
    decreases |list| - i
  {
    if i == |list| then {} else {list[i]} + Elements(list, i + 1)
  }

  lemma {:induction false} ElementsAre(list: seq<string>, i: nat, x: string)
    requires i <= |list|
    ensures x in Elements(list, i) <==> exists j :: i <= j < |list| && list[j] == x
    decreases |list| - i
  {
    if i < |list| {
      ElementsAre(list, i + 1, x);
    }
  }

  lemma {:induction false} SetTextSplits(list: seq<string>, lead: string)
    requires list != [] && AllSafe(list) && ',' !in lead
    ensures
      var parts := Split(lead + SetText(list), ',');
      |parts| == |list| && parts[0] == lead + Quote(list[0])
      && forall i :: 0 < i < |list| ==> parts[i] == " " + Quote(list[i])
    decreases |list|
  {
    hide Split, Quote;
    QuoteReads(list[0]);
    var head := lead + Quote(list[0]);
    if |list| == 1 {
      SplitWhole(head);
    } else {
      var more := SetText(list[1..]);
      assert lead + (Quote(list[0]) + ", " + more) == head + "," + (" " + more);
      SplitHead(head, " " + more);
      SetTextSplits(list[1..], " ");
    }
  }

  lemma {:induction false} PartsRead(list: seq<string>, parts: seq<string>, i: nat)
    requires |parts| == |list| && i <= |list| && AllSafe(list)
    requires forall j :: 0 <= j < |list| ==> Strip(parts[j]) == Quote(list[j])
    ensures PartsFrom(parts, i) == Some(Elements(list, i))
    decreases |list| - i
  {
    if i < |list| {
      QuoteReads(list[i]);
      PartsRead(list, parts, i + 1);
    }
  }

  lemma {:induction false} SetTextEnds(list: seq<string>)
    requires list != []
    ensures
      var s := SetText(list);
      |s| >= 2 && s[0] == QUOTE && s[|s| - 1] == QUOTE
  {
    if |list| > 1 {
      SetTextEnds(list[1..]);
    }
  }

  /** A written set reads back as the set. */
  lemma SetReads(list: seq<string>)
    requires AllSafe(list)
    ensures MembersOf(SetText(list)) == Some(Elements(list, 0))
  {
    if list == [] {
      assert SetText(list) == "";
    } else {
      SetTextEnds(list);
      StripLead(' ', SetText(list));
      SetTextSplits(list, "");
      assert "" + SetText(list) == SetText(list) && "" + Quote(list[0]) == Quote(list[0]);
      var parts := Split(SetText(list), ',');
      forall j | 0 <= j < |list|
        ensures Strip(parts[j]) == Quote(list[j])
      {
        QuoteReads(list[j]);
        StripLead(' ', Quote(list[j]));
      }
      PartsRead(list, parts, 0);
    }
  }

  ghost predicate SafeSet(members: set<string>) { forall m :: m in members ==> SetSafe(m) }

  lemma ListingReads(members: set<string>)
    requires SafeSet(members)
    ensures MembersOf(SetText(O.Listing(members))) == Some(members)
    ensures P.Shaped(P.Inner, SetText(O.Listing(members)))
  {
    var list := O.Listing(members);
    assert forall i :: 0 <= i < |list| ==> list[i] in list;
    SetReads(list);
    forall x
      ensures x in Elements(list, 0) <==> x in members
    {
      ElementsAre(list, 0, x);
    }
    assert Elements(list, 0) == members;
    SetTextInner(list);
  }

  lemma {:induction false} SetTextInner(list: seq<string>)
    requires AllSafe(list)
    ensures ']' !in SetText(list)
  {
    if |list| > 1 {
      SetTextInner(list[1..]);
    }
  }

  // ------------------------------------------------------------------------------------
  // Filling in the shapes
  // ------------------------------------------------------------------------------------

  lemma RenderMembership(open: string, caps: seq<string>, i: nat, v: string)
    requires i + 1 == |caps|
    ensures P.Runs(Membership(open)) == 1
    ensures P.Render(Membership(open), caps, i, v) == open + (caps[i] + ("].contains($" + (v + ")")))
    ensures P.Fits(Membership(open), caps, i) <==> P.Shaped(P.Inner, caps[i])
  {
    assert P.Render(P.Lit(")", P.End), caps, i + 1, v) == ")" + "" == ")";
  }

  lemma RenderCompared(op: string, tail: P.Pattern, caps: seq<string>, i: nat, v: string)
    requires i + 1 + P.Runs(tail) == |caps|
    ensures P.Runs(Compared(op, tail)) == 1 + P.Runs(tail)
    ensures P.Render(Compared(op, tail), caps, i, v)
         == caps[i] + ("), $" + (caps[i] + (op + P.Render(tail, caps, i + 1, caps[i]))))
    ensures P.Fits(Compared(op, tail), caps, i) <==> P.Shaped(P.Ident, caps[i]) && P.Fits(tail, caps, i + 1)
  {
    assert P.Runs(P.Use(P.Lit(op, tail))) == P.Runs(tail);
    assert P.Fits(P.Use(P.Lit(op, tail)), caps, i + 1) == P.Fits(tail, caps, i + 1);
    assert P.Render(P.Use(P.Lit(op, tail)), caps, i + 1, caps[i]) == caps[i] + (op + P.Render(tail, caps, i + 1, caps[i]));
  }

  lemma RenderKeyed(tail: P.Pattern, caps: seq<string>, i: nat, v: string)
    requires i + 1 + P.Runs(tail) == |caps|
    ensures P.Runs(Keyed(tail)) == 1 + P.Runs(tail)
    ensures P.Render(Keyed(tail), caps, i, v) == caps[i] + ("\", $" + P.Render(tail, caps, i + 1, v))
    ensures P.Fits(Keyed(tail), caps, i) <==> P.Shaped(P.Plain, caps[i]) && P.Fits(tail, caps, i + 1)
  {
  }

  lemma RenderLast(cls: P.Class, caps: seq<string>, i: nat, v: string)
    requires i + 1 == |caps|
    ensures P.Render(P.Run(cls, P.End), caps, i, v) == caps[i]
    ensures P.Fits(P.Run(cls, P.End), caps, i) <==> P.Shaped(cls, caps[i])
  {
    assert P.Render(P.End, caps, i + 1, if cls.Ident? then caps[i] else v) == "";
  }

  lemma RenderNumber(caps: seq<string>, i: nat, v: string)
    requires i + 1 == |caps|
    ensures P.Runs(NumberEnd()) == 1 && P.Render(NumberEnd(), caps, i, v) == caps[i]
    ensures P.Fits(NumberEnd(), caps, i) <==> P.Shaped(P.Number, caps[i])
  {
    RenderLast(P.Number, caps, i, v);
  }

  lemma RenderText(caps: seq<string>, i: nat, v: string)
    requires i + 1 == |caps|
    ensures P.Render(TextEnd(), caps, i, v) == caps[i] + "\""
    ensures P.Fits(TextEnd(), caps, i) <==> P.Shaped(P.Plain, caps[i])
  {
    assert P.Render(P.Lit("\"", P.End), caps, i + 1, v) == "\"" + "" == "\"";
  }

  lemma RenderOperated(tail: P.Pattern, caps: seq<string>, i: nat, v: string)
    requires i + 2 + P.Runs(tail) == |caps|
    ensures P.Runs(Operated(tail)) == 2 + P.Runs(tail)
    ensures P.Render(Operated(tail), caps, i, v)
         == caps[i] + ("), $" + (caps[i] + (" " + (caps[i + 1] + (" " + P.Render(tail, caps, i + 2, caps[i]))))))
    ensures P.Fits(Operated(tail), caps, i) <==>
      P.Shaped(P.Ident, caps[i]) && P.Shaped(P.OpC, caps[i + 1]) && P.Fits(tail, caps, i + 2)
  {
    RenderCompared(" ", P.Run(P.OpC, P.Lit(" ", tail)), caps, i, v);
  }

  lemma VariablesAreNames(name: Predicate)
    ensures P.Shaped(P.Ident, Variable(name))
  {
  }

  lemma RelationReads(rel: Rel)
    ensures P.Shaped(P.OpC, RelText(rel)) && Relation(RelText(rel)) == rel
  {
  }

  lemma NumberReads(i: int)
    ensures P.Shaped(P.Number, IntText(i)) && IntOf(IntText(i)) == i
  {
    IntRoundTrip(i);
    var s := IntText(i);
    forall j | 0 <= j < |s|
      ensures P.InClass(P.Number, s[j])
    {
      if i < 0 && j > 0 {
        assert s[j] == NatText(-i)[j - 1];
      }
    }
  }

  lemma DateReads(seconds: int)
    requires Stamps.IsSecond(seconds)
    ensures
      var s := Stamps.Text(Stamps.FieldsAt(seconds));
      P.Shaped(P.DateC, s) && Moment(s) == Some(seconds)
  {
    var s := Stamps.Text(Stamps.FieldsAt(seconds));
    Stamps.TextRoundTrip(Stamps.FieldsAt(seconds));
    Stamps.DateTextChars(s);
  }

  // ------------------------------------------------------------------------------------
  // Each compiled clause is read back
  // ------------------------------------------------------------------------------------

  lemma Merge(a: string, b: string, ab: string, rest: string)
    requires a + b == ab
    ensures a + (b + rest) == ab + rest
  {
    Assoc(a, b, rest);
  }

  /** A front and a test meet at the blank after the comma. */
  lemma Meet(head: string, v: string, opener: string, rest: string)
    ensures (head + (v + "), ")) + (opener + rest) == head + (v + (("), " + opener) + rest))
  {
    Assoc(head, v + "), ", opener + rest);
    Assoc(v, "), ", opener + rest);
    Assoc("), ", opener, rest);
  }

  /** How a clause without a key begins. */
  lemma FrontUnkeyed(head: string, verb: string, name: Predicate)
    requires head == verb + Named(name) + "($"
    ensures Front(verb, name, None) == head + (Variable(name) + "), ")
  {
    var rest := Variable(name) + "), ";
    Merge("(", "$", "($", rest);
    Assoc(verb + Named(name), "($", rest);
  }

  lemma QuotedKeyText(key: string, rest: string)
    ensures "(" + (Quote(key) + (", " + ("$" + rest))) == "(\"" + (key + ("\", $" + rest))
  {
  }

  lemma FrontKeyed(head: string, verb: string, name: Predicate, key: string)
    requires head == verb + Named(name) + "(\""
    ensures Front(verb, name, Some(key)) == head + (key + ("\", $" + (Variable(name) + "), ")))
  {
    var rest := Variable(name) + "), ";
    QuotedKeyText(key, rest);
    Assoc(verb + Named(name), "(\"", key + ("\", $" + rest));
  }

  lemma ScopeHead() ensures Head(ScopeSubsetRe) == "check if " + Named(Operation) + "($" {}

  lemma ToolHeads()
    ensures Head(ToolAllowRe) == "check if " + Named(Tool) + "($"
    ensures Head(ToolDenyRe) == "reject if " + Named(Tool) + "($"
  {
  }

  lemma TimeHead() ensures Head(TimeLowerRe) == "check if " + Named(Time) + "($" {}

  lemma DepthHead() ensures Head(DepthLimitRe) == "check if " + Named(CurrentDepth) + "($" {}

  lemma IntentHead() ensures Head(IntentBoundRe) == "check if " + Named(RequestIntent) + "($" {}

  lemma BudgetHead() ensures Head(BudgetCeilingRe) == "check if " + Named(Requested) + "(\"" {}

  lemma ArgHead(k: Kind)
    requires IsArg(k)
    ensures Head(k) == "reject if " + Named(Arg) + "(\""
  {
    assert Head(k) == Head(ArgInRe);
  }

  function SetRest(m: string, v: string): string { m + ("].contains($" + (v + ")")) }

  lemma SetTest(members: set<string>, v: string)
    ensures TestText(InSet(members), v) == "[" + SetRest(SetText(O.Listing(members)), v)
    ensures TestText(NotInSet(members), v) == "![" + SetRest(SetText(O.Listing(members)), v)
  {
  }

  /** A shape that tests for membership, filled in. */
  lemma SetShape(k: Kind, caps: seq<string>)
    requires (k.ScopeSubsetRe? || k.ToolAllowRe? || k.ToolDenyRe?) && |caps| == 2
    requires P.Shaped(P.Ident, caps[0]) && P.Shaped(P.Inner, caps[1])
    ensures Captured(k, caps)
    ensures P.Render(Grammar(k), caps, 0, "") == Head(k) + (caps[0] + ("), [" + SetRest(caps[1], caps[0])))
  {
    RenderMembership("), [", caps, 1, caps[0]);
  }

  /** An argument shape, filled in up to its test. */
  lemma ArgGrammar(k: Kind, caps: seq<string>)
    requires IsArg(k) && |caps| == 1 + P.Runs(ArgTail(k))
    requires P.Shaped(P.Plain, caps[0]) && P.Fits(ArgTail(k), caps, 1)
    ensures Captured(k, caps)
    ensures P.Render(Grammar(k), caps, 0, "") == Head(k) + (caps[0] + ("\", $" + P.Render(ArgTail(k), caps, 1, "")))
  {
    hide ArgTail, P.Shaped, Head;
    RenderKeyed(ArgTail(k), caps, 0, "");
  }

  lemma KeyedSetShape(k: Kind, caps: seq<string>)
    requires (k.ArgInRe? || k.ArgNotInRe?) && |caps| == 3
    requires P.Shaped(P.Plain, caps[0]) && P.Shaped(P.Ident, caps[1]) && P.Shaped(P.Inner, caps[2])
    ensures Captured(k, caps)
    ensures P.Render(Grammar(k), caps, 0, "")
         == Head(k) + (caps[0] + ("\", $" + (caps[1] + ((if k.ArgInRe? then "), ![" else "), [") + SetRest(caps[2], caps[1])))))
  {
    hide Membership, Grammar, Captured, P.Shaped, Head;
    RenderMembership(if k.ArgInRe? then "), ![" else "), [", caps, 2, caps[1]);
    ArgGrammar(k, caps);
  }

  /** A clause without a key, laid out as its shape is filled in. */
  lemma UnkeyedText(head: string, verb: string, name: Predicate, opener: string, joined: string, rest: string)
    requires head == verb + Named(name) + "($" && "), " + opener == joined
    ensures Front(verb, name, None) + (opener + rest) == head + (Variable(name) + (joined + rest))
  {
    FrontUnkeyed(head, verb, name);
    Meet(head, Variable(name), opener, rest);
  }

  lemma KeyedText(head: string, verb: string, name: Predicate, key: string, opener: string, joined: string, rest: string)
    requires head == verb + Named(name) + "(\"" && "), " + opener == joined
    ensures Front(verb, name, Some(key)) + (opener + rest)
         == head + (key + ("\", $" + (Variable(name) + (joined + rest))))
  {
    var v := Variable(name);
    FrontKeyed(head, verb, name, key);
    Meet("\", $", v, opener, rest);
    Assoc(key, "\", $" + (v + "), "), opener + rest);
    Assoc(head, key + ("\", $" + (v + "), ")), opener + rest);
  }

  // ------------------------------------------------------------------------------------
  // Each clause is read back
  // ------------------------------------------------------------------------------------

  lemma SetClauseReads(k: Kind, verb: string, name: Predicate, members: set<string>)
    requires k.ScopeSubsetRe? || k.ToolAllowRe? || k.ToolDenyRe?
    requires Head(k) == verb + Named(name) + "($" && SafeSet(members)
    ensures
      var caps := [Variable(name), SetText(O.Listing(members))];
      Captured(k, caps) && ClauseRead(ClauseText(verb, name, None, InSet(members))) == Build(k, caps)
  {
    hide Build, Grammar, Captured, ClauseRead, O.Listing, SetText;
    var v, m := Variable(name), SetText(O.Listing(members));
    VariablesAreNames(name);
    ListingReads(members);
    SetShape(k, [v, m]);
    assert "), " + "[" == "), [";
    UnkeyedText(Head(k), verb, name, "[", "), [", SetRest(m, v));
    ShapeIsRead(k, [v, m]);
  }

  lemma KeyedSetClauseReads(k: Kind, key: string, members: set<string>)
    requires (k.ArgInRe? || k.ArgNotInRe?) && SafeSet(members) && QUOTE !in key
    ensures
      var caps := [key, Variable(Arg), SetText(O.Listing(members))];
      && Captured(k, caps)
      && ClauseRead(ClauseText("reject if ", Arg, Some(key), if k.ArgInRe? then NotInSet(members) else InSet(members)))
         == Build(k, caps)
  {
    hide Build, Grammar, Captured, ClauseRead, O.Listing, SetText, Head, Named, Front, Variable, TestText;
    var v, m := Variable(Arg), SetText(O.Listing(members));
    VariablesAreNames(Arg);
    ListingReads(members);
    KeyedSetShape(k, [key, v, m]);
    ArgHead(k);
    assert "), " + "[" == "), [" && "), " + "![" == "), ![";
    var opener, joined := if k.ArgInRe? then "![" else "[", if k.ArgInRe? then "), ![" else "), [";
    SetTest(members, v);
    KeyedText(Head(k), "reject if ", Arg, key, opener, joined, SetRest(m, v));
    ShapeIsRead(k, [key, v, m]);
  }

  // -- comparisons -------------------------------------------------------------------------

  lemma OpMerge(rel: string, op: string, rest: string)
    requires " " + rel + " " == op
    ensures " " + (rel + (" " + rest)) == op + rest
  {
    Assoc(" ", rel, " " + rest);
    Assoc(" " + rel, " ", rest);
  }

  lemma ComparedShape(k: Kind, op: string, cls: P.Class, caps: seq<string>)
    requires Tail(k) == Compared(op, P.Run(cls, P.End)) && |caps| == 2
    requires P.Shaped(P.Ident, caps[0]) && P.Shaped(cls, caps[1])
    ensures Captured(k, caps)
    ensures P.Render(Grammar(k), caps, 0, "") == Head(k) + (caps[0] + ("), $" + (caps[0] + (op + caps[1]))))
  {
    RenderLast(cls, caps, 1, caps[0]);
    RenderCompared(op, P.Run(cls, P.End), caps, 0, "");
  }

  /** A number or a date compared, without a key. */
  lemma ComparedClauseReads(k: Kind, verb: string, name: Predicate, rel: Rel, op: string, cls: P.Class, term: Term)
    requires Tail(k) == Compared(op, P.Run(cls, P.End)) && Head(k) == verb + Named(name) + "($"
    requires " " + RelText(rel) + " " == op
    requires DateWritable(term) && P.Shaped(cls, TermText(term))
    ensures Captured(k, [Variable(name), TermText(term)])
    ensures ClauseRead(ClauseText(verb, name, None, Cmp(rel, term))) == Build(k, [Variable(name), TermText(term)])
  {
    hide Build, Grammar, Captured, ClauseRead, O.Listing, SetText, TermText;
    var v, t := Variable(name), TermText(term);
    VariablesAreNames(name);
    ComparedShape(k, op, cls, [v, t]);
    OpMerge(RelText(rel), op, t);
    assert "), " + "$" == "), $";
    UnkeyedText(Head(k), verb, name, "$", "), $", v + (op + t));
    ShapeIsRead(k, [v, t]);
  }

  lemma DepthReads(n: int)
    ensures Captured(DepthLimitRe, ["d", IntText(n)])
    ensures ClauseRead(ClauseText("check if ", CurrentDepth, None, Cmp(LeR, Int(n)))) == Build(DepthLimitRe, ["d", IntText(n)])
  {
    hide Build, Captured, ClauseRead, ClauseText;
    DepthHead();
    NumberReads(n);
    ComparedClauseReads(DepthLimitRe, "check if ", CurrentDepth, LeR, " <= ", P.Number, Int(n));
  }

  lemma TimeReads(lower: bool, seconds: int)
    requires Stamps.IsSecond(seconds)
    ensures
      var k, text := if lower then TimeLowerRe else TimeUpperRe, Stamps.Text(Stamps.FieldsAt(seconds));
      && Captured(k, ["t", text])
      && ClauseRead(ClauseText("check if ", Time, None, Cmp(if lower then GeR else LtR, Date(seconds)))) == Build(k, ["t", text])
  {
    hide Build, Captured, ClauseRead, ClauseText;
    TimeHead();
    DateReads(seconds);
    if lower {
      ComparedClauseReads(TimeLowerRe, "check if ", Time, GeR, " >= ", P.DateC, Date(seconds));
    } else {
      ComparedClauseReads(TimeUpperRe, "check if ", Time, LtR, " < ", P.DateC, Date(seconds));
    }
  }

  lemma IntentShape(caps: seq<string>)
    requires |caps| == 2 && P.Shaped(P.Ident, caps[0]) && P.Shaped(P.Plain, caps[1])
    ensures Captured(IntentBoundRe, caps)
    ensures P.Render(Grammar(IntentBoundRe), caps, 0, "")
         == Head(IntentBoundRe) + (caps[0] + ("), $" + (caps[0] + (" == \"" + (caps[1] + "\"")))))
  {
    RenderText(caps, 1, caps[0]);
    RenderCompared(" == \"", TextEnd(), caps, 0, "");
  }

  lemma IntentReads(h: string)
    requires QUOTE !in h
    ensures Captured(IntentBoundRe, ["h", h])
    ensures ClauseRead(ClauseText("check if ", RequestIntent, None, Cmp(EqR, Str(h)))) == Build(IntentBoundRe, ["h", h])
  {
    hide Build, Grammar, Captured, ClauseRead, O.Listing, SetText;
    VariablesAreNames(RequestIntent);
    IntentShape(["h", h]);
    IntentHead();
    Assoc("\"", h, "\"");
    OpMerge("==", " == ", Quote(h));
    Merge(" == ", "\"", " == \"", h + "\"");
    assert "), " + "$" == "), $";
    UnkeyedText(Head(IntentBoundRe), "check if ", RequestIntent, "$", "), $", "h" + (" == " + Quote(h)));
    ShapeIsRead(IntentBoundRe, ["h", h]);
  }

  lemma BudgetShape(caps: seq<string>)
    requires |caps| == 3
    requires P.Shaped(P.Plain, caps[0]) && P.Shaped(P.Ident, caps[1]) && P.Shaped(P.Number, caps[2])
    ensures Captured(BudgetCeilingRe, caps)
    ensures P.Render(Grammar(BudgetCeilingRe), caps, 0, "")
         == Head(BudgetCeilingRe) + (caps[0] + ("\", $" + (caps[1] + ("), $" + (caps[1] + (" <= " + caps[2]))))))
  {
    RenderLast(P.Number, caps, 2, caps[1]);
    RenderCompared(" <= ", NumberEnd(), caps, 1, "");
    RenderKeyed(Compared(" <= ", NumberEnd()), caps, 0, "");
  }

  lemma BudgetReads(key: string, n: int)
    requires QUOTE !in key
    ensures Captured(BudgetCeilingRe, [key, "v", IntText(n)])
    ensures ClauseRead(ClauseText("check if ", Requested, Some(key), Cmp(LeR, Int(n))))
         == Build(BudgetCeilingRe, [key, "v", IntText(n)])
  {
    hide Build, Grammar, Captured, ClauseRead, O.Listing, SetText, IntText;
    var t := IntText(n);
    VariablesAreNames(Requested);
    NumberReads(n);
    BudgetShape([key, "v", t]);
    BudgetHead();
    OpMerge("<=", " <= ", t);
    assert "), " + "$" == "), $";
    KeyedText(Head(BudgetCeilingRe), "check if ", Requested, key, "$", "), $", "v" + (" <= " + t));
    ShapeIsRead(BudgetCeilingRe, [key, "v", t]);
  }

  lemma ArgNumberShape(caps: seq<string>)
    requires |caps| == 4 && P.Shaped(P.Plain, caps[0]) && P.Shaped(P.Ident, caps[1])
    requires P.Shaped(P.OpC, caps[2]) && P.Shaped(P.Number, caps[3])
    ensures Captured(ArgNumberRe, caps)
    ensures P.Render(Grammar(ArgNumberRe), caps, 0, "")
         == Head(ArgNumberRe) + (caps[0] + ("\", $" + (caps[1] + ("), $" + (caps[1] + (" " + (caps[2] + (" " + caps[3]))))))))
  {
    hide Operated, NumberEnd, Grammar, Captured, Head, P.Shaped, P.Render, P.Fits, P.Runs;
    RenderNumber(caps, 3, caps[1]);
    RenderOperated(NumberEnd(), caps, 1, "");
    ArgGrammar(ArgNumberRe, caps);
  }

  lemma ArgNumberReads(path: string, rel: Rel, n: int)
    requires QUOTE !in path
    ensures Captured(ArgNumberRe, [path, "v", RelText(rel), IntText(n)])
    ensures ClauseRead(ClauseText("reject if ", Arg, Some(path), Cmp(rel, Int(n))))
         == Build(ArgNumberRe, [path, "v", RelText(rel), IntText(n)])
  {
    hide Build, Grammar, Captured, ClauseRead, O.Listing, SetText, IntText, RelText;
    var r, t := RelText(rel), IntText(n);
    VariablesAreNames(Arg);
    NumberReads(n);
    RelationReads(rel);
    ArgNumberShape([path, "v", r, t]);
    ArgHead(ArgNumberRe);
    assert "), " + "$" == "), $";
    KeyedText(Head(ArgNumberRe), "reject if ", Arg, path, "$", "), $", "v" + (" " + (r + (" " + t))));
    ShapeIsRead(ArgNumberRe, [path, "v", r, t]);
  }

  lemma RenderOpenText(caps: seq<string>, i: nat, v: string)
    requires i + 1 == |caps| && P.Shaped(P.Plain, caps[i])
    ensures
      var last := P.Lit("\"", TextEnd());
      P.Runs(last) == 1 && P.Fits(last, caps, i) && P.Render(last, caps, i, v) == "\"" + (caps[i] + "\"")
  {
    RenderText(caps, i, v);
  }

  lemma ArgStringShape(caps: seq<string>)
    requires |caps| == 4 && P.Shaped(P.Plain, caps[0]) && P.Shaped(P.Ident, caps[1])
    requires P.Shaped(P.OpC, caps[2]) && P.Shaped(P.Plain, caps[3])
    ensures Captured(ArgStringRe, caps)
    ensures P.Render(Grammar(ArgStringRe), caps, 0, "")
         == Head(ArgStringRe)
            + (caps[0] + ("\", $" + (caps[1] + ("), $" + (caps[1] + (" " + (caps[2] + (" " + ("\"" + (caps[3] + "\""))))))))))
  {
    hide Operated, TextEnd, Grammar, Captured, Head, P.Shaped, P.Render, P.Fits, P.Runs;
    RenderOpenText(caps, 3, caps[1]);
    RenderOperated(P.Lit("\"", TextEnd()), caps, 1, "");
    ArgGrammar(ArgStringRe, caps);
  }

  lemma ArgStringReads(path: string, rel: Rel, text: string)
    requires QUOTE !in path && QUOTE !in text
    ensures Captured(ArgStringRe, [path, "v", RelText(rel), text])
    ensures ClauseRead(ClauseText("reject if ", Arg, Some(path), Cmp(rel, Str(text))))
         == Build(ArgStringRe, [path, "v", RelText(rel), text])
  {
    hide Build, Grammar, Captured, ClauseRead, O.Listing, SetText, RelText;
    var r := RelText(rel);
    VariablesAreNames(Arg);
    RelationReads(rel);
    ArgStringShape([path, "v", r, text]);
    ArgHead(ArgStringRe);
    Assoc("\"", text, "\"");
    assert "), " + "$" == "), $";
    KeyedText(Head(ArgStringRe), "reject if ", Arg, path, "$", "), $", "v" + (" " + (r + (" " + Quote(text)))));
    ShapeIsRead(ArgStringRe, [path, "v", r, text]);
  }
}
