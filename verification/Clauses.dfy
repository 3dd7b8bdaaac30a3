/**
 Reading one `check if` / `reject if` statement back into a caveat: the table of shapes, and
 what a shape and its captured terms are taken to be.
 */
module Clauses {
  import opened Patterns

  /** The fourteen shapes, in the order the table is walked. */
  datatype Kind =
    | ScopeSubsetRe | GrantScopeRe | BudgetCeilingRe | TimeLowerRe | TimeUpperRe
    | ToolAllowRe | ToolDenyRe | ArgInRe | ArgNotInRe | ArgNumberRe | ArgStringRe
    | DepthLimitRe | IntentBoundRe | GrantIntentRe

  const TABLE: seq<Kind> := [
    ScopeSubsetRe, GrantScopeRe, BudgetCeilingRe, TimeLowerRe, TimeUpperRe,
    ToolAllowRe, ToolDenyRe, ArgInRe, ArgNotInRe, ArgNumberRe, ArgStringRe,
    DepthLimitRe, IntentBoundRe, GrantIntentRe]

  function Head(k: Kind): string {
    match k
    case ScopeSubsetRe => "check if operation($"
    case GrantScopeRe => "check if operation($"
    case BudgetCeilingRe => "check if requested(\""
    case TimeLowerRe => "check if time($"
    case TimeUpperRe => "check if time($"
    case ToolAllowRe => "check if tool($"
    case ToolDenyRe => "reject if tool($"
    case ArgInRe => "reject if arg(\""
    case ArgNotInRe => "reject if arg(\""
    case ArgNumberRe => "reject if arg(\""
    case ArgStringRe => "reject if arg(\""
    case DepthLimitRe => "check if current_depth($"
    case IntentBoundRe => "check if request_intent($"
    case GrantIntentRe => "check if request_intent($"
  }

  /** `[…].contains($v)`, opened by `open`. */
  function Membership(open: string): Pattern {
    var close := Lit("].contains($", Use(Lit(")", End)));
    Lit(open, Run(Inner, close))
  }

  /** `$v), $v op …` */
  function Compared(op: string, tail: Pattern): Pattern {
    var again := Lit("), $", Use(Lit(op, tail)));
    Run(Ident, again)
  }

  /** `…", ` after a quoted key. */
  function Keyed(tail: Pattern): Pattern { Run(Plain, Lit("\", $", tail)) }

  function NumberEnd(): Pattern { Run(Number, End) }

  function TextEnd(): Pattern { Run(Plain, Lit("\"", End)) }

  function Operated(tail: Pattern): Pattern { Compared(" ", Run(OpC, Lit(" ", tail))) }

  predicate IsArg(k: Kind) { k.ArgInRe? || k.ArgNotInRe? || k.ArgNumberRe? || k.ArgStringRe? }

  function ArgTail(k: Kind): Pattern {
    match k
    case ArgInRe => Run(Ident, Membership("), !["))
    case ArgNotInRe => Run(Ident, Membership("), ["))
    case ArgNumberRe => Operated(NumberEnd())
    case _ => Operated(Lit("\"", TextEnd()))
  }

  function Tail(k: Kind): Pattern {
    match k
    case ScopeSubsetRe => Run(Ident, Membership("), ["))
    case GrantScopeRe => Run(Ident, Lit("), scope($", Use(Lit(")", End))))
    case BudgetCeilingRe => Keyed(Compared(" <= ", NumberEnd()))
    case TimeLowerRe => Compared(" >= ", Run(DateC, End))
    case TimeUpperRe => Compared(" < ", Run(DateC, End))
    case ToolAllowRe => Run(Ident, Membership("), ["))
    case ToolDenyRe => Run(Ident, Membership("), ["))
    case DepthLimitRe => Compared(" <= ", NumberEnd())
    case IntentBoundRe => Compared(" == \"", TextEnd())
    case GrantIntentRe => Run(Ident, Lit("), intent($", Use(Lit(")", End))))
    case _ => Keyed(ArgTail(k))
  }

  function Grammar(k: Kind): Pattern { Lit(Head(k), Tail(k)) }

  lemma MembershipDelimited(open: string)
    requires open != "" && open[0] == ')'
    ensures Delimited(Run(Ident, Membership(open)))
  {
  }

  lemma ComparedDelimited(op: string, tail: Pattern)
    requires Delimited(tail)
    ensures Delimited(Compared(op, tail))
  {
    assert Delimited(Use(Lit(op, tail)));
  }

  lemma OperatedDelimited(tail: Pattern)
    requires Delimited(tail)
    ensures Delimited(Operated(tail))
  {
    ComparedDelimited(" ", Run(OpC, Lit(" ", tail)));
  }

  lemma KeyedDelimited(tail: Pattern)
    requires Delimited(tail)
    ensures Delimited(Keyed(tail))
  {
  }

  lemma GrammarDelimited(k: Kind)
    ensures Delimited(Grammar(k))
  {
    MembershipDelimited("), [");
    MembershipDelimited("), ![");
    match k
    case ScopeSubsetRe =>
    case ToolAllowRe =>
    case ToolDenyRe =>
    case GrantScopeRe =>
    case GrantIntentRe =>
    case BudgetCeilingRe => ComparedDelimited(" <= ", NumberEnd()); KeyedDelimited(Compared(" <= ", NumberEnd()));
    case TimeLowerRe => ComparedDelimited(" >= ", Run(DateC, End));
    case TimeUpperRe => ComparedDelimited(" < ", Run(DateC, End));
    case DepthLimitRe => ComparedDelimited(" <= ", NumberEnd());
    case IntentBoundRe => ComparedDelimited(" == \"", TextEnd());
    case ArgNumberRe => OperatedDelimited(NumberEnd()); KeyedDelimited(ArgTail(k));
    case ArgStringRe => OperatedDelimited(Lit("\"", TextEnd())); KeyedDelimited(ArgTail(k));
    case _ => KeyedDelimited(ArgTail(k));
  }

  lemma EveryKindListed(k: Kind)
    ensures exists i :: 0 <= i < |TABLE| && TABLE[i] == k
  {
    var i := match k
      case ScopeSubsetRe => 0 case GrantScopeRe => 1 case BudgetCeilingRe => 2 case TimeLowerRe => 3
      case TimeUpperRe => 4 case ToolAllowRe => 5 case ToolDenyRe => 6 case ArgInRe => 7
      case ArgNotInRe => 8 case ArgNumberRe => 9 case ArgStringRe => 10 case DepthLimitRe => 11
      case IntentBoundRe => 12 case GrantIntentRe => 13;
    assert TABLE[i] == k;
  }

  // ------------------------------------------------------------------------------------
  // No statement has two shapes
  // ------------------------------------------------------------------------------------

  lemma HeadsDiffer(k: Kind, l: Kind) returns (j: nat)
    requires Head(k) != Head(l)
    ensures j < |Head(k)| && j < |Head(l)| && Head(k)[j] != Head(l)[j]
  {
    var a, b := Head(k), Head(l);
    j := if a[0] != b[0] then 0 else if a[9] != b[9] then 9 else if a[10] != b[10] then 10 else 16;
  }

  lemma OpenersClash()
    ensures "), ["[3] != "), scope($"[3] && "), ["[3] != "), !["[3]
    ensures "), ["[3] != "), $"[3] && "), !["[3] != "), $"[3] && "), $"[3] != "), intent($"[3]
    ensures " >= "[1] != " < "[1]
  {
  }

  lemma ScopeTailsClash()
    ensures Diverge(Tail(ScopeSubsetRe), Tail(GrantScopeRe))
  {
    OpenersClash();
  }

  lemma TimeTailsClash()
    ensures Diverge(Tail(TimeLowerRe), Tail(TimeUpperRe))
  {
    OpenersClash();
  }

  lemma IntentTailsClash()
    ensures Diverge(Tail(IntentBoundRe), Tail(GrantIntentRe))
  {
    OpenersClash();
  }

  lemma KeyedClash(x: Pattern, y: Pattern)
    requires Diverge(x, y)
    ensures Diverge(Keyed(x), Keyed(y))
  {
  }

  /** The argument tests, by what opens them. */
  lemma ArgOpenersClash()
    ensures Diverge(ArgTail(ArgNotInRe), ArgTail(ArgInRe))
    ensures Diverge(ArgTail(ArgNotInRe), ArgTail(ArgNumberRe)) && Diverge(ArgTail(ArgInRe), ArgTail(ArgNumberRe))
    ensures Diverge(ArgTail(ArgNotInRe), ArgTail(ArgStringRe)) && Diverge(ArgTail(ArgInRe), ArgTail(ArgStringRe))
  {
    OpenersClash();
  }

  /** A number and a text, only by what comes last. */
  lemma ArgTermsClash()
    ensures Diverge(ArgTail(ArgNumberRe), ArgTail(ArgStringRe))
  {
    assert Opposed(NumberEnd(), Lit("\"", TextEnd()));
  }

  lemma ArgTailsClash(k: Kind, l: Kind)
    requires IsArg(k) && IsArg(l) && k != l
    ensures Diverge(Tail(k), Tail(l)) || Diverge(Tail(l), Tail(k))
  {
    ArgOpenersClash();
    ArgTermsClash();
    if Diverge(ArgTail(k), ArgTail(l)) {
      KeyedClash(ArgTail(k), ArgTail(l));
    } else {
      KeyedClash(ArgTail(l), ArgTail(k));
    }
  }

  lemma TailsClash(k: Kind, l: Kind)
    requires k != l && Head(k) == Head(l)
    ensures Diverge(Tail(k), Tail(l)) || Diverge(Tail(l), Tail(k))
  {
    SameHead(k, l);
    if IsArg(k) {
      ArgTailsClash(k, l);
    } else {
      ScopeTailsClash();
      TimeTailsClash();
      IntentTailsClash();
    }
  }

  /** Which shapes begin alike. */
  lemma SameHead(k: Kind, l: Kind)
    requires Head(k) == Head(l)
    ensures k == l
      || (k in {ScopeSubsetRe, GrantScopeRe} && l in {ScopeSubsetRe, GrantScopeRe})
      || (k in {TimeLowerRe, TimeUpperRe} && l in {TimeLowerRe, TimeUpperRe})
      || (k in {IntentBoundRe, GrantIntentRe} && l in {IntentBoundRe, GrantIntentRe})
      || (IsArg(k) && IsArg(l))
  {
    var a, b := Head(k), Head(l);
    assert a[0] == b[0] && a[9] == b[9] && a[10] == b[10];
    assert |a| > 16 ==> a[16] == b[16];
  }

  /** At most one shape fits any text, so the order of the table decides nothing. */
  lemma OneShapeAtMost(k: Kind, l: Kind, statement: string)
    requires k != l
    ensures Recognize(Grammar(k), statement, "").None? || Recognize(Grammar(l), statement, "").None?
  {
    if Head(k) != Head(l) {
      var j := HeadsDiffer(k, l);
      OpposedExclude(Grammar(k), Grammar(l), statement, "");
    } else {
      TailsClash(k, l);
      if Diverge(Tail(k), Tail(l)) {
        DivergingExclude(Grammar(k), Grammar(l), statement, "");
      } else {
        DivergingExclude(Grammar(l), Grammar(k), statement, "");
      }
    }
  }
}
