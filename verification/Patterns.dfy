/**
 Anchored patterns as data: literals, runs of a character class, and references back to the
 one variable. A run takes every character of its class, as far as it goes; where the next
 piece begins outside the class this is the only way the pattern can match.
 */
module Patterns {
  import opened Digits
  import opened Stamps
  import opened Wrappers

  datatype Class = Ident | Plain | Inner | Number | DateC | OpC

  datatype Pattern = End | Lit(text: string, rest: Pattern) | Run(cls: Class, rest: Pattern) | Use(rest: Pattern)

  predicate IsLetter(c: char) { 'a' <= c <= 'z' || 'A' <= c <= 'Z' || c == '_' }

  predicate InClass(cls: Class, c: char) {
    match cls
    case Ident => IsLetter(c) || IsDigit(c)
    case Plain => c != '"'
    case Inner => c != ']'
    case Number => IsDigit(c) || c == '-'
    case DateC => IsDigit(c) || c == '-' || c == 'T' || c == ':' || c == 'Z'
    case OpC => c == '<' || c == '>' || c == '=' || c == '!'
  }

  predicate IsOperator(run: string) {
    run == "<=" || run == "<" || run == ">=" || run == ">" || run == "==" || run == "!="
  }

  predicate Shaped(cls: Class, run: string) {
    && (forall i :: 0 <= i < |run| ==> InClass(cls, run[i]))
    && match cls
       case Ident => run != "" && IsLetter(run[0])
       case Plain => true
       case Inner => true
       case Number => IsIntText(run)
       case DateC => IsDateText(run)
       case OpC => IsOperator(run)
  }

  /** How many characters of its class a run takes. */
  function Munch(cls: Class, s: string): (n: nat)
    ensures n <= |s| && forall i :: 0 <= i < n ==> InClass(cls, s[i])
    ensures n < |s| ==> !InClass(cls, s[n])
  {
    if s == "" || !InClass(cls, s[0]) then 0 else 1 + Munch(cls, s[1..])
  }

  /** The captured runs in order; `v` is the variable bound so far. */
  function Recognize(p: Pattern, s: string, v: string): (r: Option<seq<string>>)
    decreases p
  {
    match p
    case End => if s == "" then Some([]) else None
    case Lit(text, rest) => if text <= s then Recognize(rest, s[|text|..], v) else None
    case Use(rest) => if v <= s then Recognize(rest, s[|v|..], v) else None
    case Run(cls, rest) =>
      var n := Munch(cls, s);
      if !Shaped(cls, s[..n]) then None
      else
        var more := Recognize(rest, s[n..], if cls.Ident? then s[..n] else v);
        if more.None? then None else Some([s[..n]] + more.value)
  }

  /** The text with these runs put in, from run `i` on. */
  function Render(p: Pattern, caps: seq<string>, i: nat, v: string): (s: string)
    requires i + Runs(p) == |caps|
    decreases p
  {
    match p
    case End => ""
    case Lit(text, rest) => text + Render(rest, caps, i, v)
    case Use(rest) => v + Render(rest, caps, i, v)
    case Run(cls, rest) => caps[i] + Render(rest, caps, i + 1, if cls.Ident? then caps[i] else v)
  }

  function Runs(p: Pattern): (n: nat) {
    match p
    case End => 0
    case Lit(_, rest) => Runs(rest)
    case Use(rest) => Runs(rest)
    case Run(_, rest) => 1 + Runs(rest)
  }

  predicate Fits(p: Pattern, caps: seq<string>, i: nat)
    requires i + Runs(p) == |caps|
    decreases p
  {
    match p
    case End => true
    case Lit(_, rest) => Fits(rest, caps, i)
    case Use(rest) => Fits(rest, caps, i)
    case Run(cls, rest) => Shaped(cls, caps[i]) && Fits(rest, caps, i + 1)
  }

  /** Every run is ended by the text's end or by a literal that starts outside its class. */
  predicate Delimited(p: Pattern) {
    match p
    case End => true
    case Lit(_, rest) => Delimited(rest)
    case Use(rest) => Delimited(rest)
    case Run(cls, rest) =>
      && (rest.End? || (rest.Lit? && rest.text != "" && !InClass(cls, rest.text[0])))
      && Delimited(rest)
  }

  lemma {:induction false} MunchStops(cls: Class, run: string, tail: string)
    requires forall i :: 0 <= i < |run| ==> InClass(cls, run[i])
    requires tail == "" || !InClass(cls, tail[0])
    ensures Munch(cls, run + tail) == |run|
    decreases |run|
  {
    if run == "" {
      assert run + tail == tail;
    } else {
      assert (run + tail)[1..] == run[1..] + tail && (run + tail)[0] == run[0];
      MunchStops(cls, run[1..], tail);
    }
  }

  /** A pattern recognizes every text it renders, and captures what was put in. */
  lemma {:induction false} MatchRender(p: Pattern, caps: seq<string>, i: nat, v: string)
    requires i + Runs(p) == |caps| && Delimited(p) && Fits(p, caps, i)
    ensures Recognize(p, Render(p, caps, i, v), v) == Some(caps[i..])
    decreases p
  {
    var s := Render(p, caps, i, v);
    match p
    case End => assert caps[i..] == [];
    case Lit(text, rest) =>
      MatchRender(rest, caps, i, v);
      assert s[|text|..] == Render(rest, caps, i, v);
    case Use(rest) =>
      MatchRender(rest, caps, i, v);
      assert s[|v|..] == Render(rest, caps, i, v);
    case Run(cls, rest) =>
      var w := if cls.Ident? then caps[i] else v;
      var tail := Render(rest, caps, i + 1, w);
      MatchRender(rest, caps, i + 1, w);
      MunchStops(cls, caps[i], tail);
      assert s[..|caps[i]|] == caps[i] && s[|caps[i]|..] == tail;
      assert caps[i..] == [caps[i]] + caps[i + 1..];
  }

  /** A pattern recognizes only texts it renders: nothing of a recognized text is skipped. */
  lemma {:induction false} MatchOnlyRendered(p: Pattern, s: string, v: string, caps: seq<string>, i: nat)
    requires i <= |caps| && Recognize(p, s, v) == Some(caps[i..])
    ensures i + Runs(p) == |caps| && Fits(p, caps, i) && Render(p, caps, i, v) == s
    decreases p
  {
    match p
    case End =>
    case Lit(text, rest) => MatchOnlyRendered(rest, s[|text|..], v, caps, i);
    case Use(rest) => MatchOnlyRendered(rest, s[|v|..], v, caps, i);
    case Run(cls, rest) =>
      var n := Munch(cls, s);
      var w := if cls.Ident? then s[..n] else v;
      var more := Recognize(rest, s[n..], w).value;
      assert caps[i..] == [s[..n]] + more;
      assert caps[i] == caps[i..][0] && caps[i + 1..] == caps[i..][1..] == more;
      MatchOnlyRendered(rest, s[n..], w, caps, i + 1);
  }

  // -- patterns that exclude each other ----------------------------------------------------

  predicate NeedsOne(cls: Class) { !cls.Plain? && !cls.Inner? }

  /** These two cannot both begin at the same place. */
  predicate Opposed(p: Pattern, q: Pattern) {
    || (p.Lit? && q.Lit? && exists j :: 0 <= j < |p.text| && j < |q.text| && p.text[j] != q.text[j])
    || (p.Run? && q.Lit? && NeedsOne(p.cls) && q.text != "" && !InClass(p.cls, q.text[0]))
  }

  lemma PrefixesAgree(a: string, b: string, s: string, j: nat)
    requires j < |a| && j < |b|
    ensures a <= s && b <= s ==> a[j] == b[j]
  {
    if a <= s && b <= s {
      assert a[j] == s[j];
    }
  }

  lemma OpposedExclude(p: Pattern, q: Pattern, s: string, v: string)
    requires Opposed(p, q)
    ensures Recognize(p, s, v).None? || Recognize(q, s, v).None?
  {
    if p.Lit? {
      var j :| 0 <= j < |p.text| && j < |q.text| && p.text[j] != q.text[j];
      PrefixesAgree(p.text, q.text, s, j);
    }
  }

  /** Equal up to the place where they oppose each other. */
  predicate Diverge(p: Pattern, q: Pattern) {
    || Opposed(p, q) || Opposed(q, p)
    || (p.Lit? && q.Lit? && p.text == q.text && Diverge(p.rest, q.rest))
    || (p.Use? && q.Use? && Diverge(p.rest, q.rest))
    || (p.Run? && q.Run? && p.cls == q.cls && Diverge(p.rest, q.rest))
  }

  /** Two patterns that diverge recognize no text in common. */
  lemma {:induction false} DivergingExclude(p: Pattern, q: Pattern, s: string, v: string)
    requires Diverge(p, q)
    ensures Recognize(p, s, v).None? || Recognize(q, s, v).None?
    decreases p
  {
    if Opposed(p, q) {
      OpposedExclude(p, q, s, v);
    } else if Opposed(q, p) {
      OpposedExclude(q, p, s, v);
    } else if p.Lit? {
      if p.text <= s {
        DivergingExclude(p.rest, q.rest, s[|p.text|..], v);
      }
    } else if p.Use? {
      if v <= s {
        DivergingExclude(p.rest, q.rest, s[|v|..], v);
      }
    } else {
      var n := Munch(p.cls, s);
      DivergingExclude(p.rest, q.rest, s[n..], if p.cls.Ident? then s[..n] else v);
    }
  }
}
