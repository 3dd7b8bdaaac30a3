/**
 Splitting rendered block source into statements. The shipped splitter cuts on quotes first;
 its meaning is the character loop it replaced, which toggles a quote state.
 */
module Splitter {
  import opened Strings

  /** What `str.strip` removes. */
  predicate IsSpace(c: char) {
    var n := c as int;
    || 0x09 <= n <= 0x0d || 0x1c <= n <= 0x20 || n == 0x85 || n == 0xa0 || n == 0x1680
    || 0x2000 <= n <= 0x200a || n == 0x2028 || n == 0x2029 || n == 0x202f || n == 0x205f || n == 0x3000
  }

  function StripLeft(s: string): (r: string) {
    if s != "" && IsSpace(s[0]) then StripLeft(s[1..]) else s
  }

  function StripRight(s: string): (r: string) {
    if s != "" && IsSpace(s[|s| - 1]) then StripRight(s[..|s| - 1]) else s
  }

  function Strip(s: string): (r: string) { StripRight(StripLeft(s)) }

  /** Only white space is lost, and none is left at the ends. */
  lemma {:induction false} StripMeans(s: string)
    ensures exists i, j :: (
      0 <= i <= j <= |s| && Strip(s) == s[i..j] && forall k :: (0 <= k < i || j <= k < |s|) ==> IsSpace(s[k]))
    ensures Strip(s) == "" || Trimmed(Strip(s))
  {
    var i := LeftSpaces(s);
    var j := RightSpaces(StripLeft(s));
    assert StripLeft(s)[..j] == s[i..i + j];
    assert forall k :: i + j <= k < |s| ==> s[k] == StripLeft(s)[k - i];
  }

  lemma {:induction false} LeftSpaces(s: string) returns (i: nat)
    ensures i <= |s| && StripLeft(s) == s[i..] && (forall k :: 0 <= k < i ==> IsSpace(s[k]))
    ensures StripLeft(s) == "" || !IsSpace(StripLeft(s)[0])
  {
    i := 0;
    if s != "" && IsSpace(s[0]) {
      var more := LeftSpaces(s[1..]);
      i := more + 1;
      assert forall k :: 0 < k < i ==> s[k] == s[1..][k - 1];
    }
  }

  lemma {:induction false} RightSpaces(s: string) returns (j: nat)
    ensures j <= |s| && StripRight(s) == s[..j] && (forall k :: j <= k < |s| ==> IsSpace(s[k]))
    ensures StripRight(s) == "" || !IsSpace(StripRight(s)[|StripRight(s)| - 1])
  {
    j := |s|;
    if s != "" && IsSpace(s[|s| - 1]) {
      j := RightSpaces(s[..|s| - 1]);
    }
  }

  /** Statements cut so far, the text since the last cut, and whether the cap was reached. */
  datatype Scan = Scan(statements: seq<string>, current: string, full: bool)

  /** A cut: the text so far becomes a statement, and the cap is looked at. */
  function Cut(st: Scan, cap: nat): (r: Scan) {
    var statements := st.statements + [Strip(st.current)];
    if |statements| >= cap then Scan(statements, st.current, true) else Scan(statements, "", false)
  }

  /** The character loop. */
  function CharScan(src: string, inQuote: bool, st: Scan, cap: nat): (r: Scan)
    decreases |src|
  {
    if src == "" || st.full then st
    else if src[0] == QUOTE then CharScan(src[1..], !inQuote, st.(current := st.current + [QUOTE]), cap)
    else if src[0] == ';' && !inQuote then CharScan(src[1..], false, Cut(st, cap), cap)
    else CharScan(src[1..], inQuote, st.(current := st.current + [src[0]]), cap)
  }

  function NonEmpty(statements: seq<string>): (r: seq<string>) {
    if statements == [] then []
    else NonEmpty(statements[..|statements| - 1])
         + (if statements[|statements| - 1] == "" then [] else [statements[|statements| - 1]])
  }

  /** What is left after the last cut is a statement too, unless the cap ended the scan. */
  function Finish(st: Scan): (r: seq<string>) {
    if st.full || Strip(st.current) == "" then NonEmpty(st.statements)
    else NonEmpty(st.statements + [Strip(st.current)])
  }

  const START: Scan := Scan([], "", false)

  /** The specification: one pass over the characters with a quote state. */
  function Statements(src: string, cap: nat): (r: seq<string>) { Finish(CharScan(src, false, START, cap)) }

  // ------------------------------------------------------------------------------------
  // The fast form
  // ------------------------------------------------------------------------------------

  /** `str.split` on a single character. */
  function Split(s: string, sep: char): (r: seq<string>)
    ensures r != []
    ensures forall i :: 0 <= i < |r| ==> sep !in r[i]
  {
    if s == "" then [""]
    else
      var rest := Split(s[1..], sep);
      if s[0] == sep then [""] + rest else [[s[0]] + rest[0]] + rest[1..]
  }

  /** The text that `str.split` cut, from part `i` on. */
  function Rejoined(parts: seq<string>, i: nat, sep: char): (r: string)
    requires i < |parts|
    decreases |parts| - i
  {
    if i == |parts| - 1 then parts[i] else parts[i] + [sep] + Rejoined(parts, i + 1, sep)
  }

  lemma {:induction false} RejoinedShift(head: string, rest: seq<string>, i: nat, sep: char)
    requires i < |rest|
    ensures Rejoined([head] + rest, i + 1, sep) == Rejoined(rest, i, sep)
    decreases |rest| - i
  {
    if i < |rest| - 1 {
      RejoinedShift(head, rest, i + 1, sep);
    }
  }

  lemma {:induction false} RejoinedHead(c: char, parts: seq<string>, sep: char)
    requires parts != []
    ensures Rejoined([[c] + parts[0]] + parts[1..], 0, sep) == [c] + Rejoined(parts, 0, sep)
  {
    var grown := [[c] + parts[0]] + parts[1..];
    if |parts| > 1 {
      RejoinedShift([c] + parts[0], parts[1..], 0, sep);
      RejoinedShift(parts[0], parts[1..], 0, sep);
      assert parts == [parts[0]] + parts[1..];
      assert grown[0] + [sep] + Rejoined(grown, 1, sep) == [c] + (parts[0] + [sep] + Rejoined(parts, 1, sep));
    }
  }

  lemma {:induction false} SplitRejoins(s: string, sep: char)
    ensures Rejoined(Split(s, sep), 0, sep) == s
  {
    if s != "" {
      var rest := Split(s[1..], sep);
      SplitRejoins(s[1..], sep);
      if s[0] == sep {
        RejoinedShift("", rest, 0, sep);
        assert Split(s, sep)[0] == "";
      } else {
        RejoinedHead(s[0], rest, sep);
      }
      assert s == [s[0]] + s[1..];
    }
  }

  lemma FullStays(src: string, inQuote: bool, st: Scan, cap: nat)
    requires st.full
    ensures CharScan(src, inQuote, st, cap) == st
  {
  }

  /** Text with no quote and no `;` only accumulates, inside a literal or out. */
  lemma {:induction false} ScanPlain(text: string, tail: string, inQuote: bool, st: Scan, cap: nat)
    requires QUOTE !in text && (inQuote || ';' !in text) && !st.full
    ensures CharScan(text + tail, inQuote, st, cap)
         == CharScan(tail, inQuote, st.(current := st.current + text), cap)
    decreases |text|
  {
    if text == "" {
      assert text + tail == tail && st.current + text == st.current;
    } else {
      assert (text + tail)[0] == text[0] && (text + tail)[1..] == text[1..] + tail;
      ScanPlain(text[1..], tail, inQuote, st.(current := st.current + [text[0]]), cap);
      assert st.current + [text[0]] + text[1..] == st.current + text;
    }
  }

  /** A literal between quotes is carried over whole. */
  lemma ScanLiteral(text: string, tail: string, st: Scan, cap: nat)
    requires QUOTE !in text && !st.full
    ensures CharScan([QUOTE] + text + [QUOTE] + tail, false, st, cap)
         == CharScan(tail, false, st.(current := st.current + ([QUOTE] + text + [QUOTE])), cap)
  {
    var src := [QUOTE] + text + [QUOTE] + tail;
    var begun := st.(current := st.current + [QUOTE]);
    assert src[1..] == text + ([QUOTE] + tail);
    ScanPlain(text, [QUOTE] + tail, true, begun, cap);
    assert ([QUOTE] + tail)[1..] == tail;
    assert st.current + [QUOTE] + text + [QUOTE] == st.current + ([QUOTE] + text + [QUOTE]);
  }

  /** An unterminated literal runs to the end of the text. */
  lemma ScanUnterminated(text: string, st: Scan, cap: nat)
    requires QUOTE !in text && !st.full
    ensures CharScan([QUOTE] + text, false, st, cap) == st.(current := st.current + ([QUOTE] + text))
  {
    var begun := st.(current := st.current + [QUOTE]);
    assert ([QUOTE] + text)[1..] == text && text + "" == text;
    ScanPlain(text, "", true, begun, cap);
    assert st.current + [QUOTE] + text == st.current + ([QUOTE] + text);
  }

  /** Text that begins with a cut. */
  lemma ScanCut(tail: string, st: Scan, cap: nat)
    requires !st.full
    ensures CharScan([';'] + tail, false, st, cap) == CharScan(tail, false, Cut(st, cap), cap)
  {
    assert ([';'] + tail)[1..] == tail;
  }

  lemma SplitNoQuotes(segment: string)
    requires QUOTE !in segment
    ensures forall i :: 0 <= i < |Split(segment, ';')| ==> QUOTE !in Split(segment, ';')[i]
  {
    if segment != "" {
      SplitNoQuotes(segment[1..]);
    }
  }

  /** What the loop over one unquoted segment leaves, given the text that follows it. */
  method Unquoted(segment: string, st: Scan, cap: nat, ghost tail: string) returns (r: Scan)
    requires QUOTE !in segment && !st.full
    ensures CharScan(segment + tail, false, st, cap) == CharScan(tail, false, r, cap)
  {
    hide CharScan;
    var pieces := Split(segment, ';');
    SplitRejoins(segment, ';');
    SplitNoQuotes(segment);
    r := st.(current := st.current + pieces[0]);
    ghost var whole := CharScan(segment + tail, false, st, cap);
    ghost var rest := if |pieces| == 1 then "" else [';'] + Rejoined(pieces, 1, ';');
    assert segment + tail == pieces[0] + (rest + tail);
    ScanPlain(pieces[0], rest + tail, false, st, cap);
    var i := 1;
    while i < |pieces|
      invariant 1 <= i <= |pieces| && !r.full
      invariant whole == CharScan((if i == |pieces| then "" else [';'] + Rejoined(pieces, i, ';')) + tail, false, r, cap)
    {
      ghost var after := if i + 1 == |pieces| then "" else [';'] + Rejoined(pieces, i + 1, ';');
      assert ([';'] + Rejoined(pieces, i, ';')) + tail == [';'] + (pieces[i] + (after + tail));
      ScanCut(pieces[i] + (after + tail), r, cap);
      r := Cut(r, cap);
      if r.full {
        FullStays(pieces[i] + (after + tail), false, r, cap);
        FullStays(tail, false, r, cap);
        return;
      }
      ScanPlain(pieces[i], after + tail, false, r, cap);
      assert "" + pieces[i] == pieces[i];
      r := r.(current := pieces[i]);
      i := i + 1;
    }
    assert "" + tail == tail;
  }

  /**
   The shipped splitter, on every text: unterminated literals, semicolons and newlines inside
   literals, and the cap, it cuts exactly where the character loop does.
   */
  method FastStatements(source: string, cap: nat) returns (r: seq<string>)
    ensures r == Statements(source, cap)
  {
    var segments := Split(source, QUOTE);
    var last := |segments| - 1;
    var st := START;
    SplitRejoins(source, QUOTE);
    var index := 0;
    while index <= last
      invariant 0 <= index <= |segments| && !st.full
      invariant CharScan(source, false, START, cap) == CharScan(Ahead(segments, index), false, st, cap)
    {
      ghost var tail := Ahead(segments, index + 1);
      if index % 2 == 1 {
        AheadQuoted(segments, index);
        if index != last {
          ScanLiteral(segments[index], tail, st, cap);
          st := st.(current := st.current + ([QUOTE] + segments[index] + [QUOTE]));
        } else {
          ScanUnterminated(segments[index], st, cap);
          st := st.(current := st.current + ([QUOTE] + segments[index]));
        }
      } else {
        AheadPlain(segments, index);
        st := Unquoted(segments[index], st, cap, tail);
        if st.full {
          FullStays(tail, false, st, cap);
          return NonEmpty(st.statements);
        }
      }
      index := index + 1;
    }
    r := Finish(st);
  }

  /** The text still ahead at a segment; a literal's opening quote belongs to it. */
  function Ahead(segments: seq<string>, index: nat): (r: string)
    requires segments != [] && index <= |segments|
  {
    if index == |segments| then ""
    else if index % 2 == 1 then [QUOTE] + Rejoined(segments, index, QUOTE)
    else Rejoined(segments, index, QUOTE)
  }

  lemma AheadQuoted(segments: seq<string>, index: nat)
    requires index < |segments| && index % 2 == 1
    ensures Ahead(segments, index) ==
      if index == |segments| - 1 then [QUOTE] + segments[index]
      else [QUOTE] + segments[index] + [QUOTE] + Ahead(segments, index + 1)
  {
  }

  lemma AheadPlain(segments: seq<string>, index: nat)
    requires index < |segments| && index % 2 == 0
    ensures Ahead(segments, index) == segments[index] + Ahead(segments, index + 1)
  {
  }

  // ------------------------------------------------------------------------------------
  // Well-formed source
  // ------------------------------------------------------------------------------------

  /** Quotes are balanced and every `;` is inside a literal. */
  predicate Closed(text: string, inQuote: bool)
    decreases |text|
  {
    if text == "" then !inQuote
    else if text[0] == QUOTE then Closed(text[1..], !inQuote)
    else (inQuote || text[0] != ';') && Closed(text[1..], inQuote)
  }

  predicate Trimmed(text: string) { text != "" && !IsSpace(text[0]) && !IsSpace(text[|text| - 1]) }

  lemma {:induction false} ScanClosed(text: string, inQuote: bool, tail: string, st: Scan, cap: nat)
    requires Closed(text, inQuote) && !st.full
    ensures CharScan(text + tail, inQuote, st, cap)
         == CharScan(tail, false, st.(current := st.current + text), cap)
    decreases |text|
  {
    if text == "" {
      assert text + tail == tail && st.current + text == st.current;
    } else {
      assert (text + tail)[0] == text[0] && (text + tail)[1..] == text[1..] + tail;
      ScanClosed(text[1..], if text[0] == QUOTE then !inQuote else inQuote, tail,
                 st.(current := st.current + [text[0]]), cap);
      assert st.current + [text[0]] + text[1..] == st.current + text;
    }
  }

  /** No `;` outside a literal; the last literal may be unterminated. */
  predicate Uncut(text: string, inQuote: bool)
    decreases |text|
  {
    text == ""
    || (if text[0] == QUOTE then Uncut(text[1..], !inQuote) else (inQuote || text[0] != ';') && Uncut(text[1..], inQuote))
  }

  /** The source cut at exactly the `;` outside literals. */
  predicate CutsInto(source: string, pieces: seq<string>) {
    && pieces != [] && source == Rejoined(pieces, 0, ';')
    && (forall i :: 0 <= i < |pieces| - 1 ==> Closed(pieces[i], false))
    && Uncut(pieces[|pieces| - 1], false)
  }

  lemma {:induction false} ScanUncut(text: string, inQuote: bool, st: Scan, cap: nat)
    requires Uncut(text, inQuote) && !st.full
    ensures CharScan(text, inQuote, st, cap) == st.(current := st.current + text)
    decreases |text|
  {
    if text == "" {
      assert st.current + text == st.current;
    } else {
      ScanUncut(text[1..], if text[0] == QUOTE then !inQuote else inQuote, st.(current := st.current + [text[0]]), cap);
      assert st.current + [text[0]] + text[1..] == st.current + text;
    }
  }

  function Stripped(pieces: seq<string>): (r: seq<string>)
    ensures |r| == |pieces|
  {
    seq(|pieces|, i requires 0 <= i < |pieces| => Strip(pieces[i]))
  }

  lemma {:induction false} PiecesScan(pieces: seq<string>, i: nat, cap: nat)
    requires i < |pieces| && i < cap && CutsInto(Rejoined(pieces, 0, ';'), pieces)
    ensures Finish(CharScan(Rejoined(pieces, i, ';'), false, Scan(Stripped(pieces)[..i], "", false), cap))
         == NonEmpty(if |pieces| <= cap then Stripped(pieces) else Stripped(pieces)[..cap])
    decreases |pieces| - i
  {
    hide CharScan, Closed, Uncut, Strip;
    var all := Stripped(pieces);
    var st := Scan(all[..i], "", false);
    assert "" + pieces[i] == pieces[i] && all[..i + 1] == all[..i] + [Strip(pieces[i])];
    if i == |pieces| - 1 {
      ScanUncut(pieces[i], false, st, cap);
      assert all[..i + 1] == all;
    } else {
      var tail := Rejoined(pieces, i + 1, ';');
      assert pieces[i] + [';'] + tail == pieces[i] + ([';'] + tail);
      ScanClosed(pieces[i], false, [';'] + tail, st, cap);
      ScanCut(tail, st.(current := pieces[i]), cap);
      if i + 1 < cap {
        PiecesScan(pieces, i + 1, cap);
      } else {
        FullStays(tail, false, Cut(st.(current := pieces[i]), cap), cap);
        assert all[..cap] == all[..i + 1];
      }
    }
  }

  /** Every source is cut one way; a piece ends where a `;` is met outside a literal. */
  lemma {:induction false} PiecesExist(source: string, inQuote: bool) returns (pieces: seq<string>)
    ensures pieces != [] && source == Rejoined(pieces, 0, ';')
    ensures if |pieces| == 1 then Uncut(pieces[0], inQuote) else Closed(pieces[0], inQuote)
    ensures forall i :: 0 < i < |pieces| - 1 ==> Closed(pieces[i], false)
    ensures |pieces| > 1 ==> Uncut(pieces[|pieces| - 1], false)
    decreases |source|
  {
    if source == "" {
      pieces := [""];
    } else if source[0] == ';' && !inQuote {
      var more := PiecesExist(source[1..], false);
      pieces := [""] + more;
      RejoinedShift("", more, 0, ';');
      assert source == [source[0]] + source[1..];
    } else {
      var more := PiecesExist(source[1..], if source[0] == QUOTE then !inQuote else inQuote);
      pieces := [[source[0]] + more[0]] + more[1..];
      RejoinedHead(source[0], more, ';');
      assert source == [source[0]] + source[1..];
      assert pieces[0][1..] == more[0];
    }
  }

  /**
   Any source is cut at exactly the `;` outside literals. Its statements are those pieces,
   trimmed, the first `cap` of them, without the blank ones: no text is lost but white space.
   */
  lemma SourceSplits(source: string, cap: nat)
    requires cap > 0
    ensures exists pieces :: CutsInto(source, pieces)
    ensures forall pieces :: CutsInto(source, pieces) ==>
      Statements(source, cap) == NonEmpty(if |pieces| <= cap then Stripped(pieces) else Stripped(pieces)[..cap])
  {
    hide CharScan, Closed, Uncut, Strip, Finish, NonEmpty;
    var pieces := PiecesExist(source, false);
    assert CutsInto(source, pieces);
    forall pieces | CutsInto(source, pieces)
      ensures Statements(source, cap) == NonEmpty(if |pieces| <= cap then Stripped(pieces) else Stripped(pieces)[..cap])
    {
      PiecesScan(pieces, 0, cap);
      assert Stripped(pieces)[..0] == [];
    }
  }

  /** Each statement on its own line, ended by `;`, as the renderer writes a block. */
  function Rendered(statements: seq<string>): (r: string) {
    if statements == [] then "" else Rendered(statements[..|statements| - 1]) + statements[|statements| - 1] + ";\n"
  }

  lemma StripNewline(text: string)
    requires Trimmed(text)
    ensures Strip("\n" + text) == text && Strip(text) == text
  {
    assert ("\n" + text)[1..] == text;
    assert StripLeft(text) == text;
  }

  lemma {:induction false} NonEmptyAll(statements: seq<string>)
    requires forall i :: 0 <= i < |statements| ==> statements[i] != ""
    ensures NonEmpty(statements) == statements
  {
    if statements != [] {
      NonEmptyAll(statements[..|statements| - 1]);
      assert statements == statements[..|statements| - 1] + [statements[|statements| - 1]];
    }
  }

  ghost predicate WellFormed(statements: seq<string>) {
    forall i :: 0 <= i < |statements| ==> Closed(statements[i], false) && Trimmed(statements[i])
  }

  lemma {:induction false} RejoinedGrows(parts: seq<string>, i: nat, x: string, y: string, sep: char)
    requires i < |parts|
    ensures
      var n := |parts| - 1;
      Rejoined(parts[..n] + [parts[n] + x, y], i, sep) == Rejoined(parts, i, sep) + x + [sep] + y
    decreases |parts| - i
  {
    var n := |parts| - 1;
    var grown := parts[..n] + [parts[n] + x, y];
    if i < n {
      RejoinedGrows(parts, i + 1, x, y, sep);
      var more := Rejoined(parts, i + 1, sep);
      assert parts[i] + [sep] + (more + x + [sep] + y) == (parts[i] + [sep] + more) + x + [sep] + y;
    }
  }

  /** The pieces of a rendered block: each line's newline opens the next piece. */
  function Lines(statements: seq<string>): (r: seq<string>)
    ensures |r| == |statements| + 1
  {
    if statements == [] then [""]
    else
      var n := |statements| - 1;
      var init := Lines(statements[..n]);
      init[..n] + [init[n] + statements[n], "\n"]
  }

  lemma {:induction false} RenderedCuts(statements: seq<string>)
    requires WellFormed(statements)
    ensures CutsInto(Rendered(statements), Lines(statements))
    ensures Stripped(Lines(statements)) == statements + [""]
    ensures Lines(statements)[|statements|] == if statements == [] then "" else "\n"
  {
    hide Rejoined, Closed, Uncut, Strip, Trimmed;
    if statements == [] {
      NothingCuts();
    } else {
      var n := |statements| - 1;
      var init, last := Lines(statements[..n]), statements[n];
      RenderedCuts(statements[..n]);
      RejoinedGrows(init, 0, last, "\n", ';');
      assert Rendered(statements[..n]) + last + [';'] + "\n" == Rendered(statements[..n]) + last + ";\n";
      LineCut(last);
      LineStripped(init, last, statements[..n]);
      assert statements[..n] + [last] == statements;
    }
  }

  lemma NothingCuts()
    ensures CutsInto("", [""]) && Stripped([""]) == [""] && Rendered([]) == ""
  {
  }

  lemma LineStripped(init: seq<string>, last: string, done: seq<string>)
    requires |init| == |done| + 1 && Stripped(init) == done + [""] && Strip(init[|done|] + last) == last && Strip("\n") == ""
    ensures
      var n := |done|;
      Stripped(init[..n] + [init[n] + last, "\n"]) == done + [last] + [""]
  {
    hide Strip;
    var n := |done|;
    var all := init[..n] + [init[n] + last, "\n"];
    assert forall i :: 0 <= i < n ==> Stripped(all)[i] == Stripped(init)[i] == done[i];
  }

  lemma LineCut(last: string)
    requires Closed(last, false) && Trimmed(last)
    ensures "" + last == last && Closed("\n" + last, false) && Strip("\n" + last) == last == Strip(last)
    ensures Uncut("\n", false) && Strip("\n") == ""
  {
    assert ("\n" + last)[1..] == last && "\n"[1..] == "";
    StripNewline(last);
  }

  /**
   Rendering a block and splitting it gives its statements back, up to the cap; those past
   it are gone.
   */
  lemma RenderedSplits(statements: seq<string>, cap: nat)
    requires cap > 0 && WellFormed(statements)
    ensures Statements(Rendered(statements), cap) == if |statements| <= cap then statements else statements[..cap]
  {
    hide CutsInto, WellFormed, Statements;
    RenderedCuts(statements);
    SourceSplits(Rendered(statements), cap);
    var kept := if |statements| < cap then statements else statements[..cap];
    NotBlank(statements);
    NonEmptyAll(kept);
    if |statements| < cap {
      assert (statements + [""])[..|statements|] == statements;
    } else {
      assert (statements + [""])[..cap] == kept;
      assert |statements| == cap ==> kept == statements;
    }
  }

  lemma NotBlank(statements: seq<string>)
    requires WellFormed(statements)
    ensures forall i :: 0 <= i < |statements| ==> statements[i] != ""
  {
  }
}
