/**
 The bytes of the canonical form, and a decoder for them. Printing a tree and decoding it
 gives the tree back whatever follows, so no two trees share their bytes.
 */
module Json {
  import opened Digits
  import opened Strings
  import opened Wrappers

  datatype Json =
    | JNull
    | JBool(b: bool)
    | JInt(i: int)
    | JStr(s: string)
    | JArr(items: seq<Json>)
    | JObj(fields: seq<(string, Json)>)

  const BACKSLASH: char := '\\'

  // ------------------------------------------------------------------------------------
  // Strings
  // ------------------------------------------------------------------------------------

  function HexDigit(n: nat): (c: char)
    requires n < 16
  {
    if n < 10 then DigitChar(n) else (n - 10) as char + 'a'
  }

  function HexValue(c: char): (r: Option<nat>)
    ensures r.Some? ==> r.value < 16
  {
    if IsDigit(c) then Some(DigitValue(c)) else if 'a' <= c <= 'f' then Some((c - 'a') as nat + 10) else None
  }

  predicate IsControl(c: char) { c as int < 0x20 || c as int == 0x7f }

  function Escape(c: char): (r: string)
    ensures r != "" && r[0] != QUOTE
  {
    if c == QUOTE then [BACKSLASH, QUOTE]
    else if c == BACKSLASH then [BACKSLASH, BACKSLASH]
    else if c == '\n' then [BACKSLASH, 'n']
    else if c == '\r' then [BACKSLASH, 'r']
    else if c == '\t' then [BACKSLASH, 't']
    else if IsControl(c) then [BACKSLASH, 'u', '0', '0', HexDigit(c as int / 16), HexDigit(c as int % 16)]
    else [c]
  }

  /**
   Only quotes, backslashes and control characters are escaped: five by a letter or themselves,
   the rest by their code in four small hexadecimal digits.
   */
  lemma EscapeWrites(c: char)
    ensures Escape(c) == [c] <==> 0x20 <= c as int && c as int != 0x7f && c != '"' && c != '\\'
    ensures Escape('"') == "\\\"" && Escape('\\') == "\\\\"
    ensures Escape('\n') == "\\n" && Escape('\r') == "\\r" && Escape('\t') == "\\t"
    ensures Escape(c) != [c] && c !in {'"', '\\', '\n', '\r', '\t'} ==>
      var e := Escape(c);
      && |e| == 6 && e[..4] == "\\u00" && HexValue(e[4]).Some? && HexValue(e[5]).Some?
      && 16 * HexValue(e[4]).value + HexValue(e[5]).value == c as int
  {
  }

  function Escaped(s: string): (r: string) {
    if s == "" then "" else Escaped(s[..|s| - 1]) + Escape(s[|s| - 1])
  }

  /** What section 7 of RFC 8259 lets stand between the quotes. */
  predicate IsBody(s: string)
    decreases |s|
  {
    if s == "" then true
    else if s[0] == BACKSLASH then
      && |s| > 1
      && (if s[1] == 'u' then
            |s| >= 6 && (forall k :: 2 <= k < 6 ==> HexValue(s[k]).Some?) && IsBody(s[6..])
          else
            s[1] in {QUOTE, BACKSLASH, '/', 'b', 'f', 'n', 'r', 't'} && IsBody(s[2..]))
    else s[0] != QUOTE && s[0] as int >= 0x20 && IsBody(s[1..])
  }

  lemma {:induction false} BodyAppend(a: string, b: string)
    requires IsBody(a) && IsBody(b)
    ensures IsBody(a + b)
    decreases |a|
  {
    if a == "" {
      assert a + b == b;
    } else if a[0] == BACKSLASH {
      var n := if a[1] == 'u' then 6 else 2;
      assert (a + b)[n..] == a[n..] + b;
      BodyAppend(a[n..], b);
    } else {
      assert (a + b)[1..] == a[1..] + b;
      BodyAppend(a[1..], b);
    }
  }

  lemma EscapeIsBody(c: char)
    ensures IsBody(Escape(c))
  {
  }

  /** Every control character, quote and backslash goes out escaped, as the standard demands. */
  lemma {:induction false} EscapedIsBody(s: string)
    ensures IsBody(Escaped(s))
  {
    if s != "" {
      EscapedIsBody(s[..|s| - 1]);
      EscapeIsBody(s[|s| - 1]);
      BodyAppend(Escaped(s[..|s| - 1]), Escape(s[|s| - 1]));
    }
  }

  /** One character off the front of a string body, with what is left. */
  function ReadChar(s: string): (r: Option<(char, string)>)
    requires s != "" && s[0] != QUOTE
    ensures r.Some? ==> |r.value.1| < |s|
  {
    if s[0] != BACKSLASH then Some((s[0], s[1..]))
    else if |s| < 2 then None
    else if s[1] == QUOTE || s[1] == BACKSLASH then Some((s[1], s[2..]))
    else if s[1] == 'n' then Some(('\n', s[2..]))
    else if s[1] == 'r' then Some(('\r', s[2..]))
    else if s[1] == 't' then Some(('\t', s[2..]))
    else if s[1] == 'u' && |s| >= 6 && s[2] == '0' && s[3] == '0' then
      var high, low := HexValue(s[4]), HexValue(s[5]);
      if high.Some? && low.Some? then Some(((16 * high.value + low.value) as char, s[6..])) else None
    else None
  }

  lemma ReadEscaped(c: char, rest: string)
    ensures ReadChar(Escape(c) + rest) == Some((c, rest))
  {
  }

  /** The body up to the closing quote, and what follows it. */
  function ReadBody(s: string): (r: Option<(string, string)>)
    ensures r.Some? ==> |r.value.1| < |s|
    decreases |s|
  {
    if s == "" then None
    else if s[0] == QUOTE then Some(("", s[1..]))
    else
      var c := ReadChar(s);
      if c.None? then None
      else
        var more := ReadBody(c.value.1);
        if more.None? then None else Some(([c.value.0] + more.value.0, more.value.1))
  }

  lemma {:induction false} EscapedHead(s: string)
    requires s != ""
    ensures Escaped(s) == Escape(s[0]) + Escaped(s[1..])
  {
    hide Escape;
    if |s| == 1 {
      assert s[..0] == "" && s[1..] == "";
    } else {
      var init, last := s[..|s| - 1], s[|s| - 1];
      EscapedHead(init);
      assert init[1..] == s[1..][..|s[1..]| - 1] && s[1..][|s[1..]| - 1] == last;
      Assoc(Escape(s[0]), Escaped(init[1..]), Escape(last));
    }
  }

  lemma {:induction false} ReadEscapedBody(s: string, rest: string)
    ensures ReadBody(Escaped(s) + [QUOTE] + rest) == Some((s, rest))
    decreases |s|
  {
    hide ReadChar, Escape;
    if s == "" {
      assert (Escaped(s) + [QUOTE] + rest)[1..] == rest;
    } else {
      EscapedHead(s);
      var tail := Escaped(s[1..]) + [QUOTE] + rest;
      assert Escaped(s) + [QUOTE] + rest == Escape(s[0]) + tail;
      ReadEscaped(s[0], tail);
      ReadEscapedBody(s[1..], rest);
      assert [s[0]] + s[1..] == s;
    }
  }

  function Literal(s: string): (r: string) { [QUOTE] + Escaped(s) + [QUOTE] }

  lemma EscapedNone()
    ensures Escaped("") == ""
  {
  }

  lemma EscapedStep(s: string, i: nat)
    requires i < |s|
    ensures Escaped(s[..i + 1]) == Escaped(s[..i]) + Escape(s[i])
  {
    hide Escape;
    assert s[..i + 1][..i] == s[..i];
  }

  /** The literal, one character at a time. */
  method EncodeString(s: string) returns (r: string)
    ensures r == Literal(s)
  {
    hide Escaped;
    r := [QUOTE];
    EscapedNone();
    for i := 0 to |s|
      invariant r == [QUOTE] + Escaped(s[..i])
    {
      EscapedStep(s, i);
      ghost var before := r;
      var c := s[i];
      if c == QUOTE {
        r := r + [BACKSLASH, QUOTE];
      } else if c == BACKSLASH {
        r := r + [BACKSLASH, BACKSLASH];
      } else if c == '\n' {
        r := r + [BACKSLASH, 'n'];
      } else if c == '\r' {
        r := r + [BACKSLASH, 'r'];
      } else if c == '\t' {
        r := r + [BACKSLASH, 't'];
      } else if IsControl(c) {
        r := r + [BACKSLASH, 'u', '0', '0', HexDigit(c as int / 16), HexDigit(c as int % 16)];
      } else {
        r := r + [c];
      }
      assert r == before + Escape(c);
    }
    assert s[..|s|] == s;
    r := r + [QUOTE];
  }

  // ------------------------------------------------------------------------------------
  // Printing and decoding
  // ------------------------------------------------------------------------------------

  function Print(j: Json): (s: string) {
    match j
    case JNull => "null"
    case JBool(b) => if b then "true" else "false"
    case JInt(i) => IntText(i)
    case JStr(t) => Literal(t)
    case JArr(items) => "[" + (PrintItems(items) + "]")
    case JObj(fields) => "{" + (PrintFields(fields) + "}")
  }

  function PrintItems(items: seq<Json>): (s: string) {
    if items == [] then ""
    else if |items| == 1 then Print(items[0])
    else Print(items[0]) + ("," + PrintItems(items[1..]))
  }

  function PrintField(field: (string, Json)): (s: string) { Literal(field.0) + (":" + Print(field.1)) }

  function PrintFields(fields: seq<(string, Json)>): (s: string) {
    if fields == [] then ""
    else if |fields| == 1 then PrintField(fields[0])
    else PrintField(fields[0]) + ("," + PrintFields(fields[1..]))
  }

  /** How much of the text a number takes. */
  function DigitRun(s: string): (n: nat)
    ensures n <= |s| && AllDigits(s[..n]) && (n < |s| ==> !IsDigit(s[n]))
  {
    if s == "" || !IsDigit(s[0]) then 0
    else
      var n := 1 + DigitRun(s[1..]);
      assert s[..n] == [s[0]] + s[1..][..n - 1];
      n
  }

  function ReadInt(s: string): (r: Option<(Json, string)>)
    ensures r.Some? ==> |r.value.1| < |s|
  {
    var sign := if s != "" && s[0] == '-' then 1 else 0;
    var n := sign + DigitRun(s[sign..]);
    if n == sign then None
    else
      assert IsIntText(s[..n]) by {
        assert s[..n][sign..] == s[sign..][..n - sign];
      }
      Some((JInt(IntOf(s[..n])), s[n..]))
  }

  function Decode(s: string): (r: Option<(Json, string)>)
    ensures r.Some? ==> |r.value.1| < |s|
    decreases |s|, 1
  {
    if s == "" then None
    else if "null" <= s then Some((JNull, s[4..]))
    else if "true" <= s then Some((JBool(true), s[4..]))
    else if "false" <= s then Some((JBool(false), s[5..]))
    else if s[0] == QUOTE then
      var body := ReadBody(s[1..]);
      if body.None? then None else Some((JStr(body.value.0), body.value.1))
    else if s[0] == '[' then
      if |s| > 1 && s[1] == ']' then Some((JArr([]), s[2..]))
      else
        var items := DecodeItems(s[1..]);
        if items.None? then None else Some((JArr(items.value.0), items.value.1))
    else if s[0] == '{' then
      if |s| > 1 && s[1] == '}' then Some((JObj([]), s[2..]))
      else
        var fields := DecodeFields(s[1..]);
        if fields.None? then None else Some((JObj(fields.value.0), fields.value.1))
    else ReadInt(s)
  }

  /** At least one item, up to and past the closing bracket. */
  function DecodeItems(s: string): (r: Option<(seq<Json>, string)>)
    ensures r.Some? ==> |r.value.1| < |s|
    decreases |s|, 2
  {
    var first := Decode(s);
    if first.None? || first.value.1 == "" then None
    else
      var rest := first.value.1;
      if rest[0] == ']' then Some(([first.value.0], rest[1..]))
      else if rest[0] == ',' then
        var more := DecodeItems(rest[1..]);
        if more.None? then None else Some(([first.value.0] + more.value.0, more.value.1))
      else None
  }

  function DecodeField(s: string): (r: Option<((string, Json), string)>)
    ensures r.Some? ==> |r.value.1| < |s|
    decreases |s|, 2
  {
    if s == "" || s[0] != QUOTE then None
    else
      var key := ReadBody(s[1..]);
      if key.None? || key.value.1 == "" || key.value.1[0] != ':' then None
      else
        var value := Decode(key.value.1[1..]);
        if value.None? then None else Some(((key.value.0, value.value.0), value.value.1))
  }

  function DecodeFields(s: string): (r: Option<(seq<(string, Json)>, string)>)
    ensures r.Some? ==> |r.value.1| < |s|
    decreases |s|, 3
  {
    var first := DecodeField(s);
    if first.None? || first.value.1 == "" then None
    else
      var rest := first.value.1;
      if rest[0] == '}' then Some(([first.value.0], rest[1..]))
      else if rest[0] == ',' then
        var more := DecodeFields(rest[1..]);
        if more.None? then None else Some(([first.value.0] + more.value.0, more.value.1))
      else None
  }

  // ------------------------------------------------------------------------------------
  // Decoding undoes printing
  // ------------------------------------------------------------------------------------

  /** What may follow a value: anything but a digit that would lengthen a number. */
  predicate Ends(rest: string) { rest == "" || !IsDigit(rest[0]) }

  lemma {:induction false} DigitRunStops(digits: string, rest: string)
    requires AllDigits(digits) && Ends(rest)
    ensures DigitRun(digits + rest) == |digits|
    decreases |digits|
  {
    if digits == "" {
      assert digits + rest == rest;
    } else {
      assert (digits + rest)[1..] == digits[1..] + rest && (digits + rest)[0] == digits[0];
      DigitRunStops(digits[1..], rest);
    }
  }

  lemma IntDecodes(i: int, rest: string)
    requires Ends(rest)
    ensures ReadInt(IntText(i) + rest) == Some((JInt(i), rest))
  {
    var t := IntText(i);
    var s := t + rest;
    IntRoundTrip(i);
    var sign := if i < 0 then 1 else 0;
    var digits := if i < 0 then NatText(-i) else NatText(i);
    assert t[sign..] == digits;
    assert s[sign..] == digits + rest;
    DigitRunStops(digits, rest);
    assert s[..|t|] == t && s[|t|..] == rest;
  }

  lemma FirstOf(j: Json)
    ensures
      var s := Print(j);
      && s != ""
      && (j.JNull? <==> s[0] == 'n') && (j.JBool? && j.b <==> s[0] == 't') && (j.JBool? && !j.b <==> s[0] == 'f')
      && (j.JStr? <==> s[0] == QUOTE) && (j.JArr? <==> s[0] == '[') && (j.JObj? <==> s[0] == '{')
      && s[0] != ']' && s[0] != '}'
  {
  }

  lemma ScalarDecodes(j: Json, rest: string)
    requires !j.JArr? && !j.JObj? && Ends(rest)
    ensures Decode(Print(j) + rest) == Some((j, rest))
  {
    hide ReadInt, ReadBody, Escaped, IntText;
    var s := Print(j) + rest;
    FirstOf(j);
    assert s[|Print(j)|..] == rest;
    if j.JInt? {
      IntDecodes(j.i, rest);
    } else if j.JStr? {
      ReadEscapedBody(j.s, rest);
      assert s[1..] == Escaped(j.s) + [QUOTE] + rest;
    }
  }

  lemma FirstOfItems(items: seq<Json>)
    requires items != []
    ensures PrintItems(items) != "" && PrintItems(items)[0] != ']'
  {
    FirstOf(items[0]);
  }

  lemma FirstOfFields(fields: seq<(string, Json)>)
    requires fields != []
    ensures PrintFields(fields) != "" && PrintFields(fields)[0] == QUOTE
  {
  }

  /** Decoding gives back the tree and exactly what followed it. */
  lemma {:induction false} DecodePrint(j: Json, rest: string)
    requires Ends(rest)
    ensures Decode(Print(j) + rest) == Some((j, rest))
    decreases j, 0
  {
    hide ReadInt, ReadBody, DecodeItems, DecodeFields, PrintItems, PrintFields;
    if j.JArr? {
      if j.items == [] {
        EmptyPrints();
        assert (Print(j) + rest)[2..] == rest;
      } else {
        FirstOfItems(j.items);
        DecodePrintItems(j.items, rest);
        var s := Print(j) + rest;
        assert s[1..] == PrintItems(j.items) + ("]" + rest);
        assert s[0] == '[' && s[1] != ']';
      }
    } else if j.JObj? {
      if j.fields == [] {
        EmptyPrints();
        assert (Print(j) + rest)[2..] == rest;
      } else {
        FirstOfFields(j.fields);
        DecodePrintFields(j.fields, rest);
        var s := Print(j) + rest;
        assert s[1..] == PrintFields(j.fields) + ("}" + rest);
        assert s[0] == '{' && s[1] == QUOTE;
      }
    } else {
      ScalarDecodes(j, rest);
    }
  }

  lemma EmptyPrints()
    ensures PrintItems([]) == "" && PrintFields([]) == ""
  {
  }

  lemma ItemsStep(s: string, item: Json, rest: string, tail: string, more: seq<Json>)
    ensures Decode(s) == Some((item, "]" + rest)) ==> DecodeItems(s) == Some(([item], rest))
    ensures Decode(s) == Some((item, "," + tail)) && DecodeItems(tail) == Some((more, rest)) ==>
      DecodeItems(s) == Some(([item] + more, rest))
  {
    hide Decode;
    assert ("]" + rest)[1..] == rest && ("," + tail)[1..] == tail;
  }

  lemma FieldsStep(s: string, field: (string, Json), rest: string, tail: string, more: seq<(string, Json)>)
    ensures DecodeField(s) == Some((field, "}" + rest)) ==> DecodeFields(s) == Some(([field], rest))
    ensures DecodeField(s) == Some((field, "," + tail)) && DecodeFields(tail) == Some((more, rest)) ==>
      DecodeFields(s) == Some(([field] + more, rest))
  {
    hide DecodeField;
    assert ("}" + rest)[1..] == rest && ("," + tail)[1..] == tail;
  }

  lemma {:induction false} DecodePrintItems(items: seq<Json>, rest: string)
    requires items != []
    ensures DecodeItems(PrintItems(items) + ("]" + rest)) == Some((items, rest))
    decreases items, 1
  {
    hide Decode, Print, DecodeItems;
    var head := Print(items[0]);
    if |items| == 1 {
      DecodePrint(items[0], "]" + rest);
      ItemsStep(head + ("]" + rest), items[0], rest, "", []);
      assert items == [items[0]];
    } else {
      var tail := PrintItems(items[1..]) + ("]" + rest);
      DecodePrint(items[0], "," + tail);
      DecodePrintItems(items[1..], rest);
      Assoc(head, "," + PrintItems(items[1..]), "]" + rest);
      Assoc(",", PrintItems(items[1..]), "]" + rest);
      ItemsStep(head + ("," + tail), items[0], rest, tail, items[1..]);
      assert items == [items[0]] + items[1..];
    }
  }

  lemma {:induction false} DecodePrintField(field: (string, Json), rest: string)
    requires Ends(rest)
    ensures DecodeField(PrintField(field) + rest) == Some((field, rest))
    decreases field, 1
  {
    hide Decode, Print, ReadBody, Escaped;
    var value := Print(field.1);
    DecodePrint(field.1, rest);
    ReadEscapedBody(field.0, ":" + (value + rest));
    assert (PrintField(field) + rest)[1..] == Escaped(field.0) + [QUOTE] + (":" + (value + rest));
    assert (":" + (value + rest))[1..] == value + rest;
  }

  lemma {:induction false} DecodePrintFields(fields: seq<(string, Json)>, rest: string)
    requires fields != []
    ensures DecodeFields(PrintFields(fields) + ("}" + rest)) == Some((fields, rest))
    decreases fields, 2
  {
    hide DecodeField, PrintField, DecodeFields;
    var head := PrintField(fields[0]);
    if |fields| == 1 {
      DecodePrintField(fields[0], "}" + rest);
      FieldsStep(head + ("}" + rest), fields[0], rest, "", []);
      assert fields == [fields[0]];
    } else {
      var tail := PrintFields(fields[1..]) + ("}" + rest);
      DecodePrintField(fields[0], "," + tail);
      DecodePrintFields(fields[1..], rest);
      Assoc(head, "," + PrintFields(fields[1..]), "}" + rest);
      Assoc(",", PrintFields(fields[1..]), "}" + rest);
      FieldsStep(head + ("," + tail), fields[0], rest, tail, fields[1..]);
      assert fields == [fields[0]] + fields[1..];
    }
  }

  /** No two trees share their bytes, even when more text follows. */
  lemma PrintInjective(a: Json, b: Json, x: string, y: string)
    requires Ends(x) && Ends(y) && Print(a) + x == Print(b) + y
    ensures a == b && x == y
  {
    hide Decode, Print;
    DecodePrint(a, x);
    DecodePrint(b, y);
  }
}
