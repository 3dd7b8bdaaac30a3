/** What the canonical encoding promises: nothing ambiguous, no order remembered, nothing coerced. */
module CanonicalLaws {
  import opened Digits
  import O = Ordering
  import Stamps
  import opened Wrappers

  import opened Canonical
  import opened Json
  import opened KeyedSort
  import opened Strings

  // ------------------------------------------------------------------------------------
  // Unambiguous
  // ------------------------------------------------------------------------------------

  /** The bytes of a value decode to its tree, whatever is written after them. */
  lemma EncodingDecodes(nfc: string -> string, v: Value, rest: string)
    requires Normalizer(nfc) && Encode(nfc, v).Found? && Ends(rest)
    ensures Canon(nfc, v).Found?
    ensures Decode(Encode(nfc, v).value + rest) == Some((Canon(nfc, v).value, rest))
  {
    hide Encode, Canon, Print, Decode, Normalizer;
    EncodePrintsCanon(nfc, v);
    DecodePrint(Canon(nfc, v).value, rest);
  }

  /** Two values have the same bytes exactly when they have the same tree. */
  lemma SameBytesIffSameTree(nfc: string -> string, v: Value, w: Value)
    requires Normalizer(nfc) && Encode(nfc, v).Found? && Encode(nfc, w).Found?
    ensures Encode(nfc, v) == Encode(nfc, w) <==> Canon(nfc, v) == Canon(nfc, w)
  {
    hide Encode, Canon, Print, Decode, Normalizer;
    EncodePrintsCanon(nfc, v);
    EncodePrintsCanon(nfc, w);
    if Encode(nfc, v) == Encode(nfc, w) {
      PrintInjective(Canon(nfc, v).value, Canon(nfc, w).value, "", "");
    }
  }

  // ------------------------------------------------------------------------------------
  // No order remembered
  // ------------------------------------------------------------------------------------

  function Gathered<A, B>(f: A -> Found<B>, s: seq<A>): (r: Found<seq<B>>) {
    if s == [] then Found([]) else Cons(f(s[0]), Gathered(f, s[1..]))
  }

  ghost predicate Alike<B>(x: Found<seq<B>>, y: Found<seq<B>>) {
    && (x.Found? <==> y.Found?) && (x.Rejected? <==> y.Rejected?)
    && (x.Found? ==> multiset(x.value) == multiset(y.value))
  }

  lemma {:induction false} GatheredMiddle<A, B>(f: A -> Found<B>, a: seq<A>, x: A, b: seq<A>)
    ensures Alike(Gathered(f, a + [x] + b), Cons(f(x), Gathered(f, a + b)))
    decreases |a|
  {
    if a == [] {
      assert a + [x] + b == [x] + b && a + b == b;
    } else {
      GatheredMiddle(f, a[1..], x, b);
      assert (a + [x] + b)[1..] == a[1..] + [x] + b && (a + b)[1..] == a[1..] + b;
    }
  }

  /** The first element of one arrangement, found in the other. */
  lemma FirstFound<A>(s: seq<A>, t: seq<A>) returns (k: nat)
    requires s != [] && multiset(s) == multiset(t)
    ensures k < |t| && t[k] == s[0] && t == t[..k] + [s[0]] + t[k + 1..]
    ensures multiset(s[1..]) == multiset(t[..k] + t[k + 1..])
  {
    assert s == [s[0]] + s[1..];
    assert s[0] in multiset(s) && s[0] in multiset(t);
    k :| 0 <= k < |t| && t[k] == s[0];
    assert t == t[..k] + [s[0]] + t[k + 1..];
    var rest := t[..k] + t[k + 1..];
    assert multiset(t) == multiset(rest) + multiset{s[0]};
    assert multiset(s) == multiset(s[1..]) + multiset{s[0]};
    assert multiset(s[1..]) == multiset(s) - multiset{s[0]} == multiset(rest);
  }

  lemma {:induction false} GatheredPermuted<A, B>(f: A -> Found<B>, s: seq<A>, t: seq<A>)
    requires multiset(s) == multiset(t)
    ensures Alike(Gathered(f, s), Gathered(f, t))
    decreases |s|
  {
    if s == [] {
      assert |multiset(t)| == 0;
    } else {
      var k := FirstFound(s, t);
      var a, b := t[..k], t[k + 1..];
      GatheredPermuted(f, s[1..], a + b);
      GatheredMiddle(f, a, s[0], b);
    }
  }

  function FieldOf(nfc: string -> string): ((string, Value)) -> Found<(string, string)> {
    (item: (string, Value)) => EncodeField(nfc, item)
  }

  function ValueOf(nfc: string -> string): Value -> Found<string> { (v: Value) => Encode(nfc, v) }

  lemma {:induction false} FieldsAreGathered(nfc: string -> string, items: seq<(string, Value)>)
    ensures EncodeFields(nfc, items) == Gathered(FieldOf(nfc), items)
  {
    if items != [] {
      FieldsAreGathered(nfc, items[1..]);
    }
  }

  lemma {:induction false} EachIsGathered(nfc: string -> string, vs: seq<Value>)
    ensures EncodeEach(nfc, vs) == Gathered(ValueOf(nfc), vs)
  {
    if vs != [] {
      EachIsGathered(nfc, vs[1..]);
    }
  }

  function NormalKeys(nfc: string -> string, items: seq<(string, Value)>): (r: seq<string>) {
    seq(|items|, i requires 0 <= i < |items| => nfc(items[i].0))
  }

  lemma {:induction false} NormalKeysPermuted(nfc: string -> string, s: seq<(string, Value)>, t: seq<(string, Value)>)
    requires multiset(s) == multiset(t)
    ensures multiset(NormalKeys(nfc, s)) == multiset(NormalKeys(nfc, t))
    decreases |s|
  {
    if s == [] {
      assert |multiset(t)| == 0;
    } else {
      var k := FirstFound(s, t);
      var a, b := t[..k], t[k + 1..];
      NormalKeysPermuted(nfc, s[1..], a + b);
      assert NormalKeys(nfc, s) == [nfc(s[0].0)] + NormalKeys(nfc, s[1..]);
      assert NormalKeys(nfc, a + b) == NormalKeys(nfc, a) + NormalKeys(nfc, b);
      assert NormalKeys(nfc, t) == NormalKeys(nfc, a) + [nfc(s[0].0)] + NormalKeys(nfc, b);
    }
  }

  lemma {:induction false} DistinctCounts(keys: seq<string>)
    requires Distinct(keys)
    ensures forall x :: multiset(keys)[x] <= 1
  {
    if keys != [] {
      DistinctCounts(keys[1..]);
      assert keys == [keys[0]] + keys[1..];
      assert keys[0] !in keys[1..];
      assert multiset(keys[1..])[keys[0]] == 0;
    }
  }

  lemma CountsDistinct(keys: seq<string>)
    requires forall x :: multiset(keys)[x] <= 1
    ensures Distinct(keys)
  {
    forall i, j | 0 <= i < j < |keys|
      ensures keys[i] != keys[j]
    {
      assert keys == keys[..j] + [keys[j]] + keys[j + 1..];
      assert multiset(keys)[keys[j]] >= multiset(keys[..j])[keys[j]] + 1;
      assert keys[..j][i] == keys[i];
      assert multiset(keys[..j])[keys[i]] >= 1;
    }
  }

  lemma NotColliding(nfc: string -> string, s: seq<(string, Value)>)
    ensures Collides(nfc, s) <==> !Distinct(NormalKeys(nfc, s))
  {
    assert NormalKeys(nfc, s) == seq(|s|, i requires 0 <= i < |s| => nfc(s[i].0));
  }

  lemma CollidesPermuted(nfc: string -> string, s: seq<(string, Value)>, t: seq<(string, Value)>)
    requires multiset(s) == multiset(t)
    ensures Collides(nfc, s) <==> Collides(nfc, t)
  {
    NormalKeysPermuted(nfc, s, t);
    if Distinct(NormalKeys(nfc, s)) {
      DistinctCounts(NormalKeys(nfc, s));
      CountsDistinct(NormalKeys(nfc, t));
    }
    if Distinct(NormalKeys(nfc, t)) {
      DistinctCounts(NormalKeys(nfc, t));
      CountsDistinct(NormalKeys(nfc, s));
    }
    NotColliding(nfc, s);
    NotColliding(nfc, t);
  }

  lemma FieldKey(nfc: string -> string, item: (string, Value))
    requires EncodeField(nfc, item).Found?
    ensures EncodeField(nfc, item).value.0 == nfc(item.0)
  {
    hide Encode;
  }

  lemma {:induction false} FieldKeys(nfc: string -> string, items: seq<(string, Value)>)
    requires EncodeFields(nfc, items).Found?
    ensures Keys(EncodeFields(nfc, items).value) == NormalKeys(nfc, items)
  {
    hide EncodeField;
    if items != [] {
      FieldKey(nfc, items[0]);
      FieldKeys(nfc, items[1..]);
      var fields, more := EncodeFields(nfc, items).value, EncodeFields(nfc, items[1..]).value;
      assert fields == [fields[0]] + more;
      assert Keys(fields) == [fields[0].0] + Keys(more);
      assert NormalKeys(nfc, items) == [nfc(items[0].0)] + NormalKeys(nfc, items[1..]);
    }
  }

  lemma DistinctIsFunctional(fields: seq<(string, string)>)
    requires Distinct(Keys(fields))
    ensures Functional(multiset(fields))
  {
  }

  /** The order in which a mapping was built leaves no trace. */
  lemma MappingOrderForgotten(nfc: string -> string, s: seq<(string, Value)>, t: seq<(string, Value)>)
    requires multiset(s) == multiset(t)
    ensures Encode(nfc, Mapping(s)) == Encode(nfc, Mapping(t))
  {
    hide SortBy, Joined, FieldTexts, EncodeFields, Functional, EncodeField, Collides, Distinct, Gathered;
    CollidesPermuted(nfc, s, t);
    FieldsAreGathered(nfc, s);
    FieldsAreGathered(nfc, t);
    GatheredPermuted(FieldOf(nfc), s, t);
    var a, b := EncodeFields(nfc, s), EncodeFields(nfc, t);
    if a.Found? && !Collides(nfc, s) {
      FieldKeys(nfc, s);
      NotColliding(nfc, s);
      DistinctIsFunctional(a.value);
      SortForgets(a.value, b.value);
    }
  }

  /** Nor does the order in which a set is walked. */
  lemma SetOrderForgotten(nfc: string -> string, s: seq<Value>, t: seq<Value>)
    requires multiset(s) == multiset(t)
    ensures Encode(nfc, Set(s)) == Encode(nfc, Set(t))
  {
    hide O.Sort, Joined, EncodeEach;
    EachIsGathered(nfc, s);
    EachIsGathered(nfc, t);
    GatheredPermuted(ValueOf(nfc), s, t);
    if EncodeEach(nfc, s).Found? {
      O.SortForgetsOrder(EncodeEach(nfc, s).value, EncodeEach(nfc, t).value);
    }
  }

  // ------------------------------------------------------------------------------------
  // Nothing coerced
  // ------------------------------------------------------------------------------------

  /** Somewhere inside is a float, a number finer than the scale, a naive instant or a foreign type. */
  predicate Inexact(v: Value)
    decreases v
  {
    match v
    case Float => true
    case Foreign => true
    case Dec(d) => d.NonFinite? || TenThousandths(d.magnitude).None?
    case Moment(_, _, aware) => !aware
    case Enumeration(inner) => Inexact(inner)
    case Mapping(items) => exists i :: 0 <= i < |items| && InexactField(items[i])
    case Set(members) => exists i :: 0 <= i < |members| && Inexact(members[i])
    case List(items) => exists i :: 0 <= i < |items| && Inexact(items[i])
    case _ => false
  }

  predicate InexactField(item: (string, Value))
    decreases item
  {
    Inexact(item.1)
  }

  predicate Outside(nfc: string -> string, v: Value)
    decreases v
  {
    match v
    case Moment(at, _, aware) => aware && !Stamps.Real(at)
    case Enumeration(inner) => Outside(nfc, inner)
    case Mapping(items) => Collides(nfc, items) || exists i :: 0 <= i < |items| && OutsideField(nfc, items[i])
    case Set(members) => exists i :: 0 <= i < |members| && Outside(nfc, members[i])
    case List(items) => exists i :: 0 <= i < |items| && Outside(nfc, items[i])
    case _ => false
  }

  predicate OutsideField(nfc: string -> string, item: (string, Value))
    decreases item
  {
    Outside(nfc, item.1)
  }

  ghost predicate Classified<B>(outcome: Found<B>, outside: bool, inexact: bool) {
    (outcome.Unmodelled? <==> outside) && (outcome.Rejected? <==> !outside && inexact)
  }

  /** The error is raised exactly when something inside has no exact encoding; nothing is rounded. */
  lemma {:induction false} RejectedIffInexact(nfc: string -> string, v: Value)
    ensures Classified(Encode(nfc, v), Outside(nfc, v), Inexact(v))
    decreases v, 0
  {
    hide Collides, SortBy, O.Sort, Joined, FieldTexts, Literal, IntText, FixedText, Stamps.Text, Stamps.Real;
    match v
    case Enumeration(inner) => RejectedIffInexact(nfc, inner);
    case Mapping(items) => FieldsClassified(nfc, items);
    case Set(members) => EachClassified(nfc, members);
    case List(items) => EachClassified(nfc, items);
    case _ =>
  }

  lemma {:induction false} EachClassified(nfc: string -> string, vs: seq<Value>)
    ensures Classified(EncodeEach(nfc, vs), exists i :: 0 <= i < |vs| && Outside(nfc, vs[i]),
                       exists i :: 0 <= i < |vs| && Inexact(vs[i]))
    decreases vs, 1
  {
    hide Encode, Outside, Inexact;
    if vs != [] {
      RejectedIffInexact(nfc, vs[0]);
      EachClassified(nfc, vs[1..]);
      assert forall i :: 0 < i < |vs| ==> vs[i] == vs[1..][i - 1];
      assert forall i :: 0 <= i < |vs[1..]| ==> vs[1..][i] == vs[i + 1];
    }
  }

  lemma {:induction false} FieldClassified(nfc: string -> string, item: (string, Value))
    ensures Classified(EncodeField(nfc, item), OutsideField(nfc, item), InexactField(item))
    decreases item, 1
  {
    hide Encode, Outside, Inexact;
    RejectedIffInexact(nfc, item.1);
  }

  lemma {:induction false} FieldsClassified(nfc: string -> string, items: seq<(string, Value)>)
    ensures Classified(EncodeFields(nfc, items), exists i :: 0 <= i < |items| && OutsideField(nfc, items[i]),
                       exists i :: 0 <= i < |items| && InexactField(items[i]))
    decreases items, 2
  {
    hide EncodeField, OutsideField, InexactField;
    if items != [] {
      FieldClassified(nfc, items[0]);
      FieldsClassified(nfc, items[1..]);
      assert forall i :: 0 < i < |items| ==> items[i] == items[1..][i - 1];
      assert forall i :: 0 <= i < |items[1..]| ==> items[1..][i] == items[i + 1];
    }
  }

  // ------------------------------------------------------------------------------------
  // What collapses
  // ------------------------------------------------------------------------------------

  ghost predicate Ascii(s: string) { forall i :: 0 <= i < |s| ==> s[i] as int < 0x80 }

  lemma FixedAscii(negative: bool, units: nat)
    ensures Ascii(FixedText(negative, units))
  {
  }

  /** A fixed-place text determines sign and units. */
  lemma FixedInjective(n: bool, a: nat, m: bool, b: nat)
    requires FixedText(n, a) == FixedText(m, b)
    ensures n == m && a == b
  {
    hide NatText, Padded;
    Stamps.PowersOfTen();
    var s := FixedText(n, a);
    var p, q := NatText(a / 10000), NatText(b / 10000);
    var x, y := Padded(a % 10000, 4), Padded(b % 10000, 4);
    assert IsDigit(p[0]) && IsDigit(q[0]);
    assert s == (if n then "-" else "") + p + "." + x;
    assert s == (if m then "-" else "") + q + "." + y;
    assert s[0] == '-' <==> n;
    assert s[0] == '-' <==> m;
    assert s[|s| - 4..] == x && s[|s| - 4..] == y;
    var sign := if n then 1 else 0;
    assert s[sign..|s| - 5] == p && s[sign..|s| - 5] == q;
    NatRoundTrip(a / 10000);
    NatRoundTrip(b / 10000);
    PaddedInjective(a % 10000, b % 10000, 4);
  }

  function Amount(d: Decimal): (v: real)
    requires d.Finite?
  {
    if d.negative then -d.magnitude else d.magnitude
  }

  /**
   The text is the number: a minus sign if and only if it is negative, a plain whole part, a
   point, and exactly four places.
   */
  ghost predicate WritesFixed(s: string, negative: bool, units: nat) {
    var sign := if negative then 1 else 0;
    && |s| >= sign + 6 && (s[0] == '-' <==> negative) && s[|s| - 5] == '.'
    && AllDigits(s[sign..|s| - 5]) && NatOf(s[sign..|s| - 5]) == units / 10000
    && (|s| == sign + 6 || s[sign] != '0')
    && AllDigits(s[|s| - 4..]) && NatOf(s[|s| - 4..]) == units % 10000
  }

  lemma FixedReads(negative: bool, units: nat)
    ensures WritesFixed(FixedText(negative, units), negative, units)
  {
    hide NatText, Padded;
    Stamps.PowersOfTen();
    var s, sign := FixedText(negative, units), if negative then 1 else 0;
    var whole, part := NatText(units / 10000), Padded(units % 10000, 4);
    assert IsDigit(whole[0]);
    assert s == (if negative then "-" else "") + whole + "." + part;
    assert s[sign..|s| - 5] == whole && s[|s| - 4..] == part;
    NatRoundTrip(units / 10000);
    NatTextIsPlain(units / 10000);
    PaddedRoundTrip(units % 10000, 4);
  }

  /** The number a fixed-place text stands for. */
  ghost function AmountRead(s: string, negative: bool): (v: real)
    requires (if negative then 1 else 0) + 6 <= |s|
    requires AllDigits(s[if negative then 1 else 0..|s| - 5]) && AllDigits(s[|s| - 4..])
  {
    var size := NatOf(s[if negative then 1 else 0..|s| - 5]) as real + NatOf(s[|s| - 4..]) as real / 10000.0;
    if negative then -size else size
  }

  lemma {:induction false} PlainEscapes(s: string)
    requires forall i :: 0 <= i < |s| ==> s[i] != QUOTE && s[i] != BACKSLASH && 0x20 <= s[i] as int < 0x7f
    ensures Escaped(s) == s
  {
    hide Escape;
    if s != "" {
      var n := |s| - 1;
      PlainEscapes(s[..n]);
      EscapeWrites(s[n]);
      assert s == s[..n] + [s[n]];
    }
  }

  lemma FixedIsPlain(negative: bool, units: nat)
    ensures forall i :: 0 <= i < |FixedText(negative, units)| ==>
      var c := FixedText(negative, units)[i];
      IsDigit(c) || c == '-' || c == '.'
  {
  }

  /** A decimal is encoded as a string whose text reads back to the very same amount. */
  lemma DecimalReadsBack(nfc: string -> string, d: Decimal) returns (text: string)
    requires Normalizer(nfc) && d.Finite? && 0.0 <= d.magnitude && TenThousandths(d.magnitude).Some?
    ensures Encode(nfc, Dec(d)) == Found([QUOTE] + text + [QUOTE])
    ensures WritesFixed(text, d.negative, TenThousandths(d.magnitude).value)
    ensures AmountRead(text, d.negative) == Amount(d)
  {
    hide FixedText, Escaped;
    var units := TenThousandths(d.magnitude).value;
    text := FixedText(d.negative, units);
    FixedAscii(d.negative, units);
    FixedReads(d.negative, units);
    FixedIsPlain(d.negative, units);
    PlainEscapes(text);
    assert units == 10000 * (units / 10000) + units % 10000;
    assert units as real == (units / 10000) as real * 10000.0 + (units % 10000) as real;
  }

  /** Two decimals share their bytes exactly when they are equal and, if zero, have one sign. */
  lemma DecimalsCollapse(nfc: string -> string, d: Decimal, e: Decimal)
    requires Normalizer(nfc) && d.Finite? && e.Finite? && 0.0 <= d.magnitude && 0.0 <= e.magnitude
    requires TenThousandths(d.magnitude).Some? && TenThousandths(e.magnitude).Some?
    ensures Encode(nfc, Dec(d)) == Encode(nfc, Dec(e))
       <==> Amount(d) == Amount(e) && (Amount(d) == 0.0 ==> d.negative == e.negative)
  {
    hide FixedText, Escaped, Print;
    var a, b := TenThousandths(d.magnitude).value, TenThousandths(e.magnitude).value;
    FixedAscii(d.negative, a);
    FixedAscii(e.negative, b);
    SameBytesIffSameTree(nfc, Dec(d), Dec(e));
    if FixedText(d.negative, a) == FixedText(e.negative, b) {
      FixedInjective(d.negative, a, e.negative, b);
    }
  }

  /** Zero is written two ways: the rule that equal money has equal bytes fails there and only there. */
  lemma NegativeZeroDiffers(nfc: string -> string)
    requires Normalizer(nfc)
    ensures Encode(nfc, Dec(Finite(true, 0.0))).Found? && Encode(nfc, Dec(Finite(false, 0.0))).Found?
    ensures Encode(nfc, Dec(Finite(true, 0.0))) != Encode(nfc, Dec(Finite(false, 0.0)))
  {
    DecimalsCollapse(nfc, Finite(true, 0.0), Finite(false, 0.0));
  }

  lemma StampAscii(at: Stamps.Fields)
    requires Stamps.Real(at)
    ensures Ascii(Stamps.Text(at))
  {
    hide Stamps.Text, Stamps.IsDateText;
    Stamps.TextRoundTrip(at);
    Stamps.DateTextChars(Stamps.Text(at));
  }

  /** An instant is encoded as the RFC 3339 text that parses to its fields, fractions of a second dropped. */
  lemma MomentReadsBack(nfc: string -> string, at: Stamps.Fields, micros: nat) returns (text: string)
    requires Normalizer(nfc) && Stamps.Real(at)
    ensures Encode(nfc, Moment(at, micros, true)) == Found([QUOTE] + text + [QUOTE])
    ensures Stamps.IsDateText(text) && Stamps.Parsed(text) == Some(at)
    ensures NatOf(text[..4]) == at.year && NatOf(text[5..7]) == at.month && NatOf(text[8..10]) == at.day
    ensures NatOf(text[11..13]) == at.hour && NatOf(text[14..16]) == at.minute && NatOf(text[17..19]) == at.second
  {
    hide Stamps.Text, Escaped, NatOf, Stamps.Real;
    text := Stamps.Text(at);
    StampAscii(at);
    Stamps.TextRoundTrip(at);
    Stamps.DateTextChars(text);
    PlainEscapes(text);
    ParsedFields(text, at);
  }

  lemma ParsedFields(text: string, at: Stamps.Fields)
    requires Stamps.IsDateText(text) && Stamps.Parsed(text) == Some(at)
    ensures NatOf(text[..4]) == at.year && NatOf(text[5..7]) == at.month && NatOf(text[8..10]) == at.day
    ensures NatOf(text[11..13]) == at.hour && NatOf(text[14..16]) == at.minute && NatOf(text[17..19]) == at.second
  {
  }

  /** Two instants share their bytes exactly when they fall in the same second. */
  lemma MomentsCollapse(nfc: string -> string, a: Stamps.Fields, x: nat, b: Stamps.Fields, y: nat)
    requires Normalizer(nfc) && Stamps.Real(a) && Stamps.Real(b)
    ensures Encode(nfc, Moment(a, x, true)) == Encode(nfc, Moment(b, y, true)) <==> a == b
  {
    hide Escaped, Print, Stamps.Text;
    StampAscii(a);
    StampAscii(b);
    SameBytesIffSameTree(nfc, Moment(a, x, true), Moment(b, y, true));
    if Stamps.Text(a) == Stamps.Text(b) {
      Stamps.TextInjective(a, b);
    }
  }

  /** Strings share their bytes exactly when their normal forms agree. */
  lemma StringsCollapse(nfc: string -> string, s: string, t: string)
    requires Normalizer(nfc)
    ensures Encode(nfc, Str(s)) == Encode(nfc, Str(t)) <==> nfc(s) == nfc(t)
  {
    hide Escaped, Print;
    SameBytesIffSameTree(nfc, Str(s), Str(t));
  }

  // ------------------------------------------------------------------------------------
  // The bytes of one value
  // ------------------------------------------------------------------------------------

  lemma {:induction false} EachIs(nfc: string -> string, vs: seq<Value>, ts: seq<string>)
    requires |vs| == |ts| && forall i :: 0 <= i < |vs| ==> Encode(nfc, vs[i]) == Found(ts[i])
    ensures EncodeEach(nfc, vs) == Found(ts)
    decreases |vs|
  {
    hide Encode;
    if vs != [] {
      EachIs(nfc, vs[1..], ts[1..]);
      assert ts == [ts[0]] + ts[1..];
    } else {
      assert ts == [];
    }
  }

  lemma {:induction false} FieldsAre(nfc: string -> string, items: seq<(string, Value)>, ts: seq<(string, string)>)
    requires |items| == |ts|
    requires forall i :: 0 <= i < |items| ==> nfc(items[i].0) == ts[i].0 && Encode(nfc, items[i].1) == Found(ts[i].1)
    ensures EncodeFields(nfc, items) == Found(ts)
    decreases |items|
  {
    hide Encode;
    if items != [] {
      FieldsAre(nfc, items[1..], ts[1..]);
      assert ts[0] == (ts[0].0, ts[0].1) && ts == [ts[0]] + ts[1..];
    } else {
      assert ts == [];
    }
  }

  lemma TwoJoined(a: string, b: string)
    ensures Joined([a, b]) == a + ("," + b)
  {
  }

  lemma FourJoined(a: string, b: string, c: string, d: string)
    ensures Joined([a, b, c, d]) == a + ("," + (b + ("," + (c + ("," + d)))))
  {
    hide Joined;
    assert [a, b, c, d][1..] == [b, c, d] && [b, c, d][1..] == [c, d];
    JoinedStep([a, b, c, d]);
    JoinedStep([b, c, d]);
    TwoJoined(c, d);
  }

  lemma JoinedStep(ts: seq<string>)
    requires |ts| > 1
    ensures Joined(ts) == ts[0] + ("," + Joined(ts[1..]))
  {
  }

  lemma TwelveText()
    ensures IntText(-12) == "-12"
  {
  }

  /** A list as it stands. */
  lemma ListBytes(nfc: string -> string)
    ensures Encode(nfc, List([Null, Bool(true), Bool(false), Int(-12)])) == Found("[null,true,false,-12]")
  {
    hide Joined, IntText, EncodeEach;
    TwelveText();
    assert Encode(nfc, Int(-12)) == Found("-12") && Encode(nfc, Null) == Found("null");
    assert Encode(nfc, Bool(true)) == Found("true") && Encode(nfc, Bool(false)) == Found("false");
    EachIs(nfc, [Null, Bool(true), Bool(false), Int(-12)], ["null", "true", "false", "-12"]);
    FourJoined("null", "true", "false", "-12");
    ListText();
  }

  lemma ListText()
    ensures "[" + ("null" + ("," + ("true" + ("," + ("false" + ("," + "-12"))))) + "]") == "[null,true,false,-12]"
  {
  }

  lemma PlainBytes(nfc: string -> string, c: char)
    requires Normalizer(nfc) && 'a' <= c <= 'z'
    ensures nfc([c]) == [c] && Literal([c]) == ['"', c, '"'] && Encode(nfc, Str([c])) == Found(['"', c, '"'])
  {
    hide Escaped;
    PlainEscapes([c]);
    assert [QUOTE] + [c] + [QUOTE] == ['"', c, '"'];
  }

  lemma TwoSorted(first: string, second: string)
    requires O.Leq(first, second)
    ensures O.Sort([second, first]) == [first, second]
  {
    hide O.Leq, O.Sort;
    assert multiset([second, first]) == multiset([first, second]);
    O.AscendingUnique(O.Sort([second, first]), [first, second]);
  }

  /** A set by the bytes of its members. */
  lemma SetBytes(nfc: string -> string)
    requires Normalizer(nfc)
    ensures Encode(nfc, Set([Str("y"), Str("x")])) == Found("[\"x\",\"y\"]")
  {
    hide Joined, EncodeEach, Normalizer, O.Sort, Literal;
    var x, y := "\"x\"", "\"y\"";
    PlainBytes(nfc, 'x');
    PlainBytes(nfc, 'y');
    assert "x" == ['x'] && "y" == ['y'];
    EachIs(nfc, [Str("y"), Str("x")], [y, x]);
    assert x[1] < y[1] && x[1..][0] == x[1] && y[1..][0] == y[1];
    TwoSorted(x, y);
    TwoJoined(x, y);
    assert "[" + (x + ("," + y) + "]") == "[\"x\",\"y\"]";
  }

  lemma FieldBytes(nfc: string -> string, key: char, text: string)
    requires Normalizer(nfc) && 'a' <= key <= 'z'
    ensures FieldText(nfc, ([key], text)) == ['"', key, '"', ':'] + text
  {
    hide Normalizer, Literal;
    PlainBytes(nfc, key);
    assert ['"', key, '"'] + (":" + text) == ['"', key, '"', ':'] + text;
  }

  lemma TwoFields(nfc: string -> string, first: string, second: string)
    requires Normalizer(nfc)
    ensures Joined(FieldTexts(nfc, SortBy([("b", second), ("a", first)])))
         == "\"a\":" + first + ("," + ("\"b\":" + second))
  {
    hide Normalizer, Joined, FieldText, SortBy;
    KeysSorted(first, second);
    FieldBytes(nfc, 'a', first);
    FieldBytes(nfc, 'b', second);
    var a, b := "\"a\":" + first, "\"b\":" + second;
    assert "a" == ['a'] && "b" == ['b'];
    assert FieldTexts(nfc, [("a", first), ("b", second)]) == [a, b];
    TwoJoined(a, b);
  }

  lemma KeysSorted(first: string, second: string)
    ensures SortBy([("b", second), ("a", first)]) == [("a", first), ("b", second)]
  {
    var a, b := ("a", first), ("b", second);
    assert [b, a][1..] == [a] && [a][1..] == [];
    assert SortBy([a]) == InsertBy(a, SortBy([])) == [a];
    assert "b"[0] > "a"[0] && !O.Leq("b", "a");
    assert InsertBy(b, [a]) == [a] + InsertBy(b, []) == [a, b];
  }

  /** Keys in order, a set in order, a list as it stands, no white space: every byte is fixed. */
  lemma SampleBytes(nfc: string -> string)
    requires Normalizer(nfc)
    ensures
      var list := List([Null, Bool(true), Bool(false), Int(-12)]);
      Encode(nfc, Mapping([("b", list), ("a", Set([Str("y"), Str("x")]))]))
        == Found("{\"a\":[\"x\",\"y\"]," + "\"b\":[null,true,false,-12]}")
  {
    hide Normalizer, Joined, FieldTexts, SortBy, EncodeEach, EncodeFields;
    var list, chosen := List([Null, Bool(true), Bool(false), Int(-12)]), Set([Str("y"), Str("x")]);
    var listed, members := "[null,true,false,-12]", "[\"x\",\"y\"]";
    ListBytes(nfc);
    SetBytes(nfc);
    PlainBytes(nfc, 'a');
    PlainBytes(nfc, 'b');
    assert "a" == ['a'] && "b" == ['b'];
    FieldsAre(nfc, [("b", list), ("a", chosen)], [("b", listed), ("a", members)]);
    TwoFields(nfc, members, listed);
    BracedPair("\"a\":" + members, "\"b\":" + listed);
    FirstText();
    SecondText();
  }

  lemma BracedPair(a: string, b: string)
    ensures "{" + (a + ("," + b) + "}") == ("{" + a + ",") + (b + "}")
  {
  }

  lemma FirstText()
    ensures "{" + ("\"a\":" + "[\"x\",\"y\"]") + "," == "{\"a\":[\"x\",\"y\"],"
  {
  }

  lemma SecondText()
    ensures ("\"b\":" + "[null,true,false,-12]") + "}" == "\"b\":[null,true,false,-12]}"
  {
  }
}
