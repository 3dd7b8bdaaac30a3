/**
 The canonical encoding of a value, and the tree it is an unambiguous writing of. `nfc` is
 the Unicode normalization, taken as any function that leaves normalized and ASCII text alone.
 */
module Canonical {
  import opened Digits
  import O = Ordering
  import Stamps
  import opened Wrappers

  import opened Json
  import opened KeyedSort

  /** A decimal carries its sign apart from its size: zero has two. */
  datatype Decimal = Finite(negative: bool, magnitude: real) | NonFinite

  datatype Value =
    | Null
    | Bool(b: bool)
    | Int(i: int)
    | Float
    | Dec(d: Decimal)
    | Str(s: string)
    | Moment(at: Stamps.Fields, micros: nat, aware: bool)
    | Uuid(text: string)
    | Enumeration(inner: Value)
    | Mapping(items: seq<(string, Value)>)
    | Set(members: seq<Value>)
    | List(items_: seq<Value>)
    | Foreign

  /** `Rejected` is the raised error; `Unmodelled` is what this model says nothing about. */
  datatype Found<T> = Found(value: T) | Rejected | Unmodelled

  ghost predicate Normalizer(nfc: string -> string) {
    && (forall s :: nfc(nfc(s)) == nfc(s))
    && (forall s: string :: (forall i :: 0 <= i < |s| ==> s[i] as int < 0x80) ==> nfc(s) == s)
  }

  /** The size in units of the fourth place; None where a finer part would be rounded away. */
  function TenThousandths(magnitude: real): (r: Option<nat>)
    ensures r.Some? ==> r.value as real == magnitude * 10000.0
  {
    var scaled := magnitude * 10000.0;
    if 0.0 <= scaled && scaled.Floor as real == scaled then Some(scaled.Floor) else None
  }

  function FixedText(negative: bool, units: nat): (r: string) {
    Stamps.PowersOfTen();
    (if negative then "-" else "") + (NatText(units / 10000) + ("." + Padded(units % 10000, 4)))
  }

  function DecimalText(d: Decimal): (r: Found<string>) {
    if d.NonFinite? || TenThousandths(d.magnitude).None? then Rejected
    else Found(FixedText(d.negative, TenThousandths(d.magnitude).value))
  }

  function MomentText(at: Stamps.Fields, aware: bool): (r: Found<string>) {
    if !aware then Rejected else if !Stamps.Real(at) then Unmodelled else Found(Stamps.Text(at))
  }

  function Cons<T>(head: Found<T>, tail: Found<seq<T>>): (r: Found<seq<T>>) {
    if head.Unmodelled? || tail.Unmodelled? then Unmodelled
    else if head.Rejected? || tail.Rejected? then Rejected
    else Found([head.value] + tail.value)
  }

  function Paired<T>(key: string, value: Found<T>): (r: Found<(string, T)>) {
    match value
    case Found(v) => Found((key, v))
    case Rejected => Rejected
    case Unmodelled => Unmodelled
  }

  predicate Distinct(keys: seq<string>) { forall i, j :: 0 <= i < j < |keys| ==> keys[i] != keys[j] }

  /** Keys that become equal are ordered by their values, which is outside this model. */
  predicate Collides(nfc: string -> string, items: seq<(string, Value)>) {
    !Distinct(seq(|items|, i requires 0 <= i < |items| => nfc(items[i].0)))
  }

  // ------------------------------------------------------------------------------------
  // The encoder
  // ------------------------------------------------------------------------------------

  function Joined(texts: seq<string>): (r: string) {
    if texts == [] then "" else if |texts| == 1 then texts[0] else texts[0] + ("," + Joined(texts[1..]))
  }

  function FieldText(nfc: string -> string, field: (string, string)): (r: string) {
    Literal(nfc(field.0)) + (":" + field.1)
  }

  function FieldTexts(nfc: string -> string, fields: seq<(string, string)>): (r: seq<string>) {
    seq(|fields|, i requires 0 <= i < |fields| => FieldText(nfc, fields[i]))
  }

  function StrText(nfc: string -> string, s: string): (r: string) { Literal(nfc(s)) }

  function Encode(nfc: string -> string, v: Value): (r: Found<string>)
    decreases v
  {
    match v
    case Null => Found("null")
    case Bool(b) => Found(if b then "true" else "false")
    case Float => Rejected
    case Dec(d) => if DecimalText(d).Found? then Found(StrText(nfc, DecimalText(d).value)) else DecimalText(d)
    case Int(i) => Found(IntText(i))
    case Str(s) => Found(StrText(nfc, s))
    case Moment(at, _, aware) =>
      if MomentText(at, aware).Found? then Found(StrText(nfc, MomentText(at, aware).value)) else MomentText(at, aware)
    case Uuid(text) => Found(StrText(nfc, text))
    case Enumeration(inner) => Encode(nfc, inner)
    case Mapping(items) =>
      if Collides(nfc, items) then Unmodelled
      else
        var fields := EncodeFields(nfc, items);
        if fields.Found? then Found("{" + (Joined(FieldTexts(nfc, SortBy(fields.value))) + "}"))
        else if fields.Rejected? then Rejected else Unmodelled
    case Set(members) =>
      var texts := EncodeEach(nfc, members);
      if texts.Found? then Found("[" + (Joined(O.Sort(texts.value)) + "]"))
      else if texts.Rejected? then Rejected else Unmodelled
    case List(items) =>
      var texts := EncodeEach(nfc, items);
      if texts.Found? then Found("[" + (Joined(texts.value) + "]"))
      else if texts.Rejected? then Rejected else Unmodelled
    case Foreign => Rejected
  }

  function EncodeEach(nfc: string -> string, vs: seq<Value>): (r: Found<seq<string>>)
    decreases vs
  {
    if vs == [] then Found([]) else Cons(Encode(nfc, vs[0]), EncodeEach(nfc, vs[1..]))
  }

  function EncodeFields(nfc: string -> string, items: seq<(string, Value)>): (r: Found<seq<(string, string)>>)
    decreases items
  {
    if items == [] then Found([])
    else Cons(EncodeField(nfc, items[0]), EncodeFields(nfc, items[1..]))
  }

  function EncodeField(nfc: string -> string, item: (string, Value)): (r: Found<(string, string)>)
    decreases item
  {
    Paired(nfc(item.0), Encode(nfc, item.1))
  }

  // ------------------------------------------------------------------------------------
  // What the bytes stand for
  // ------------------------------------------------------------------------------------

  /** The tree a value is normalized to: decimals, instants and identifiers are strings, a set is an ordered array. */
  function Canon(nfc: string -> string, v: Value): (r: Found<Json>)
    decreases v
  {
    match v
    case Null => Found(JNull)
    case Bool(b) => Found(JBool(b))
    case Float => Rejected
    case Dec(d) => if DecimalText(d).Found? then Found(JStr(nfc(DecimalText(d).value))) else Rejected
    case Int(i) => Found(JInt(i))
    case Str(s) => Found(JStr(nfc(s)))
    case Moment(at, _, aware) =>
      if !aware then Rejected else if !Stamps.Real(at) then Unmodelled else Found(JStr(nfc(Stamps.Text(at))))
    case Uuid(text) => Found(JStr(nfc(text)))
    case Enumeration(inner) => Canon(nfc, inner)
    case Mapping(items) =>
      if Collides(nfc, items) then Unmodelled
      else
        var fields := CanonFields(nfc, items);
        if fields.Found? then Found(JObj(SortBy(fields.value)))
        else if fields.Rejected? then Rejected else Unmodelled
    case Set(members) =>
      var trees := CanonEach(nfc, members);
      if trees.Found? then Found(JArr(ByText(trees.value)))
      else if trees.Rejected? then Rejected else Unmodelled
    case List(items) =>
      var trees := CanonEach(nfc, items);
      if trees.Found? then Found(JArr(trees.value))
      else if trees.Rejected? then Rejected else Unmodelled
    case Foreign => Rejected
  }

  function CanonEach(nfc: string -> string, vs: seq<Value>): (r: Found<seq<Json>>)
    decreases vs
  {
    if vs == [] then Found([]) else Cons(Canon(nfc, vs[0]), CanonEach(nfc, vs[1..]))
  }

  function CanonFields(nfc: string -> string, items: seq<(string, Value)>): (r: Found<seq<(string, Json)>>)
    decreases items
  {
    if items == [] then Found([])
    else Cons(CanonField(nfc, items[0]), CanonFields(nfc, items[1..]))
  }

  function CanonField(nfc: string -> string, item: (string, Value)): (r: Found<(string, Json)>)
    decreases item
  {
    Paired(nfc(item.0), Canon(nfc, item.1))
  }

  function Tagged(trees: seq<Json>): (r: seq<(string, Json)>)
    ensures |r| == |trees| && forall i :: 0 <= i < |r| ==> r[i] == (Print(trees[i]), trees[i])
  {
    seq(|trees|, i requires 0 <= i < |trees| => (Print(trees[i]), trees[i]))
  }

  function Untagged(pairs: seq<(string, Json)>): (r: seq<Json>)
    ensures |r| == |pairs| && forall i :: 0 <= i < |r| ==> r[i] == pairs[i].1
  {
    seq(|pairs|, i requires 0 <= i < |pairs| => pairs[i].1)
  }

  /** Trees in the order of their printed form. */
  function ByText(trees: seq<Json>): (r: seq<Json>) { Untagged(SortBy(Tagged(trees))) }

  // ------------------------------------------------------------------------------------
  // The encoder writes that tree
  // ------------------------------------------------------------------------------------

  function Prints(trees: seq<Json>): (r: seq<string>)
    ensures |r| == |trees| && forall i :: 0 <= i < |r| ==> r[i] == Print(trees[i])
  {
    seq(|trees|, i requires 0 <= i < |trees| => Print(trees[i]))
  }

  lemma {:induction false} JoinedPrints(trees: seq<Json>)
    ensures Joined(Prints(trees)) == PrintItems(trees)
  {
    hide Print;
    if |trees| > 1 {
      JoinedPrints(trees[1..]);
      assert Prints(trees)[1..] == Prints(trees[1..]);
    }
  }

  const PRINT: Json -> string := (j: Json) => Print(j)

  ghost predicate KeysNormal(nfc: string -> string, fields: seq<(string, Json)>) {
    forall i :: 0 <= i < |fields| ==> nfc(fields[i].0) == fields[i].0
  }

  lemma {:induction false} JoinedFields(nfc: string -> string, fields: seq<(string, Json)>)
    requires KeysNormal(nfc, fields)
    ensures Joined(FieldTexts(nfc, MapValues(PRINT, fields))) == PrintFields(fields)
  {
    hide Print, Literal;
    var texts := FieldTexts(nfc, MapValues(PRINT, fields));
    if fields != [] {
      assert texts[0] == PrintField(fields[0]);
      if |fields| > 1 {
        JoinedFields(nfc, fields[1..]);
        assert texts[1..] == FieldTexts(nfc, MapValues(PRINT, fields[1..]));
      }
    }
  }

  lemma ByTextPrints(trees: seq<Json>)
    ensures Prints(ByText(trees)) == O.Sort(Prints(trees))
  {
    hide Print, SortBy, O.Sort;
    var tagged := Tagged(trees);
    SortedKeys(tagged);
    assert Keys(tagged) == Prints(trees);
    SortKeeps(tagged);
    forall i | 0 <= i < |SortBy(tagged)|
      ensures SortBy(tagged)[i].0 == Print(SortBy(tagged)[i].1)
    {
      assert SortBy(tagged)[i] in multiset(SortBy(tagged));
      assert SortBy(tagged)[i] in tagged;
    }
    assert Prints(ByText(trees)) == Keys(SortBy(tagged));
  }

  ghost predicate Writes(text: Found<string>, tree: Found<Json>) {
    && (text.Found? <==> tree.Found?) && (text.Rejected? <==> tree.Rejected?)
    && (text.Found? ==> text.value == Print(tree.value))
  }

  lemma MappingPrints(nfc: string -> string, items: seq<(string, Value)>)
    requires FieldsWrite(nfc, items)
    ensures Writes(Encode(nfc, Mapping(items)), Canon(nfc, Mapping(items)))
  {
    hide Collides, SortBy, Literal, FieldTexts, Joined, PrintFields, EncodeFields, CanonFields, Normalizer;
    var fields := CanonFields(nfc, items);
    if fields.Found? {
      MapSort(PRINT, fields.value);
      SortedNormal(nfc, fields.value);
      JoinedFields(nfc, SortBy(fields.value));
    }
  }

  lemma SetPrints(nfc: string -> string, members: seq<Value>)
    requires EachWrites(nfc, members)
    ensures Writes(Encode(nfc, Set(members)), Canon(nfc, Set(members)))
  {
    hide O.Sort, ByText, Joined, PrintItems, EncodeEach, CanonEach;
    var trees := CanonEach(nfc, members);
    if trees.Found? {
      ByTextPrints(trees.value);
      JoinedPrints(ByText(trees.value));
    }
  }

  lemma ListPrints(nfc: string -> string, items: seq<Value>)
    requires EachWrites(nfc, items)
    ensures Writes(Encode(nfc, List(items)), Canon(nfc, List(items)))
  {
    hide Joined, PrintItems, EncodeEach, CanonEach;
    var trees := CanonEach(nfc, items);
    if trees.Found? {
      JoinedPrints(trees.value);
    }
  }

  lemma ScalarPrints(nfc: string -> string, v: Value)
    requires !v.Mapping? && !v.Set? && !v.List? && !v.Enumeration?
    ensures Writes(Encode(nfc, v), Canon(nfc, v))
  {
    hide Literal, FixedText, Stamps.Text, Stamps.Real, TenThousandths;
  }

  ghost predicate EachWrites(nfc: string -> string, vs: seq<Value>) {
    var texts, trees := EncodeEach(nfc, vs), CanonEach(nfc, vs);
    && (texts.Found? <==> trees.Found?) && (texts.Rejected? <==> trees.Rejected?)
    && (texts.Found? ==> texts.value == Prints(trees.value))
  }

  ghost predicate FieldsWrite(nfc: string -> string, items: seq<(string, Value)>) {
    var texts, trees := EncodeFields(nfc, items), CanonFields(nfc, items);
    && (texts.Found? <==> trees.Found?) && (texts.Rejected? <==> trees.Rejected?)
    && (texts.Found? ==> texts.value == MapValues(PRINT, trees.value) && KeysNormal(nfc, trees.value))
  }

  /** The encoder succeeds exactly where the tree exists, and writes that tree. */
  lemma {:induction false} EncodePrintsCanon(nfc: string -> string, v: Value)
    requires Normalizer(nfc)
    ensures Writes(Encode(nfc, v), Canon(nfc, v))
    decreases v, 0
  {
    hide Writes, EachWrites, FieldsWrite, Normalizer;
    match v
    case Enumeration(inner) =>
      EncodePrintsCanon(nfc, inner);
      assert Encode(nfc, v) == Encode(nfc, inner) && Canon(nfc, v) == Canon(nfc, inner);
    case Mapping(items) =>
      EncodeFieldsPrint(nfc, items);
      MappingPrints(nfc, items);
    case Set(members) =>
      EncodeEachPrints(nfc, members);
      SetPrints(nfc, members);
    case List(items) =>
      EncodeEachPrints(nfc, items);
      ListPrints(nfc, items);
    case _ => ScalarPrints(nfc, v);
  }

  lemma SortedNormal(nfc: string -> string, fields: seq<(string, Json)>)
    requires KeysNormal(nfc, fields)
    ensures KeysNormal(nfc, SortBy(fields))
  {
    SortKeeps(fields);
    forall i | 0 <= i < |SortBy(fields)|
      ensures nfc(SortBy(fields)[i].0) == SortBy(fields)[i].0
    {
      assert SortBy(fields)[i] in multiset(SortBy(fields));
      assert SortBy(fields)[i] in fields;
    }
  }

  lemma {:induction false} EncodeEachPrints(nfc: string -> string, vs: seq<Value>)
    requires Normalizer(nfc)
    ensures EachWrites(nfc, vs)
    decreases vs, 1
  {
    hide Print, Encode, Canon, Normalizer;
    if vs != [] {
      EncodePrintsCanon(nfc, vs[0]);
      EncodeEachPrints(nfc, vs[1..]);
    }
  }

  lemma {:induction false} EncodeFieldPrints(nfc: string -> string, item: (string, Value))
    requires Normalizer(nfc)
    ensures
      var text, tree := EncodeField(nfc, item), CanonField(nfc, item);
      && (text.Found? <==> tree.Found?) && (text.Rejected? <==> tree.Rejected?)
      && (text.Found? ==> text.value == (tree.value.0, Print(tree.value.1)) && nfc(tree.value.0) == tree.value.0)
    decreases item, 1
  {
    hide Print, Encode, Canon;
    EncodePrintsCanon(nfc, item.1);
  }

  lemma {:induction false} EncodeFieldsPrint(nfc: string -> string, items: seq<(string, Value)>)
    requires Normalizer(nfc)
    ensures FieldsWrite(nfc, items)
    decreases items, 2
  {
    hide Print, EncodeField, CanonField, Normalizer;
    if items != [] {
      EncodeFieldPrints(nfc, items[0]);
      EncodeFieldsPrint(nfc, items[1..]);
    }
  }
}
