/**
 Reading the constrained arguments out of a request. Where the upstream could read another
 value than the gateway did, the gateway refuses. Decoding of the query string, of percent
 escapes and of JSON text is taken as done; `nfc` and `number` stand for Unicode
 normalization and for reading a decimal.
 */
module Extractor {
  import opened Wrappers

  /** A JSON document as sent, repeated keys and all; a number keeps how it was written. */
  datatype Raw =
    | RNull
    | RBool(b: bool)
    | RNum(text: string, value: real)
    | RNonFinite
    | RStr(s: string)
    | RArr(items: seq<Raw>)
    | RObj(fields: seq<(string, Raw)>)

  /** As the gateway holds it: an object keeps the last value of each key, and which keys came twice. */
  datatype Parsed = Leaf(raw: Raw) | Obj(members: map<string, Parsed>, duplicates: set<string>)

  datatype Number = Finite(value: real) | NonFinite

  datatype Arg = Scaled(n: int) | Textual(s: string)

  // ------------------------------------------------------------------------------------
  // Objects
  // ------------------------------------------------------------------------------------

  function Hooked(pairs: seq<(string, Parsed)>): (r: Parsed)
    ensures r.Obj?
  {
    if pairs == [] then Obj(map[], {})
    else
      var before, (key, value) := Hooked(pairs[..|pairs| - 1]), pairs[|pairs| - 1];
      Obj(before.members[key := value], before.duplicates + (if key in before.members then {key} else {}))
  }

  method ObjectPairsHook(pairs: seq<(string, Parsed)>) returns (r: Parsed)
    ensures r == Hooked(pairs)
  {
    var seen: map<string, Parsed> := map[];
    var duplicates: set<string> := {};
    for i := 0 to |pairs|
      invariant Obj(seen, duplicates) == Hooked(pairs[..i])
    {
      assert pairs[..i + 1][..i] == pairs[..i];
      var (key, value) := pairs[i];
      if key in seen {
        duplicates := duplicates + {key};
      }
      seen := seen[key := value];
    }
    assert pairs[..|pairs|] == pairs;
    r := Obj(seen, duplicates);
  }

  function Parse(r: Raw): (p: Parsed) {
    match r
    case RObj(fields) => Hooked(ParseFields(fields))
    case _ => Leaf(r)
  }

  function ParseField(field: (string, Raw)): (p: (string, Parsed)) { (field.0, Parse(field.1)) }

  function ParseFields(fields: seq<(string, Raw)>): (p: seq<(string, Parsed)>)
    ensures |p| == |fields|
  {
    if fields == [] then [] else [ParseField(fields[0])] + ParseFields(fields[1..])
  }

  lemma {:induction false} ParseFieldsAt(fields: seq<(string, Raw)>, i: nat)
    requires i < |fields|
    ensures ParseFields(fields)[i] == (fields[i].0, Parse(fields[i].1))
  {
    if i > 0 {
      ParseFieldsAt(fields[1..], i - 1);
    }
  }

  /** Everything sent under a key, in order. */
  function Under<V>(pairs: seq<(string, V)>, key: string): (r: seq<V>) {
    if pairs == [] then []
    else Under(pairs[..|pairs| - 1], key) + (if pairs[|pairs| - 1].0 == key then [pairs[|pairs| - 1].1] else [])
  }

  /** The object answers for a key exactly as the pairs do: present, last value, sent twice. */
  lemma {:induction false} HookedAnswers(pairs: seq<(string, Parsed)>, key: string)
    ensures
      var o, values := Hooked(pairs), Under(pairs, key);
      && (key in o.members <==> values != [])
      && (values != [] ==> o.members[key] == values[|values| - 1])
      && (key in o.duplicates <==> |values| > 1)
  {
    if pairs != [] {
      HookedAnswers(pairs[..|pairs| - 1], key);
    }
  }

  lemma {:induction false} UnderParsed(fields: seq<(string, Raw)>, pairs: seq<(string, Parsed)>, key: string)
    requires |pairs| == |fields| && forall i :: 0 <= i < |fields| ==> pairs[i] == (fields[i].0, Parse(fields[i].1))
    ensures
      var raw, parsed := Under(fields, key), Under(pairs, key);
      |raw| == |parsed| && forall i :: 0 <= i < |raw| ==> parsed[i] == Parse(raw[i])
  {
    hide Parse;
    if fields != [] {
      UnderParsed(fields[..|fields| - 1], pairs[..|pairs| - 1], key);
    }
  }

  // ------------------------------------------------------------------------------------
  // What an upstream may do
  // ------------------------------------------------------------------------------------

  /** How some other parser settles a repetition: which of the values it takes. */
  datatype Policy = Policy(ofText: seq<string> -> nat, ofJson: seq<Raw> -> nat)

  function Taken<V>(values: seq<V>, pick: seq<V> -> nat): (r: Option<V>) {
    if values == [] then None else Some(values[pick(values) % |values|])
  }

  function UpstreamWalk(root: Raw, keys: seq<string>, p: Policy): (r: Option<Raw>)
    decreases |keys|
  {
    if keys == [] then Some(root)
    else if !root.RObj? then None
    else
      var next := Taken(Under(root.fields, keys[0]), p.ofJson);
      if next.None? then None else UpstreamWalk(next.value, keys[1..], p)
  }

  // ------------------------------------------------------------------------------------
  // Walking a path
  // ------------------------------------------------------------------------------------

  datatype Walked = Absent | At(value: Parsed) | Ambiguous

  function Walk(current: Parsed, keys: seq<string>): (r: Walked)
    decreases |keys|
  {
    if keys == [] then At(current)
    else if !current.Obj? then Absent
    else if keys[0] in current.duplicates then Ambiguous
    else if keys[0] !in current.members then Absent
    else Walk(current.members[keys[0]], keys[1..])
  }

  method ResolveBody(root: Parsed, keys: seq<string>) returns (r: Walked)
    ensures r == Walk(root, keys)
  {
    var current := root;
    for i := 0 to |keys|
      invariant Walk(root, keys) == Walk(current, keys[i..])
    {
      var key := keys[i];
      assert keys[i..][1..] == keys[i + 1..];
      if !current.Obj? {
        return Absent;
      }
      if key in current.duplicates {
        return Ambiguous;
      }
      if key !in current.members {
        return Absent;
      }
      current := current.members[key];
    }
    r := At(current);
  }

  lemma ParsedObject(fields: seq<(string, Raw)>, key: string)
    ensures
      var o, values := Parse(RObj(fields)), Under(fields, key);
      && (key in o.members <==> values != [])
      && (values != [] ==> o.members[key] == Parse(values[|values| - 1]))
      && (key in o.duplicates <==> |values| > 1)
  {
    var pairs := ParseFields(fields);
    forall i | 0 <= i < |fields|
      ensures pairs[i] == (fields[i].0, Parse(fields[i].1))
    {
      ParseFieldsAt(fields, i);
    }
    UnderParsed(fields, pairs, key);
    HookedAnswers(pairs, key);
  }

  /** A path walked without refusal is walked alike by every parser. */
  lemma {:induction false} WalkIsUnanimous(root: Raw, keys: seq<string>, p: Policy)
    requires !Walk(Parse(root), keys).Ambiguous?
    ensures
      var mine, theirs := Walk(Parse(root), keys), UpstreamWalk(root, keys, p);
      if mine.Absent? then theirs.None? else theirs.Some? && Parse(theirs.value) == mine.value
    decreases |keys|
  {
    if keys != [] && root.RObj? {
      ParsedObject(root.fields, keys[0]);
      var values := Under(root.fields, keys[0]);
      if |values| == 1 {
        assert p.ofJson(values) % 1 == 0;
        WalkIsUnanimous(values[0], keys[1..], p);
      }
    }
  }

  // ------------------------------------------------------------------------------------
  // Arguments
  // ------------------------------------------------------------------------------------

  datatype Kind = FromPath | FromQuery | FromHeader | FromBody

  datatype Source = Source(kind: Kind, keys: seq<string>, numeric: bool)

  /** Header names arrive in any case; they are compared in lower case. */
  datatype Request = Request(
    path: map<string, string>, query: seq<(string, string)>, headers: seq<(string, string)>, body: Option<Raw>)

  /** The text functions this relies on. */
  datatype Texts = Texts(nfc: string -> string, decoded: string -> string, lower: string -> string,
                         number: string -> Option<Number>)

  function Lowered(headers: seq<(string, string)>, lower: string -> string): (r: seq<(string, string)>) {
    seq(|headers|, i requires 0 <= i < |headers| => (lower(headers[i].0), headers[i].1))
  }

  ghost predicate Collected(c: map<string, seq<string>>, pairs: seq<(string, string)>) {
    && (forall name :: name in c <==> Under(pairs, name) != [])
    && (forall name :: name in c ==> c[name] == Under(pairs, name))
  }

  /** Every value of every name, kept. */
  method Collect(pairs: seq<(string, string)>) returns (r: map<string, seq<string>>)
    ensures Collected(r, pairs)
  {
    r := map[];
    for i := 0 to |pairs|
      invariant Collected(r, pairs[..i])
    {
      assert pairs[..i + 1][..i] == pairs[..i];
      var (key, value) := pairs[i];
      r := r[key := (if key in r then r[key] else []) + [value]];
    }
    assert pairs[..|pairs|] == pairs;
  }

  /** What is read for a source: nothing, one value, or too many to choose from. */
  datatype Reading = Nothing | Single(raw: Raw) | TooMany

  function OneOf(values: seq<string>, nfc: string -> string): (r: Reading) {
    if values == [] then Nothing else if |values| > 1 then TooMany else Single(RStr(nfc(values[0])))
  }

  function FromWalk(w: Walked): (r: Reading) {
    match w
    case Absent => Nothing
    case Ambiguous => TooMany
    case At(value) =>
      if value.Obj? then Single(RObj([])) else if value.raw.RNull? then Nothing else Single(value.raw)
  }

  function ReadFor(q: Request, s: Source, t: Texts): (r: Reading)
    requires s.keys != []
  {
    match s.kind
    case FromPath =>
      if s.keys[0] in q.path then Single(RStr(t.nfc(t.decoded(q.path[s.keys[0]])))) else Nothing
    case FromQuery => OneOf(Under(q.query, s.keys[0]), t.nfc)
    case FromHeader => OneOf(Under(Lowered(q.headers, t.lower), s.keys[0]), t.nfc)
    case FromBody => if q.body.None? then Nothing else FromWalk(Walk(Parse(q.body.value), s.keys))
  }

  /** A quantity in units of the fourth place, or None: nothing is rounded. */
  function ToScaled(r: Raw, t: Texts): (n: Option<int>) {
    match r
    case RNum(_, v) => Exactly(v)
    case RStr(s) =>
      var number := t.number(s);
      if number.None? || number.value.NonFinite? then None else Exactly(number.value.value)
    case _ => None
  }

  function Exactly(v: real): (n: Option<int>)
    ensures n.Some? ==> n.value as real == v * 10000.0
  {
    var scaled := v * 10000.0;
    if scaled.Floor as real == scaled then Some(scaled.Floor) else None
  }

  /** Every quantity with at most four places is read, as its one scaled integer. */
  lemma ScalesWhateverFits(v: real, k: int)
    requires k as real == v * 10000.0
    ensures Exactly(v) == Some(k)
  {
    assert (k as real).Floor == k;
  }

  function ToText(r: Raw, t: Texts): (s: Option<string>) {
    match r
    case RBool(b) => Some(if b then "true" else "false")
    case RNum(text, _) => Some(text)
    case RStr(s) => Some(t.nfc(s))
    case _ => None
  }

  function Converted(r: Raw, numeric: bool, t: Texts): (a: Option<Arg>) {
    if numeric then (if ToScaled(r, t).Some? then Some(Scaled(ToScaled(r, t).value)) else None)
    else if ToText(r, t).Some? then Some(Textual(ToText(r, t).value)) else None
  }

  /** A source the request gives no clear, convertible answer for. */
  predicate Refuses(q: Request, s: Source, t: Texts)
    requires s.keys != []
  {
    var reading := ReadFor(q, s, t);
    reading.TooMany? || (reading.Single? && Converted(reading.raw, s.numeric, t).None?)
  }

  ghost predicate Mapping(sources: seq<(string, Source)>) {
    && (forall i :: 0 <= i < |sources| ==> sources[i].1.keys != [])
    && (forall i, j :: 0 <= i < j < |sources| ==> sources[i].0 != sources[j].0)
  }

  method ReadSource(
      q: Request, query: map<string, seq<string>>, headers: map<string, seq<string>>, body: Option<Parsed>, s: Source, t: Texts)
    returns (reading: Reading)
    requires s.keys != [] && Collected(query, q.query) && Collected(headers, Lowered(q.headers, t.lower))
    requires body == if q.body.Some? then Some(Parse(q.body.value)) else None
    ensures reading == ReadFor(q, s, t)
  {
    hide Parse, Walk, Under, Lowered;
    reading := Nothing;
    match s.kind
    case FromPath =>
      if s.keys[0] in q.path {
        reading := Single(RStr(t.nfc(t.decoded(q.path[s.keys[0]]))));
      }
    case FromQuery =>
      reading := OneOf(if s.keys[0] in query then query[s.keys[0]] else [], t.nfc);
    case FromHeader =>
      reading := OneOf(if s.keys[0] in headers then headers[s.keys[0]] else [], t.nfc);
    case FromBody =>
      if body.Some? {
        var walked := ResolveBody(body.value, s.keys);
        reading := FromWalk(walked);
      }
  }

  /** None is the raised refusal. It is raised exactly when some source refuses. */
  method Extract(q: Request, sources: seq<(string, Source)>, t: Texts) returns (args: Option<map<string, Arg>>)
    requires Mapping(sources)
    ensures args.None? <==> exists i :: 0 <= i < |sources| && Refuses(q, sources[i].1, t)
    ensures args.Some? ==> Answers(q, sources, t, args.value)
  {
    hide Parse, Under, Lowered, ReadFor, Converted, Answers;
    var query := Collect(q.query);
    NoAnswers(q, t);
    assert sources[..0] == [];
    var headers := Collect(Lowered(q.headers, t.lower));
    var body: Option<Parsed> := if q.body.Some? then Some(Parse(q.body.value)) else None;
    var found: map<string, Arg> := map[];
    for i := 0 to |sources|
      invariant forall k :: 0 <= k < i ==> !Refuses(q, sources[k].1, t)
      invariant Answers(q, sources[..i], t, found)
    {
      var (target, s) := sources[i];
      var reading := ReadSource(q, query, headers, body, s, t);
      if reading.TooMany? {
        assert Refuses(q, sources[i].1, t);
        return None;
      }
      if reading.Single? {
        var arg := Converted(reading.raw, s.numeric, t);
        if arg.None? {
          assert Refuses(q, sources[i].1, t);
          return None;
        }
        AnswerGrows(q, sources, i, t, found, Some(arg.value));
        found := found[target := arg.value];
      } else {
        AnswerGrows(q, sources, i, t, found, None);
      }
    }
    assert sources[..|sources|] == sources;
    args := Some(found);
  }

  /** One argument for each label whose source reads something, and no other. */
  ghost predicate Answers(q: Request, sources: seq<(string, Source)>, t: Texts, args: map<string, Arg>)
    requires forall i :: 0 <= i < |sources| ==> sources[i].1.keys != []
  {
    && (forall i :: 0 <= i < |sources| ==> AnswersFor(q, sources[i].0, sources[i].1, t, args))
    && (forall target :: target in args ==> exists i :: 0 <= i < |sources| && sources[i].0 == target)
  }

  ghost predicate AnswersFor(q: Request, target: string, s: Source, t: Texts, args: map<string, Arg>)
    requires s.keys != []
  {
    var reading := ReadFor(q, s, t);
    && (target in args <==> reading.Single?)
    && (target in args ==> Converted(reading.raw, s.numeric, t) == Some(args[target]))
  }

  lemma NoAnswers(q: Request, t: Texts)
    ensures Answers(q, [], t, map[])
  {
  }

  lemma AnswerGrows(q: Request, sources: seq<(string, Source)>, i: nat, t: Texts, args: map<string, Arg>, arg: Option<Arg>)
    requires Mapping(sources) && i < |sources| && Answers(q, sources[..i], t, args)
    requires !ReadFor(q, sources[i].1, t).TooMany?
    requires arg.Some? <==> ReadFor(q, sources[i].1, t).Single?
    requires arg.Some? ==> Converted(ReadFor(q, sources[i].1, t).raw, sources[i].1.numeric, t) == arg
    ensures Answers(q, sources[..i + 1], t, if arg.Some? then args[sources[i].0 := arg.value] else args)
  {
    hide ReadFor, Converted;
    var target := sources[i].0;
    var grown := if arg.Some? then args[target := arg.value] else args;
    var before, upto := sources[..i], sources[..i + 1];
    assert target !in args by {
      assert forall k :: 0 <= k < |before| ==> before[k].0 != target;
    }
    forall k | 0 <= k < i + 1
      ensures AnswersFor(q, upto[k].0, upto[k].1, t, grown)
    {
      if k < i {
        assert AnswersFor(q, before[k].0, before[k].1, t, args);
      }
    }
    forall l | l in grown
      ensures exists k :: 0 <= k < |upto| && upto[k].0 == l
    {
      if l == target {
        assert upto[i].0 == l;
      } else {
        var k :| 0 <= k < |before| && before[k].0 == l;
        assert upto[k].0 == l;
      }
    }
  }

  // ------------------------------------------------------------------------------------
  // The upstream cannot read another value
  // ------------------------------------------------------------------------------------

  /** What an upstream with this policy reads for a source; a JSON null is nothing. */
  function Upstream(q: Request, s: Source, t: Texts, p: Policy): (r: Option<Raw>)
    requires s.keys != []
  {
    match s.kind
    case FromPath => if s.keys[0] in q.path then Some(RStr(t.nfc(t.decoded(q.path[s.keys[0]])))) else None
    case FromQuery => Normal(Taken(Under(q.query, s.keys[0]), p.ofText), t.nfc)
    case FromHeader => Normal(Taken(Under(Lowered(q.headers, t.lower), s.keys[0]), p.ofText), t.nfc)
    case FromBody =>
      if q.body.None? then None
      else
        var value := UpstreamWalk(q.body.value, s.keys, p);
        if value.Some? && value.value.RNull? then None else value
  }

  function Normal(value: Option<string>, nfc: string -> string): (r: Option<Raw>) {
    if value.None? then None else Some(RStr(nfc(value.value)))
  }

  /** An object or array converts to nothing, whatever is inside. */
  lemma StructuresRefuse(a: Raw, numeric: bool, t: Texts)
    requires a.RObj? || a.RArr?
    ensures Converted(a, numeric, t).None?
  {
  }

  lemma BodyUnanimous(root: Raw, s: Source, t: Texts, p: Policy)
    requires !FromWalk(Walk(Parse(root), s.keys)).TooMany?
    ensures
      var mine, theirs := FromWalk(Walk(Parse(root), s.keys)), UpstreamWalk(root, s.keys, p);
      && (mine.Nothing? <==> theirs.None? || theirs.value.RNull?)
      && (mine.Single? ==> Converted(theirs.value, s.numeric, t) == Converted(mine.raw, s.numeric, t))
  {
    WalkIsUnanimous(root, s.keys, p);
    var theirs := UpstreamWalk(root, s.keys, p);
    if theirs.Some? && theirs.value.RObj? {
      StructuresRefuse(theirs.value, s.numeric, t);
      StructuresRefuse(RObj([]), s.numeric, t);
    }
  }

  /**
   Whatever rule an upstream has for repeated parameters, headers or keys: if extraction
   succeeds, the upstream reads nothing for a mapped argument exactly when the gateway does,
   and otherwise reads a value that converts to the very argument the gateway checked.
   */
  lemma UpstreamReadsTheSame(q: Request, sources: seq<(string, Source)>, t: Texts, args: map<string, Arg>, i: nat, p: Policy)
    requires Mapping(sources) && i < |sources| && Answers(q, sources, t, args)
    requires !Refuses(q, sources[i].1, t)
    ensures
      var target, s := sources[i].0, sources[i].1;
      var theirs := Upstream(q, s, t, p);
      && (target in args <==> theirs.Some?)
      && (target in args ==> Converted(theirs.value, s.numeric, t) == Some(args[target]))
  {
    hide Walk, UpstreamWalk, Parse, Under, ToScaled, ToText;
    var target, s := sources[i].0, sources[i].1;
    assert AnswersFor(q, target, s, t, args);
    if s.kind == FromBody && q.body.Some? {
      BodyUnanimous(q.body.value, s, t, p);
    }
    if s.kind == FromQuery && |Under(q.query, s.keys[0])| == 1 {
      assert p.ofText(Under(q.query, s.keys[0])) % 1 == 0;
    }
    if s.kind == FromHeader && |Under(Lowered(q.headers, t.lower), s.keys[0])| == 1 {
      assert p.ofText(Under(Lowered(q.headers, t.lower), s.keys[0])) % 1 == 0;
    }
  }

  lemma TakenAt(values: seq<string>, k: nat)
    requires k < |values|
    ensures Taken(values, (vs: seq<string>) => k) == Some(values[k])
  {
    assert k % |values| == k;
  }

  /** The refusal is needed: two different values under one name are two readings. */
  lemma RepetitionSplitsUpstreams(q: Request, s: Source, t: Texts, a: nat, b: nat)
    requires s.keys != [] && s.kind == FromQuery && a < b < |Under(q.query, s.keys[0])|
    requires t.nfc(Under(q.query, s.keys[0])[a]) != t.nfc(Under(q.query, s.keys[0])[b])
    ensures Refuses(q, s, t)
    ensures
      var first := Policy((vs: seq<string>) => a, (vs: seq<Raw>) => 0);
      var second := Policy((vs: seq<string>) => b, (vs: seq<Raw>) => 0);
      Upstream(q, s, t, first) != Upstream(q, s, t, second)
  {
    hide Under, Taken, UpstreamWalk, Walk, Parse;
    TakenAt(Under(q.query, s.keys[0]), a);
    TakenAt(Under(q.query, s.keys[0]), b);
  }

  // ------------------------------------------------------------------------------------
  // What is refused, and what is read
  // ------------------------------------------------------------------------------------

  /** Somewhere on the path, before anything else goes wrong, a key was sent twice. */
  ghost predicate Repeats(root: Raw, keys: seq<string>)
    decreases |keys|
  {
    && keys != [] && root.RObj?
    && var values := Under(root.fields, keys[0]);
       |values| > 1 || (|values| == 1 && Repeats(values[0], keys[1..]))
  }

  /** The path leads to `at`, every key on it sent once. */
  ghost predicate Reaches(root: Raw, keys: seq<string>, at: Raw)
    decreases |keys|
  {
    if keys == [] then at == root
    else
      && root.RObj?
      && var values := Under(root.fields, keys[0]);
         |values| == 1 && Reaches(values[0], keys[1..], at)
  }

  lemma {:induction false} WalkIs(root: Raw, keys: seq<string>)
    ensures Walk(Parse(root), keys).Ambiguous? <==> Repeats(root, keys)
    ensures forall at :: Reaches(root, keys, at) ==> Walk(Parse(root), keys) == At(Parse(at))
    ensures Walk(Parse(root), keys).At? ==> exists at :: Reaches(root, keys, at)
    decreases |keys|
  {
    hide Under, Parse;
    if keys == [] {
      assert Reaches(root, keys, root);
    } else if root.RObj? {
      ParsedObject(root.fields, keys[0]);
      ObjectParses(root);
      var values := Under(root.fields, keys[0]);
      if |values| == 1 {
        WalkIs(values[0], keys[1..]);
        if at :| Reaches(values[0], keys[1..], at) {
          assert Reaches(root, keys, at);
        }
      }
    } else {
      ObjectParses(root);
    }
  }

  lemma ObjectParses(r: Raw)
    ensures Parse(r).Obj? <==> r.RObj?
    ensures !r.RObj? ==> Parse(r) == Leaf(r)
  {
  }

  /** The one value sent for a source, a JSON null not counting. */
  ghost predicate Sent(q: Request, s: Source, t: Texts, r: Raw)
    requires s.keys != []
  {
    match s.kind
    case FromPath => s.keys[0] in q.path && r == RStr(t.nfc(t.decoded(q.path[s.keys[0]])))
    case FromQuery =>
      |Under(q.query, s.keys[0])| == 1 && r == RStr(t.nfc(Under(q.query, s.keys[0])[0]))
    case FromHeader =>
      var values := Under(Lowered(q.headers, t.lower), s.keys[0]);
      |values| == 1 && r == RStr(t.nfc(values[0]))
    case FromBody => q.body.Some? && Reaches(q.body.value, s.keys, r) && !r.RNull?
  }

  /** Sent more than once. */
  ghost predicate SentTwice(q: Request, s: Source, t: Texts)
    requires s.keys != []
  {
    match s.kind
    case FromPath => false
    case FromQuery => |Under(q.query, s.keys[0])| > 1
    case FromHeader => |Under(Lowered(q.headers, t.lower), s.keys[0])| > 1
    case FromBody => q.body.Some? && Repeats(q.body.value, s.keys)
  }

  /** A quantity is ten thousand times the number, exactly; a text is a string, a number as written, or a truth value. */
  ghost predicate Means(r: Raw, numeric: bool, t: Texts, a: Arg) {
    match a
    case Scaled(n) =>
      && numeric
      && ((r.RNum? && r.value * 10000.0 == n as real)
          || (r.RStr? && exists v :: t.number(r.s) == Some(Finite(v)) && v * 10000.0 == n as real))
    case Textual(s) =>
      && !numeric
      && ((r.RBool? && s == (if r.b then "true" else "false"))
          || (r.RNum? && s == r.text)
          || (r.RStr? && s == t.nfc(r.s)))
  }

  lemma ConvertedIff(r: Raw, numeric: bool, t: Texts, a: Arg)
    ensures Converted(r, numeric, t) == Some(a) <==> Means(r, numeric, t, a)
  {
    if a.Scaled? && r.RNum? && r.value * 10000.0 == a.n as real {
      ScalesWhateverFits(r.value, a.n);
    }
    if a.Scaled? && r.RStr? && t.number(r.s).Some? && t.number(r.s).value.Finite? {
      var v := t.number(r.s).value.value;
      if v * 10000.0 == a.n as real {
        ScalesWhateverFits(v, a.n);
      }
    }
  }

  lemma NothingMeant(r: Raw, numeric: bool, t: Texts)
    ensures Converted(r, numeric, t).None? <==> forall a :: !Means(r, numeric, t, a)
  {
    hide Converted, Means;
    forall a: Arg
      ensures Converted(r, numeric, t) == Some(a) <==> Means(r, numeric, t, a)
    {
      ConvertedIff(r, numeric, t, a);
    }
    if Converted(r, numeric, t).Some? {
      assert Means(r, numeric, t, Converted(r, numeric, t).value);
    }
  }

  lemma ReadingIs(q: Request, s: Source, t: Texts)
    requires s.keys != []
    ensures ReadFor(q, s, t).TooMany? <==> SentTwice(q, s, t)
    ensures ReadFor(q, s, t).Single? <==> exists r :: Sent(q, s, t, r)
    ensures forall r :: Sent(q, s, t, r) && ReadFor(q, s, t).Single? ==>
      Converted(r, s.numeric, t) == Converted(ReadFor(q, s, t).raw, s.numeric, t)
  {
    hide Walk, Parse, Under, Lowered, ToScaled, ToText;
    if s.kind == FromBody && q.body.Some? {
      BodyReadingIs(q, s, t);
    } else if ReadFor(q, s, t).Single? {
      assert Sent(q, s, t, ReadFor(q, s, t).raw);
    }
  }

  lemma BodyReadingIs(q: Request, s: Source, t: Texts)
    requires s.keys != [] && s.kind == FromBody && q.body.Some?
    ensures ReadFor(q, s, t).TooMany? <==> SentTwice(q, s, t)
    ensures ReadFor(q, s, t).Single? <==> exists r :: Sent(q, s, t, r)
    ensures forall r :: Sent(q, s, t, r) && ReadFor(q, s, t).Single? ==>
      Converted(r, s.numeric, t) == Converted(ReadFor(q, s, t).raw, s.numeric, t)
  {
    hide Walk, Parse, Reaches, Repeats, Converted;
    WalkIs(q.body.value, s.keys);
    if at :| Reaches(q.body.value, s.keys, at) {
      ObjectParses(at);
      if !at.RNull? {
        assert Sent(q, s, t, at);
      }
    }
    forall r | Sent(q, s, t, r)
      ensures ReadFor(q, s, t).Single?
      ensures Converted(r, s.numeric, t) == Converted(ReadFor(q, s, t).raw, s.numeric, t)
    {
      ObjectParses(r);
      if r.RObj? {
        StructuresRefuse(r, s.numeric, t);
        StructuresRefuse(RObj([]), s.numeric, t);
      }
    }
  }

  /** A source refuses exactly when its value was sent twice, or was sent and means no argument of its type. */
  lemma RefusesIff(q: Request, s: Source, t: Texts)
    requires s.keys != []
    ensures Refuses(q, s, t) <==>
      SentTwice(q, s, t) || exists r :: Sent(q, s, t, r) && forall a :: !Means(r, s.numeric, t, a)
  {
    hide ReadFor, Converted, Means, Sent, SentTwice;
    ReadingIs(q, s, t);
    forall r: Raw
      ensures Converted(r, s.numeric, t).None? <==> forall a :: !Means(r, s.numeric, t, a)
    {
      NothingMeant(r, s.numeric, t);
    }
  }

  /** Otherwise there is an argument exactly when a value was sent, and it is what that value means. */
  lemma ArgumentIs(q: Request, sources: seq<(string, Source)>, t: Texts, args: map<string, Arg>, i: nat)
    requires Mapping(sources) && i < |sources| && Answers(q, sources, t, args)
    ensures
      var target, s := sources[i].0, sources[i].1;
      && (target in args <==> exists r :: Sent(q, s, t, r))
      && (target in args ==> forall r :: Sent(q, s, t, r) ==> Means(r, s.numeric, t, args[target]))
  {
    hide ReadFor, Converted, Means, Sent, SentTwice;
    var target, s := sources[i].0, sources[i].1;
    assert AnswersFor(q, target, s, t, args);
    ReadingIs(q, s, t);
    if target in args {
      forall r | Sent(q, s, t, r)
        ensures Means(r, s.numeric, t, args[target])
      {
        ConvertedIff(r, s.numeric, t, args[target]);
      }
    }
  }
}
