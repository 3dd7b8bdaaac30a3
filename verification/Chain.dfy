/**
 The audit chain: appending to it, verifying it, and what its head says about all of it. The
 hash is taken as injective and its digests as ASCII.
 */
module Chain {
  import opened Wrappers

  import opened Canonical
  import opened CanonicalLaws
  import opened Json
  import opened KeyedSort

  ghost predicate Digests(hash: string -> string) {
    && (forall s :: Ascii(hash(s)))
    && (forall s, t :: hash(s) == hash(t) ==> s == t)
  }

  function PrevValue(prev: Option<string>): (v: Value) { if prev.Some? then Str(prev.value) else Null }

  /** The previous hash is inside what is hashed. */
  function Linked(prev: Option<string>, record: Value): (v: Value) {
    Mapping([("prev", PrevValue(prev)), ("record", record)])
  }

  function ChainHash(nfc: string -> string, hash: string -> string, prev: Option<string>, record: Value): (r: Found<string>) {
    match Encode(nfc, Linked(prev, record))
    case Found(text) => Found(hash(text))
    case Rejected => Rejected
    case Unmodelled => Unmodelled
  }

  datatype Entry = Entry(id: string, body: Value)

  datatype Row = Row(seqNo: int, id: string, body: Value, prevHash: Option<string>, recordHash: string)

  /** The hash the row at `i` must name as its predecessor's. */
  function PrevHash(rows: seq<Row>, i: nat): (r: Option<string>)
    requires i <= |rows|
  {
    if i == 0 then None else Some(rows[i - 1].recordHash)
  }

  function HeadHash(rows: seq<Row>): (r: Option<string>) { PrevHash(rows, |rows|) }

  predicate GoodRow(nfc: string -> string, hash: string -> string, rows: seq<Row>, i: nat)
    requires i < |rows|
  {
    && rows[i].seqNo == i + 1 && rows[i].prevHash == PrevHash(rows, i)
    && ChainHash(nfc, hash, PrevHash(rows, i), rows[i].body) == Found(rows[i].recordHash)
  }

  ghost predicate Intact(nfc: string -> string, hash: string -> string, rows: seq<Row>) {
    forall i :: 0 <= i < |rows| ==> GoodRow(nfc, hash, rows, i)
  }

  // ------------------------------------------------------------------------------------
  // A link binds both of its halves
  // ------------------------------------------------------------------------------------

  function PrevTree(prev: Option<string>): (j: Json) { if prev.Some? then JStr(prev.value) else JNull }

  ghost predicate AsciiHash(prev: Option<string>) { prev.Some? ==> Ascii(prev.value) }

  lemma TwoFields(nfc: string -> string, x: (string, Value), y: (string, Value), a: (string, Json), b: (string, Json))
    requires CanonField(nfc, x) == Found(a) && CanonField(nfc, y) == Found(b)
    ensures CanonFields(nfc, [x, y]) == Found([a, b])
  {
    hide CanonField;
    assert [x, y][1..] == [y] && [y][1..] == [];
    assert CanonFields(nfc, [y][1..]) == Found([]) && [b] + [] == [b];
    assert CanonFields(nfc, [y]) == Found([b]);
    assert [a] + [b] == [a, b];
  }

  lemma LinkKeysApart(nfc: string -> string, p: Value, record: Value)
    requires Normalizer(nfc)
    ensures nfc("prev") == "prev" && nfc("record") == "record"
    ensures !Collides(nfc, [("prev", p), ("record", record)])
  {
    var items := [("prev", p), ("record", record)];
    NotColliding(nfc, items);
    assert NormalKeys(nfc, items) == ["prev", "record"];
    assert "prev"[0] != "record"[0];
  }

  lemma MappingTree(nfc: string -> string, items: seq<(string, Value)>, fields: seq<(string, Json)>)
    requires !Collides(nfc, items) && CanonFields(nfc, items) == Found(fields)
    ensures Canon(nfc, Mapping(items)) == Found(JObj(SortBy(fields)))
  {
    hide Collides, CanonFields, SortBy;
  }

  lemma PrevCanon(nfc: string -> string, prev: Option<string>)
    requires AsciiHash(prev) && Normalizer(nfc)
    ensures Canon(nfc, PrevValue(prev)) == Found(PrevTree(prev))
  {
  }

  lemma FieldTree(nfc: string -> string, key: string, v: Value, tree: Json)
    requires nfc(key) == key && Canon(nfc, v) == Found(tree)
    ensures CanonField(nfc, (key, v)) == Found((key, tree))
  {
    hide Canon;
  }

  lemma LinkTree(nfc: string -> string, prev: Option<string>, record: Value)
    requires Normalizer(nfc) && AsciiHash(prev) && Canon(nfc, record).Found?
    ensures Canon(nfc, Linked(prev, record)) == Found(JObj([("prev", PrevTree(prev)), ("record", Canon(nfc, record).value)]))
  {
    hide Collides, SortBy, Canon, CanonField, CanonFields, Normalizer, AsciiHash, PrevTree, PrevValue;
    var x, y := ("prev", PrevValue(prev)), ("record", record);
    var a, b := ("prev", PrevTree(prev)), ("record", Canon(nfc, record).value);
    LinkKeysApart(nfc, PrevValue(prev), record);
    PrevCanon(nfc, prev);
    FieldTree(nfc, "prev", PrevValue(prev), PrevTree(prev));
    FieldTree(nfc, "record", record, Canon(nfc, record).value);
    TwoFields(nfc, x, y, a, b);
    MappingTree(nfc, [x, y], [a, b]);
    SortPair(a, b);
  }

  lemma SortPair<T>(a: (string, T), b: (string, T))
    requires a.0 == "prev" && b.0 == "record"
    ensures SortBy([a, b]) == [a, b]
  {
    assert [a, b][1..] == [b] && [b][1..] == [];
    assert SortBy([b]) == [b];
    assert "prev"[0] < "record"[0];
  }

  lemma LinkEncodable(nfc: string -> string, prev: Option<string>, record: Value)
    requires Normalizer(nfc) && AsciiHash(prev)
    ensures Encode(nfc, Linked(prev, record)).Found? <==> Encode(nfc, record).Found?
  {
    hide Encode, Canon, Print;
    EncodePrintsCanon(nfc, record);
    EncodePrintsCanon(nfc, Linked(prev, record));
    if Canon(nfc, record).Found? {
      LinkTree(nfc, prev, record);
    } else {
      LinkRefused(nfc, prev, record);
    }
  }

  lemma LinkRefused(nfc: string -> string, prev: Option<string>, record: Value)
    requires !Canon(nfc, record).Found?
    ensures !Canon(nfc, Linked(prev, record)).Found?
  {
    var items := Linked(prev, record).items;
    assert items[1..] == [items[1]] && items[1..][1..] == [];
    assert items[1] == ("record", record) && !CanonField(nfc, items[1]).Found?;
    assert !CanonFields(nfc, items[1..]).Found?;
  }

  lemma KeyLiterals()
    ensures Literal("prev") == "\"prev\"" && Literal("record") == "\"record\""
  {
    hide Escaped;
    PlainEscapes("prev");
    PlainEscapes("record");
  }

  lemma PrevText(nfc: string -> string, prev: Option<string>)
    requires Normalizer(nfc) && AsciiHash(prev)
    ensures Encode(nfc, PrevValue(prev)) == Found(if prev.Some? then Literal(prev.value) else "null")
  {
  }

  lemma FieldBegins(nfc: string -> string, key: string, text: string)
    requires nfc(key) == key && Literal(key) == "\"" + key + "\""
    ensures FieldText(nfc, (key, text)) == "\"" + key + "\":" + text
  {
  }

  lemma LinkFields(nfc: string -> string, p: string, r: string)
    requires Normalizer(nfc)
    ensures Joined(FieldTexts(nfc, SortBy([("prev", p), ("record", r)]))) == "\"prev\":" + p + ("," + ("\"record\":" + r))
  {
    hide Normalizer, Literal, SortBy, Joined, FieldText;
    LinkKeysApart(nfc, Null, Null);
    KeyLiterals();
    SortPair(("prev", p), ("record", r));
    FieldBegins(nfc, "prev", p);
    FieldBegins(nfc, "record", r);
    var a, b := "\"prev\":" + p, "\"record\":" + r;
    assert "\"" + "prev" + "\":" == "\"prev\":" && "\"" + "record" + "\":" == "\"record\":";
    assert FieldTexts(nfc, [("prev", p), ("record", r)]) == [a, b];
    TwoJoined(a, b);
  }

  /** The very bytes that are hashed for a link. */
  lemma LinkText(nfc: string -> string, prev: Option<string>, record: Value)
    requires Normalizer(nfc) && AsciiHash(prev) && Encode(nfc, record).Found?
    ensures
      var p := if prev.Some? then Literal(prev.value) else "null";
      Encode(nfc, Linked(prev, record))
        == Found("{" + ("\"prev\":" + p + ("," + ("\"record\":" + Encode(nfc, record).value)) + "}"))
  {
    hide Normalizer, Literal, SortBy, Joined, FieldTexts, EncodeFields, Collides, PrevValue, AsciiHash;
    var p := if prev.Some? then Literal(prev.value) else "null";
    var r := Encode(nfc, record).value;
    var items := [("prev", PrevValue(prev)), ("record", record)];
    LinkKeysApart(nfc, PrevValue(prev), record);
    PrevText(nfc, prev);
    FieldsAre(nfc, items, [("prev", p), ("record", r)]);
    LinkFields(nfc, p, r);
  }

  /** Equal links have equal predecessors and records that are canonically the same. */
  lemma LinkBinds(nfc: string -> string, hash: string -> string, p: Option<string>, r: Value, q: Option<string>, s: Value)
    requires Normalizer(nfc) && Digests(hash) && AsciiHash(p) && AsciiHash(q)
    requires ChainHash(nfc, hash, p, r).Found? && ChainHash(nfc, hash, p, r) == ChainHash(nfc, hash, q, s)
    ensures p == q && Canon(nfc, r) == Canon(nfc, s)
  {
    hide Encode, Canon, Print, Linked;
    LinkEncodable(nfc, p, r);
    LinkEncodable(nfc, q, s);
    EncodePrintsCanon(nfc, r);
    EncodePrintsCanon(nfc, s);
    LinkTree(nfc, p, r);
    LinkTree(nfc, q, s);
    SameBytesIffSameTree(nfc, Linked(p, r), Linked(q, s));
    var a := [("prev", PrevTree(p)), ("record", Canon(nfc, r).value)];
    var b := [("prev", PrevTree(q)), ("record", Canon(nfc, s).value)];
    assert a == b;
    assert a[0] == b[0] && a[1] == b[1];
  }

  /** The hash stored with a record: of its predecessor's hash and its own bytes, so written. */
  ghost predicate StoredHash(nfc: string -> string, hash: string -> string, row: Row) {
    && Encode(nfc, row.body).Found?
    && var p := if row.prevHash.Some? then Literal(row.prevHash.value) else "null";
       row.recordHash == hash("{" + ("\"prev\":" + p + ("," + ("\"record\":" + Encode(nfc, row.body).value)) + "}"))
  }

  lemma StoredIff(nfc: string -> string, hash: string -> string, row: Row)
    requires Normalizer(nfc) && AsciiHash(row.prevHash)
    ensures ChainHash(nfc, hash, row.prevHash, row.body) == Found(row.recordHash) <==> StoredHash(nfc, hash, row)
  {
    hide Encode, Linked, Literal, Normalizer, AsciiHash;
    LinkEncodable(nfc, row.prevHash, row.body);
    if Encode(nfc, row.body).Found? {
      LinkText(nfc, row.prevHash, row.body);
    }
  }

  lemma ChainHashAscii(nfc: string -> string, hash: string -> string, rows: seq<Row>)
    requires Digests(hash)
    ensures forall i :: 0 <= i < |rows| && StoredHash(nfc, hash, rows[i]) ==> Ascii(rows[i].recordHash)
    ensures forall i, p :: (
      0 <= i < |rows| && ChainHash(nfc, hash, p, rows[i].body) == Found(rows[i].recordHash) ==> Ascii(rows[i].recordHash))
  {
    hide Encode, Linked, Literal, Ascii;
  }

  /**
   A chain is intact exactly when its rows are numbered from one, each names the hash stored
   with the row before it, the first none, and each is stored with its own hash.
   */
  lemma IntactIff(nfc: string -> string, hash: string -> string, rows: seq<Row>)
    requires Normalizer(nfc) && Digests(hash)
    ensures Intact(nfc, hash, rows) <==>
      && (forall i :: 0 <= i < |rows| ==> rows[i].seqNo == i + 1 && StoredHash(nfc, hash, rows[i]))
      && (forall i :: 0 < i < |rows| ==> rows[i].prevHash == Some(rows[i - 1].recordHash))
      && (rows != [] ==> rows[0].prevHash == None)
  {
    hide ChainHash, StoredHash, Normalizer;
    forall i | 0 <= i < |rows| && AsciiHash(rows[i].prevHash)
      ensures ChainHash(nfc, hash, rows[i].prevHash, rows[i].body) == Found(rows[i].recordHash)
         <==> StoredHash(nfc, hash, rows[i])
    {
      StoredIff(nfc, hash, rows[i]);
    }
    ChainHashAscii(nfc, hash, rows);
    if Intact(nfc, hash, rows) {
      forall i | 0 <= i < |rows|
        ensures rows[i].seqNo == i + 1 && StoredHash(nfc, hash, rows[i]) && rows[i].prevHash == PrevHash(rows, i)
      {
        assert GoodRow(nfc, hash, rows, i);
        assert i > 0 ==> GoodRow(nfc, hash, rows, i - 1);
      }
    }
  }

  lemma IntactPrefix(nfc: string -> string, hash: string -> string, rows: seq<Row>)
    requires Intact(nfc, hash, rows) && rows != []
    ensures Intact(nfc, hash, rows[..|rows| - 1])
    ensures HeadHash(rows[..|rows| - 1]) == rows[|rows| - 1].prevHash
  {
    hide ChainHash;
    var init := rows[..|rows| - 1];
    assert GoodRow(nfc, hash, rows, |rows| - 1);
    forall i | 0 <= i < |init|
      ensures GoodRow(nfc, hash, init, i)
    {
      assert GoodRow(nfc, hash, rows, i);
    }
  }

  lemma HeadsAscii(nfc: string -> string, hash: string -> string, rows: seq<Row>)
    requires Intact(nfc, hash, rows) && Digests(hash)
    ensures AsciiHash(HeadHash(rows))
  {
    hide Encode;
    if rows != [] {
      assert GoodRow(nfc, hash, rows, |rows| - 1);
    }
  }

  ghost predicate SameHistory(nfc: string -> string, a: seq<Row>, b: seq<Row>) {
    |a| == |b| && forall i :: 0 <= i < |a| ==> Canon(nfc, a[i].body) == Canon(nfc, b[i].body)
  }

  /**
   One head hash stands for one history: two intact chains with equal heads have the same
   length and the same canonical record at every place.
   */
  lemma {:induction false} HeadBindsHistory(nfc: string -> string, hash: string -> string, a: seq<Row>, b: seq<Row>)
    requires Normalizer(nfc) && Digests(hash) && Intact(nfc, hash, a) && Intact(nfc, hash, b)
    requires HeadHash(a) == HeadHash(b)
    ensures SameHistory(nfc, a, b)
    decreases |a|
  {
    hide ChainHash, Canon, Intact;
    if a != [] {
      var x, y := a[|a| - 1], b[|b| - 1];
      var c, d := a[..|a| - 1], b[..|b| - 1];
      LastGood(nfc, hash, a);
      LastGood(nfc, hash, b);
      IntactPrefix(nfc, hash, a);
      IntactPrefix(nfc, hash, b);
      HeadsAscii(nfc, hash, c);
      HeadsAscii(nfc, hash, d);
      LinkBinds(nfc, hash, x.prevHash, x.body, y.prevHash, y.body);
      HeadBindsHistory(nfc, hash, c, d);
      assert a == c + [x] && b == d + [y];
    }
  }

  lemma LastGood(nfc: string -> string, hash: string -> string, rows: seq<Row>)
    requires Intact(nfc, hash, rows) && rows != []
    ensures
      var last := rows[|rows| - 1];
      ChainHash(nfc, hash, last.prevHash, last.body) == Found(last.recordHash)
  {
    hide ChainHash;
    assert GoodRow(nfc, hash, rows, |rows| - 1);
  }

  /** A record altered anywhere, dropped from the end or the middle, or moved, changes the head. */
  lemma TamperingMovesTheHead(nfc: string -> string, hash: string -> string, a: seq<Row>, b: seq<Row>)
    requires Normalizer(nfc) && Digests(hash) && Intact(nfc, hash, a) && Intact(nfc, hash, b)
    requires !SameHistory(nfc, a, b)
    ensures HeadHash(a) != HeadHash(b)
  {
    hide ChainHash, Canon, Intact, HeadHash;
    if HeadHash(a) == HeadHash(b) {
      HeadBindsHistory(nfc, hash, a, b);
    }
  }

  // ------------------------------------------------------------------------------------
  // Verifying
  // ------------------------------------------------------------------------------------

  /** `Unreadable` is the error a stored record with no canonical form raises. */
  datatype Verification = Verified(checked: nat) | Broken(checked: nat, firstBad: int) | Unreadable

  /** The row follows the one before it, and its record has no canonical form. */
  predicate UnreadableAt(nfc: string -> string, hash: string -> string, rows: seq<Row>, i: nat)
    requires i < |rows|
  {
    && rows[i].seqNo == i + 1 && rows[i].prevHash == PrevHash(rows, i)
    && !ChainHash(nfc, hash, PrevHash(rows, i), rows[i].body).Found?
  }

  /** Rows come ordered by number; the head row gives the number it counted up to. */
  method VerifyChain(nfc: string -> string, hash: string -> string, rows: seq<Row>, headSeq: int) returns (r: Verification)
    requires forall i, j :: 0 <= i < j < |rows| ==> rows[i].seqNo < rows[j].seqNo
    ensures r.Verified? <==> Intact(nfc, hash, rows) && headSeq == |rows|
    ensures r.Verified? ==> r.checked == |rows|
    ensures r.Broken? ==> r.checked <= |rows| && Intact(nfc, hash, rows[..r.checked])
    ensures r.Broken? && r.checked < |rows| ==>
      && !GoodRow(nfc, hash, rows, r.checked) && !UnreadableAt(nfc, hash, rows, r.checked)
      && r.firstBad == rows[r.checked].seqNo
    ensures r.Unreadable? ==>
      exists i: nat :: i < |rows| && Intact(nfc, hash, rows[..i]) && UnreadableAt(nfc, hash, rows, i)
    ensures r.Broken? && r.checked == |rows| ==> headSeq != |rows| && r.firstBad == |rows| + 1
  {
    hide ChainHash;
    var previous: Option<string> := None;
    var previousSeq := 0;
    for i := 0 to |rows|
      invariant previousSeq == i && previous == PrevHash(rows, i) && (i > 0 ==> rows[i - 1].seqNo == i)
      invariant forall k :: 0 <= k < i ==> GoodRow(nfc, hash, rows, k)
    {
      var row := rows[i];
      PrefixIntact(nfc, hash, rows, i);
      if row.seqNo != previousSeq + 1 || row.prevHash != previous {
        assert !GoodRow(nfc, hash, rows, i);
        return Broken(previousSeq, row.seqNo);
      }
      var recomputed := ChainHash(nfc, hash, previous, row.body);
      if !recomputed.Found? {
        assert UnreadableAt(nfc, hash, rows, i) && !GoodRow(nfc, hash, rows, i);
        return Unreadable;
      }
      if recomputed.value != row.recordHash {
        assert !GoodRow(nfc, hash, rows, i);
        return Broken(previousSeq, row.seqNo);
      }
      previous := Some(row.recordHash);
      previousSeq := row.seqNo;
    }
    var highest := if rows == [] then 0 else rows[|rows| - 1].seqNo;
    if headSeq != highest {
      PrefixIntact(nfc, hash, rows, |rows|);
      return Broken(previousSeq, highest + 1);
    }
    r := Verified(previousSeq);
  }

  lemma PrefixIntact(nfc: string -> string, hash: string -> string, rows: seq<Row>, n: nat)
    requires n <= |rows| && forall k :: 0 <= k < n ==> GoodRow(nfc, hash, rows, k)
    ensures Intact(nfc, hash, rows[..n])
  {
    hide ChainHash;
    forall i | 0 <= i < n
      ensures GoodRow(nfc, hash, rows[..n], i)
    {
      assert GoodRow(nfc, hash, rows, i);
    }
  }

  // ------------------------------------------------------------------------------------
  // Appending
  // ------------------------------------------------------------------------------------

  ghost predicate Holds(rows: seq<Row>, id: string) { exists i :: 0 <= i < |rows| && rows[i].id == id }

  function Ids(rows: seq<Row>): (r: set<string>)
    ensures forall id :: id in r <==> Holds(rows, id)
  {
    set i | 0 <= i < |rows| :: rows[i].id
  }

  function Unseen(known: set<string>, batch: seq<Entry>): (r: seq<Entry>) {
    if batch == [] then []
    else Unseen(known, batch[..|batch| - 1]) + (if batch[|batch| - 1].id in known then [] else [batch[|batch| - 1]])
  }

  /** The rows with these entries chained on; None where one has no canonical form. */
  function Chained(nfc: string -> string, hash: string -> string, rows: seq<Row>, unseen: seq<Entry>): (r: Option<seq<Row>>) {
    if unseen == [] then Some(rows)
    else
      var before := Chained(nfc, hash, rows, unseen[..|unseen| - 1]);
      if before.None? then None
      else
        var e := unseen[|unseen| - 1];
        var link := ChainHash(nfc, hash, HeadHash(before.value), e.body);
        if !link.Found? then None
        else Some(before.value + [Row(|before.value| + 1, e.id, e.body, HeadHash(before.value), link.value)])
  }

  /** The table's unique constraint. */
  predicate UniqueIds(rows: seq<Row>) { forall i, j :: 0 <= i < j < |rows| ==> rows[i].id != rows[j].id }

  function HashesFrom(rows: seq<Row>, from: nat): (r: seq<string>)
    requires from <= |rows|
    ensures |r| == |rows| - from && forall i :: 0 <= i < |r| ==> r[i] == rows[from + i].recordHash
  {
    seq(|rows| - from, i requires 0 <= i < |rows| - from => rows[from + i].recordHash)
  }

  /** Chaining keeps an intact chain intact, in front of what it adds, in the order given. */
  lemma {:induction false} ChainedKeeps(nfc: string -> string, hash: string -> string, rows: seq<Row>, more: seq<Entry>)
    requires Intact(nfc, hash, rows) && Chained(nfc, hash, rows, more).Some?
    ensures
      var after := Chained(nfc, hash, rows, more).value;
      && Intact(nfc, hash, after) && |after| == |rows| + |more| && rows <= after
      && forall i :: 0 <= i < |more| ==> after[|rows| + i].id == more[i].id && after[|rows| + i].body == more[i].body
  {
    hide ChainHash;
    if more != [] {
      var init := more[..|more| - 1];
      ChainedKeeps(nfc, hash, rows, init);
      var before, after := Chained(nfc, hash, rows, init).value, Chained(nfc, hash, rows, more).value;
      forall i | 0 <= i < |after|
        ensures GoodRow(nfc, hash, after, i)
      {
        if i < |before| {
          assert GoodRow(nfc, hash, before, i);
        }
      }
    }
  }

  lemma {:induction false} UnseenAre(known: set<string>, batch: seq<Entry>)
    ensures forall e :: e in Unseen(known, batch) <==> e in batch && e.id !in known
    ensures (forall e :: e in batch ==> e.id in known) ==> Unseen(known, batch) == []
  {
    if batch != [] {
      UnseenAre(known, batch[..|batch| - 1]);
      assert batch == batch[..|batch| - 1] + [batch[|batch| - 1]];
    }
  }

  /** `taken` is the part of the batch not yet stored, in its order; `at` says where each was. */
  ghost predicate Selects(batch: seq<Entry>, known: set<string>, taken: seq<Entry>, at: seq<nat>) {
    && |at| == |taken|
    && (forall j :: 0 <= j < |at| ==> at[j] < |batch| && taken[j] == batch[at[j]] && taken[j].id !in known)
    && (forall j, k :: 0 <= j < k < |at| ==> at[j] < at[k])
    && (forall i :: 0 <= i < |batch| && batch[i].id !in known ==> i in at)
  }

  lemma {:induction false} UnseenSelected(known: set<string>, batch: seq<Entry>) returns (at: seq<nat>)
    ensures Selects(batch, known, Unseen(known, batch), at)
  {
    hide Selects;
    at := [];
    if batch == [] {
      UnseenNone(known);
      SelectsNone(known);
      assert batch == [];
    } else {
      var n := |batch| - 1;
      at := UnseenSelected(known, batch[..n]);
      SelectsMore(batch, known, Unseen(known, batch[..n]), at);
      assert Unseen(known, batch[..n]) + [] == Unseen(known, batch[..n]);
      if batch[n].id !in known {
        at := at + [n];
      }
    }
  }

  lemma SelectsNone(known: set<string>)
    ensures Selects([], known, [], [])
  {
  }

  lemma SelectsMore(batch: seq<Entry>, known: set<string>, taken: seq<Entry>, at: seq<nat>)
    requires batch != [] && Selects(batch[..|batch| - 1], known, taken, at)
    ensures
      var n := |batch| - 1;
      if batch[n].id in known then Selects(batch, known, taken, at) else Selects(batch, known, taken + [batch[n]], at + [n])
  {
  }

  lemma {:induction false} ChainedIff(nfc: string -> string, hash: string -> string, rows: seq<Row>, more: seq<Entry>)
    requires Normalizer(nfc) && Digests(hash) && Intact(nfc, hash, rows)
    ensures Chained(nfc, hash, rows, more).Some? <==> forall i :: 0 <= i < |more| ==> Encode(nfc, more[i].body).Found?
  {
    hide Encode, Linked, Intact, Normalizer, Digests, HeadHash;
    if more != [] {
      var init := more[..|more| - 1];
      ChainedIff(nfc, hash, rows, init);
      if Chained(nfc, hash, rows, init).Some? {
        var before := Chained(nfc, hash, rows, init).value;
        ChainedKeeps(nfc, hash, rows, init);
        HeadsAscii(nfc, hash, before);
        LinkEncodable(nfc, HeadHash(before), more[|more| - 1].body);
      }
    }
  }

  /**
   A batch is appended exactly when each of its entries not yet stored has a canonical form
   and none of those comes twice in it.
   */
  lemma AppendsIff(nfc: string -> string, hash: string -> string, rows: seq<Row>, batch: seq<Entry>)
    requires Normalizer(nfc) && Digests(hash) && Intact(nfc, hash, rows) && UniqueIds(rows)
    ensures
      var after := Chained(nfc, hash, rows, Unseen(Ids(rows), batch));
      after.Some? && UniqueIds(after.value) <==>
        && (forall e :: e in batch && !Holds(rows, e.id) ==> Encode(nfc, e.body).Found?)
        && (forall i, j :: 0 <= i < j < |batch| && batch[i].id == batch[j].id ==> Holds(rows, batch[i].id))
  {
    hide Encode, Chained, Unseen, Intact, Normalizer, Digests, Holds;
    var known, more := Ids(rows), Unseen(Ids(rows), batch);
    ChainedIff(nfc, hash, rows, more);
    UnseenAre(known, batch);
    var at := UnseenSelected(known, batch);
    var apart := forall i, j :: 0 <= i < j < |batch| && batch[i].id == batch[j].id ==> batch[i].id in known;
    assert (forall i :: 0 <= i < |more| ==> Encode(nfc, more[i].body).Found?)
      <==> (forall e :: e in batch && e.id !in known ==> Encode(nfc, e.body).Found?);
    if Chained(nfc, hash, rows, more).Some? {
      ChainedKeeps(nfc, hash, rows, more);
      var after := Chained(nfc, hash, rows, more).value;
      ApartIff(rows, after, batch, more, at);
      assert UniqueIds(after) <==> apart;
    }
  }

  lemma ApartIff(rows: seq<Row>, after: seq<Row>, batch: seq<Entry>, more: seq<Entry>, at: seq<nat>)
    requires UniqueIds(rows) && Selects(batch, Ids(rows), more, at)
    requires |after| == |rows| + |more| && rows <= after
    requires forall i :: 0 <= i < |more| ==> after[|rows| + i].id == more[i].id
    ensures UniqueIds(after) <==>
      forall i, j :: 0 <= i < j < |batch| && batch[i].id == batch[j].id ==> batch[i].id in Ids(rows)
  {
    var known := Ids(rows);
    var apart := forall i, j :: 0 <= i < j < |batch| && batch[i].id == batch[j].id ==> batch[i].id in known;
    if UniqueIds(after) {
      forall a, b | 0 <= a < b < |at|
        ensures batch[at[a]].id != batch[at[b]].id
      {
        assert after[|rows| + a].id != after[|rows| + b].id;
      }
      forall i, j | 0 <= i < j < |batch| && batch[i].id == batch[j].id
        ensures batch[i].id in known
      {
        assert batch[i].id !in known ==> i in at && j in at;
      }
    }
    if apart {
      forall i, j | 0 <= i < j < |after|
        ensures after[i].id != after[j].id
      {
        if j < |rows| {
          assert after[i] == rows[i] && after[j] == rows[j];
        } else if i < |rows| {
          assert after[i] == rows[i] && after[j].id == more[j - |rows|].id;
          assert Holds(rows, after[i].id);
        } else {
          assert after[i].id == more[i - |rows|].id && after[j].id == more[j - |rows|].id;
          assert at[i - |rows|] < at[j - |rows|];
        }
      }
    }
  }

  /** A batch delivered again, whole, finds nothing left to append. */
  lemma RetryAppendsNothing(nfc: string -> string, hash: string -> string, rows: seq<Row>, batch: seq<Entry>)
    requires Intact(nfc, hash, rows) && Chained(nfc, hash, rows, Unseen(Ids(rows), batch)).Some?
    ensures
      var after := Chained(nfc, hash, rows, Unseen(Ids(rows), batch)).value;
      Chained(nfc, hash, after, Unseen(Ids(after), batch)) == Some(after)
  {
    hide ChainHash, Intact;
    var more := Unseen(Ids(rows), batch);
    ChainedKeeps(nfc, hash, rows, more);
    var after := Chained(nfc, hash, rows, more).value;
    UnseenAre(Ids(rows), batch);
    forall e | e in batch
      ensures e.id in Ids(after)
    {
      if e in more {
        var i :| 0 <= i < |more| && more[i] == e;
        assert after[|rows| + i].id == e.id;
      } else {
        var i :| 0 <= i < |rows| && rows[i].id == e.id;
        assert after[i] == rows[i];
      }
    }
    UnseenAre(Ids(after), batch);
  }

  lemma ChainedNone(nfc: string -> string, hash: string -> string, rows: seq<Row>)
    ensures Chained(nfc, hash, rows, []) == Some(rows)
  {
  }

  lemma UnseenNone(known: set<string>)
    ensures Unseen(known, []) == []
  {
  }

  lemma UnseenStep(known: set<string>, batch: seq<Entry>, i: nat)
    requires i < |batch|
    ensures Unseen(known, batch[..i + 1]) == Unseen(known, batch[..i]) + (if batch[i].id in known then [] else [batch[i]])
  {
    assert batch[..i + 1][..i] == batch[..i];
  }

  lemma ChainedStep(nfc: string -> string, hash: string -> string, rows: seq<Row>, taken: seq<Entry>, e: Entry)
    requires Chained(nfc, hash, rows, taken).Some?
    ensures
      var before := Chained(nfc, hash, rows, taken).value;
      var link := ChainHash(nfc, hash, HeadHash(before), e.body);
      Chained(nfc, hash, rows, taken + [e])
      == if link.Found? then Some(before + [Row(|before| + 1, e.id, e.body, HeadHash(before), link.value)]) else None
  {
    hide ChainHash;
    assert (taken + [e])[..|taken|] == taken;
  }

  class AuditStore {
    const nfc: string -> string
    const hash: string -> string
    var rows: seq<Row>
    var lastSeq: int
    var lastHash: Option<string>

    ghost predicate Valid()
      reads this
    {
      Intact(nfc, hash, rows) && UniqueIds(rows) && lastSeq == |rows| && lastHash == HeadHash(rows)
    }

    constructor (nfc: string -> string, hash: string -> string)
      ensures Valid() && rows == [] && this.nfc == nfc && this.hash == hash
    {
      this.nfc, this.hash := nfc, hash;
      rows, lastSeq, lastHash := [], 0, None;
    }

    /**
     One transaction: it commits every entry not yet in the chain, or, where one has no
     canonical form or an id would come twice, nothing.
     */
    method Append(batch: seq<Entry>) returns (hashes: Option<seq<string>>)
      requires Valid()
      modifies this
      ensures Valid()
      ensures
        var after := Chained(nfc, hash, old(rows), Unseen(Ids(old(rows)), batch));
        && (hashes.Some? <==> after.Some? && UniqueIds(after.value))
        && rows == (if hashes.Some? then after.value else old(rows))
        && (hashes.Some? ==> old(rows) <= rows && hashes.value == HashesFrom(rows, |old(rows)|))
    {
      hide ChainHash, Intact, Chained, Unseen, HashesFrom, UniqueIds;
      ChainedNone(nfc, hash, rows);
      UnseenNone(Ids(rows));
      var existing := Ids(rows);
      var added := rows;
      var sequence, head := lastSeq, lastHash;
      var out: seq<string> := [];
      ghost var taken: seq<Entry> := [];
      assert batch[..0] == [] && HashesFrom(rows, |rows|) == [];
      for i := 0 to |batch|
        invariant taken == Unseen(existing, batch[..i])
        invariant Chained(nfc, hash, rows, taken) == Some(added)
        invariant sequence == |added| && head == HeadHash(added)
        invariant rows <= added && out == HashesFrom(added, |rows|)
        invariant rows == old(rows) && lastSeq == old(lastSeq) && lastHash == old(lastHash)
      {
        var e := batch[i];
        UnseenStep(existing, batch, i);
        if e.id !in existing {
          var link := ChainHash(nfc, hash, head, e.body);
          ChainedStep(nfc, hash, rows, taken, e);
          if !link.Found? {
            NoChainNoMore(nfc, hash, rows, existing, batch, i + 1);
            return None;
          }
          sequence := sequence + 1;
          added := added + [Row(sequence, e.id, e.body, head, link.value)];
          head := Some(link.value);
          out := out + [link.value];
          assert out == HashesFrom(added, |rows|);
          taken := taken + [e];
        }
      }
      assert batch[..|batch|] == batch;
      if !UniqueIds(added) {
        return None;
      }
      ChainedKeeps(nfc, hash, rows, taken);
      rows, lastSeq, lastHash := added, sequence, head;
      hashes := Some(out);
    }
  }

  lemma {:induction false} NoChainNoMore(
    nfc: string -> string, hash: string -> string, rows: seq<Row>, known: set<string>, batch: seq<Entry>, i: nat)
    requires i <= |batch| && Chained(nfc, hash, rows, Unseen(known, batch[..i])).None?
    ensures Chained(nfc, hash, rows, Unseen(known, batch)).None?
    decreases |batch| - i
  {
    hide ChainHash;
    if i < |batch| {
      assert batch[..i + 1][..i] == batch[..i];
      var fewer, more := Unseen(known, batch[..i]), Unseen(known, batch[..i + 1]);
      assert more == fewer || more[..|more| - 1] == fewer;
      NoChainNoMore(nfc, hash, rows, known, batch, i + 1);
    } else {
      assert batch[..i] == batch;
    }
  }

  // ------------------------------------------------------------------------------------
  // What verifying alone does not show
  // ------------------------------------------------------------------------------------

  /**
   Any list of encodable records can be given a chain that verifies, the one stored or
   another: the check counts up to the head's number and never compares its hash. What pins
   the history is `HeadBindsHistory`, with a head hash kept elsewhere.
   */
  lemma {:induction false} AnyHistoryVerifies(nfc: string -> string, hash: string -> string, records: seq<Value>)
    returns (rows: seq<Row>)
    requires Normalizer(nfc) && Digests(hash) && forall i :: 0 <= i < |records| ==> Encode(nfc, records[i]).Found?
    ensures Intact(nfc, hash, rows) && |rows| == |records|
    ensures forall i :: 0 <= i < |rows| ==> rows[i].body == records[i]
  {
    hide Encode, Linked;
    if records == [] {
      rows := [];
    } else {
      var n := |records| - 1;
      var init := AnyHistoryVerifies(nfc, hash, records[..n]);
      HeadsAscii(nfc, hash, init);
      LinkEncodable(nfc, HeadHash(init), records[n]);
      var link := ChainHash(nfc, hash, HeadHash(init), records[n]);
      rows := init + [Row(n + 1, "", records[n], HeadHash(init), link.value)];
      forall i | 0 <= i < |rows|
        ensures GoodRow(nfc, hash, rows, i)
      {
        if i < n {
          assert GoodRow(nfc, hash, init, i);
        }
      }
    }
  }
}
