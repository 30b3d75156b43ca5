/** The one JSON document an export writes, token by token, and a reader for it. A
    value's compact text is one token: compaction changes spacing, not the value. */
module AuditDocument {
  import opened Options
  import opened AuditChain
  import opened Orders

  datatype Token = Open | Close | ArrOpen | ArrClose | Comma | Colon | Name(name: string) | Val(value: Json)

  type Field = (string, Json)

  // ---- writing ----

  function TailTokens(rows: seq<Json>): seq<Token> {
    if rows == [] then [] else [Comma, Val(rows[0])] + TailTokens(rows[1..])
  }

  function RowTokens(rows: seq<Json>): seq<Token> {
    if rows == [] then [] else [Val(rows[0])] + TailTokens(rows[1..])
  }

  function FieldTokens(fields: seq<Field>): seq<Token> {
    if fields == [] then [] else [Comma, Name(fields[0].0), Colon, Val(fields[0].1)] + FieldTokens(fields[1..])
  }

  const HEADER: seq<Token> := [Open, Name("rows"), Colon, ArrOpen]

  function Picked(doc: map<string, Json>, keys: seq<string>): seq<Field>
    requires forall k :: k in keys ==> k in doc
  {
    seq(|keys|, i requires 0 <= i < |keys| => assert keys[i] in keys; (keys[i], doc[keys[i]]))
  }

  /** The evidence in key order, then every reported gap. */
  function FieldsOf(c: Chain, keys: seq<string>): seq<Field>
    requires forall k :: k in keys ==> k in c.doc
  {
    Picked(c.doc, keys) + (if c.gaps == [] then [] else [("seq_gaps", Arr(c.gaps))])
  }

  function Text(rows: seq<Json>, fields: seq<Field>): seq<Token> {
    HEADER + RowTokens(rows) + [ArrClose] + FieldTokens(fields) + [Close]
  }

  ghost predicate SortedKeys(doc: map<string, Json>, keys: seq<string>) {
    StrictlySorted(keys) && forall k :: k in keys <==> k in doc
  }

  /** ts is the document of c. The key order is determined, so there is only one. */
  ghost predicate IsDocument(c: Chain, ts: seq<Token>) {
    exists keys :: SortedKeys(c.doc, keys) && ts == Text(c.rows, FieldsOf(c, keys))
  }

  lemma {:induction false} DocumentUnique(c: Chain, ts: seq<Token>, us: seq<Token>)
    requires IsDocument(c, ts) && IsDocument(c, us)
    ensures ts == us
  {
    var j :| SortedKeys(c.doc, j) && ts == Text(c.rows, FieldsOf(c, j));
    var k :| SortedKeys(c.doc, k) && us == Text(c.rows, FieldsOf(c, k));
    SortedUnique(j, k);
  }

  lemma {:induction false} TailAppend(rows: seq<Json>, r: Json)
    ensures TailTokens(rows + [r]) == TailTokens(rows) + [Comma, Val(r)]
  {
    if rows == [] {
      assert TailTokens([]) == [];
    } else {
      assert (rows + [r])[1..] == rows[1..] + [r];
      TailAppend(rows[1..], r);
    }
  }

  lemma {:induction false} RowAppend(rows: seq<Json>, r: Json)
    ensures RowTokens(rows + [r]) == RowTokens(rows) + (if rows == [] then [Val(r)] else [Comma, Val(r)])
  {
    if rows == [] {
      assert TailTokens([]) == [];
    } else {
      assert (rows + [r])[1..] == rows[1..] + [r];
      TailAppend(rows[1..], r);
    }
  }

  lemma {:induction false} FieldAppend(fields: seq<Field>, f: Field)
    ensures FieldTokens(fields + [f]) == FieldTokens(fields) + [Comma, Name(f.0), Colon, Val(f.1)]
  {
    if fields == [] {
      assert FieldTokens([]) == [];
    } else {
      assert (fields + [f])[1..] == fields[1..] + [f];
      FieldAppend(fields[1..], f);
    }
  }

  // ---- reading ----

  /** The rest of an array after its first element, and what follows the array. */
  function ReadTail(ts: seq<Token>): Option<(seq<Json>, seq<Token>)> {
    if ts == [] then None
    else if ts[0] == ArrClose then Some(([], ts[1..]))
    else if |ts| >= 2 && ts[0] == Comma && ts[1].Val? then
      var rest := ReadTail(ts[2..]);
      if rest.None? then None else Some(([ts[1].value] + rest.value.0, rest.value.1))
    else None
  }

  function ReadArray(ts: seq<Token>): Option<(seq<Json>, seq<Token>)> {
    if ts == [] then None
    else if ts[0] == ArrClose then Some(([], ts[1..]))
    else if ts[0].Val? then
      var rest := ReadTail(ts[1..]);
      if rest.None? then None else Some(([ts[0].value] + rest.value.0, rest.value.1))
    else None
  }

  function ReadFields(ts: seq<Token>): Option<(seq<Field>, seq<Token>)> {
    if ts == [] then None
    else if ts[0] == Close then Some(([], ts[1..]))
    else if |ts| >= 4 && ts[0] == Comma && ts[1].Name? && ts[2] == Colon && ts[3].Val? then
      var rest := ReadFields(ts[4..]);
      if rest.None? then None else Some(([(ts[1].name, ts[3].value)] + rest.value.0, rest.value.1))
    else None
  }

  /** A document: its rows and its other fields, with nothing after it. */
  function Read(ts: seq<Token>): Option<(seq<Json>, seq<Field>)> {
    if |ts| < 4 || ts[..4] != HEADER || ReadArray(ts[4..]).None? then None
    else
      var (rows, more) := ReadArray(ts[4..]).value;
      var fields := ReadFields(more);
      if fields.None? || fields.value.1 != [] then None else Some((rows, fields.value.0))
  }

  lemma {:induction false} TailReadsBack(rows: seq<Json>, rest: seq<Token>)
    ensures ReadTail(TailTokens(rows) + [ArrClose] + rest) == Some((rows, rest))
  {
    var ts := TailTokens(rows) + [ArrClose] + rest;
    if rows == [] {
      assert ts[1..] == rest;
    } else {
      TailReadsBack(rows[1..], rest);
      assert ts[2..] == TailTokens(rows[1..]) + [ArrClose] + rest;
      assert rows == [rows[0]] + rows[1..];
    }
  }

  lemma {:induction false} ArrayReadsBack(rows: seq<Json>, rest: seq<Token>)
    ensures ReadArray(RowTokens(rows) + [ArrClose] + rest) == Some((rows, rest))
  {
    var ts := RowTokens(rows) + [ArrClose] + rest;
    if rows == [] {
      assert ts[1..] == rest;
    } else {
      var more := TailTokens(rows[1..]) + [ArrClose] + rest;
      TailReadsBack(rows[1..], rest);
      assert ts == [Val(rows[0])] + more;
      assert rows == [rows[0]] + rows[1..];
    }
  }

  lemma {:induction false} FieldsReadBack(fields: seq<Field>, rest: seq<Token>)
    ensures ReadFields(FieldTokens(fields) + [Close] + rest) == Some((fields, rest))
  {
    var ts := FieldTokens(fields) + [Close] + rest;
    if fields == [] {
      assert ts[1..] == rest;
    } else {
      FieldsReadBack(fields[1..], rest);
      assert ts[4..] == FieldTokens(fields[1..]) + [Close] + rest;
      assert fields == [fields[0]] + fields[1..];
    }
  }

  /** DOCUMENT ROUND TRIP. */
  lemma {:induction false} ReadsBack(rows: seq<Json>, fields: seq<Field>)
    ensures Read(Text(rows, fields)) == Some((rows, fields))
  {
    var ts := Text(rows, fields);
    var more := FieldTokens(fields) + [Close];
    assert ts[..4] == HEADER && ts[4..] == RowTokens(rows) + [ArrClose] + more;
    ArrayReadsBack(rows, more);
    FieldsReadBack(fields, []);
    assert FieldTokens(fields) + [Close] + [] == more;
  }

  /** Reading the document of a chain gives every row, each evidence key once with
      its value, and the gaps, under names that never repeat. */
  lemma {:induction false} DocumentReadsBack(c: Chain, ts: seq<Token>) returns (fields: seq<Field>)
    requires IsDocument(c, ts) && "rows" !in c.doc && "seq_gaps" !in c.doc
    ensures Read(ts) == Some((c.rows, fields))
    ensures forall k, v :: k != "seq_gaps" ==> ((k, v) in fields <==> k in c.doc && c.doc[k] == v)
    ensures forall v :: ("seq_gaps", v) in fields <==> c.gaps != [] && v == Arr(c.gaps)
    ensures forall i, j :: 0 <= i < j < |fields| ==> fields[i].0 != fields[j].0
    ensures forall f :: f in fields ==> f.0 != "rows"
  {
    var keys :| SortedKeys(c.doc, keys) && ts == Text(c.rows, FieldsOf(c, keys));
    fields := FieldsOf(c, keys);
    ReadsBack(c.rows, fields);
    forall k, v ensures (k, v) in Picked(c.doc, keys) <==> k in c.doc && c.doc[k] == v {
      PickedElements(c.doc, keys, k, v);
    }
    forall i, j | 0 <= i < j < |fields| ensures fields[i].0 != fields[j].0 {
      if j < |keys| { LessTotal(keys[i], keys[j]); } else { assert keys[i] in keys; }
    }
  }

  lemma {:induction false} PickedElements(doc: map<string, Json>, keys: seq<string>, k: string, v: Json)
    requires forall j :: j in keys <==> j in doc
    ensures (k, v) in Picked(doc, keys) <==> k in doc && doc[k] == v
  {
    if k in doc && doc[k] == v {
      var i :| 0 <= i < |keys| && keys[i] == k;
      assert Picked(doc, keys)[i] == (k, v);
    }
  }

  // ---- a part of a document is not a document ----

  lemma {:induction false} TailExtends(ts: seq<Token>, more: seq<Token>)
    requires ReadTail(ts).Some?
    ensures ReadTail(ts + more) == Some((ReadTail(ts).value.0, ReadTail(ts).value.1 + more))
  {
    var us := ts + more;
    assert us[0] == ts[0];
    if ts[0] == ArrClose {
      assert us[1..] == ts[1..] + more;
    } else {
      assert us[1] == ts[1] && us[2..] == ts[2..] + more;
      TailExtends(ts[2..], more);
    }
  }

  lemma {:induction false} ArrayExtends(ts: seq<Token>, more: seq<Token>)
    requires ReadArray(ts).Some?
    ensures ReadArray(ts + more) == Some((ReadArray(ts).value.0, ReadArray(ts).value.1 + more))
  {
    assert (ts + more)[1..] == ts[1..] + more;
    if ts[0] != ArrClose { TailExtends(ts[1..], more); }
  }

  lemma {:induction false} FieldsExtend(ts: seq<Token>, more: seq<Token>)
    requires ReadFields(ts).Some?
    ensures ReadFields(ts + more) == Some((ReadFields(ts).value.0, ReadFields(ts).value.1 + more))
  {
    var us := ts + more;
    assert us[0] == ts[0];
    if ts[0] == Close {
      assert us[1..] == ts[1..] + more;
    } else {
      assert us[1] == ts[1] && us[2] == ts[2] && us[3] == ts[3] && us[4..] == ts[4..] + more;
      FieldsExtend(ts[4..], more);
    }
  }

  /** What a failed export leaves behind, a proper prefix, does not read. */
  lemma {:induction false} PrefixDoesNotRead(rows: seq<Json>, fields: seq<Field>, n: nat)
    requires n < |Text(rows, fields)|
    ensures Read(Text(rows, fields)[..n]).None?
  {
    var ts := Text(rows, fields);
    var part, more := ts[..n], ts[n..];
    if Read(part).Some? {
      ReadsBack(rows, fields);
      assert part + more == ts;
      assert ts[4..] == part[4..] + more;
      ArrayExtends(part[4..], more);
      FieldsExtend(ReadArray(part[4..]).value.1, more);
      assert false;
    }
  }
}
