/** Write and Assemble: the cursor walk that writes the document as pages arrive,
    holding one page and the evidence, never the rows. */
module AuditExport {
  import opened Options
  import opened AuditChain
  import opened AuditLaws
  import opened AuditDocument
  import opened Orders

  /** An io.Writer. A failing write may still have written part of what it was given. */
  class Sink {
    var data: seq<Token>
    const reliable: bool
    /** How many writes have failed. */
    ghost var failures: nat

    constructor (reliable: bool)
      ensures data == [] && this.reliable == reliable && failures == 0
    {
      data, failures := [], 0;
      this.reliable := reliable;
    }

    method Write(b: seq<Token>) returns (err: bool)
      modifies this
      ensures reliable ==> !err
      ensures failures == old(failures) + if err then 1 else 0
      ensures !err ==> data == old(data) + b
      ensures old(data) <= data && data <= old(data) + b
    {
      err := *;
      err := err && !reliable;
      if err {
        var n: nat :| n <= |b|;
        data, failures := data + b[..n], failures + 1;
      } else {
        data := data + b;
      }
    }
  }

  /** stickyWriter: after the first error nothing more is written. */
  class StickyWriter {
    const w: Sink
    var err: bool
    ghost const base: seq<Token>
    ghost const before: nat
    ghost var sent: seq<Token>

    ghost predicate Valid()
      reads this, w
    {
      && (w.reliable ==> !err) && w.failures == before + (if err then 1 else 0)
      && (!err ==> w.data == base + sent)
      && base <= w.data && w.data <= base + sent
    }

    constructor (w: Sink)
      ensures Valid() && this.w == w && sent == [] && base == w.data && before == w.failures && !err
    {
      this.w, err, base, before, sent := w, false, w.data, w.failures, [];
    }

    method Write(b: seq<Token>)
      requires Valid()
      modifies this, w
      ensures Valid() && sent == old(sent) + b && (old(err) ==> err)
    {
      if !err {
        err := w.Write(b);
      }
      sent := sent + b;
      assert base + sent == base + old(sent) + b;
    }
  }

  /** What write keeps between pages. */
  datatype Held = Held(
    doc: map<string, Json>, gaps: seq<Json>, rowKeys: map<string, string>, total: int, bytesHeld: nat, wroteRow: bool)

  ghost function ChainOf(h: Held, rows: seq<Json>): Chain {
    Chain(rows, h.doc, h.gaps, h.rowKeys, h.total, h.bytesHeld)
  }

  /** One row, after a comma unless it is the first of the document. */
  method WriteRow(w: StickyWriter, r: Json, h0: Held, ghost rows: seq<Json>) returns (h: Held)
    requires w.Valid() && w.sent == HEADER + RowTokens(rows) && h0.wroteRow == (rows != [])
    modifies w, w.w
    ensures w.Valid() && w.sent == HEADER + RowTokens(rows + [r]) && h.wroteRow
    ensures ChainOf(h, rows + [r]) == AddRow(ChainOf(h0, rows), r)
  {
    h := h0.(wroteRow := true);
    if KeyOf(r) != "" && KeyOf(r) !in h.rowKeys {
      h := h.(rowKeys := h.rowKeys[KeyOf(r) := HostOf(r)]);
    }
    RowAppend(rows, r);
    if h0.wroteRow { w.Write([Comma]); }
    w.Write([Val(r)]);
  }

  /** Write a page's rows, noting the first host to use each signing key. */
  method WriteRows(w: StickyWriter, page: seq<Json>, h0: Held, ghost rows0: seq<Json>)
    returns (ok: bool, h: Held, ghost rows: seq<Json>)
    requires w.Valid() && w.sent == HEADER + RowTokens(rows0) && h0.wroteRow == (rows0 != [])
    modifies w, w.w
    ensures w.Valid() && w.sent == HEADER + RowTokens(rows) && h.wroteRow == (rows != [])
    ensures ok <==> AddRows(ChainOf(h0, rows0), page).Ok?
    ensures ok ==> AddRows(ChainOf(h0, rows0), page) == Ok(ChainOf(h, rows))
  {
    h, rows := h0, rows0;
    for i := 0 to |page|
      invariant w.Valid() && w.sent == HEADER + RowTokens(rows) && h.wroteRow == (rows != [])
      invariant AddRows(ChainOf(h0, rows0), page[..i]) == Ok(ChainOf(h, rows))
    {
      AddRowsNext(ChainOf(h0, rows0), page, i);
      if !RowDecodes(page[i]) {
        AddRowsStops(ChainOf(h0, rows0), page, i + 1);
        return false, h, rows;
      }
      h := WriteRow(w, page[i], h, rows);
      rows := rows + [page[i]];
    }
    assert page[..|page|] == page;
    ok := true;
  }

  lemma {:induction false} AddRowsNext(c: Chain, rows: seq<Json>, i: nat)
    requires i < |rows| && AddRows(c, rows[..i]).Ok?
    ensures AddRows(c, rows[..i + 1]) ==
            if RowDecodes(rows[i]) then Ok(AddRow(AddRows(c, rows[..i]).value, rows[i])) else Err(BadRow)
  {
    assert rows[..i + 1][..i] == rows[..i];
  }

  lemma {:induction false} AddRowsStops(c: Chain, rows: seq<Json>, i: nat)
    requires i <= |rows| && AddRows(c, rows[..i]).Err?
    ensures AddRows(c, rows).Err?
    decreases |rows|
  {
    if i == |rows| {
      assert rows[..i] == rows;
    } else {
      assert rows[..|rows| - 1][..i] == rows[..i];
      AddRowsStops(c, rows[..|rows| - 1], i);
    }
  }

  /** The evidence once all of a page's keys but todo have been merged. */
  function Merged(page: Page, todo: set<string>, doc: map<string, Json>): map<string, Json> {
    (map k | k in Evidence(page) && k !in todo :: Evidence(page)[k]) + doc
  }

  lemma {:induction false} MergedMore(page: Page, todo: set<string>, doc: map<string, Json>, k: string)
    requires k in todo
    ensures var m := Merged(page, todo, doc);
            Merged(page, todo - {k}, doc) ==
            if k in Evidence(page) && k !in m then m[k := Evidence(page)[k]] else m
  {
  }

  /** Evidence keys a page adds, and its gaps. */
  method MergeFields(page: Page, h0: Held) returns (ok: bool, h: Held)
    ensures ok <==> PageGaps(page).Ok?
    ensures ok ==> h == h0.(doc := Evidence(page) + h0.doc, gaps := h0.gaps + PageGaps(page).value)
  {
    h := h0;
    var todo := page.fields.Keys;
    while todo != {}
      invariant todo <= page.fields.Keys
      invariant h == h0.(doc := h.doc, gaps := h.gaps)
      invariant h.doc == Merged(page, todo, h0.doc)
      invariant "seq_gaps" in todo ==> h.gaps == h0.gaps
      invariant "seq_gaps" !in todo ==> PageGaps(page).Ok? && h.gaps == h0.gaps + PageGaps(page).value
    {
      var k :| k in todo;
      MergedMore(page, todo, h0.doc, k);
      todo := todo - {k};
      if k == "rows" {
      } else if k == "seq_gaps" {
        var gaps := AsArray(page.fields[k].value);
        if gaps.Err? { return false, h; }
        h := h.(gaps := h.gaps + gaps.value);
      } else if k !in h.doc {
        h := h.(doc := h.doc[k := page.fields[k].value]);
      }
    }
    ok := true;
  }

  /** A page's rows, if it has any and they fit. */
  method AddRowsTo(w: StickyWriter, page: Page, limit: nat, h0: Held, ghost rows0: seq<Json>)
    returns (r: Result<Held>, ghost rows: seq<Json>)
    requires w.Valid() && w.sent == HEADER + RowTokens(rows0) && h0.wroteRow == (rows0 != [])
    modifies w, w.w
    ensures w.Valid() && w.sent == HEADER + RowTokens(rows)
    ensures r.Err? ==> AddPage(ChainOf(h0, rows0), page, limit) == Err(r.failure)
    ensures r.Ok? ==>
              && PageRows(page).Ok? && AddRows(ChainOf(h0, rows0), PageRows(page).value).Ok?
              && !(limit > 0 && "rows" in page.fields && h0.bytesHeld + PageBytes(page) > limit)
              && ChainOf(r.value, rows) == AddRows(ChainOf(h0, rows0), PageRows(page).value).value.(
                                             bytesHeld := h0.bytesHeld + PageBytes(page))
              && r.value.wroteRow == (rows != [])
  {
    rows := rows0;
    if "rows" !in page.fields {
      assert AddRows(ChainOf(h0, rows0), []) == Ok(ChainOf(h0, rows0));
      return Ok(h0), rows;
    }
    var raw := page.fields["rows"];
    var decoded := AsArray(raw.value);
    if decoded.Err? { return Err(BadRows), rows; }
    var bytes := h0.bytesHeld + raw.size;
    if limit > 0 && bytes > limit { return Err(TooLarge), rows; }
    var ok, h;
    ok, h, rows := WriteRows(w, decoded.value, h0, rows);
    if !ok { return Err(BadRow), rows; }
    return Ok(h.(bytesHeld := bytes)), rows;
  }

  /** One page: its rows are written, the rest is kept. */
  method AddPageTo(w: StickyWriter, page: Page, limit: nat, h0: Held, ghost rows0: seq<Json>)
    returns (r: Result<Held>, ghost rows: seq<Json>)
    requires w.Valid() && w.sent == HEADER + RowTokens(rows0) && h0.wroteRow == (rows0 != [])
    modifies w, w.w
    ensures w.Valid() && w.sent == HEADER + RowTokens(rows)
    ensures r.Ok? ==> AddPage(ChainOf(h0, rows0), page, limit) == Ok(ChainOf(r.value, rows))
    ensures r.Ok? ==> r.value.wroteRow == (rows != [])
    ensures r.Err? ==> AddPage(ChainOf(h0, rows0), page, limit) == Err(r.failure)
  {
    r, rows := AddRowsTo(w, page, limit, h0, rows0);
    if r.Err? { return; }
    AddRowsRest(ChainOf(h0, rows0), PageRows(page).value);
    var ok, merged := MergeFields(page, r.value);
    if !ok { return Err(BadGaps), rows; }
    return Ok(merged.(total := merged.total + page.rowCount)), rows;
  }

  lemma {:induction false} AddRowsRest(c: Chain, rows: seq<Json>)
    requires AddRows(c, rows).Ok?
    ensures var d := AddRows(c, rows).value; d == c.(rows := d.rows, rowKeys := d.rowKeys)
  {
    if rows != [] { AddRowsRest(c, rows[..|rows| - 1]); }
  }

  /** The signing keys the evidence certifies. */
  method KnownKeys(keys: seq<Json>) returns (r: Result<set<string>>)
    ensures r == CertifiedKeys(keys)
  {
    var known: set<string> := {};
    for i := 0 to |keys|
      invariant CertifiedKeys(keys[..i]) == Ok(known)
    {
      assert keys[..i + 1][..i] == keys[..i];
      var k := StringField(keys[i], "key_id");
      if k.Err? {
        CertifiedStops(keys, i + 1);
        return Err(BadEvidence);
      }
      known := known + {k.value};
    }
    assert keys[..|keys|] == keys;
    return Ok(known);
  }

  lemma {:induction false} CertifiedStops(keys: seq<Json>, i: nat)
    requires i <= |keys| && CertifiedKeys(keys[..i]).Err?
    ensures CertifiedKeys(keys) == Err(BadEvidence)
    decreases |keys|
  {
    if i == |keys| {
      assert keys[..i] == keys;
      assert keys != [];
    } else {
      assert keys[..|keys| - 1][..i] == keys[..i];
      CertifiedStops(keys[..|keys| - 1], i);
    }
  }

  /** checkKeyCoverage: every signing key the rows name is certified. */
  method CheckKeyCoverage(h: Held, ghost rows: seq<Json>) returns (failure: Option<Failure>)
    ensures failure.None? ==> CheckCoverage(ChainOf(h, rows)).Ok?
    ensures failure.Some? ==> CheckCoverage(ChainOf(h, rows)) == Err(failure.value)
  {
    if "signing_keys" !in h.doc { return None; }
    var decoded := AsArray(h.doc["signing_keys"]);
    if decoded.Err? { return Some(BadEvidence); }
    var known := KnownKeys(decoded.value);
    if known.Err? { return Some(BadEvidence); }
    var todo := h.rowKeys.Keys;
    while todo != {}
      invariant todo <= h.rowKeys.Keys && h.rowKeys.Keys - todo <= known.value
    {
      var id :| id in todo;
      if id !in known.value { return Some(UncoveredKey); }
      todo := todo - {id};
    }
    return None;
  }

  /** The cursor walk. Each page's cursor must be new, so it ends. */
  method WalkPages(fetch: Server, w: StickyWriter, limit: nat, ghost cursors: set<string>)
    returns (r: Result<Held>, ghost rows: seq<Json>, ghost fetches: nat)
    requires w.Valid() && w.sent == HEADER && Names(fetch, cursors)
    modifies w, w.w
    ensures w.Valid() && w.sent == HEADER + RowTokens(rows) && fetches <= |cursors| + 1
    ensures r.Ok? ==> Walk(fetch, 0, "", {}, EMPTY_CHAIN, limit, cursors) == Ok(ChainOf(r.value, rows))
    ensures r.Err? ==> Walk(fetch, 0, "", {}, EMPTY_CHAIN, limit, cursors) == Err(r.failure)
  {
    var h := Held(map[], [], map[], 0, 0, false);
    var cursor, n := "", 0;
    var seen: set<string> := {};
    rows, fetches := [], 0;
    while true
      invariant w.Valid() && w.sent == HEADER + RowTokens(rows) && h.wroteRow == (rows != [])
      invariant seen <= cursors && n == |seen| && fetches == n
      invariant Walk(fetch, 0, "", {}, EMPTY_CHAIN, limit, cursors) ==
                Walk(fetch, n, cursor, seen, ChainOf(h, rows), limit, cursors)
      decreases cursors - seen
    {
      SubsetSize(seen, cursors);
      var resp := fetch(n, cursor);
      fetches := fetches + 1;
      if resp.FetchError? { return Err(FetchFailed), rows, fetches; }
      if resp.Undecodable? { return Err(BadPage), rows, fetches; }
      var added;
      added, rows := AddPageTo(w, resp.page, limit, h, rows);
      if added.Err? { return Err(added.failure), rows, fetches; }
      if resp.page.nextCursor == "" { return added, rows, fetches; }
      if resp.page.nextCursor in seen { return Err(RepeatedCursor), rows, fetches; }
      h, seen, cursor, n := added.value, seen + {resp.page.nextCursor}, resp.page.nextCursor, n + 1;
    }
  }

  /** The document's keys in order. */
  method SortKeys(doc: map<string, Json>) returns (keys: seq<string>)
    ensures SortedKeys(doc, keys)
  {
    keys := [];
    var todo := doc.Keys;
    while todo != {}
      invariant todo <= doc.Keys && StrictlySorted(keys)
      invariant forall k :: k in keys <==> k in doc.Keys - todo
    {
      var k :| k in todo;
      InsertElements(k, keys);
      InsertSorted(k, keys);
      keys := Insert(k, keys);
      todo := todo - {k};
    }
  }

  /** The fields after the rows, one by one. */
  method WriteFields(w: StickyWriter, fields: seq<Field>)
    requires w.Valid()
    modifies w, w.w
    ensures w.Valid() && w.sent == old(w.sent) + FieldTokens(fields)
  {
    for i := 0 to |fields|
      invariant w.Valid() && w.sent == old(w.sent) + FieldTokens(fields[..i])
    {
      assert fields[..i + 1] == fields[..i] + [fields[i]];
      FieldAppend(fields[..i], fields[i]);
      w.Write([Comma]);
      w.Write([Name(fields[i].0)]);
      w.Write([Colon]);
      w.Write([Val(fields[i].1)]);
    }
    assert fields[..|fields|] == fields;
  }

  /** Close the rows, write evidence and gaps, close the document. */
  method WriteTail(w: StickyWriter, h: Held, ghost rows: seq<Json>)
    requires w.Valid() && w.sent == HEADER + RowTokens(rows)
    modifies w, w.w
    ensures w.Valid() && IsDocument(ChainOf(h, rows), w.sent)
  {
    w.Write([ArrClose]);
    var keys := SortKeys(h.doc);
    var fields := Picked(h.doc, keys);
    if |h.gaps| > 0 {
      fields := fields + [("seq_gaps", Arr(h.gaps))];
    }
    assert fields == FieldsOf(ChainOf(h, rows), keys);
    WriteFields(w, fields);
    w.Write([Close]);
    assert w.sent == Text(rows, FieldsOf(ChainOf(h, rows), keys));
  }

  ghost function Added(before: seq<Token>, now: seq<Token>): seq<Token>
    requires before <= now
  {
    now[|before|..]
  }

  /** What an export abandoned before its rows were closed leaves does not read. */
  lemma {:induction false} AbandonedDoesNotRead(rows: seq<Json>, part: seq<Token>)
    requires part <= HEADER + RowTokens(rows)
    ensures Read(part).None?
  {
    assert FieldTokens([]) == [];
    assert part == Text(rows, [])[..|part|];
    PrefixDoesNotRead(rows, [], |part|);
  }

  /** After the last page: refuse uncovered keys and gaps, otherwise close the document. */
  method Finish(w: StickyWriter, h: Held, allowGaps: bool, ghost rows: seq<Json>) returns (r: Result<int>)
    requires w.Valid() && w.sent == HEADER + RowTokens(rows)
    modifies w, w.w
    ensures w.Valid()
    ensures r.Ok? ==>
              && Checked(ChainOf(h, rows), allowGaps) == Ok(ChainOf(h, rows))
              && r.value == h.total && !w.err && IsDocument(ChainOf(h, rows), w.sent)
    ensures r.Err? && r.failure != WriteFailed ==>
              Checked(ChainOf(h, rows), allowGaps) == Err(r.failure) && w.sent == HEADER + RowTokens(rows)
    ensures r == Err(WriteFailed) ==> w.err && Checked(ChainOf(h, rows), allowGaps).Ok?
  {
    var uncovered := CheckKeyCoverage(h, rows);
    if uncovered.Some? { return Err(uncovered.value); }
    if |h.gaps| > 0 && !allowGaps { return Err(HasGaps); }
    WriteTail(w, h, rows);
    return if w.err then Err(WriteFailed) else Ok(h.total);
  }

  /** write: the document as pages arrive, refusing past limit bytes of rows. */
  method Write(fetch: Server, dst: Sink, allowGaps: bool, limit: nat, ghost cursors: set<string>)
    returns (r: Result<int>, ghost fetches: nat)
    requires Names(fetch, cursors)
    modifies dst
    ensures old(dst.data) <= dst.data && fetches <= |cursors| + 1
    ensures r.Ok? ==>
              && Export(fetch, allowGaps, limit, cursors).Ok?
              && r.value == Export(fetch, allowGaps, limit, cursors).value.total
              && IsDocument(Export(fetch, allowGaps, limit, cursors).value, Added(old(dst.data), dst.data))
    ensures r.Err? && r.failure != WriteFailed ==>
              Export(fetch, allowGaps, limit, cursors) == Err(r.failure) && Read(Added(old(dst.data), dst.data)).None?
    ensures r == Err(WriteFailed) <==>
              Export(fetch, allowGaps, limit, cursors).Ok? && dst.failures != old(dst.failures)
    ensures dst.reliable ==> dst.failures == old(dst.failures)
  {
    var w := new StickyWriter(dst);
    w.Write(HEADER);
    ghost var rows;
    var walked;
    walked, rows, fetches := WalkPages(fetch, w, limit, cursors);
    if walked.Err? {
      AbandonedDoesNotRead(rows, Added(old(dst.data), dst.data));
      WalkFailure(fetch, 0, "", {}, EMPTY_CHAIN, limit, cursors);
      return Err(walked.failure), fetches;
    }
    r := Finish(w, walked.value, allowGaps, rows);
    if r.Ok? {
      assert Added(old(dst.data), dst.data) == w.sent;
    } else if r.failure != WriteFailed {
      AbandonedDoesNotRead(rows, Added(old(dst.data), dst.data));
    }
  }

  lemma {:induction false} WalkFailure(fetch: Server, n: nat, cursor: string, seen: set<string>, c: Chain, limit: nat,
                                       cursors: set<string>)
    requires Names(fetch, cursors)
    ensures Walk(fetch, n, cursor, seen, c, limit, cursors) != Err(WriteFailed)
    decreases cursors - seen
  {
    if fetch(n, cursor).Got? {
      var page := fetch(n, cursor).page;
      if AddPage(c, page, limit).Ok? && page.nextCursor != "" && page.nextCursor !in seen {
        var d := AddPage(c, page, limit).value;
        WalkFailure(fetch, n + 1, page.nextCursor, seen + {page.nextCursor}, d, limit, cursors);
      }
    }
  }

  /** Assemble: the bounded form, in memory. It succeeds exactly when Write with
      default options does and the rows fit, with the same document and total. */
  method Assemble(fetch: Server, limit: nat, ghost cursors: set<string>) returns (r: Result<(seq<Token>, int)>)
    requires Names(fetch, cursors) && limit > 0
    ensures r.Ok? <==> Export(fetch, false, 0, cursors).Ok? && Export(fetch, false, 0, cursors).value.bytesHeld <= limit
    ensures r.Ok? ==>
              && IsDocument(Export(fetch, false, 0, cursors).value, r.value.0)
              && r.value.1 == Export(fetch, false, 0, cursors).value.total
  {
    var buf := new Sink(true);
    var total, _ := Write(fetch, buf, false, limit, cursors);
    BoundedRefines(fetch, limit, cursors);
    if total.Err? { return Err(total.failure); }
    return Ok((buf.data, total.value));
  }

  lemma {:induction false} EvidenceOnly(pages: seq<Page>, doc: map<string, Json>)
    requires FirstSeen(pages, doc)
    ensures "rows" !in doc && "seq_gaps" !in doc
  {
  }

  /** fields gives each evidence key the value of the first page that carries it. */
  ghost predicate FirstSeenFields(pages: seq<Page>, fields: seq<Field>) {
    forall k, i :: FirstWith(pages, k, i) ==> (k, pages[i].fields[k].value) in fields
  }

  ghost predicate NothingElse(pages: seq<Page>, fields: seq<Field>) {
    forall f :: f in fields && f.0 != "seq_gaps" ==> exists i :: FirstWith(pages, f.0, i)
  }

  lemma {:induction false} CollectedReadsBack(c: Chain, pages: seq<Page>, ts: seq<Token>) returns (fields: seq<Field>)
    requires Holds(c, pages) && IsDocument(c, ts)
    ensures Read(ts) == Some((RowsOf(pages), fields))
    ensures forall v :: ("seq_gaps", v) in fields <==> GapsOf(pages) != [] && v == Arr(GapsOf(pages))
    ensures FirstSeenFields(pages, fields) && NothingElse(pages, fields)
    ensures forall i, j :: 0 <= i < j < |fields| ==> fields[i].0 != fields[j].0
  {
    EvidenceOnly(pages, c.doc);
    fields := DocumentReadsBack(c, ts);
    forall k, i | FirstWith(pages, k, i) ensures (k, pages[i].fields[k].value) in fields {
      assert k in c.doc && c.doc[k] == pages[i].fields[k].value;
    }
  }

  /** Every document an export produces: read back, it is the server's whole chain. */
  lemma {:induction false} ExportReadsBack(fetch: Server, allowGaps: bool, limit: nat, cursors: set<string>,
                                           ts: seq<Token>)
    returns (pages: seq<Page>, fields: seq<Field>)
    requires Names(fetch, cursors) && Export(fetch, allowGaps, limit, cursors).Ok?
    requires IsDocument(Export(fetch, allowGaps, limit, cursors).value, ts)
    ensures Exportable(fetch, allowGaps, limit, pages) && Read(ts) == Some((RowsOf(pages), fields))
    ensures forall v :: ("seq_gaps", v) in fields <==> GapsOf(pages) != [] && v == Arr(GapsOf(pages))
    ensures GapsOf(pages) != [] ==> allowGaps
    ensures FirstSeenFields(pages, fields) && NothingElse(pages, fields)
    ensures forall i, j :: 0 <= i < j < |fields| ==> fields[i].0 != fields[j].0
  {
    pages := ExportIsComplete(fetch, allowGaps, limit, cursors);
    fields := CollectedReadsBack(Export(fetch, allowGaps, limit, cursors).value, pages, ts);
  }
}
