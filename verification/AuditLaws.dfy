/** What a successful export contains, and how its bounded form relates to the
    unbounded one. */
module AuditLaws {
  import opened AuditChain
  import opened AuditValues

  // ---- the pages of a chain, and what they hold ----

  function CursorAt(pages: seq<Page>, i: nat): string
    requires i <= |pages|
  {
    if i == 0 then "" else pages[i - 1].nextCursor
  }

  /** The server's answers from the empty cursor on, each asked for with the cursor
      the one before it gave. */
  ghost predicate Linked(fetch: Server, pages: seq<Page>) {
    forall i :: 0 <= i < |pages| ==> LinkedAt(fetch, pages, i)
  }

  ghost predicate LinkedAt(fetch: Server, pages: seq<Page>, i: nat)
    requires i < |pages|
  {
    fetch(i, CursorAt(pages, i)) == Got(pages[i])
  }

  /** Up to the first page with no next cursor. */
  ghost predicate WholeChain(fetch: Server, pages: seq<Page>) {
    && pages != [] && Linked(fetch, pages)
    && forall i :: 0 <= i < |pages| ==> (pages[i].nextCursor == "" <==> i == |pages| - 1)
  }

  /** The elements of the pages' "rows" arrays, in order. */
  function RowsOf(pages: seq<Page>): seq<Json> {
    if pages == [] then [] else RowsOf(pages[..|pages| - 1]) + ListIn(pages[|pages| - 1].fields, "rows")
  }

  function GapsOf(pages: seq<Page>): seq<Json> {
    if pages == [] then [] else GapsOf(pages[..|pages| - 1]) + ListIn(pages[|pages| - 1].fields, "seq_gaps")
  }

  function TotalOf(pages: seq<Page>): int {
    if pages == [] then 0 else TotalOf(pages[..|pages| - 1]) + pages[|pages| - 1].rowCount
  }

  /** The bytes of the pages' "rows" as received. */
  function BytesOf(pages: seq<Page>): nat {
    if pages == [] then 0
    else
      var fields := pages[|pages| - 1].fields;
      BytesOf(pages[..|pages| - 1]) + if "rows" in fields then fields["rows"].size else 0
  }

  /** The page carries evidence under this name. */
  predicate Carries(page: Page, k: string) {
    k in page.fields && k != "rows" && k != "seq_gaps"
  }

  /** Page i is the first to carry evidence under k. */
  ghost predicate FirstWith(pages: seq<Page>, k: string, i: int) {
    0 <= i < |pages| && Carries(pages[i], k) && forall j :: 0 <= j < i ==> !Carries(pages[j], k)
  }

  /** Each evidence key with the value of the first page that carries it. */
  ghost predicate FirstSeen(pages: seq<Page>, doc: map<string, Json>) {
    && (forall k :: k in doc ==> exists i :: FirstWith(pages, k, i))
    && forall k, i :: FirstWith(pages, k, i) ==> k in doc && doc[k] == pages[i].fields[k].value
  }

  function NamedKeys(rows: seq<Json>): set<string> {
    set r | r in rows && KeyOf(r) != "" :: KeyOf(r)
  }

  /** Every page decodes. */
  ghost predicate AllOk(pages: seq<Page>) {
    forall i :: 0 <= i < |pages| ==> PageOk(pages[i])
  }

  /** c is exactly what the pages hold. */
  ghost predicate Holds(c: Chain, pages: seq<Page>) {
    && c.rows == RowsOf(pages) && c.gaps == GapsOf(pages) && FirstSeen(pages, c.doc)
    && c.total == TotalOf(pages) && c.bytesHeld == BytesOf(pages)
  }

  /** and knows which keys its rows name. */
  ghost predicate Collected(c: Chain, pages: seq<Page>) {
    && Holds(c, pages) && c.rowKeys.Keys == NamedKeys(c.rows)
    && AllOk(pages)
  }

  lemma {:induction false} AddRowsCollects(c: Chain, rows: seq<Json>)
    requires AddRows(c, rows).Ok? && c.rowKeys.Keys == NamedKeys(c.rows)
    ensures var d := AddRows(c, rows).value;
            && d == c.(rows := d.rows, rowKeys := d.rowKeys)
            && d.rows == c.rows + rows && d.rowKeys.Keys == NamedKeys(d.rows)
  {
    if rows != [] {
      var n := |rows| - 1;
      AddRowsCollects(c, rows[..n]);
      var before := AddRows(c, rows[..n]).value;
      var d := AddRow(before, rows[n]);
      assert rows == rows[..n] + [rows[n]];
      assert d.rows == before.rows + [rows[n]];
      assert NamedKeys(d.rows) == NamedKeys(before.rows) + NamedKeys([rows[n]]);
    }
  }

  lemma {:induction false} FirstSeenMore(pages: seq<Page>, doc: map<string, Json>, page: Page)
    requires FirstSeen(pages, doc)
    ensures FirstSeen(pages + [page], Evidence(page) + doc)
  {
    var more, next := pages + [page], Evidence(page) + doc;
    forall k | k in next ensures exists i :: FirstWith(more, k, i) {
      if k in doc {
        var i :| FirstWith(pages, k, i);
        assert FirstWith(more, k, i);
      } else {
        assert Carries(page, k);
        if j :| 0 <= j < |pages| && Carries(pages[j], k) { FirstExists(pages, k, j); }
        assert FirstWith(more, k, |pages|);
      }
    }
    forall k, i | FirstWith(more, k, i) ensures k in next && next[k] == more[i].fields[k].value {
      if i < |pages| {
        forall j | 0 <= j < i ensures !Carries(pages[j], k) { assert more[j] == pages[j]; }
        assert FirstWith(pages, k, i);
      } else if k in doc {
        CarriedBefore(pages, doc, k, page);
      }
    }
  }

  lemma {:induction false} CarriedBefore(pages: seq<Page>, doc: map<string, Json>, k: string, page: Page)
    requires FirstSeen(pages, doc) && k in doc
    ensures !FirstWith(pages + [page], k, |pages|)
  {
    var j :| FirstWith(pages, k, j);
    assert Carries((pages + [page])[j], k);
  }

  lemma {:induction false} FirstExists(pages: seq<Page>, k: string, j: nat)
    requires j < |pages| && Carries(pages[j], k)
    ensures exists i :: FirstWith(pages, k, i)
  {
    if i :| 0 <= i < j && Carries(pages[i], k) {
      FirstExists(pages, k, i);
    } else {
      assert FirstWith(pages, k, j);
    }
  }

  /** The pages determine the evidence. */
  lemma {:induction false} FirstSeenUnique(pages: seq<Page>, doc: map<string, Json>, other: map<string, Json>)
    requires FirstSeen(pages, doc) && FirstSeen(pages, other)
    ensures doc == other
  {
    forall k | k in doc ensures k in other && doc[k] == other[k] { var i :| FirstWith(pages, k, i); }
    forall k | k in other ensures k in doc { var i :| FirstWith(pages, k, i); }
  }

  lemma {:induction false} AddPageCollects(c: Chain, pages: seq<Page>, page: Page, limit: nat)
    requires Collected(c, pages) && AddPage(c, page, limit).Ok?
    ensures Collected(AddPage(c, page, limit).value, pages + [page])
  {
    var next := AddPage(c, page, limit).value;
    ListMeaning(page);
    AddPageMeaning(c, page, limit);
    AddRowsCollects(c, PageRows(page).value);
    assert next.rowKeys.Keys == NamedKeys(next.rows);
    OneMorePage(pages, page);
    FirstSeenMore(pages, c.doc, page);
    assert next.doc == Evidence(page) + c.doc;
  }

  lemma {:induction false} OneMorePage(pages: seq<Page>, page: Page)
    ensures var more := pages + [page];
            && RowsOf(more) == RowsOf(pages) + ListIn(page.fields, "rows")
            && GapsOf(more) == GapsOf(pages) + ListIn(page.fields, "seq_gaps")
            && TotalOf(more) == TotalOf(pages) + page.rowCount
            && BytesOf(more) == BytesOf(pages) + PageBytes(page)
            && (AllOk(pages) && PageOk(page) ==> AllOk(more))
  {
    assert (pages + [page])[..|pages|] == pages;
  }

  lemma {:induction false} LinkedMore(fetch: Server, pages: seq<Page>, page: Page)
    requires Linked(fetch, pages) && fetch(|pages|, CursorAt(pages, |pages|)) == Got(page)
    ensures Linked(fetch, pages + [page])
  {
    var more := pages + [page];
    forall i | 0 <= i < |more| ensures LinkedAt(fetch, more, i) {
      if i < |pages| { assert LinkedAt(fetch, pages, i); }
    }
  }

  function CursorsOf(pages: seq<Page>): set<string> {
    set p | p in pages && p.nextCursor != "" :: p.nextCursor
  }

  /** No two pages give the same cursor to go on with. */
  ghost predicate NoneRepeats(pages: seq<Page>) {
    forall i, j :: 0 <= i < j < |pages| && pages[i].nextCursor != "" ==> pages[i].nextCursor != pages[j].nextCursor
  }

  lemma {:induction false} CursorsMore(pages: seq<Page>, page: Page)
    requires NoneRepeats(pages)
    ensures CursorsOf(pages + [page]) == CursorsOf(pages) + if page.nextCursor == "" then {} else {page.nextCursor}
    ensures NoneRepeats(pages + [page]) <==> page.nextCursor !in CursorsOf(pages)
  {
    var more := pages + [page];
    if page.nextCursor in CursorsOf(pages) {
      var p :| p in pages && p.nextCursor == page.nextCursor && p.nextCursor != "";
      var i :| 0 <= i < |pages| && pages[i] == p;
      assert more[i].nextCursor == more[|pages|].nextCursor;
    } else {
      forall i, j | 0 <= i < j < |more| && more[i].nextCursor != "" ensures more[i].nextCursor != more[j].nextCursor {
        if j == |pages| { assert pages[i] in pages; }
      }
    }
  }

  /** COMPLETE CHAIN OR ERROR. A walk that succeeds has collected every page, in
      order, up to the one with no next cursor, and nothing else. */
  lemma {:induction false} WalkCollects(fetch: Server, before: seq<Page>, seen: set<string>, c: Chain, limit: nat,
                                        cursors: set<string>)
    returns (pages: seq<Page>)
    requires Names(fetch, cursors) && Linked(fetch, before) && Collected(c, before)
    requires seen == CursorsOf(before) && NoneRepeats(before)
    requires forall i :: 0 <= i < |before| ==> before[i].nextCursor != ""
    requires Walk(fetch, |before|, CursorAt(before, |before|), seen, c, limit, cursors).Ok?
    ensures WholeChain(fetch, pages) && before <= pages && NoneRepeats(pages)
    ensures Collected(Walk(fetch, |before|, CursorAt(before, |before|), seen, c, limit, cursors).value, pages)
    decreases cursors - seen
  {
    var page := fetch(|before|, CursorAt(before, |before|)).page;
    var added := AddPage(c, page, limit).value;
    pages := before + [page];
    LinkedMore(fetch, before, page);
    AddPageCollects(c, before, page, limit);
    if page.nextCursor != "" {
      assert CursorAt(pages, |pages|) == page.nextCursor;
      CursorsMore(before, page);
      pages := WalkCollects(fetch, pages, seen + {page.nextCursor}, added, limit, cursors);
    }
  }

  lemma {:induction false} RowsAreOk(pages: seq<Page>, r: Json)
    requires AllOk(pages) && r in RowsOf(pages)
    ensures RowOk(r)
  {
    var n := |pages| - 1;
    if r in RowsOf(pages[..n]) { RowsAreOk(pages[..n], r); } else { assert PageOk(pages[n]); }
  }

  /** The coverage check passes exactly on covered rows. */
  lemma {:induction false} CoverageMeaning(c: Chain, pages: seq<Page>)
    requires Collected(c, pages)
    ensures CheckCoverage(c).Ok? <==> Covered(c.rows, c.doc)
    ensures CheckCoverage(c).Ok? ==> CheckCoverage(c) == Ok(c)
  {
    if "signing_keys" in c.doc && AsArray(c.doc["signing_keys"]).Ok? {
      var keys := AsArray(c.doc["signing_keys"]).value;
      CertifiedMeaning(keys, "");
      if CertifiedKeys(keys).Ok? { CoveredByKeys(c, pages, keys); }
    }
  }

  lemma {:induction false} CoveredByKeys(c: Chain, pages: seq<Page>, keys: seq<Json>)
    requires Collected(c, pages) && CertifiedKeys(keys).Ok?
    ensures c.rowKeys.Keys <= CertifiedKeys(keys).value <==>
            forall r, s :: r in c.rows && Says(r, "key_id", s) ==> exists k :: k in keys && Says(k, "key_id", s)
  {
    var certified := CertifiedKeys(keys).value;
    if c.rowKeys.Keys <= certified {
      forall r, s | r in c.rows && Says(r, "key_id", s) ensures exists k :: k in keys && Says(k, "key_id", s) {
        RowsAreOk(pages, r);
        RowMeaning(r, s);
        assert s in c.rowKeys.Keys;
        CertifiedMeaning(keys, s);
      }
    } else {
      var s :| s in c.rowKeys.Keys && s !in certified;
      var r :| r in c.rows && KeyOf(r) == s && s != "";
      RowsAreOk(pages, r);
      RowMeaning(r, s);
      CertifiedMeaning(keys, s);
    }
  }

  /** What the server must answer for an export to succeed: a chain of pages that ends, whose
      cursors do not repeat and whose pages decode, within the limit, its rows covered and,
      unless they are allowed, without gaps. */
  ghost predicate Exportable(fetch: Server, allowGaps: bool, limit: nat, pages: seq<Page>) {
    && WholeChain(fetch, pages) && NoneRepeats(pages) && AllOk(pages)
    && (limit == 0 || BytesOf(pages) <= limit) && (allowGaps || GapsOf(pages) == [])
    && forall doc :: FirstSeen(pages, doc) ==> Covered(RowsOf(pages), doc)
  }

  /** Everything a successful export promises about its document. */
  lemma {:induction false} ExportIsComplete(fetch: Server, allowGaps: bool, limit: nat, cursors: set<string>)
    returns (pages: seq<Page>)
    requires Names(fetch, cursors) && Export(fetch, allowGaps, limit, cursors).Ok?
    ensures Exportable(fetch, allowGaps, limit, pages)
    ensures Holds(Export(fetch, allowGaps, limit, cursors).value, pages)
  {
    pages := WalkCollects(fetch, [], {}, EMPTY_CHAIN, limit, cursors);
    var c := Walk(fetch, 0, "", {}, EMPTY_CHAIN, limit, cursors).value;
    CoverageMeaning(c, pages);
    WalkWithin(fetch, 0, "", {}, EMPTY_CHAIN, limit, cursors);
    forall doc | FirstSeen(pages, doc) ensures Covered(RowsOf(pages), doc) { FirstSeenUnique(pages, doc, c.doc); }
  }

  lemma {:induction false} WalkWithin(fetch: Server, n: nat, cursor: string, seen: set<string>, c: Chain, limit: nat,
                                      cursors: set<string>)
    requires Names(fetch, cursors) && Walk(fetch, n, cursor, seen, c, limit, cursors).Ok? && c.bytesHeld <= limit
    ensures Walk(fetch, n, cursor, seen, c, limit, cursors).value.bytesHeld <= limit || limit == 0
    decreases cursors - seen
  {
    var page := fetch(n, cursor).page;
    var d := AddPage(c, page, limit).value;
    if limit > 0 && page.nextCursor != "" {
      WalkWithin(fetch, n + 1, page.nextCursor, seen + {page.nextCursor}, d, limit, cursors);
    }
  }

  lemma {:induction false} BytesGrow(pages: seq<Page>, n: nat)
    requires n <= |pages|
    ensures BytesOf(pages[..n]) <= BytesOf(pages)
  {
    if n < |pages| {
      var m := |pages| - 1;
      BytesGrow(pages[..m], n);
      assert pages[..m][..n] == pages[..n];
    } else {
      assert pages[..n] == pages;
    }
  }

  lemma {:induction false} PageAdds(pages: seq<Page>, n: nat, c: Chain, limit: nat)
    requires n < |pages| && AllOk(pages) && (limit == 0 || BytesOf(pages) <= limit) && Collected(c, pages[..n])
    ensures AddPage(c, pages[n], limit).Ok? && Collected(AddPage(c, pages[n], limit).value, pages[..n + 1])
  {
    var more := pages[..n + 1];
    assert more == pages[..n] + [pages[n]] && more[..n] == pages[..n];
    BytesGrow(pages, n + 1);
    AddPageMeaning(c, pages[n], limit);
    AddPageCollects(c, pages[..n], pages[n], limit);
  }

  lemma {:induction false} CursorIsNew(pages: seq<Page>, n: nat)
    requires NoneRepeats(pages) && n < |pages| && pages[n].nextCursor != ""
    ensures pages[n].nextCursor !in CursorsOf(pages[..n])
    ensures CursorsOf(pages[..n + 1]) == CursorsOf(pages[..n]) + {pages[n].nextCursor}
  {
    assert pages[..n + 1] == pages[..n] + [pages[n]];
    PrefixNoneRepeats(pages, n);
    PrefixNoneRepeats(pages, n + 1);
    CursorsMore(pages[..n], pages[n]);
  }

  /** From any page of such a chain on, the walk succeeds. */
  lemma {:induction false} WalkSucceeds(fetch: Server, pages: seq<Page>, n: nat, c: Chain, limit: nat,
                                        cursors: set<string>)
    requires Names(fetch, cursors) && WholeChain(fetch, pages) && NoneRepeats(pages) && n < |pages|
    requires AllOk(pages) && (limit == 0 || BytesOf(pages) <= limit) && Collected(c, pages[..n])
    ensures var w := Walk(fetch, n, CursorAt(pages, n), CursorsOf(pages[..n]), c, limit, cursors);
            w.Ok? && Collected(w.value, pages)
    decreases |pages| - n
  {
    assert LinkedAt(fetch, pages, n);
    PageAdds(pages, n, c, limit);
    var next := AddPage(c, pages[n], limit).value;
    if n + 1 < |pages| {
      CursorIsNew(pages, n);
      WalkSucceeds(fetch, pages, n + 1, next, limit, cursors);
    } else {
      assert pages[..n + 1] == pages;
    }
  }

  lemma {:induction false} PrefixNoneRepeats(pages: seq<Page>, n: nat)
    requires NoneRepeats(pages) && n <= |pages|
    ensures NoneRepeats(pages[..n])
  {
  }

  /** EXPORTED EXACTLY WHEN IT CAN BE. An export of a server succeeds if and only if its
      answers are such a chain. */
  lemma {:induction false} ExportsExactly(fetch: Server, allowGaps: bool, limit: nat, cursors: set<string>)
    requires Names(fetch, cursors)
    ensures Export(fetch, allowGaps, limit, cursors).Ok? <==>
            exists pages :: Exportable(fetch, allowGaps, limit, pages)
  {
    if Export(fetch, allowGaps, limit, cursors).Ok? {
      var pages := ExportIsComplete(fetch, allowGaps, limit, cursors);
    }
    if pages :| Exportable(fetch, allowGaps, limit, pages) {
      ChainExports(fetch, allowGaps, limit, cursors, pages);
    }
  }

  lemma {:induction false} ChainExports(fetch: Server, allowGaps: bool, limit: nat, cursors: set<string>,
                                        pages: seq<Page>)
    requires Names(fetch, cursors) && Exportable(fetch, allowGaps, limit, pages)
    ensures Export(fetch, allowGaps, limit, cursors).Ok?
  {
    assert pages[..0] == [] && CursorsOf([]) == {};
    WalkSucceeds(fetch, pages, 0, EMPTY_CHAIN, limit, cursors);
    CoverageMeaning(Walk(fetch, 0, "", {}, EMPTY_CHAIN, limit, cursors).value, pages);
  }

  // ---- the bounded form ----

  lemma {:induction false} AddRowsBytes(c: Chain, rows: seq<Json>)
    requires AddRows(c, rows).Ok?
    ensures AddRows(c, rows).value.bytesHeld == c.bytesHeld
  {
    if rows != [] { AddRowsBytes(c, rows[..|rows| - 1]); }
  }

  lemma {:induction false} WalkBytesGrow(fetch: Server, n: nat, cursor: string, seen: set<string>, c: Chain,
                                         limit: nat, cursors: set<string>)
    requires Names(fetch, cursors) && Walk(fetch, n, cursor, seen, c, limit, cursors).Ok?
    ensures Walk(fetch, n, cursor, seen, c, limit, cursors).value.bytesHeld >= c.bytesHeld
    decreases cursors - seen
  {
    var page := fetch(n, cursor).page;
    AddRowsBytes(c, PageRows(page).value);
    if page.nextCursor != "" {
      var d := AddPage(c, page, limit).value;
      WalkBytesGrow(fetch, n + 1, page.nextCursor, seen + {page.nextCursor}, d, limit, cursors);
    }
  }

  lemma {:induction false} WalkBounded(fetch: Server, n: nat, cursor: string, seen: set<string>, c: Chain, limit: nat,
                                       cursors: set<string>)
    requires Names(fetch, cursors) && limit > 0 && c.bytesHeld <= limit
    ensures var bounded := Walk(fetch, n, cursor, seen, c, limit, cursors);
            var free := Walk(fetch, n, cursor, seen, c, 0, cursors);
            && (bounded.Ok? <==> free.Ok? && free.value.bytesHeld <= limit)
            && (bounded.Ok? ==> bounded == free)
    decreases cursors - seen
  {
    if fetch(n, cursor).Got? {
      var page := fetch(n, cursor).page;
      if AddPage(c, page, 0).Ok? {
        var added := AddPage(c, page, 0).value;
        if added.bytesHeld <= limit {
          if page.nextCursor != "" && page.nextCursor !in seen {
            WalkBounded(fetch, n + 1, page.nextCursor, seen + {page.nextCursor}, added, limit, cursors);
          }
        } else if Walk(fetch, n, cursor, seen, c, 0, cursors).Ok? && page.nextCursor != "" {
          WalkBytesGrow(fetch, n + 1, page.nextCursor, seen + {page.nextCursor}, added, 0, cursors);
        }
      }
    }
  }

  /** The bounded export succeeds exactly when the unbounded one does and its rows
      fit, and then they are the same. */
  lemma {:induction false} BoundedRefines(fetch: Server, limit: nat, cursors: set<string>)
    requires Names(fetch, cursors) && limit > 0
    ensures var bounded := Export(fetch, false, limit, cursors);
            var free := Export(fetch, false, 0, cursors);
            && (bounded.Ok? <==> free.Ok? && free.value.bytesHeld <= limit)
            && (bounded.Ok? ==> bounded == free)
  {
    WalkBounded(fetch, 0, "", {}, EMPTY_CHAIN, limit, cursors);
  }
}
