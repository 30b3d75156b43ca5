/** A paginated audit-chain export as a function of what the server answers: the
    walk over its cursors, what each page contributes, and when it is refused. */
module AuditChain {
  datatype Json =
    | Null
    | Str(s: string)
    | Scalar(text: string)
    | Arr(elems: seq<Json>)
    | Obj(fields: seq<(string, Json)>)

  /** A top-level field of a page: its value and its length as received. */
  datatype Raw = Raw(value: Json, size: nat)

  datatype Page = Page(fields: map<string, Raw>, rowCount: int, nextCursor: string)

  datatype Fetched = FetchError | Undecodable | Got(page: Page)

  /** What the server answers to the n-th request, for a cursor. The request number
      lets it answer the same cursor differently each time. */
  type Server = (nat, string) -> Fetched

  datatype Failure =
    | FetchFailed | BadPage | BadRows | TooLarge | BadRow | BadGaps | RepeatedCursor
    | BadEvidence | UncoveredKey | HasGaps | WriteFailed

  datatype Result<+T> = Ok(value: T) | Err(failure: Failure)

  // ---- decoding ----

  /** Unmarshal into a slice: null is the empty one. */
  function AsArray(j: Json): Result<seq<Json>> {
    match j
    case Null => Ok([])
    case Arr(elems) => Ok(elems)
    case _ => Err(BadRows)
  }

  function Lower(c: char): char {
    if 'A' <= c <= 'Z' then c - 'A' + 'a' else c
  }

  /** Go matches object keys to struct fields without regard to case. */
  predicate NameMatches(name: string, field: string) {
    |name| == |field| && forall i :: 0 <= i < |name| ==> Lower(name[i]) == Lower(field[i])
  }

  /** The last string given for a struct field; an error when one is given as something
      else. null leaves it alone. */
  function FieldOf(fields: seq<(string, Json)>, field: string): Result<string> {
    if fields == [] then Ok("")
    else
      var last := fields[|fields| - 1];
      var before := FieldOf(fields[..|fields| - 1], field);
      if before.Err? || !NameMatches(last.0, field) || last.1.Null? then before
      else if last.1.Str? then Ok(last.1.s)
      else Err(BadRow)
  }

  /** A field of a JSON value unmarshalled into a struct. */
  function StringField(j: Json, field: string): Result<string> {
    match j
    case Null => Ok("")
    case Obj(fields) => FieldOf(fields, field)
    case _ => Err(BadRow)
  }

  predicate RowDecodes(row: Json) {
    StringField(row, "key_id").Ok? && StringField(row, "host_name").Ok?
  }

  function KeyOf(row: Json): string {
    var k := StringField(row, "key_id");
    if k.Ok? then k.value else ""
  }

  function HostOf(row: Json): string {
    var k := StringField(row, "host_name");
    if k.Ok? then k.value else ""
  }

  // ---- what the walk has collected ----

  datatype Chain = Chain(
    rows: seq<Json>, doc: map<string, Json>, gaps: seq<Json>, rowKeys: map<string, string>, total: int, bytesHeld: nat)

  const EMPTY_CHAIN := Chain([], map[], [], map[], 0, 0)

  function AddRow(c: Chain, row: Json): Chain {
    c.(rows := c.rows + [row],
       rowKeys := if KeyOf(row) != "" && KeyOf(row) !in c.rowKeys then c.rowKeys[KeyOf(row) := HostOf(row)]
                  else c.rowKeys)
  }

  function AddRows(c: Chain, rows: seq<Json>): Result<Chain> {
    if rows == [] then Ok(c)
    else
      var before := AddRows(c, rows[..|rows| - 1]);
      if before.Err? then before
      else if RowDecodes(rows[|rows| - 1]) then Ok(AddRow(before.value, rows[|rows| - 1]))
      else Err(BadRow)
  }

  /** The page's own evidence: every key but rows and seq_gaps. */
  function Evidence(page: Page): map<string, Json> {
    map k | k in page.fields && k != "rows" && k != "seq_gaps" :: page.fields[k].value
  }

  function PageRows(page: Page): Result<seq<Json>> {
    if "rows" in page.fields then AsArray(page.fields["rows"].value) else Ok([])
  }

  function PageGaps(page: Page): Result<seq<Json>> {
    if "seq_gaps" in page.fields then AsArray(page.fields["seq_gaps"].value) else Ok([])
  }

  function PageBytes(page: Page): nat {
    if "rows" in page.fields then page.fields["rows"].size else 0
  }

  /** One page merged in; limit 0 means no limit. */
  function AddPage(c: Chain, page: Page, limit: nat): Result<Chain> {
    var bytes := c.bytesHeld + PageBytes(page);
    if PageRows(page).Err? then Err(BadRows)
    else if limit > 0 && "rows" in page.fields && bytes > limit then Err(TooLarge)
    else
      var withRows := AddRows(c, PageRows(page).value);
      if withRows.Err? then Err(BadRow)
      else if PageGaps(page).Err? then Err(BadGaps)
      else Ok(withRows.value.(
                doc := Evidence(page) + c.doc,
                gaps := c.gaps + PageGaps(page).value,
                total := c.total + page.rowCount,
                bytesHeld := bytes))
  }

  /** Every cursor the server can name comes from this finite set. */
  ghost predicate Names(fetch: Server, cursors: set<string>) {
    forall n, c :: fetch(n, c).Got? ==> fetch(n, c).page.nextCursor == "" || fetch(n, c).page.nextCursor in cursors
  }

  /** The cursor walk from the n-th request on. */
  ghost function Walk(fetch: Server, n: nat, cursor: string, seen: set<string>, c: Chain, limit: nat,
                      cursors: set<string>): Result<Chain>
    requires Names(fetch, cursors)
    decreases cursors - seen
  {
    match fetch(n, cursor)
    case FetchError => Err(FetchFailed)
    case Undecodable => Err(BadPage)
    case Got(page) =>
      var added := AddPage(c, page, limit);
      if added.Err? then added
      else if page.nextCursor == "" then added
      else if page.nextCursor in seen then Err(RepeatedCursor)
      else Walk(fetch, n + 1, page.nextCursor, seen + {page.nextCursor}, added.value, limit, cursors)
  }

  /** checkKeyCoverage: the signing keys the evidence certifies. */
  function CertifiedKeys(keys: seq<Json>): Result<set<string>> {
    if keys == [] then Ok({})
    else
      var before := CertifiedKeys(keys[..|keys| - 1]);
      var k := StringField(keys[|keys| - 1], "key_id");
      if before.Err? || k.Err? then Err(BadEvidence) else Ok(before.value + {k.value})
  }

  function CheckCoverage(c: Chain): Result<Chain> {
    if "signing_keys" !in c.doc then Ok(c)
    else if AsArray(c.doc["signing_keys"]).Err? then Err(BadEvidence)
    else
      var known := CertifiedKeys(AsArray(c.doc["signing_keys"]).value);
      if known.Err? then Err(BadEvidence)
      else if c.rowKeys.Keys <= known.value then Ok(c)
      else Err(UncoveredKey)
  }

  function CheckGaps(c: Chain, allowGaps: bool): Result<Chain> {
    if c.gaps != [] && !allowGaps then Err(HasGaps) else Ok(c)
  }

  ghost function Checked(c: Chain, allowGaps: bool): Result<Chain> {
    if CheckCoverage(c).Err? then CheckCoverage(c) else CheckGaps(c, allowGaps)
  }

  /** The whole export: what is written when it succeeds. */
  ghost function Export(fetch: Server, allowGaps: bool, limit: nat, cursors: set<string>): Result<Chain>
    requires Names(fetch, cursors)
  {
    var walked := Walk(fetch, 0, "", {}, EMPTY_CHAIN, limit, cursors);
    if walked.Err? then walked else Checked(walked.value, allowGaps)
  }
}
