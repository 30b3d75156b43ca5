/** What a page, a row or a certificate says, read off its JSON, and that the decoders of the
    walk read the same. */
module AuditValues {
  import opened AuditChain

  /** Letters that Go's field matching does not tell apart. */
  predicate SameLetter(c: char, d: char) {
    || c == d
    || ('a' <= c <= 'z' && d == c - 'a' + 'A')
    || ('A' <= c <= 'Z' && d == c - 'A' + 'a')
  }

  ghost predicate Spells(name: string, field: string) {
    |name| == |field| && forall i :: 0 <= i < |name| ==> SameLetter(name[i], field[i])
  }

  lemma {:induction false} SpellsIsMatch(name: string, field: string)
    ensures Spells(name, field) <==> NameMatches(name, field)
  {
  }

  type Fields = seq<(string, Json)>

  /** Entry i gives the struct field a string or null. */
  ghost predicate StringOrNull(fields: Fields, field: string, i: int) {
    0 <= i < |fields| && Spells(fields[i].0, field) ==> fields[i].1.Str? || fields[i].1.Null?
  }

  ghost predicate FieldDecodes(fields: Fields, field: string) {
    forall i :: StringOrNull(fields, field, i)
  }

  /** Entry i is the last that gives the struct field a string. */
  ghost predicate LastString(fields: Fields, field: string, i: int) {
    && 0 <= i < |fields| && Spells(fields[i].0, field) && fields[i].1.Str?
    && forall j :: i < j < |fields| && Spells(fields[j].0, field) ==> !fields[j].1.Str?
  }

  /** The struct field is the last string given for it. */
  ghost predicate GivesString(fields: Fields, field: string, s: string) {
    exists i :: LastString(fields, field, i) && fields[i].1.s == s
  }

  lemma {:induction false} DecodesMore(fields: Fields, field: string)
    requires fields != []
    ensures var n := |fields| - 1;
            FieldDecodes(fields, field) <==> FieldDecodes(fields[..n], field) && StringOrNull(fields, field, n)
  {
    var n := |fields| - 1;
    var pre := fields[..n];
    if FieldDecodes(fields, field) {
      forall i ensures StringOrNull(pre, field, i) { assert StringOrNull(fields, field, i); }
    }
    if FieldDecodes(pre, field) && StringOrNull(fields, field, n) {
      forall i ensures StringOrNull(fields, field, i) { if i < n { assert StringOrNull(pre, field, i); } }
    }
  }

  lemma {:induction false} GivesMore(fields: Fields, field: string, s: string)
    requires fields != []
    ensures var n := |fields| - 1;
            GivesString(fields, field, s) <==>
            if Spells(fields[n].0, field) && fields[n].1.Str? then fields[n].1.s == s
            else GivesString(fields[..n], field, s)
  {
    var n := |fields| - 1;
    var pre := fields[..n];
    if Spells(fields[n].0, field) && fields[n].1.Str? {
      assert LastString(fields, field, n);
      forall i | LastString(fields, field, i) ensures i == n {}
    } else {
      forall i ensures LastString(fields, field, i) <==> LastString(pre, field, i) {}
    }
  }

  /** FieldOf reads the field as the JSON gives it, and is empty when it gives no string. */
  lemma {:induction false} FieldMeaning(fields: Fields, field: string, s: string)
    ensures FieldOf(fields, field).Ok? <==> FieldDecodes(fields, field)
    ensures FieldOf(fields, field).Err? ==> FieldOf(fields, field).failure == BadRow
    ensures FieldDecodes(fields, field) ==>
              (FieldOf(fields, field) == Ok(s) <==>
               GivesString(fields, field, s) || (s == "" && forall t :: !GivesString(fields, field, t)))
  {
    if fields == [] {
      forall i ensures StringOrNull(fields, field, i) {}
    } else {
      var n := |fields| - 1;
      FieldMeaning(fields[..n], field, s);
      DecodesMore(fields, field);
      SpellsIsMatch(fields[n].0, field);
      forall t
        ensures GivesString(fields, field, t) <==>
                if Spells(fields[n].0, field) && fields[n].1.Str? then fields[n].1.s == t
                else GivesString(fields[..n], field, t)
      {
        GivesMore(fields, field, t);
      }
      if Spells(fields[n].0, field) && fields[n].1.Str? { assert GivesString(fields, field, fields[n].1.s); }
    }
  }

  // ---- rows and certificates ----

  /** A value that unmarshals into a struct with this string field. */
  ghost predicate StructDecodes(j: Json, field: string) {
    j.Null? || (j.Obj? && FieldDecodes(j.fields, field))
  }

  /** The value gives the field this non-empty string. */
  ghost predicate Says(j: Json, field: string, s: string) {
    s != "" && j.Obj? && GivesString(j.fields, field, s)
  }

  lemma {:induction false} StringFieldMeaning(j: Json, field: string, s: string)
    ensures StringField(j, field).Ok? <==> StructDecodes(j, field)
    ensures s != "" && StructDecodes(j, field) ==> (StringField(j, field) == Ok(s) <==> Says(j, field, s))
  {
    if j.Obj? { FieldMeaning(j.fields, field, s); }
  }

  ghost predicate RowOk(row: Json) {
    StructDecodes(row, "key_id") && StructDecodes(row, "host_name")
  }

  lemma {:induction false} RowMeaning(row: Json, s: string)
    ensures RowDecodes(row) <==> RowOk(row)
    ensures RowOk(row) && s != "" ==> (KeyOf(row) == s <==> Says(row, "key_id", s))
    ensures RowOk(row) && s != "" ==> (HostOf(row) == s <==> Says(row, "host_name", s))
  {
    StringFieldMeaning(row, "key_id", s);
    StringFieldMeaning(row, "host_name", s);
  }

  // ---- pages ----

  /** The field is absent, null or an array. */
  ghost predicate ListOk(fields: map<string, Raw>, name: string) {
    name in fields ==> fields[name].value.Null? || fields[name].value.Arr?
  }

  /** The array's elements; an absent or null one has none. */
  function ListIn(fields: map<string, Raw>, name: string): seq<Json> {
    if name in fields && fields[name].value.Arr? then fields[name].value.elems else []
  }

  ghost predicate RowsOk(page: Page) {
    ListOk(page.fields, "rows") && forall r :: r in ListIn(page.fields, "rows") ==> RowOk(r)
  }

  ghost predicate PageOk(page: Page) {
    RowsOk(page) && ListOk(page.fields, "seq_gaps")
  }

  lemma {:induction false} ListMeaning(page: Page)
    ensures PageRows(page).Ok? <==> ListOk(page.fields, "rows")
    ensures PageRows(page).Ok? ==> PageRows(page).value == ListIn(page.fields, "rows")
    ensures PageGaps(page).Ok? <==> ListOk(page.fields, "seq_gaps")
    ensures PageGaps(page).Ok? ==> PageGaps(page).value == ListIn(page.fields, "seq_gaps")
  {
  }

  lemma {:induction false} AddRowsMeaning(c: Chain, rows: seq<Json>)
    ensures AddRows(c, rows).Ok? <==> forall r :: r in rows ==> RowOk(r)
  {
    if rows != [] {
      var n := |rows| - 1;
      AddRowsMeaning(c, rows[..n]);
      RowMeaning(rows[n], "");
      assert rows == rows[..n] + [rows[n]];
    }
  }

  /** Which error a page is refused with, in the order it is examined. */
  lemma {:induction false} AddPageMeaning(c: Chain, page: Page, limit: nat)
    ensures var r := AddPage(c, page, limit);
            var fits := limit == 0 || "rows" !in page.fields || c.bytesHeld + page.fields["rows"].size <= limit;
            if !ListOk(page.fields, "rows") then r == Err(BadRows)
            else if !fits then r == Err(TooLarge)
            else if !RowsOk(page) then r == Err(BadRow)
            else if !ListOk(page.fields, "seq_gaps") then r == Err(BadGaps)
            else r.Ok?
  {
    ListMeaning(page);
    if PageRows(page).Ok? { AddRowsMeaning(c, PageRows(page).value); }
  }

  // ---- coverage ----

  ghost predicate AllDecode(keys: seq<Json>) {
    forall k :: k in keys ==> StructDecodes(k, "key_id")
  }

  lemma {:induction false} CertifiedMeaning(keys: seq<Json>, s: string)
    ensures CertifiedKeys(keys).Ok? <==> AllDecode(keys)
    ensures CertifiedKeys(keys).Ok? && s != "" ==>
              (s in CertifiedKeys(keys).value <==> exists k :: k in keys && Says(k, "key_id", s))
  {
    if keys != [] {
      var n := |keys| - 1;
      CertifiedMeaning(keys[..n], s);
      StringFieldMeaning(keys[n], "key_id", s);
      assert keys == keys[..n] + [keys[n]];
    }
  }

  /** When there is evidence at all, it lists certificates, and every key a row says it was
      signed with is one of theirs. */
  ghost predicate Covered(rows: seq<Json>, doc: map<string, Json>) {
    "signing_keys" in doc ==>
      && (doc["signing_keys"].Null? || doc["signing_keys"].Arr?)
      && var certificates := if doc["signing_keys"].Arr? then doc["signing_keys"].elems else [];
         && AllDecode(certificates)
         && forall r, s :: r in rows && Says(r, "key_id", s) ==>
                             exists k :: k in certificates && Says(k, "key_id", s)
  }
}
