/** One user's second factors and recovery codes: the guarded updates the database
    runs atomically, in any interleaving, and what their results mean in terms of the
    history alone. */
module TotpLedger {
  import opened Options

  /** A factor's method and label. */
  datatype Key = Key(kind: string, name: string)

  datatype Factor = Factor(secret: string, lastStep: int, live: bool, epoch: string)

  datatype Code = Code(setId: string, used: bool, live: bool)

  datatype Tables = Tables(
    factors: map<Key, Factor>,
    epoch: Option<string>,
    codes: map<string, Code>,
    setId: Option<string>)

  /** The writes. Enroll carries the epoch its earlier read gave it, and whether it
      writes the pointer; Issue carries the set it minted. */
  datatype Write =
    | Enroll(key: Key, secret: string, epoch: string, repoint: bool)
    | Disable(key: Key)
    | Record(key: Key, secret: string, step: int)
    | Issue(setId: string, hashes: seq<string>)
    | Spend(hash: string)
    | DeleteUser

  const EMPTY := Tables(map[], None, map[], None)

  // ---- what the database does ----

  predicate Live(db: Tables, key: Key) {
    key in db.factors && db.factors[key].live && db.epoch == Some(db.factors[key].epoch)
  }

  predicate Recordable(db: Tables, key: Key, secret: string, step: int) {
    Live(db, key) && db.factors[key].secret == secret && db.factors[key].lastStep < step
  }

  predicate Spendable(db: Tables, hash: string) {
    && hash in db.codes && !db.codes[hash].used && db.codes[hash].live
    && db.setId == Some(db.codes[hash].setId)
  }

  function Disabled(db: Tables, key: Key): Tables {
    var factors := if key in db.factors then db.factors[key := db.factors[key].(live := false)] else db.factors;
    var inUse := db.epoch.Some? && exists k :: k in factors && factors[k].live && factors[k].epoch == db.epoch.value;
    db.(factors := factors, epoch := if inUse then db.epoch else None)
  }

  /** Point at the new set, tombstone unused codes of others, then upsert the new ones. */
  function Issued(db: Tables, setId: string, hashes: seq<string>): Tables {
    var kept := map h | h in db.codes :: var c := db.codes[h];
      if !c.used && c.setId != setId then c.(live := false) else c;
    db.(codes := kept + map h | h in hashes :: Code(setId, false, true), setId := Some(setId))
  }

  function After(db: Tables, w: Write): Tables {
    match w
    case Enroll(key, secret, epoch, repoint) =>
      db.(factors := db.factors[key := Factor(secret, 0, true, epoch)],
          epoch := if repoint then Some(epoch) else db.epoch)
    case Disable(key) => Disabled(db, key)
    case Record(key, secret, step) =>
      if Recordable(db, key, secret, step) then db.(factors := db.factors[key := db.factors[key].(lastStep := step)])
      else db
    case Issue(setId, hashes) => Issued(db, setId, hashes)
    case Spend(hash) =>
      if Spendable(db, hash) then db.(codes := db.codes[hash := db.codes[hash].(used := true)]) else db
    case DeleteUser =>
      Tables(map k | k in db.factors :: db.factors[k].(live := false), None,
             map h | h in db.codes :: db.codes[h].(live := false), None)
  }

  /** Whether a guarded update changed a row. */
  predicate Changed(db: Tables, w: Write) {
    (w.Record? && Recordable(db, w.key, w.secret, w.step)) || (w.Spend? && Spendable(db, w.hash))
  }

  function TablesAfter(ws: seq<Write>): Tables {
    if ws == [] then EMPTY else After(TablesAfter(ws[..|ws| - 1]), ws[|ws| - 1])
  }

  predicate ChangedAt(ws: seq<Write>, j: int)
    requires 0 <= j < |ws|
  {
    Changed(TablesAfter(ws[..j]), ws[j])
  }

  lemma {:induction false} Appended(ws: seq<Write>, w: Write)
    ensures TablesAfter(ws + [w]) == After(TablesAfter(ws), w)
  {
    assert (ws + [w])[..|ws|] == ws;
  }

  // ---- the history of a factor ----

  predicate Enrolls(w: Write, key: Key) {
    w.Enroll? && w.key == key
  }

  predicate Retires(w: Write, key: Key) {
    (w.Disable? && w.key == key) || w.DeleteUser?
  }

  /** Write i is the key's latest enrolment, before n. */
  ghost predicate Enrolled(ws: seq<Write>, key: Key, i: int, n: int) {
    0 <= i < n <= |ws| && Enrolls(ws[i], key) && forall m :: i < m < n ==> !Enrolls(ws[m], key)
  }

  ghost predicate Retired(ws: seq<Write>, key: Key, i: int, n: int)
    requires 0 <= i < n <= |ws|
  {
    exists m :: i < m < n && Retires(ws[m], key)
  }

  /** Write m consumed a step of the key. */
  predicate Consumes(ws: seq<Write>, key: Key, m: int)
    requires 0 <= m < |ws|
  {
    ws[m].Record? && ws[m].key == key && ChangedAt(ws, m)
  }

  /** Every step the key consumed between i and n is below. */
  ghost predicate Above(ws: seq<Write>, key: Key, i: int, n: int, step: int)
    requires 0 <= i < n <= |ws|
  {
    0 < step && forall m :: i < m < n && Consumes(ws, key, m) ==> ws[m].step < step
  }

  /** A factor's row is its latest enrolment: same secret and epoch, live until retired,
      and its ratchet admits exactly the steps above all those consumed since. */
  ghost predicate RowReflects(ws: seq<Write>, key: Key, i: int, n: int, f: Factor)
    requires 0 <= i < n <= |ws| && ws[i].Enroll?
  {
    && f.secret == ws[i].secret && f.epoch == ws[i].epoch
    && (f.live <==> !Retired(ws, key, i, n))
    && forall step :: Above(ws, key, i, n, step) <==> f.lastStep < step
  }

  ghost predicate Reflects(ws: seq<Write>, key: Key, n: nat, db: Tables)
    requires n <= |ws|
  {
    && (key in db.factors <==> exists i :: Enrolled(ws, key, i, n))
    && forall i :: Enrolled(ws, key, i, n) ==> key in db.factors && RowReflects(ws, key, i, n, db.factors[key])
  }

  lemma {:induction false} FactorMeaning(ws: seq<Write>, key: Key, n: nat)
    requires n <= |ws|
    ensures Reflects(ws, key, n, TablesAfter(ws[..n]))
  {
    if n > 0 {
      FactorMeaning(ws, key, n - 1);
      assert ws[..n][..n - 1] == ws[..n - 1];
      FactorStep(ws, key, n - 1, TablesAfter(ws[..n - 1]));
    }
  }

  lemma {:induction false} FactorStep(ws: seq<Write>, key: Key, n: nat, db: Tables)
    requires n < |ws| && db == TablesAfter(ws[..n])
    requires Reflects(ws, key, n, db)
    ensures Reflects(ws, key, n + 1, After(db, ws[n]))
  {
    if Enrolls(ws[n], key) {
      assert Enrolled(ws, key, n, n + 1);
    } else {
      var e := n + 1;
      if i :| Enrolled(ws, key, i, n) { assert Enrolled(ws, key, i, e); }
      forall i | Enrolled(ws, key, i, e) ensures Enrolled(ws, key, i, n) {}
      forall i | Enrolled(ws, key, i, e) ensures RowReflects(ws, key, i, e, After(db, ws[n]).factors[key]) {
        RowStep(ws, key, i, n, db);
      }
    }
  }

  lemma {:induction false} RowStep(ws: seq<Write>, key: Key, i: int, n: nat, db: Tables)
    requires n < |ws| && db == TablesAfter(ws[..n]) && Enrolled(ws, key, i, n) && !Enrolls(ws[n], key)
    requires key in db.factors && RowReflects(ws, key, i, n, db.factors[key])
    ensures RowReflects(ws, key, i, n + 1, After(db, ws[n]).factors[key])
  {
    var f, g, e := db.factors[key], After(db, ws[n]).factors[key], n + 1;
    assert Retired(ws, key, i, e) <==> Retired(ws, key, i, n) || Retires(ws[n], key);
    forall step ensures Above(ws, key, i, e, step) <==> g.lastStep < step {
      assert Above(ws, key, i, n, step) <==> f.lastStep < step;
      AboveMore(ws, key, i, n, step);
    }
  }

  lemma {:induction false} AboveMore(ws: seq<Write>, key: Key, i: nat, n: nat, step: int)
    requires i < n < |ws|
    ensures Above(ws, key, i, n + 1, step) <==>
            Above(ws, key, i, n, step) && (Consumes(ws, key, n) ==> ws[n].step < step)
  {
  }

  // ---- the history of the epoch ----

  /** Some factor enrolled under the epoch has not been retired. */
  ghost predicate InUse(ws: seq<Write>, n: int, epoch: string) {
    exists key, i :: Enrolled(ws, key, i, n) && !Retired(ws, key, i, n) && ws[i].epoch == epoch
  }

  /** Write m ends the epoch: the user is deleted, or its last factor is disabled. */
  ghost predicate Ends(ws: seq<Write>, m: int, epoch: string)
    requires 0 <= m < |ws|
  {
    ws[m].DeleteUser? || (ws[m].Disable? && !InUse(ws, m + 1, epoch))
  }

  predicate Points(w: Write) {
    w.Enroll? && w.repoint
  }

  /** Write i made the epoch the active one, and before n none replaced or ended it. */
  ghost predicate ActiveSince(ws: seq<Write>, i: int, n: int, epoch: string) {
    && 0 <= i < n <= |ws| && Points(ws[i]) && ws[i].epoch == epoch
    && forall m :: i < m < n ==> !Points(ws[m]) && !Ends(ws, m, epoch)
  }

  ghost predicate Active(ws: seq<Write>, n: int, epoch: string) {
    exists i :: ActiveSince(ws, i, n, epoch)
  }

  lemma {:induction false} ActiveMore(ws: seq<Write>, n: nat, epoch: string)
    requires n < |ws| && !Points(ws[n])
    ensures Active(ws, n + 1, epoch) <==> Active(ws, n, epoch) && !Ends(ws, n, epoch)
  {
    var e := n + 1;
    if i :| ActiveSince(ws, i, n, epoch) {
      if !Ends(ws, n, epoch) { assert ActiveSince(ws, i, e, epoch); }
    }
    if i :| ActiveSince(ws, i, e, epoch) { assert i < n && ActiveSince(ws, i, n, epoch); }
  }

  /** Which epoch is active can be read off the history. */
  lemma {:induction false} EpochMeaning(ws: seq<Write>, n: nat, epoch: string)
    requires n <= |ws|
    ensures TablesAfter(ws[..n]).epoch == Some(epoch) <==> Active(ws, n, epoch)
  {
    if n > 0 {
      var m := n - 1;
      var db := TablesAfter(ws[..m]);
      assert ws[..n][..m] == ws[..m];
      EpochMeaning(ws, m, epoch);
      if Points(ws[m]) {
        if ws[m].epoch == epoch { assert ActiveSince(ws, m, n, epoch); }
        if i :| ActiveSince(ws, i, n, epoch) { assert i == m; }
      } else {
        ActiveMore(ws, m, epoch);
        if ws[m].Disable? && db.epoch == Some(epoch) { DisableMeaning(ws, m, db, epoch); }
      }
    }
  }

  /** Disabling a factor leaves the epoch of the others alone. */
  lemma {:induction false} DisableMeaning(ws: seq<Write>, m: nat, db: Tables, epoch: string)
    requires m < |ws| && ws[m].Disable? && db == TablesAfter(ws[..m]) && db.epoch == Some(epoch)
    ensures After(db, ws[m]).epoch == if InUse(ws, m + 1, epoch) then Some(epoch) else None
  {
    var n := m + 1;
    var next := After(db, ws[m]);
    assert ws[..n][..m] == ws[..m] && next == TablesAfter(ws[..n]);
    if InUse(ws, n, epoch) {
      var key, i :| Enrolled(ws, key, i, n) && !Retired(ws, key, i, n) && ws[i].epoch == epoch;
      FactorMeaning(ws, key, n);
      assert key in next.factors && next.factors[key].live && next.factors[key].epoch == epoch;
    }
    if k :| k in next.factors && next.factors[k].live && next.factors[k].epoch == epoch {
      FactorMeaning(ws, k, n);
      var i :| Enrolled(ws, k, i, n);
      assert RowReflects(ws, k, i, n, next.factors[k]);
    }
  }

  /** A step is recorded exactly when the code's secret is the one last enrolled, that
      enrolment has not been retired and its epoch is the active one, and the step is
      above every one consumed since. */
  lemma {:induction false} RecordMeaning(ws: seq<Write>, j: nat)
    requires j < |ws| && ws[j].Record?
    ensures ChangedAt(ws, j) <==>
            exists i :: && Enrolled(ws, ws[j].key, i, j) && ws[i].secret == ws[j].secret
                        && !Retired(ws, ws[j].key, i, j) && Active(ws, j, ws[i].epoch)
                        && Above(ws, ws[j].key, i, j, ws[j].step)
  {
    FactorMeaning(ws, ws[j].key, j);
    if i :| Enrolled(ws, ws[j].key, i, j) { EpochMeaning(ws, j, ws[i].epoch); }
  }

  /** SINGLE USE. Without a new enrolment in between, the steps a factor accepts
      strictly increase. */
  lemma {:induction false} StepsIncrease(ws: seq<Write>, key: Key, i: nat, j: nat)
    requires i < j < |ws| && Consumes(ws, key, i) && Consumes(ws, key, j)
    requires forall m :: i < m < j ==> !Enrolls(ws[m], key)
    ensures ws[i].step < ws[j].step && ws[i].secret == ws[j].secret
  {
    RecordMeaning(ws, i);
    RecordMeaning(ws, j);
    var a :| Enrolled(ws, key, a, i) && ws[a].secret == ws[i].secret;
    assert Enrolled(ws, key, a, j);
    var b :| Enrolled(ws, key, b, j) && ws[b].secret == ws[j].secret && Above(ws, key, b, j, ws[j].step);
    assert a == b;
  }

  /** Secrets are freshly generated. */
  ghost predicate FreshSecrets(ws: seq<Write>) {
    forall i, j :: 0 <= i < j < |ws| && ws[i].Enroll? && ws[j].Enroll? ==> ws[i].secret != ws[j].secret
  }

  /** With fresh secrets the steps accepted for one secret strictly increase over the
      whole history, so no code of it is accepted twice, under any name. */
  lemma {:induction false} SecretStepsIncrease(ws: seq<Write>, i: nat, j: nat)
    requires FreshSecrets(ws) && i < j < |ws|
    requires ws[i].Record? && ws[j].Record? && ChangedAt(ws, i) && ChangedAt(ws, j) && ws[i].secret == ws[j].secret
    ensures ws[i].step < ws[j].step && ws[i].key == ws[j].key
  {
    RecordMeaning(ws, i);
    RecordMeaning(ws, j);
    var a :| Enrolled(ws, ws[i].key, a, i) && ws[a].secret == ws[i].secret;
    var b :| Enrolled(ws, ws[j].key, b, j) && ws[b].secret == ws[j].secret && Above(ws, ws[j].key, b, j, ws[j].step);
    assert a == b;
  }

  /** A secret enrolled again starts over, in every history and under any key: a step it
      was accepted for is accepted again exactly when that enrolment's epoch is active. */
  lemma {:induction false} ReenrolledSecretReplays(ws: seq<Write>, i: nat, key: Key, epoch: string, repoint: bool)
    requires i < |ws| && ws[i].Record? && ChangedAt(ws, i)
    ensures var again := ws + [Enroll(key, ws[i].secret, epoch, repoint)];
            ChangedAt(again + [Record(key, ws[i].secret, ws[i].step)], |again|) <==> Active(again, |again|, epoch)
  {
    RecordMeaning(ws, i);
    var enroll := Enroll(key, ws[i].secret, epoch, repoint);
    var again := ws + [enroll];
    Appended(ws, enroll);
    assert (again + [Record(key, ws[i].secret, ws[i].step)])[..|again|] == again;
    assert again[..|again|] == again;
    EpochMeaning(again, |again|, epoch);
  }

  // ---- the history of a recovery code ----

  ghost predicate Issues(w: Write, hash: string) {
    w.Issue? && hash in w.hashes
  }

  predicate Clears(w: Write) {
    w.Issue? || w.DeleteUser?
  }

  /** Set identifiers are freshly minted. */
  ghost predicate FreshSets(ws: seq<Write>) {
    forall i, j :: 0 <= i < j < |ws| && ws[i].Issue? && ws[j].Issue? ==> ws[i].setId != ws[j].setId
  }

  /** Write i issued the set in force before n. */
  ghost predicate InForce(ws: seq<Write>, i: int, n: int) {
    0 <= i < n <= |ws| && ws[i].Issue? && forall m :: i < m < n ==> !Clears(ws[m])
  }

  ghost predicate SpentSince(ws: seq<Write>, hash: string, i: int, n: int)
    requires 0 <= i < n <= |ws|
  {
    exists m :: i < m < n && ws[m] == Spend(hash) && ChangedAt(ws, m)
  }

  /** Codes carry the set of a write that issued one. */
  ghost predicate KnownSets(ws: seq<Write>, n: nat, db: Tables)
    requires n <= |ws|
  {
    forall h :: h in db.codes ==> exists i :: 0 <= i < n && ws[i].Issue? && ws[i].setId == db.codes[h].setId
  }

  /** A code can be spent exactly when the set in force issued it and it has not been
      spent since. */
  ghost predicate CodeReflects(ws: seq<Write>, hash: string, n: nat, db: Tables)
    requires n <= |ws|
  {
    && (db.setId.Some? <==> exists i :: InForce(ws, i, n))
    && (forall i :: InForce(ws, i, n) ==> db.setId == Some(ws[i].setId))
    && (forall i :: InForce(ws, i, n) ==>
          (Spendable(db, hash) <==> hash in ws[i].hashes && !SpentSince(ws, hash, i, n)))
  }

  lemma {:induction false} CodeMeaning(ws: seq<Write>, hash: string, n: nat)
    requires FreshSets(ws) && n <= |ws|
    ensures KnownSets(ws, n, TablesAfter(ws[..n])) && CodeReflects(ws, hash, n, TablesAfter(ws[..n]))
  {
    if n > 0 {
      CodeMeaning(ws, hash, n - 1);
      assert ws[..n][..n - 1] == ws[..n - 1];
      KnownStep(ws, n - 1, TablesAfter(ws[..n - 1]));
      CodeStep(ws, hash, n - 1, TablesAfter(ws[..n - 1]));
    }
  }

  lemma {:induction false} KnownStep(ws: seq<Write>, n: nat, db: Tables)
    requires n < |ws| && KnownSets(ws, n, db)
    ensures KnownSets(ws, n + 1, After(db, ws[n]))
  {
    var next := After(db, ws[n]);
    forall h | h in next.codes
      ensures exists i :: 0 <= i < n + 1 && ws[i].Issue? && ws[i].setId == next.codes[h].setId
    {
      if h in db.codes {
        var i :| 0 <= i < n && ws[i].Issue? && ws[i].setId == db.codes[h].setId;
      }
    }
  }

  lemma {:induction false} CodeStep(ws: seq<Write>, hash: string, n: nat, db: Tables)
    requires FreshSets(ws) && n < |ws| && db == TablesAfter(ws[..n])
    requires KnownSets(ws, n, db) && CodeReflects(ws, hash, n, db)
    ensures CodeReflects(ws, hash, n + 1, After(db, ws[n]))
  {
    match ws[n]
    case Issue(_, _) => IssueStep(ws, hash, n, db);
    case DeleteUser =>
    case _ => OtherStep(ws, hash, n, db);
  }

  /** Issuing makes exactly its own hashes spendable. */
  lemma {:induction false} IssueSpendable(ws: seq<Write>, hash: string, n: nat, db: Tables)
    requires FreshSets(ws) && n < |ws| && ws[n].Issue? && KnownSets(ws, n, db)
    ensures Spendable(After(db, ws[n]), hash) <==> hash in ws[n].hashes
  {
    var next := After(db, ws[n]);
    assert next.codes.Keys == db.codes.Keys + set h | h in ws[n].hashes;
    if hash !in ws[n].hashes && hash in db.codes {
      var i :| 0 <= i < n && ws[i].Issue? && ws[i].setId == db.codes[hash].setId;
      assert next.codes[hash].setId == db.codes[hash].setId;
    }
  }

  lemma {:induction false} IssueStep(ws: seq<Write>, hash: string, n: nat, db: Tables)
    requires FreshSets(ws) && n < |ws| && ws[n].Issue? && KnownSets(ws, n, db)
    ensures CodeReflects(ws, hash, n + 1, After(db, ws[n]))
  {
    var e := n + 1;
    assert InForce(ws, n, e);
    IssueSpendable(ws, hash, n, db);
    forall i | InForce(ws, i, e) ensures i == n {}
  }

  lemma {:induction false} OtherStep(ws: seq<Write>, hash: string, n: nat, db: Tables)
    requires n < |ws| && db == TablesAfter(ws[..n]) && !Clears(ws[n]) && CodeReflects(ws, hash, n, db)
    ensures CodeReflects(ws, hash, n + 1, After(db, ws[n]))
  {
    forall i ensures InForce(ws, i, n + 1) <==> InForce(ws, i, n) {}
    var next := After(db, ws[n]);
    assert next.setId == db.setId;
    assert Spendable(next, hash) <==> Spendable(db, hash) && ws[n] != Spend(hash);
    forall i | InForce(ws, i, n)
      ensures SpentSince(ws, hash, i, n + 1) <==>
              SpentSince(ws, hash, i, n) || (ws[n] == Spend(hash) && Spendable(db, hash))
    {}
  }

  /** A recovery code is consumed exactly when the set in force issued it and it has not
      been consumed since. */
  lemma {:induction false} SpendMeaning(ws: seq<Write>, j: nat)
    requires FreshSets(ws) && j < |ws| && ws[j].Spend?
    ensures ChangedAt(ws, j) <==>
            exists i :: InForce(ws, i, j) && ws[j].hash in ws[i].hashes && !SpentSince(ws, ws[j].hash, i, j)
  {
    CodeMeaning(ws, ws[j].hash, j);
  }

  /** Each recovery hash authenticates at most once between two issues of it. */
  lemma {:induction false} SpentOnce(ws: seq<Write>, i: nat, j: nat)
    requires i < j < |ws| && ws[i].Spend? && ws[j] == ws[i] && ChangedAt(ws, i) && ChangedAt(ws, j)
    ensures exists m :: i < m < j && Issues(ws[m], ws[i].hash)
  {
    if forall m :: i < m < j ==> !Issues(ws[m], ws[i].hash) { UsedUntilIssued(ws, i, j); }
  }

  lemma {:induction false} UsedUntilIssued(ws: seq<Write>, i: nat, n: nat)
    requires i < n <= |ws| && ws[i].Spend? && ChangedAt(ws, i)
    requires forall m :: i < m < n ==> !Issues(ws[m], ws[i].hash)
    ensures var db := TablesAfter(ws[..n]); ws[i].hash in db.codes && db.codes[ws[i].hash].used
  {
    assert ws[..n][..n - 1] == ws[..n - 1];
    var db := TablesAfter(ws[..n - 1]);
    assert TablesAfter(ws[..n]) == After(db, ws[n - 1]);
    if n == i + 1 {
      SpentIsUsed(db, ws[i]);
    } else {
      UsedUntilIssued(ws, i, n - 1);
      StaysUsed(db, ws[n - 1], ws[i].hash);
    }
  }

  lemma {:induction false} SpentIsUsed(db: Tables, w: Write)
    requires w.Spend? && Changed(db, w)
    ensures w.hash in After(db, w).codes && After(db, w).codes[w.hash].used
  {
  }

  lemma {:induction false} StaysUsed(db: Tables, w: Write, hash: string)
    requires hash in db.codes && db.codes[hash].used && !Issues(w, hash)
    ensures hash in After(db, w).codes && After(db, w).codes[hash].used
  {
  }
}
