/** Checking a presented code: list the factors, search for a step, then consume it
    with one guarded update, while other sessions write between any two of these. */
module TotpVerify {
  import opened Options
  import opened TotpLedger
  import opened TotpSearch

  datatype Listed = Listed(key: Key, secret: string, lastStep: int)

  datatype Verdict = Accepted | Rejected | Failed

  /** How recovery codes are compared: normalization, and a hash against its result. */
  datatype Recovery = Recovery(normalize: string -> string, compare: (string, string) -> bool)

  ghost predicate ListedFrom(db: Tables, f: Listed) {
    Live(db, f.key) && db.factors[f.key].secret == f.secret && db.factors[f.key].lastStep == f.lastStep
  }

  ghost predicate Lists(db: Tables, fs: seq<Listed>) {
    && (forall f :: f in fs ==> ListedFrom(db, f))
    && (forall key :: Live(db, key) ==> exists f :: f in fs && f.key == key)
  }

  /** The code is the one this live factor generates for the step. */
  ghost predicate Matches(db: Tables, key: Key, code: string, now: int, generate: Generator, step: int) {
    && Live(db, key) && key.kind == "totp"
    && Nearest(Quotient(now, 30), 1, code, db.factors[key].secret, generate, step)
  }

  ghost predicate NoFactorMatches(db: Tables, code: string, now: int, generate: Generator) {
    forall key, step :: !Matches(db, key, code, now, generate, step)
  }

  ghost predicate Stale(db: Tables, code: string, now: int, generate: Generator) {
    exists key, step :: Matches(db, key, code, now, generate, step) && step <= db.factors[key].lastStep
  }

  /** A live factor with this secret generates the code for the step, which is above the last
      it was used for. */
  ghost predicate Offers(db: Tables, key: Key, secret: string, step: int, code: string, now: int,
                         generate: Generator) {
    && Matches(db, key, code, now, generate, step)
    && db.factors[key].secret == secret && db.factors[key].lastStep < step
  }

  ghost predicate NoCodeMatches(db: Tables, code: string, rc: Recovery) {
    rc.normalize(code) == "" || forall h :: Spendable(db, h) ==> !rc.compare(h, rc.normalize(code))
  }

  /** The tables at one moment between two points of the history. */
  ghost predicate During(log: seq<Write>, from: int, upTo: int, mid: int) {
    0 <= from <= mid <= upTo <= |log|
  }

  ghost predicate UnusedDuring(log: seq<Write>, from: int, upTo: int, hash: string) {
    exists b :: During(log, from, upTo, b) && Spendable(TablesAfter(log[..b]), hash)
  }

  /** Why a call that wrote nothing said no. */
  ghost predicate Unmatched(log: seq<Write>, from: nat, code: string, now: int, generate: Generator, rc: Recovery)
    requires from <= |log|
  {
    || code == ""
    || (exists a :: During(log, from, |log|, a) && Stale(TablesAfter(log[..a]), code, now, generate))
    || ((exists a :: During(log, from, |log|, a) && NoFactorMatches(TablesAfter(log[..a]), code, now, generate))
        && exists b :: During(log, from, |log|, b) && NoCodeMatches(TablesAfter(log[..b]), code, rc))
  }

  /** What a call may consume: a fresh step that, at some moment of the call, its code was
      generated for by that live factor; or, when at some moment no live factor matched, a
      recovery code it compares to that was unused at some later one. */
  ghost predicate Justified(log: seq<Write>, from: nat, at: nat, code: string, now: int, generate: Generator,
                            rc: Recovery)
    requires at < |log|
  {
    match log[at]
    case Record(key, secret, step) =>
      exists a :: During(log, from, at, a) && Offers(TablesAfter(log[..a]), key, secret, step, code, now, generate)
    case Spend(hash) =>
      && rc.normalize(code) != "" && rc.compare(hash, rc.normalize(code))
      && exists a :: During(log, from, at, a) && NoFactorMatches(TablesAfter(log[..a]), code, now, generate)
                  && UnusedDuring(log, a, at, hash)
    case _ => false
  }

  ghost predicate NoneOf(fs: seq<Listed>, code: string, now: int, generate: Generator) {
    forall f, step :: f in fs && f.key.kind == "totp" ==> !CodeOf(f, code, now, generate, step)
  }

  /** Factor i generates the code for the step, and none listed before it does. */
  ghost predicate FirstAt(fs: seq<Listed>, i: nat, code: string, now: int, generate: Generator, step: int)
    requires i < |fs|
  {
    fs[i].key.kind == "totp" && CodeOf(fs[i], code, now, generate, step) && NoneOf(fs[..i], code, now, generate)
  }

  /** The first listed factor whose window has the code, in the order listed. */
  method FirstMatch(fs: seq<Listed>, code: string, now: int, generate: Generator)
    returns (hit: Option<(Listed, int)>)
    ensures match hit
            case Some(m) => exists i :: 0 <= i < |fs| && fs[i] == m.0 && FirstAt(fs, i, code, now, generate, m.1)
            case None => NoneOf(fs, code, now, generate)
  {
    var i := 0;
    while i < |fs|
      invariant i <= |fs|
      invariant NoneOf(fs[..i], code, now, generate)
    {
      if fs[i].key.kind == "totp" {
        var step, _ := MatchTotpStep(code, fs[i].secret, now, TOTP_PERIOD, TOTP_SKEW, generate);
        if step.Some? {
          assert FirstAt(fs, i, code, now, generate, step.value);
          return Some((fs[i], step.value));
        }
      }
      i := i + 1;
    }
    return None;
  }

  ghost predicate CodeOf(f: Listed, code: string, now: int, generate: Generator, step: int) {
    Nearest(Quotient(now, TOTP_PERIOD), TOTP_SKEW, code, f.secret, generate, step)
  }

  /** With no listed match there is no live one. */
  lemma {:induction false} NoneListed(db: Tables, fs: seq<Listed>, code: string, now: int, generate: Generator)
    requires Lists(db, fs)
    requires NoneOf(fs, code, now, generate)
    ensures NoFactorMatches(db, code, now, generate)
  {
    forall key, step ensures !Matches(db, key, code, now, generate, step) {
      if Live(db, key) && key.kind == "totp" {
        var f :| f in fs && f.key == key;
        assert !CodeOf(f, code, now, generate, step);
      }
    }
  }

  class Session {
    var db: Tables
    ghost var log: seq<Write>
    /** Positions in the log of this session's own writes. */
    ghost var own: seq<nat>
    /** How many database calls have failed. */
    ghost var failures: nat

    ghost predicate Valid()
      reads this
    {
      db == TablesAfter(log)
    }

    constructor ()
      ensures Valid() && log == [] && own == [] && failures == 0
    {
      db, log, own, failures := EMPTY, [], [], 0;
    }

    /** Whatever other sessions write. */
    method Others()
      requires Valid()
      modifies `db, `log
      ensures Valid() && old(log) <= log
    {
    }

    /** Whether the next database call fails. */
    method Fails() returns (err: bool)
      modifies `failures
      ensures failures == old(failures) + if err then 1 else 0
    {
      err := *;
      if err { failures := failures + 1; }
    }

    method Write(w: Write) returns (changed: bool)
      requires Valid()
      modifies `db, `log, `own
      ensures Valid() && log == old(log) + [w] && own == old(own) + [|old(log)|]
      ensures changed == ChangedAt(log, |old(log)|)
    {
      changed := Changed(db, w);
      Appended(log, w);
      own := own + [|log|];
      log := log + [w];
      assert log[..|old(log)|] == old(log);
      db := After(db, w);
    }

    method ListFactors() returns (fs: seq<Listed>)
      requires Valid()
      ensures Lists(db, fs)
    {
      fs := [];
      var todo := db.factors.Keys;
      while todo != {}
        invariant todo <= db.factors.Keys
        invariant forall f :: f in fs ==> ListedFrom(db, f)
        invariant forall key :: Live(db, key) && key !in todo ==> exists f :: f in fs && f.key == key
      {
        var key :| key in todo;
        todo := todo - {key};
        if Live(db, key) {
          var f := Listed(key, db.factors[key].secret, db.factors[key].lastStep);
          ghost var was := fs;
          fs := fs + [f];
          assert f in fs && forall g :: g in was ==> g in fs;
        }
      }
    }

    method ListUnusedCodes() returns (hs: seq<string>)
      requires Valid()
      ensures forall h :: h in hs <==> Spendable(db, h)
    {
      hs := [];
      var todo := db.codes.Keys;
      while todo != {}
        invariant todo <= db.codes.Keys
        invariant forall h :: h in hs <==> Spendable(db, h) && h !in todo
      {
        var h :| h in todo;
        todo := todo - {h};
        if Spendable(db, h) { hs := hs + [h]; }
      }
    }

    /** verifyRecoveryCode: the first hash that compares decides. */
    method VerifyRecoveryCode(code: string, rc: Recovery) returns (v: Verdict, ghost at: Option<nat>)
      requires Valid()
      modifies this
      ensures Valid() && old(log) <= log
      ensures own == old(own) + if at.Some? then [at.value] else []
      ensures at.Some? ==>
                && |old(log)| <= at.value < |log| && log[at.value].Spend? && rc.normalize(code) != ""
                && rc.compare(log[at.value].hash, rc.normalize(code))
                && UnusedDuring(log, |old(log)|, at.value, log[at.value].hash)
      ensures v == Accepted <==> at.Some? && ChangedAt(log, at.value)
      ensures failures == old(failures) + if v == Failed then 1 else 0
      ensures v == Rejected && at.None? ==>
                exists b :: During(log, |old(log)|, |log|, b) && NoCodeMatches(TablesAfter(log[..b]), code, rc)
    {
      at := None;
      assert During(log, |log|, |log|, |log|) && log[..|log|] == log;
      var normalized := rc.normalize(code);
      if normalized == "" { return Rejected, None; }
      Others();
      var err := Fails();
      if err { return Failed, None; }
      var hashes := ListUnusedCodes();
      ghost var mid, listing := |log|, log;
      assert During(log, |old(log)|, |log|, mid) && log[..mid] == log;
      var i := 0;
      while i < |hashes|
        invariant i <= |hashes|
        invariant Valid() && old(log) <= log && |log| == mid && log == listing
        invariant failures == old(failures) && own == old(own)
        invariant forall k :: 0 <= k < i ==> !rc.compare(hashes[k], normalized)
      {
        if rc.compare(hashes[i], normalized) {
          Others();
          err := Fails();
          if err { return Failed, None; }
          at := Some(|log|);
          var consumed := Write(Spend(hashes[i]));
          assert log[..mid] == listing && During(log, |old(log)|, at.value, mid);
          return if consumed then Accepted else Rejected, at;
        }
        i := i + 1;
      }
      return Rejected, None;
    }

    /** Consume the step a listed factor generates the code for. */
    method RecordStep(f: Listed, step: int) returns (v: Verdict, ghost at: Option<nat>)
      requires Valid()
      modifies this
      ensures Valid() && old(log) <= log
      ensures own == old(own) + if at.Some? then [at.value] else []
      ensures at.Some? ==> |old(log)| <= at.value < |log| && log[at.value] == Record(f.key, f.secret, step)
      ensures v == Accepted <==> at.Some? && ChangedAt(log, at.value)
      ensures failures == old(failures) + if v == Failed then 1 else 0
      ensures at.None? <==> v == Failed
    {
      Others();
      var err := Fails();
      if err { return Failed, None; }
      at := Some(|log|);
      var recorded := Write(Record(f.key, f.secret, step));
      return if recorded then Accepted else Rejected, at;
    }

    /** VerifyTOTP. */
    method VerifyTotp(code: string, now: int, generate: Generator, rc: Recovery)
      returns (v: Verdict, ghost at: Option<nat>)
      requires Valid()
      modifies this
      ensures Valid() && old(log) <= log
      ensures own == old(own) + if at.Some? then [at.value] else []
      ensures at.Some? ==> |old(log)| <= at.value < |log|
      ensures at.Some? ==> Justified(log, |old(log)|, at.value, code, now, generate, rc)
      ensures v == Accepted <==> at.Some? && ChangedAt(log, at.value)
      ensures failures == old(failures) + if v == Failed then 1 else 0
      ensures v == Rejected && at.None? ==> Unmatched(log, |old(log)|, code, now, generate, rc)
    {
      if code == "" { return Rejected, None; }
      Others();
      var err := Fails();
      if err { return Failed, None; }
      var factors := ListFactors();
      ghost var mid := |log|;
      ghost var listing := log;
      assert log[..mid] == log;
      var hit := FirstMatch(factors, code, now, generate);
      if hit.Some? {
        var f, step := hit.value.0, hit.value.1;
        assert f in factors && ListedFrom(db, f);
        assert Matches(db, f.key, code, now, generate, step);
        if step <= f.lastStep {
          assert During(log, |old(log)|, |log|, mid);
          return Rejected, None;
        }
        assert Offers(db, f.key, f.secret, step, code, now, generate);
        v, at := RecordStep(f, step);
        assert log[..mid] == listing;
        if at.Some? { assert During(log, |old(log)|, at.value, mid); }
        return;
      }
      NoneListed(db, factors, code, now, generate);
      v, at := VerifyRecoveryCode(code, rc);
      assert log[..mid] == listing;
      assert During(log, |old(log)|, |log|, mid);
      if at.Some? { assert During(log, |old(log)|, at.value, mid); }
      if v == Rejected && at.None? {
        ghost var b :| During(log, mid, |log|, b) && NoCodeMatches(TablesAfter(log[..b]), code, rc);
        assert During(log, |old(log)|, |log|, b);
      }
    }
  }
}
