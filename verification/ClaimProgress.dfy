/** A claim can always still be decided: from every state a run can reach, a process with a
    round above every promise finishes if nobody interferes. */
module ClaimProgress {
  import opened Options
  import opened ClaimTypes
  import opened ClaimVoter
  import opened ClaimSystem
  import opened ClaimAgreement
  import opened ClaimSpec

  /** A key voters deal in: a workload decision, or a voter change. */
  ghost predicate WellFormed(k: ClaimKey) {
    || ((k.kind == "vm" || k.kind == "container") && k.name != "" && k.epoch >= 0 && k.attempt >= 0)
    || (k.kind == "voter_config" && k.name == "" && k.attempt == 0 && k.epoch >= 0 && k.incarnation == "")
  }

  /** The voter has answered a scoped form of this legacy workload key. */
  ghost predicate Closed(rows: Rows, k: ClaimKey) {
    && (k.kind == "vm" || k.kind == "container") && k.incarnation == ""
    && exists j :: j in rows && j.incarnation != "" && LegacyFormOf(k, j)
  }

  /** Nothing stands in the way of a ballot of round r at this voter. */
  ghost predicate Open(s: System, w: string, k: ClaimKey, r: nat) {
    w in s.voters && !Closed(s.voters[w], k) && RowAt(s.voters[w], k).promised.round < r
  }

  /** The process may use round r for k: above all it used, and bound to nothing. */
  ghost predicate Free(s: System, p: ProcId, k: ClaimKey, r: nat) {
    && p in s.procs && p.self != "" && (k in s.procs[p].used ==> s.procs[p].used[k] < r)
    && (k in s.procs[p].bound ==> r !in s.procs[p].bound[k])
  }

  lemma {:induction false} Take(cfg: Config, base: seq<System>, run: seq<System>, l: Label) returns (more: seq<System>)
    requires Run(cfg, run) && base <= run && Enabled(cfg, run[|run| - 1], l)
    ensures Run(cfg, more) && base <= more && more[|more| - 1] == After(run[|run| - 1], l)
  {
    more := run + [After(run[|run| - 1], l)];
    forall i: nat | i + 1 < |more| ensures StepAt(cfg, more, i) {
      if i + 1 < |run| { assert StepAt(cfg, run, i); }
    }
  }

  // ---- phase 1 ----

  /** Voters of todo are as they were; the others have promised b, what ps says. */
  ghost predicate Preparing(s: System, t: System, k: ClaimKey, b: Ballot, todo: set<string>,
                            ps: map<string, PromiseInfo>) {
    && t.procs == s.procs && t.voters.Keys == s.voters.Keys && PrepareReq(k, b) in t.net
    && (forall w :: w in s.voters && w !in ps ==> t.voters[w] == s.voters[w])
    && (forall w :: w in ps ==> Answered(s, t, w, k, b, ps[w]))
    && ps.Keys !! todo
  }

  ghost predicate Answered(s: System, t: System, w: string, k: ClaimKey, b: Ballot, info: PromiseInfo) {
    && w in s.voters && w in t.voters && PromiseMsg(w, k, b, info) in t.net
    && t.voters[w] == s.voters[w][k := RowAt(s.voters[w], k).(promised := b)]
    && info.state == t.voters[w][k]
    && (Untouched(s.voters[w], k) ==> !Carries(info.state) && !CarriesLegacy(info))
  }

  lemma {:induction false} ClosedIsSealed(rows: Rows, k: ClaimKey)
    ensures Closed(rows, k) <==> Sealed(rows, k)
  {
  }

  /** The voter has promised the key to a ballot above b. */
  ghost predicate Outbid(rows: Rows, k: ClaimKey, b: Ballot) {
    k in rows && Below(b, rows[k].promised)
  }

  /** What a voter has at the key, if anything. */
  ghost predicate HasRow(rows: Rows, k: ClaimKey, row: Row) {
    if k in rows then row == rows[k] else row == Row(Ballot(0, "", ""), Ballot(0, "", ""), None, [])
  }

  /** When a voter promises, what it writes, and what it refuses with otherwise. */
  lemma {:induction false} PrepareMeaning(rows: Rows, k: ClaimKey, b: Ballot, row: Row)
    requires HasRow(rows, k, row)
    ensures var (rows', reply) := ClaimPrepare(rows, k, b);
            if !WellFormed(k) || b.round == 0 || b.coordinator == "" then
              rows' == rows && reply.PrepareRefused? && reply.reason == InvalidValue
            else if Closed(rows, k) then rows' == rows && reply.PrepareRefused? && reply.reason == LegacyKeySealed
            else if Outbid(rows, k, b) then rows' == rows && reply == PrepareRefused(BallotStale, rows[k].promised)
            else
              && rows' == rows[k := row.(promised := b)] && reply.Promise? && reply.state == row.(promised := b)
              && reply.legacy == Legacy(rows', k)
  {
    ClosedIsSealed(rows, k);
    BallotsTotal(row.promised, b);
    BallotsTotal(b, row.promised);
  }

  /** A promise at a scoped key reports the row of its legacy form when that has been voted on. */
  lemma {:induction false} LegacyRowMeaning(rows: Rows, k: ClaimKey, legacy: ClaimKey)
    requires LegacyFormOf(legacy, k)
    ensures Legacy(rows, k) ==
            if legacy in rows && rows[legacy].accepted != Ballot(0, "", "") && rows[legacy].value.Some? then
              Some(rows[legacy])
            else None
  {
  }

  /** When a voter accepts, what it writes, and what it refuses with otherwise. */
  lemma {:induction false} AcceptMeaning(rows: Rows, k: ClaimKey, b: Ballot, v: ClaimValue, checked: bool, row: Row)
    requires HasRow(rows, k, row)
    ensures var (rows', reply) := ClaimVoter.ClaimAccept(rows, k, b, v, checked);
            if !Digestible(v) || !WellFormed(k) || b.round == 0 || b.coordinator == "" then
              rows' == rows && reply.AcceptRefused? && reply.reason == InvalidValue
            else if Closed(rows, k) then rows' == rows && reply.AcceptRefused? && reply.reason == LegacyKeySealed
            else if Outbid(rows, k, b) then rows' == rows && reply == AcceptRefused(BallotStale, rows[k].promised)
            else
              var d := DigestOf(v).value;
              if row.accepted == b && row.digest != d then
                rows' == rows && reply.AcceptRefused? && reply.reason == ValueConflict
              else if row.accepted == b then rows' == rows && reply == Accepted(d)
              else if k.kind != "voter_config" && row.digest != d && !checked then
                rows' == rows && reply.AcceptRefused? && reply.reason == OtherRefusal
              else rows' == rows[k := Row(b, b, Some(v), d)] && reply == Accepted(d)
  {
    DigestLaw(v, v);
    ClosedIsSealed(rows, k);
    BallotsTotal(row.promised, b);
    BallotsTotal(b, row.promised);
  }

  /** An open voter promises. */
  lemma {:induction false} VoterPromises(cfg: Config, s: System, w: string, k: ClaimKey, b: Ballot)
    returns (info: PromiseInfo)
    requires Open(s, w, k, b.round) && WellFormed(k) && b.coordinator != "" && PrepareReq(k, b) in s.net
    ensures Enabled(cfg, s, VoterPrepares(w, k, b))
    ensures var t := After(s, VoterPrepares(w, k, b));
            && t.procs == s.procs && t.net == s.net + {PromiseMsg(w, k, b, info)}
            && t.voters == s.voters[w := s.voters[w][k := RowAt(s.voters[w], k).(promised := b)]]
            && info.state == t.voters[w][k]
    ensures Untouched(s.voters[w], k) ==> !Carries(info.state) && !CarriesLegacy(info)
  {
    ClosedIsSealed(s.voters[w], k);
    var reply := ClaimPrepare(s.voters[w], k, b).1;
    assert reply.Promise?;
    info := PromiseInfo(reply.state, reply.legacy);
  }

  lemma {:induction false} PreparesAll(cfg: Config, s: System, base: seq<System>, run0: seq<System>, k: ClaimKey,
                                       b: Ballot, q: set<string>)
    returns (run: seq<System>, ps: map<string, PromiseInfo>)
    requires Run(cfg, run0) && base <= run0 && run0[|run0| - 1] == s && PrepareReq(k, b) in s.net
    requires WellFormed(k) && b.coordinator != ""
    requires forall w :: w in q ==> Open(s, w, k, b.round)
    ensures Run(cfg, run) && base <= run && Preparing(s, run[|run| - 1], k, b, {}, ps) && ps.Keys == q
  {
    run, ps := run0, map[];
    var todo := q;
    while todo != {}
      invariant Run(cfg, run) && base <= run && todo <= q && ps.Keys == q - todo
      invariant Preparing(s, run[|run| - 1], k, b, todo, ps)
    {
      var w :| w in todo;
      var t := run[|run| - 1];
      assert t.voters[w] == s.voters[w];
      var info := VoterPromises(cfg, t, w, k, b);
      var u := After(t, VoterPrepares(w, k, b));
      run := Take(cfg, base, run, VoterPrepares(w, k, b));
      PreparingMore(s, t, u, k, b, todo, ps, w, info);
      ps, todo := ps[w := info], todo - {w};
    }
  }

  lemma {:induction false} PreparingMore(s: System, t: System, u: System, k: ClaimKey, b: Ballot, todo: set<string>,
                                         ps: map<string, PromiseInfo>, w: string, info: PromiseInfo)
    requires Preparing(s, t, k, b, todo, ps) && w in todo && w in s.voters
    requires u.procs == t.procs && u.voters == t.voters[w := t.voters[w][k := RowAt(t.voters[w], k).(promised := b)]]
    requires info.state == u.voters[w][k] && u.net == t.net + {PromiseMsg(w, k, b, info)}
    requires Untouched(t.voters[w], k) ==> !Carries(info.state) && !CarriesLegacy(info)
    ensures Preparing(s, u, k, b, todo - {w}, ps[w := info])
  {
    assert t.voters[w] == s.voters[w];
    forall v | v in ps ensures Answered(s, u, v, k, b, ps[v]) { assert Answered(s, t, v, k, b, ps[v]); }
  }

  // ---- the value ----

  lemma {:induction false} HighestExists(ps: map<string, PromiseInfo>)
    requires exists u :: u in ps && Carries(ps[u].state)
    ensures exists w :: Highest(ps, w)
  {
    BallotOrder();
    var best :| best in ps && Carries(ps[best].state);
    var todo := ps.Keys;
    while todo != {}
      invariant todo <= ps.Keys && best in ps && Carries(ps[best].state)
      invariant forall w :: w in ps && w !in todo && Carries(ps[w].state) ==>
                  !Below(ps[best].state.accepted, ps[w].state.accepted)
    {
      var u :| u in todo;
      todo := todo - {u};
      if Carries(ps[u].state) && Below(ps[best].state.accepted, ps[u].state.accepted) { best := u; }
    }
    assert Highest(ps, best);
  }

  /** Whatever the promises report, there is a value to send; the proposer's own unless a
      promise carries one. */
  lemma {:induction false} ValueToSend(cfg: Config, s: System, k: ClaimKey, b: Ballot, ps: map<string, PromiseInfo>,
                                       own: ClaimValue)
    returns (v: ClaimValue)
    requires PromisesInv(s) && DigestOf(own).Some?
    requires forall w :: w in ps ==> PromiseMsg(w, k, b, ps[w]) in s.net
    ensures MayPropose(cfg, k, ps, v) && DigestOf(v).Some?
    ensures (forall w :: w in ps ==> !Carries(ps[w].state) && !CarriesLegacy(ps[w])) ==> v == own
  {
    if exists u :: u in ps && Carries(ps[u].state) {
      HighestExists(ps);
      var w :| Highest(ps, w);
      assert PromiseInv(s, w, k, b, ps[w]);
      v := ps[w].state.value.value;
    } else if k.IsScoped() && exists u :: u in ps && CarriesLegacy(ps[u]) {
      HighestLegacyExists(ps);
      var w :| HighestLegacy(ps, w);
      assert PromiseInv(s, w, k, b, ps[w]);
      v := ps[w].legacy.value.value.value;
    } else {
      v := own;
    }
  }

  // ---- phase 2 ----

  /** A voter that has promised nothing above b and accepted nothing at it accepts. */
  lemma {:induction false} VoterAcceptsValue(cfg: Config, s: System, w: string, k: ClaimKey, b: Ballot, v: ClaimValue)
    requires w in s.voters && !Closed(s.voters[w], k) && WellFormed(k) && b.round > 0 && b.coordinator != ""
    requires DigestOf(v).Some? && AcceptReq(k, b, v) in s.net
    requires var row := RowAt(s.voters[w], k);
             (row.promised == b || row.promised.round < b.round) && row.accepted.round < b.round
    ensures Enabled(cfg, s, VoterAccepts(w, k, b, v, true))
    ensures var t := After(s, VoterAccepts(w, k, b, v, true));
            && t.voters.Keys == s.voters.Keys && (forall u :: u in s.voters && u != w ==> t.voters[u] == s.voters[u])
            && t.net == s.net + {AcceptMsg(w, k, b, DigestOf(v).value)}
  {
    ClosedIsSealed(s.voters[w], k);
    BallotsTotal(b, b);
  }

  lemma {:induction false} AcceptsAll(cfg: Config, base: seq<System>, run0: seq<System>, k: ClaimKey, b: Ballot,
                                      v: ClaimValue, q: set<string>)
    returns (run: seq<System>)
    requires Run(cfg, run0) && base <= run0 && WellFormed(k) && b.round > 0 && b.coordinator != "" && DigestOf(v).Some?
    requires AcceptReq(k, b, v) in run0[|run0| - 1].net
    requires forall w :: w in q ==> Accepting(run0[|run0| - 1], w, k, b)
    ensures Run(cfg, run) && base <= run && AllVoted(run[|run| - 1], q, k, b, DigestOf(v).value)
  {
    run := run0;
    var s, todo := run0[|run0| - 1], q;
    while todo != {}
      invariant Run(cfg, run) && base <= run && todo <= q && AcceptReq(k, b, v) in run[|run| - 1].net
      invariant forall w :: w in todo ==> w in run[|run| - 1].voters && run[|run| - 1].voters[w] == s.voters[w]
      invariant AllVoted(run[|run| - 1], q - todo, k, b, DigestOf(v).value)
    {
      var w :| w in todo;
      var t := run[|run| - 1];
      assert Accepting(s, w, k, b);
      VoterAcceptsValue(cfg, t, w, k, b, v);
      run := Take(cfg, base, run, VoterAccepts(w, k, b, v, true));
      todo := todo - {w};
    }
    assert q - todo == q;
  }

  ghost predicate Accepting(s: System, w: string, k: ClaimKey, b: Ballot) {
    && w in s.voters && !Closed(s.voters[w], k)
    && var row := RowAt(s.voters[w], k);
       (row.promised == b || row.promised.round < b.round) && row.accepted.round < b.round
  }

  /** A voter is still ready to accept after phase 1, whether it was asked or not. */
  lemma {:induction false} StillAccepting(s: System, t: System, k: ClaimKey, b: Ballot, ps: map<string, PromiseInfo>,
                                          w: string)
    requires Preparing(s, t, k, b, {}, ps) && RowsInv(s) && Open(s, w, k, b.round)
    ensures Accepting(t, w, k, b)
  {
    assert RowInv(s, w, k);
    if w in ps { assert Answered(s, t, w, k, b, ps[w]); }
  }

  /** A process that holds a free ballot and a quorum of promises sends a value. */
  lemma {:induction false} Sends(cfg: Config, base: seq<System>, run0: seq<System>, p: ProcId, k: ClaimKey, b: Ballot,
                                 n: nat, ps: map<string, PromiseInfo>, own: ClaimValue)
    returns (run: seq<System>, v: ClaimValue)
    requires Run(cfg, run0) && base <= run0 && Initial(run0[0]) && ps.Keys in cfg.prepare && DigestOf(own).Some?
    requires var t := run0[|run0| - 1];
             && p in t.procs && b == BallotOf(p, b.round) && Holds(t.procs[p], n, k, b.round)
             && b.round !in BoundAt(t.procs[p], k) && forall w :: w in ps ==> PromiseMsg(w, k, b, ps[w]) in t.net
    ensures Run(cfg, run) && base <= run && DigestOf(v).Some? && AcceptReq(k, b, v) in run[|run| - 1].net
    ensures run[|run| - 1].voters == run0[|run0| - 1].voters
    ensures (forall w :: w in ps ==> !Carries(ps[w].state) && !CarriesLegacy(ps[w])) ==> v == own
  {
    InvAfter(cfg, run0);
    v := ValueToSend(cfg, run0[|run0| - 1], k, b, ps, own);
    run := Take(cfg, base, run0, Proposes(p, n, k, b, v, ps));
  }

  /** It gets the ballot by allocating it. */
  lemma {:induction false} Opens(cfg: Config, base: seq<System>, run0: seq<System>, p: ProcId, k: ClaimKey, r: Round)
    returns (run: seq<System>)
    requires Run(cfg, run0) && base <= run0 && Initial(run0[0]) && Free(run0[|run0| - 1], p, k, r) && r > 0
    ensures Run(cfg, run) && base <= run
    ensures var s := run[|run| - 1];
            && s.voters == run0[|run0| - 1].voters && p in s.procs && s.procs[p].allocations != []
            && Holds(s.procs[p], |s.procs[p].allocations| - 1, k, r) && r !in BoundAt(s.procs[p], k)
            && PrepareReq(k, Ballot(r, p.self, p.nonce)) in s.net
  {
    run := Take(cfg, base, run0, Allocates(p, k, r, false));
  }

  /** NO DEAD END. After every run, if a process has a free round above what the voters of a
      prepare and an accept quorum have promised, and they do not hold the key closed, the run
      can go on to a decision at that round. If the promises carry no value it is the
      process's own. */
  lemma {:induction false} CanDecide(cfg: Config, run0: seq<System>, p: ProcId, k: ClaimKey, r: Round, own: ClaimValue,
                                     q: set<string>, a: set<string>)
    returns (run: seq<System>, d: Digest)
    requires Run(cfg, run0) && Initial(run0[0]) && q in cfg.prepare && a in cfg.accept
    requires WellFormed(k) && Digestible(own)
    requires Free(run0[|run0| - 1], p, k, r) && r > 0
    requires forall w :: w in q ==> Open(run0[|run0| - 1], w, k, r)
    requires forall w :: w in a ==> Open(run0[|run0| - 1], w, k, r)
    ensures Run(cfg, run) && run0 <= run && Chosen(cfg, run[|run| - 1], k, Ballot(r, p.self, p.nonce), d)
    ensures (forall w :: w in q ==> w in run0[|run0| - 1].voters && Untouched(run0[|run0| - 1].voters[w], k)) ==>
              DigestOf(own) == Some(d)
  {
    var b := Ballot(r, p.self, p.nonce);
    DigestLaw(own, own);
    run := Opens(cfg, run0, run0, p, k, r);
    var s := run[|run| - 1];
    InvAfter(cfg, run);
    forall w | Open(run0[|run0| - 1], w, k, r) ensures Open(s, w, k, r) {}
    var ps, v;
    run, ps := PreparesAll(cfg, s, run0, run, k, b, q);
    var t := run[|run| - 1];
    forall w | w in ps ensures PromiseMsg(w, k, b, ps[w]) in t.net { assert Answered(s, t, w, k, b, ps[w]); }
    run, v := Sends(cfg, run0, run, p, k, b, |s.procs[p].allocations| - 1, ps, own);
    d := DigestOf(v).value;
    forall w | w in a ensures Accepting(run[|run| - 1], w, k, b) { StillAccepting(s, t, k, b, ps, w); }
    run := AcceptsAll(cfg, run0, run, k, b, v, a);
  }

  /** The voter has accepted nothing, at the key or at its legacy form. */
  ghost predicate Untouched(rows: Rows, k: ClaimKey) {
    forall j :: j in rows && (j == k || LegacyFormOf(j, k)) ==> rows[j].accepted == ZERO_BALLOT
  }

  lemma {:induction false} InvAfter(cfg: Config, run: seq<System>)
    requires Run(cfg, run) && Initial(run[0])
    ensures Inv(cfg, run[|run| - 1])
  {
    InitialInv(cfg, run[0]);
    RunKeepsInv(cfg, run, 0, |run| - 1);
  }
}
