/** The invariant every step of the claim protocol keeps, and what it gives:
    agreement at a key, one value per ballot, and the bridge from a legacy key
    to its incarnation-scoped form. */
module ClaimAgreement {
  import opened Options
  import opened ClaimTypes
  import opened ClaimVoter
  import opened ClaimSystem

  // ---- the invariant ----

  /** A voter's row for k is exactly its highest vote there, and every vote is at
      or below its promise. */
  ghost predicate RowInv(s: System, w: string, k: ClaimKey) {
    w in s.voters ==>
      var row := RowAt(s.voters[w], k);
      && !Below(row.promised, row.accepted)
      && (row.accepted.IsZero() ==> forall b :: !Voted(s, w, k, b))
      && (!row.accepted.IsZero() ==>
            && AcceptMsg(w, k, row.accepted, row.digest) in s.net
            && row.value.Some? && DigestOf(row.value.value) == Some(row.digest)
            && forall b :: Voted(s, w, k, b) ==> !Below(row.accepted, b))
  }

  ghost predicate RowsInv(s: System) {
    forall w, k :: RowInv(s, w, k)
  }

  /** Every vote is for what the ballot's owner bound to it. */
  ghost predicate VotesInv(s: System) {
    forall w, k, b, d :: AcceptMsg(w, k, b, d) in s.net ==>
                           w in s.voters && ProposerBallot(b) && Proposal(s, k, b, d)
  }

  ghost predicate RequestsInv(s: System) {
    forall k, b, v :: AcceptReq(k, b, v) in s.net ==> DigestOf(v).Some? && Proposal(s, k, b, DigestOf(v).value)
  }

  /** Row r reports w's votes at k below b: all of them up to r's accepted ballot,
      and none between that and b. */
  ghost predicate Reported(s: System, w: string, k: ClaimKey, r: Row, b: Ballot) {
    && (Carries(r) ==>
          DigestOf(r.value.value).Some? && AcceptMsg(w, k, r.accepted, DigestOf(r.value.value).value) in s.net)
    && forall c :: Voted(s, w, k, c) && Below(c, b) ==> Carries(r) && !Below(r.accepted, c)
  }

  /** What a promise said, and keeps true. */
  ghost predicate PromiseInv(s: System, w: string, k: ClaimKey, b: Ballot, info: PromiseInfo) {
    && PromisedTo(s, w, k, b)
    && Reported(s, w, k, info.state, b)
    && (k.IsScoped() ==> Sealed(s.voters[w], k.Legacy()) && LegacyReported(s, w, k.Legacy(), info))
  }

  ghost predicate LegacyReported(s: System, w: string, k: ClaimKey, info: PromiseInfo) {
    && (CarriesLegacy(info) ==>
          var r := info.legacy.value;
          DigestOf(r.value.value).Some? && AcceptMsg(w, k, r.accepted, DigestOf(r.value.value).value) in s.net)
    && forall c :: Voted(s, w, k, c) ==> CarriesLegacy(info) && !Below(info.legacy.value.accepted, c)
  }

  ghost predicate PromisesInv(s: System) {
    forall w, k, b, info :: PromiseMsg(w, k, b, info) in s.net ==> PromiseInv(s, w, k, b, info)
  }

  ghost predicate AllPromised(s: System, q: set<string>, k: ClaimKey, b: Ballot) {
    forall w :: w in q ==> PromisedTo(s, w, k, b)
  }

  ghost predicate Backed(cfg: Config, s: System, k: ClaimKey, b: Ballot) {
    exists q :: q in cfg.prepare && AllPromised(s, q, k, b)
  }

  ghost predicate BackedInv(cfg: Config, s: System) {
    forall k, b, d :: Proposal(s, k, b, d) ==> Backed(cfg, s, k, b)
  }

  /** A proposal above another with a different value rules the lower one out. */
  ghost predicate OrderInv(cfg: Config, s: System) {
    forall k, b, d, c, e :: Proposal(s, k, b, d) && Proposal(s, k, c, e) && Below(c, b) && d != e ==>
                              NeverChosen(cfg, s, k, c)
  }

  /** A scoped proposal rules out every legacy one it does not carry and had to. */
  ghost predicate BridgeInv(cfg: Config, s: System) {
    forall k: ClaimKey, b, d, c, e ::
      (k.IsScoped() && Proposal(s, k, b, d) && Proposal(s, k.Legacy(), c, e) && e in cfg.mustAdopt && d != e) ==>
        NeverChosen(cfg, s, k.Legacy(), c)
  }

  ghost predicate Inv(cfg: Config, s: System) {
    && RowsInv(s) && VotesInv(s) && RequestsInv(s) && PromisesInv(s)
    && BackedInv(cfg, s) && OrderInv(cfg, s) && BridgeInv(cfg, s)
  }

  // ---- what no step takes back ----

  /** t keeps every promise, seal, proposal and message of s. */
  ghost predicate Later(s: System, t: System) {
    && s.net <= t.net
    && s.voters.Keys == t.voters.Keys
    && (forall w, k :: w in s.voters && k in s.voters[w] ==>
          k in t.voters[w] && !Below(t.voters[w][k].promised, s.voters[w][k].promised))
    && (forall k, b, d :: Proposal(s, k, b, d) ==> Proposal(t, k, b, d))
  }

  lemma {:induction false} SealedLater(s: System, t: System, w: string, k: ClaimKey)
    requires Later(s, t) && w in s.voters && Sealed(s.voters[w], k)
    ensures Sealed(t.voters[w], k)
  {
    var j :| j in s.voters[w] && j.incarnation != "" && j.Legacy() == k;
    assert j in t.voters[w];
  }

  lemma {:induction false} PromisedLater(s: System, t: System, w: string, k: ClaimKey, b: Ballot)
    requires Later(s, t) && PromisedTo(s, w, k, b)
    ensures PromisedTo(t, w, k, b)
  {
    BallotOrder();
  }

  /** A vote cast in this step is not at a ballot its voter was blocked from. */
  lemma {:induction false} BlockedLater(s: System, t: System, w: string, k: ClaimKey, b: Ballot)
    requires Later(s, t) && Blocked(s, w, k, b) && !Voted(t, w, k, b)
    ensures Blocked(t, w, k, b)
  {
    BallotOrder();
    if Sealed(s.voters[w], k) { SealedLater(s, t, w, k); }
  }

  lemma {:induction false} NeverBelowItself()
    ensures forall b :: !Below(b, b)
  {
    forall b ensures !Below(b, b) { BallotsTotal(b, b); }
  }

  /** A voter's row moves on to a ballot no lower than its promise. */
  lemma {:induction false} RowLater(s: System, t: System, w: string, key: ClaimKey, row: Row)
    requires w in s.voters && s.net <= t.net && t.procs == s.procs
    requires t.voters == s.voters[w := s.voters[w][key := row]] || t.voters == s.voters
    requires !Below(row.promised, RowAt(s.voters[w], key).promised)
    ensures Later(s, t)
  {
    NeverBelowItself();
  }

  lemma {:induction false} VoterLater(cfg: Config, s: System, l: Label)
    requires (l.VoterPrepares? || l.VoterAccepts?) && Enabled(cfg, s, l)
    ensures Later(s, After(s, l))
  {
    var t := After(s, l);
    BallotsTotal(RowAt(s.voters[l.w], l.key).promised, l.b);
    var row := RowAt(t.voters[l.w], l.key);
    if row == RowAt(s.voters[l.w], l.key) { NeverBelowItself(); }
    RowLater(s, t, l.w, l.key, row);
  }

  lemma {:induction false} BinderLater(cfg: Config, s: System, l: Label)
    requires l.Proposes? && Enabled(cfg, s, l)
    ensures Later(s, After(s, l))
  {
    NeverBelowItself();
    var t := After(s, l);
    forall k, b, d | Proposal(s, k, b, d) ensures Proposal(t, k, b, d) {
      assert ProcId(b.coordinator, b.nonce) in t.procs;
    }
  }

  lemma {:induction false} StepLater(cfg: Config, s: System, l: Label)
    requires Enabled(cfg, s, l)
    ensures Later(s, After(s, l))
  {
    if l.Proposes? {
      BinderLater(cfg, s, l);
    } else if l.VoterPrepares? || l.VoterAccepts? {
      VoterLater(cfg, s, l);
    } else {
      NeverBelowItself();
    }
  }

  /** No voter blocked in s has voted where it was blocked. */
  ghost predicate Respected(s: System, t: System) {
    forall w, k, b :: Blocked(s, w, k, b) ==> !Voted(t, w, k, b)
  }

  lemma {:induction false} NeverChosenLater(cfg: Config, s: System, t: System, k: ClaimKey, b: Ballot)
    requires Later(s, t) && Respected(s, t) && NeverChosen(cfg, s, k, b)
    ensures NeverChosen(cfg, t, k, b)
  {
    var q :| q in cfg.prepare && AllBlocked(s, q, k, b);
    forall w | w in q ensures Blocked(t, w, k, b) { BlockedLater(s, t, w, k, b); }
    assert AllBlocked(t, q, k, b);
  }

  lemma {:induction false} BackedLater(cfg: Config, s: System, t: System, k: ClaimKey, b: Ballot)
    requires Later(s, t) && Backed(cfg, s, k, b)
    ensures Backed(cfg, t, k, b)
  {
    var q :| q in cfg.prepare && AllPromised(s, q, k, b);
    forall w | w in q ensures PromisedTo(t, w, k, b) { PromisedLater(s, t, w, k, b); }
    assert AllPromised(t, q, k, b);
  }

  ghost predicate ProposalsInv(cfg: Config, s: System) {
    BackedInv(cfg, s) && OrderInv(cfg, s) && BridgeInv(cfg, s)
  }

  ghost predicate SameProposals(s: System, t: System) {
    forall k, b, d :: Proposal(t, k, b, d) ==> Proposal(s, k, b, d)
  }

  /** A step that proposes nothing keeps what the proposals rule out. */
  lemma {:induction false} ProposalsKept(cfg: Config, s: System, t: System)
    requires ProposalsInv(cfg, s) && Later(s, t) && Respected(s, t) && SameProposals(s, t)
    ensures ProposalsInv(cfg, t)
  {
    forall k, b, d | Proposal(t, k, b, d) ensures Backed(cfg, t, k, b) { BackedLater(cfg, s, t, k, b); }
    forall k, b | NeverChosen(cfg, s, k, b) ensures NeverChosen(cfg, t, k, b) { NeverChosenLater(cfg, s, t, k, b); }
  }

  ghost predicate SameVotes(s: System, t: System) {
    forall w, k, b, d :: AcceptMsg(w, k, b, d) in t.net ==> AcceptMsg(w, k, b, d) in s.net
  }

  lemma {:induction false} VotedSame(s: System, t: System)
    requires Later(s, t) && SameVotes(s, t)
    ensures forall w, k, b :: Voted(t, w, k, b) ==> Voted(s, w, k, b)
    ensures Respected(s, t)
  {
  }

  /** A promise stays true while its voter casts no vote. */
  lemma {:induction false} PromiseKept(s: System, t: System, w: string, k: ClaimKey, b: Ballot, info: PromiseInfo)
    requires Later(s, t) && SameVotes(s, t) && PromiseInv(s, w, k, b, info)
    ensures PromiseInv(t, w, k, b, info)
  {
    VotedSame(s, t);
    PromisedLater(s, t, w, k, b);
    if k.IsScoped() { SealedLater(s, t, w, k.Legacy()); }
  }

  // ---- steps that cast no vote and propose nothing ----

  /** Starting a process or allocating a round. */
  lemma {:induction false} QuietStep(cfg: Config, s: System, l: Label)
    requires Inv(cfg, s) && Enabled(cfg, s, l) && (l.Starts? || l.Allocates?)
    ensures Inv(cfg, After(s, l))
  {
    var t := After(s, l);
    StepLater(cfg, s, l);
    assert SameVotes(s, t) && SameProposals(s, t);
    VotedSame(s, t);
    ProposalsKept(cfg, s, t);
    forall w, k ensures RowInv(t, w, k) { assert RowInv(s, w, k); }
    forall w, k, b, info | PromiseMsg(w, k, b, info) in t.net ensures PromiseInv(t, w, k, b, info) {
      assert PromiseMsg(w, k, b, info) in s.net;
      PromiseKept(s, t, w, k, b, info);
    }
  }

  // ---- a voter promises ----

  lemma {:induction false} PreparedRow(cfg: Config, s: System, l: Label)
    requires l.VoterPrepares? && Enabled(cfg, s, l) && RowInv(s, l.w, l.key)
    ensures RowInv(After(s, l), l.w, l.key)
  {
    var t := After(s, l);
    var row := RowAt(s.voters[l.w], l.key);
    assert forall b :: Voted(t, l.w, l.key, b) <==> Voted(s, l.w, l.key, b);
    BallotsTotal(row.promised, l.b);
    BallotsTotal(row.promised, row.accepted);
    BallotsTotal(l.b, row.accepted);
    if Below(l.b, row.accepted) && row.promised != l.b { BelowTransitive(row.promised, l.b, row.accepted); }
  }

  lemma {:induction false} PreparedRows(cfg: Config, s: System, l: Label)
    requires RowsInv(s) && Enabled(cfg, s, l) && l.VoterPrepares?
    ensures RowsInv(After(s, l))
  {
    var t := After(s, l);
    PreparedRow(cfg, s, l);
    forall w, k ensures RowInv(t, w, k) {
      assert RowInv(s, w, k);
      if (w, k) != (l.w, l.key) { assert w in s.voters ==> RowAt(t.voters[w], k) == RowAt(s.voters[w], k); }
      assert forall b :: Voted(t, w, k, b) <==> Voted(s, w, k, b);
    }
  }

  /** The promise just made reports everything its voter voted for. */
  lemma {:induction false} PromiseMade(cfg: Config, s: System, l: Label)
    requires RowsInv(s) && Enabled(cfg, s, l) && l.VoterPrepares?
    ensures var reply := ClaimPrepare(s.voters[l.w], l.key, l.b).1;
            PromiseInv(After(s, l), l.w, l.key, l.b, PromiseInfo(reply.state, reply.legacy))
  {
    var t := After(s, l);
    BallotsTotal(l.b, l.b);
    assert RowInv(s, l.w, l.key) && RowInv(s, l.w, l.key.Legacy());
    assert forall k, b :: Voted(t, l.w, k, b) <==> Voted(s, l.w, k, b);
    assert l.key in t.voters[l.w];
    if l.key.IsScoped() { LegacyMade(cfg, s, l); }
  }

  lemma {:induction false} LegacyMade(cfg: Config, s: System, l: Label)
    requires l.VoterPrepares? && l.key.IsScoped() && Enabled(cfg, s, l) && RowInv(s, l.w, l.key.Legacy())
    ensures var reply := ClaimPrepare(s.voters[l.w], l.key, l.b).1;
            && Sealed(After(s, l).voters[l.w], l.key.Legacy())
            && LegacyReported(After(s, l), l.w, l.key.Legacy(), PromiseInfo(reply.state, reply.legacy))
  {
    var t := After(s, l);
    assert l.key in t.voters[l.w];
    assert RowAt(t.voters[l.w], l.key.Legacy()) == RowAt(s.voters[l.w], l.key.Legacy());
    assert forall b :: Voted(t, l.w, l.key.Legacy(), b) <==> Voted(s, l.w, l.key.Legacy(), b);
  }

  lemma {:induction false} PrepareStep(cfg: Config, s: System, l: Label)
    requires Inv(cfg, s) && Enabled(cfg, s, l) && l.VoterPrepares?
    ensures Inv(cfg, After(s, l))
  {
    var t := After(s, l);
    StepLater(cfg, s, l);
    assert SameVotes(s, t) && SameProposals(s, t);
    VotedSame(s, t);
    ProposalsKept(cfg, s, t);
    PreparedRows(cfg, s, l);
    PromiseMade(cfg, s, l);
    forall w, k, b, info | PromiseMsg(w, k, b, info) in t.net ensures PromiseInv(t, w, k, b, info) {
      if PromiseMsg(w, k, b, info) in s.net { PromiseKept(s, t, w, k, b, info); }
    }
  }

  // ---- a voter accepts ----

  /** The vote is new only if it is the highest at its key and was not ruled out. */
  lemma {:induction false} VoteAllowed(cfg: Config, s: System, l: Label)
    requires Inv(cfg, s) && Enabled(cfg, s, l) && l.VoterAccepts?
    ensures Proposal(s, l.key, l.b, DigestOf(l.v).value)
    ensures !Blocked(s, l.w, l.key, l.b)
    ensures After(s, l) == s || After(s, l).net == s.net + {AcceptMsg(l.w, l.key, l.b, DigestOf(l.v).value)}
    ensures Respected(s, After(s, l))
  {
    var t := After(s, l);
    BallotOrder();
    assert RowInv(s, l.w, l.key);
    if RowAt(s.voters[l.w], l.key).accepted == l.b {
      assert t.net == s.net && t.voters == s.voters;
      assert t == s;
    }
  }

  lemma {:induction false} AcceptedRow(cfg: Config, s: System, l: Label)
    requires l.VoterAccepts? && Enabled(cfg, s, l) && RowInv(s, l.w, l.key)
    requires After(s, l).net == s.net + {AcceptMsg(l.w, l.key, l.b, DigestOf(l.v).value)}
    requires RowAt(s.voters[l.w], l.key).accepted != l.b
    ensures RowInv(After(s, l), l.w, l.key)
  {
    var t := After(s, l);
    BallotOrder();
    assert forall b :: Voted(t, l.w, l.key, b) ==> Voted(s, l.w, l.key, b) || b == l.b;
  }

  lemma {:induction false} AcceptedRows(cfg: Config, s: System, l: Label)
    requires Inv(cfg, s) && Enabled(cfg, s, l) && l.VoterAccepts? && After(s, l) != s
    ensures RowsInv(After(s, l))
  {
    var t := After(s, l);
    VoteAllowed(cfg, s, l);
    assert RowInv(s, l.w, l.key);
    AcceptedRow(cfg, s, l);
    forall w, k ensures RowInv(t, w, k) {
      assert RowInv(s, w, k);
      if (w, k) != (l.w, l.key) {
        assert forall b :: Voted(t, w, k, b) <==> Voted(s, w, k, b);
        assert w in s.voters ==> RowAt(t.voters[w], k) == RowAt(s.voters[w], k);
      }
    }
  }

  /** A promise stays true when its voter accepts: never below the promised
      ballot, and never at a sealed legacy key. */
  lemma {:induction false} PromiseOutlivesVote(cfg: Config, s: System, l: Label, w: string, k: ClaimKey, b: Ballot,
                                               info: PromiseInfo)
    requires Inv(cfg, s) && Enabled(cfg, s, l) && l.VoterAccepts? && After(s, l) != s
    requires PromiseMsg(w, k, b, info) in s.net
    ensures PromiseInv(After(s, l), w, k, b, info)
  {
    var t := After(s, l);
    StepLater(cfg, s, l);
    VoteAllowed(cfg, s, l);
    BallotOrder();
    assert PromiseInv(s, w, k, b, info);
    PromisedLater(s, t, w, k, b);
    assert forall j, c :: Voted(t, w, j, c) ==> Voted(s, w, j, c) || (w, j, c) == (l.w, l.key, l.b);
    assert (w, k) == (l.w, l.key) ==> !Below(l.b, b);
    if k.IsScoped() {
      SealedLater(s, t, w, k.Legacy());
      assert (w, k.Legacy()) != (l.w, l.key);
    }
  }

  lemma {:induction false} AcceptStep(cfg: Config, s: System, l: Label)
    requires Inv(cfg, s) && Enabled(cfg, s, l) && l.VoterAccepts?
    ensures Inv(cfg, After(s, l))
  {
    var t := After(s, l);
    VoteAllowed(cfg, s, l);
    if t != s {
      StepLater(cfg, s, l);
      assert SameProposals(s, t);
      ProposalsKept(cfg, s, t);
      AcceptedRows(cfg, s, l);
      forall w, k, b, info | PromiseMsg(w, k, b, info) in t.net ensures PromiseInv(t, w, k, b, info) {
        PromiseOutlivesVote(cfg, s, l, w, k, b, info);
      }
    }
  }

  // ---- a proposer binds a value and sends it ----

  /** l proposes a value at a ballot nothing was proposed at. */
  ghost predicate Fresh(cfg: Config, s: System, l: Label) {
    Inv(cfg, s) && l.Proposes? && Enabled(cfg, s, l) && !Proposal(s, l.key, l.b, DigestOf(l.v).value)
  }

  lemma {:induction false} OnlyNewProposal(cfg: Config, s: System, l: Label)
    requires l.Proposes? && Enabled(cfg, s, l)
    ensures var t := After(s, l); var d := DigestOf(l.v).value;
            && Proposal(t, l.key, l.b, d)
            && forall k, b, e :: Proposal(t, k, b, e) ==> Proposal(s, k, b, e) || (k, b, e) == (l.key, l.b, d)
  {
  }

  lemma {:induction false} Unvoted(cfg: Config, s: System, l: Label, w: string)
    requires Fresh(cfg, s, l)
    ensures !Voted(s, w, l.key, l.b)
  {
  }

  lemma {:induction false} PromisersKnown(cfg: Config, s: System, l: Label, w: string)
    requires Fresh(cfg, s, l) && w in l.ps
    ensures PromiseInv(s, w, l.key, l.b, l.ps[w])
  {
    assert PromiseMsg(w, l.key, l.b, l.ps[w]) in s.net;
  }

  /** A quorum with no vote between the adopted ballot and the new one rules out
      everything in between. */
  lemma {:induction false} BlockedByPromise(cfg: Config, s: System, l: Label, c: Ballot)
    requires Fresh(cfg, s, l) && Below(c, l.b)
    requires forall w :: w in l.ps && Carries(l.ps[w].state) ==> Below(l.ps[w].state.accepted, c)
    ensures NeverChosen(cfg, s, l.key, c)
  {
    BallotOrder();
    forall w | w in l.ps.Keys ensures Blocked(s, w, l.key, c) { PromisersKnown(cfg, s, l, w); }
    assert AllBlocked(s, l.ps.Keys, l.key, c);
  }

  lemma {:induction false} Adopting(cfg: Config, key: ClaimKey, ps: map<string, PromiseInfo>, v: ClaimValue, u: string)
    returns (w: string)
    requires MayPropose(cfg, key, ps, v) && u in ps && Carries(ps[u].state)
    ensures Highest(ps, w) && v == ps[w].state.value.value
  {
    w :| Highest(ps, w) && v == ps[w].state.value.value;
  }

  lemma {:induction false} AdoptingLegacy(cfg: Config, key: ClaimKey, ps: map<string, PromiseInfo>, v: ClaimValue,
                                          u: string)
    returns (w: string)
    requires MayPropose(cfg, key, ps, v) && key.IsScoped() && u in ps && CarriesLegacy(ps[u])
    requires forall x :: x in ps ==> !Carries(ps[x].state)
    ensures HighestLegacy(ps, w)
    ensures v == ps[w].legacy.value.value.value || MayRefuse(cfg, ps[w].legacy.value.value.value)
  {
    w :| HighestLegacy(ps, w) &&
         (v == ps[w].legacy.value.value.value || MayRefuse(cfg, ps[w].legacy.value.value.value));
  }

  /** An adopted value was proposed at this key before. */
  lemma {:induction false} AdoptedBefore(cfg: Config, s: System, l: Label, w: string)
    requires Fresh(cfg, s, l) && Highest(l.ps, w) && l.v == l.ps[w].state.value.value
    ensures Proposal(s, l.key, l.ps[w].state.accepted, DigestOf(l.v).value)
  {
    PromisersKnown(cfg, s, l, w);
    assert AcceptMsg(w, l.key, l.ps[w].state.accepted, DigestOf(l.v).value) in s.net;
  }

  lemma {:induction false} RulesOutLower(cfg: Config, s: System, l: Label, c: Ballot, e: Digest)
    requires Fresh(cfg, s, l) && Proposal(s, l.key, c, e) && Below(c, l.b) && e != DigestOf(l.v).value
    ensures NeverChosen(cfg, s, l.key, c)
  {
    BallotOrder();
    if u :| u in l.ps && Carries(l.ps[u].state) {
      var w := Adopting(cfg, l.key, l.ps, l.v, u);
      var a := l.ps[w].state.accepted;
      AdoptedBefore(cfg, s, l, w);
      if Below(a, c) {
        BlockedByPromise(cfg, s, l, c);
      }
    } else {
      BlockedByPromise(cfg, s, l, c);
    }
  }

  lemma {:induction false} RuledOutByHigher(cfg: Config, s: System, l: Label, b: Ballot, d: Digest)
    requires Fresh(cfg, s, l) && Proposal(s, l.key, b, d) && Below(l.b, b)
    ensures NeverChosen(cfg, s, l.key, l.b)
  {
    BallotOrder();
    var q :| q in cfg.prepare && AllPromised(s, q, l.key, b);
    forall w | w in q ensures Blocked(s, w, l.key, l.b) { Unvoted(cfg, s, l, w); }
    assert AllBlocked(s, q, l.key, l.b);
  }

  /** A quorum of scoped promises rules out every legacy ballot above what it reported. */
  lemma {:induction false} LegacyBlocked(cfg: Config, s: System, l: Label, c: Ballot)
    requires Fresh(cfg, s, l) && l.key.IsScoped()
    requires forall w :: w in l.ps && CarriesLegacy(l.ps[w]) ==> Below(l.ps[w].legacy.value.accepted, c)
    ensures NeverChosen(cfg, s, l.key.Legacy(), c)
  {
    BallotOrder();
    forall w | w in l.ps.Keys ensures Blocked(s, w, l.key.Legacy(), c) { PromisersKnown(cfg, s, l, w); }
    assert AllBlocked(s, l.ps.Keys, l.key.Legacy(), c);
  }

  /** The highest legacy report and a different legacy proposal: the two sides of
      it are ruled out by this quorum and by the legacy key's own order. */
  lemma {:induction false} RulesOutOtherLegacy(cfg: Config, s: System, l: Label, w: string, c: Ballot, e: Digest)
    requires Fresh(cfg, s, l) && l.key.IsScoped() && Proposal(s, l.key.Legacy(), c, e) && HighestLegacy(l.ps, w)
    requires DigestOf(l.ps[w].legacy.value.value.value) != Some(e)
    ensures NeverChosen(cfg, s, l.key.Legacy(), c)
  {
    BallotOrder();
    PromisersKnown(cfg, s, l, w);
    var r := l.ps[w].legacy.value;
    var d := DigestOf(r.value.value).value;
    assert AcceptMsg(w, l.key.Legacy(), r.accepted, d) in s.net;
    assert Proposal(s, l.key.Legacy(), r.accepted, d);
    if Below(r.accepted, c) {
      LegacyBlocked(cfg, s, l, c);
    } else {
      assert Below(c, r.accepted);
    }
  }

  lemma {:induction false} RulesOutLegacy(cfg: Config, s: System, l: Label, c: Ballot, e: Digest)
    requires Fresh(cfg, s, l) && l.key.IsScoped() && Proposal(s, l.key.Legacy(), c, e)
    requires e in cfg.mustAdopt && e != DigestOf(l.v).value
    ensures NeverChosen(cfg, s, l.key.Legacy(), c)
  {
    if u :| u in l.ps && Carries(l.ps[u].state) {
      var w := Adopting(cfg, l.key, l.ps, l.v, u);
      AdoptedBefore(cfg, s, l, w);
    } else if u :| u in l.ps && CarriesLegacy(l.ps[u]) {
      var w := AdoptingLegacy(cfg, l.key, l.ps, l.v, u);
      RulesOutOtherLegacy(cfg, s, l, w, c, e);
    } else {
      LegacyBlocked(cfg, s, l, c);
    }
  }

  lemma {:induction false} LegacyRuledOut(cfg: Config, s: System, l: Label, k: ClaimKey, b: Ballot, d: Digest)
    requires Fresh(cfg, s, l) && k.IsScoped() && k.Legacy() == l.key && Proposal(s, k, b, d)
    ensures NeverChosen(cfg, s, l.key, l.b)
  {
    var q :| q in cfg.prepare && AllPromised(s, q, k, b);
    forall w | w in q ensures Blocked(s, w, l.key, l.b) {
      Unvoted(cfg, s, l, w);
      assert k in s.voters[w];
    }
    assert AllBlocked(s, q, l.key, l.b);
  }

  lemma {:induction false} ProposedOrder(cfg: Config, s: System, l: Label)
    requires Fresh(cfg, s, l)
    ensures BackedInv(cfg, After(s, l)) && OrderInv(cfg, After(s, l))
  {
    var t := After(s, l);
    StepLater(cfg, s, l);
    VotedSame(s, t);
    OnlyNewProposal(cfg, s, l);
    forall k, b, d | Proposal(t, k, b, d) ensures Backed(cfg, t, k, b) {
      if Proposal(s, k, b, d) {
        BackedLater(cfg, s, t, k, b);
      } else {
        forall w | w in l.ps.Keys ensures PromisedTo(t, w, k, b) { PromisersKnown(cfg, s, l, w); }
        assert AllPromised(t, l.ps.Keys, k, b);
      }
    }
    forall k, b, d, c, e | Proposal(t, k, b, d) && Proposal(t, k, c, e) && Below(c, b) && d != e
      ensures NeverChosen(cfg, t, k, c)
    {
      if !Proposal(s, k, b, d) {
        RulesOutLower(cfg, s, l, c, e);
      } else if !Proposal(s, k, c, e) {
        RuledOutByHigher(cfg, s, l, b, d);
      }
      NeverChosenLater(cfg, s, t, k, c);
    }
  }

  lemma {:induction false} ProposedBridge(cfg: Config, s: System, l: Label)
    requires Fresh(cfg, s, l)
    ensures BridgeInv(cfg, After(s, l))
  {
    var t := After(s, l);
    StepLater(cfg, s, l);
    VotedSame(s, t);
    OnlyNewProposal(cfg, s, l);
    forall k: ClaimKey, b, d, c, e |
      k.IsScoped() && Proposal(t, k, b, d) && Proposal(t, k.Legacy(), c, e) && e in cfg.mustAdopt && d != e
      ensures NeverChosen(cfg, t, k.Legacy(), c)
    {
      if !Proposal(s, k, b, d) {
        RulesOutLegacy(cfg, s, l, c, e);
      } else if !Proposal(s, k.Legacy(), c, e) {
        LegacyRuledOut(cfg, s, l, k, b, d);
      }
      NeverChosenLater(cfg, s, t, k.Legacy(), c);
    }
  }

  lemma {:induction false} ProposeStep(cfg: Config, s: System, l: Label)
    requires Inv(cfg, s) && Enabled(cfg, s, l) && l.Proposes?
    ensures Inv(cfg, After(s, l))
  {
    var t := After(s, l);
    StepLater(cfg, s, l);
    VotedSame(s, t);
    OnlyNewProposal(cfg, s, l);
    if Fresh(cfg, s, l) {
      ProposedOrder(cfg, s, l);
      ProposedBridge(cfg, s, l);
    } else {
      ProposalsKept(cfg, s, t);
    }
    forall w, k ensures RowInv(t, w, k) { assert RowInv(s, w, k); }
    forall w, k, b, info | PromiseMsg(w, k, b, info) in t.net ensures PromiseInv(t, w, k, b, info) {
      PromiseKept(s, t, w, k, b, info);
    }
  }

  // ---- every run ----

  lemma {:induction false} StepKeepsInv(cfg: Config, s: System, t: System)
    requires Inv(cfg, s) && Step(cfg, s, t)
    ensures Inv(cfg, t) && Later(s, t)
  {
    var l :| Enabled(cfg, s, l) && t == After(s, l);
    StepLater(cfg, s, l);
    match l
    case Starts(_) => QuietStep(cfg, s, l);
    case Allocates(_, _, _, _) => QuietStep(cfg, s, l);
    case VoterPrepares(_, _, _) => PrepareStep(cfg, s, l);
    case Proposes(_, _, _, _, _, _) => ProposeStep(cfg, s, l);
    case VoterAccepts(_, _, _, _, _) => AcceptStep(cfg, s, l);
  }

  lemma {:induction false} LaterTransitive(s: System, t: System, u: System)
    requires Later(s, t) && Later(t, u)
    ensures Later(s, u)
  {
    BallotOrder();
  }

  /** Over every run the invariant holds and nothing is taken back. */
  lemma {:induction false} RunKeepsInv(cfg: Config, run: seq<System>, i: nat, j: nat)
    requires Run(cfg, run) && i <= j < |run| && Inv(cfg, run[i])
    ensures Inv(cfg, run[j]) && Later(run[i], run[j])
    decreases j
  {
    if i == j {
      NeverBelowItself();
    } else {
      RunKeepsInv(cfg, run, i, j - 1);
      assert StepAt(cfg, run, j - 1);
      StepKeepsInv(cfg, run[j - 1], run[j]);
      LaterTransitive(run[i], run[j - 1], run[j]);
    }
  }

  lemma {:induction false} InitialInv(cfg: Config, s: System)
    requires Initial(s)
    ensures Inv(cfg, s)
  {
    BallotOrder();
  }

  lemma {:induction false} RuledOutNotChosen(cfg: Config, s: System, k: ClaimKey, b: Ballot, d: Digest)
    requires Intersecting(cfg) && NeverChosen(cfg, s, k, b)
    ensures !Chosen(cfg, s, k, b, d)
  {
    if Chosen(cfg, s, k, b, d) {
      var p :| p in cfg.prepare && AllBlocked(s, p, k, b);
      var a :| a in cfg.accept && AllVoted(s, a, k, b, d);
      var w :| w in p * a;
      assert false;
    }
  }

  lemma {:induction false} ChosenProposed(cfg: Config, s: System, k: ClaimKey, b: Ballot, d: Digest)
    requires Intersecting(cfg) && Inv(cfg, s) && Chosen(cfg, s, k, b, d)
    ensures Proposal(s, k, b, d)
  {
    var a :| a in cfg.accept && AllVoted(s, a, k, b, d);
    assert a != {};
    var w :| w in a;
    assert AcceptMsg(w, k, b, d) in s.net;
  }

  /** AGREEMENT. In every run, whatever was chosen at a key at any two moments
      carries the same value digest. */
  lemma {:induction false} Agreement(cfg: Config, run: seq<System>, i: nat, j: nat, k: ClaimKey, b: Ballot, c: Ballot,
                                     d: Digest, e: Digest)
    requires Intersecting(cfg) && Run(cfg, run) && Initial(run[0])
    requires i <= j < |run| && Chosen(cfg, run[i], k, b, d) && Chosen(cfg, run[j], k, c, e)
    ensures d == e
  {
    InitialInv(cfg, run[0]);
    RunKeepsInv(cfg, run, 0, i);
    RunKeepsInv(cfg, run, i, j);
    ChosenKept(cfg, run[i], run[j], k, b, d);
    AgreementAt(cfg, run[j], k, b, c, d, e);
  }

  lemma {:induction false} ChosenKept(cfg: Config, s: System, t: System, k: ClaimKey, b: Ballot, d: Digest)
    requires Later(s, t) && Chosen(cfg, s, k, b, d)
    ensures Chosen(cfg, t, k, b, d)
  {
    var a :| a in cfg.accept && AllVoted(s, a, k, b, d);
    assert AllVoted(t, a, k, b, d);
  }

  lemma {:induction false} AgreementAt(cfg: Config, s: System, k: ClaimKey, b: Ballot, c: Ballot, d: Digest, e: Digest)
    requires Intersecting(cfg) && Inv(cfg, s)
    requires Chosen(cfg, s, k, b, d) && Chosen(cfg, s, k, c, e)
    ensures d == e
  {
    BallotOrder();
    ChosenProposed(cfg, s, k, b, d);
    ChosenProposed(cfg, s, k, c, e);
    if d != e {
      if Below(b, c) { RuledOutNotChosen(cfg, s, k, b, d); } else { RuledOutNotChosen(cfg, s, k, c, e); }
    }
  }

  /** legacy is the key the workload decision k was claimed under without its incarnation. */
  ghost predicate LegacyFormOf(legacy: ClaimKey, k: ClaimKey) {
    && (k.kind == "vm" || k.kind == "container") && k.incarnation != ""
    && legacy == ClaimKey(k.kind, k.name, k.epoch, k.attempt, "")
  }

  /** LEGACY BRIDGE. Once or whenever the legacy key decides d, and no proposer's
      AdoptLegacy refuses d, every choice at a scoped form of the key is d. */
  lemma {:induction false} LegacyBridge(cfg: Config, run: seq<System>, i: nat, j: nat, legacy: ClaimKey, k: ClaimKey,
                                        b: Ballot, c: Ballot, d: Digest, e: Digest)
    requires Intersecting(cfg) && Run(cfg, run) && Initial(run[0]) && LegacyFormOf(legacy, k)
    requires i < |run| && Chosen(cfg, run[i], legacy, b, d) && d in cfg.mustAdopt
    requires j < |run| && Chosen(cfg, run[j], k, c, e)
    ensures d == e
  {
    InitialInv(cfg, run[0]);
    var m := if i < j then j else i;
    RunKeepsInv(cfg, run, 0, i);
    RunKeepsInv(cfg, run, 0, j);
    RunKeepsInv(cfg, run, i, m);
    RunKeepsInv(cfg, run, j, m);
    ChosenKept(cfg, run[i], run[m], k.Legacy(), b, d);
    ChosenKept(cfg, run[j], run[m], k, c, e);
    LegacyBridgeAt(cfg, run[m], k, b, c, d, e);
  }

  lemma {:induction false} LegacyBridgeAt(cfg: Config, s: System, k: ClaimKey, b: Ballot, c: Ballot,
                                          d: Digest, e: Digest)
    requires Intersecting(cfg) && Inv(cfg, s) && k.IsScoped() && d in cfg.mustAdopt
    requires Chosen(cfg, s, k.Legacy(), b, d) && Chosen(cfg, s, k, c, e)
    ensures d == e
  {
    ChosenProposed(cfg, s, k.Legacy(), b, d);
    ChosenProposed(cfg, s, k, c, e);
    if d != e { RuledOutNotChosen(cfg, s, k.Legacy(), b, d); }
  }

  /** A quorum of scoped promises that report no legacy value is proof that the
      legacy key never decides, at that moment or later. */
  lemma {:induction false} NoLegacyReported(cfg: Config, run: seq<System>, i: nat, k: ClaimKey, b: Ballot,
                                            ps: map<string, PromiseInfo>, legacy: ClaimKey, c: Ballot, d: Digest)
    requires Intersecting(cfg) && Run(cfg, run) && Initial(run[0]) && LegacyFormOf(legacy, k) && i < |run|
    requires ps.Keys in cfg.prepare
    requires forall w :: w in ps ==> PromiseMsg(w, k, b, ps[w]) in run[i].net && !CarriesLegacy(ps[w])
    ensures !Chosen(cfg, run[|run| - 1], legacy, c, d)
  {
    InitialInv(cfg, run[0]);
    RunKeepsInv(cfg, run, 0, i);
    RunKeepsInv(cfg, run, i, |run| - 1);
    assert run[i].net <= run[|run| - 1].net;
    NoLegacyAt(cfg, run[|run| - 1], k, b, ps, c, d);
  }

  lemma {:induction false} NoLegacyAt(cfg: Config, s: System, k: ClaimKey, b: Ballot, ps: map<string, PromiseInfo>,
                                      c: Ballot, d: Digest)
    requires Intersecting(cfg) && PromisesInv(s) && k.IsScoped() && ps.Keys in cfg.prepare
    requires forall w :: w in ps ==> PromiseMsg(w, k, b, ps[w]) in s.net && !CarriesLegacy(ps[w])
    ensures !Chosen(cfg, s, k.Legacy(), c, d)
  {
    forall w | w in ps.Keys ensures Blocked(s, w, k.Legacy(), c) {
      assert PromiseInv(s, w, k, b, ps[w]);
    }
    assert AllBlocked(s, ps.Keys, k.Legacy(), c);
    RuledOutNotChosen(cfg, s, k.Legacy(), c, d);
  }

  /** ONE BALLOT, ONE VALUE. No two phase-2 requests ever sent at one ballot of
      one key carry different digests. */
  lemma {:induction false} OneBallotOneValue(cfg: Config, run: seq<System>, k: ClaimKey, b: Ballot, v: ClaimValue,
                                             u: ClaimValue)
    requires Run(cfg, run) && Initial(run[0])
    requires AcceptReq(k, b, v) in run[|run| - 1].net && AcceptReq(k, b, u) in run[|run| - 1].net
    ensures DigestOf(v).Some? && DigestOf(v) == DigestOf(u)
  {
    InitialInv(cfg, run[0]);
    RunKeepsInv(cfg, run, 0, |run| - 1);
  }
}
