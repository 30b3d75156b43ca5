/** What a certificate is worth to whoever checks it offline, which quorums the
    server uses, and the exact limits of the round allocator and of retrying. */
module ClaimCertificate {
  import opened Options
  import opened Orders
  import opened ClaimTypes
  import opened ClaimVoter
  import opened ClaimSystem
  import opened ClaimAgreement
  import opened ClaimRuns
  import opened ClaimSpec
  import opened ClaimProposer

  // ---- quorums of one voter generation ----

  function MajorityOf(n: nat): nat { n / 2 + 1 }

  /** One generation: every majority of its members is a quorum. */
  ghost function MajorityConfig(generation: int, members: map<string, string>, mustAdopt: iset<Digest>): Config {
    var majorities := iset q: set<string> | q <= members.Keys && |q| >= MajorityOf(|members.Keys|);
    Config(generation, members, majorities, majorities, mustAdopt)
  }

  lemma {:induction false} UnionSize(p: set<string>, a: set<string>, members: set<string>)
    requires p <= members && a <= members && p * a == {}
    ensures |p| + |a| <= |members|
  {
    assert |p + a| == |p| + |a|;
    SubsetSize(p + a, members);
  }

  /** Any two majorities of one member list share a voter. */
  lemma {:induction false} MajoritiesIntersect(generation: int, members: map<string, string>, mustAdopt: iset<Digest>)
    ensures Intersecting(MajorityConfig(generation, members, mustAdopt))
  {
    var cfg := MajorityConfig(generation, members, mustAdopt);
    forall p, a | p in cfg.prepare && a in cfg.accept ensures p * a != {} {
      if p * a == {} { UnionSize(p, a, members.Keys); }
    }
  }

  lemma {:induction false} TargetsSize(names: seq<string>)
    ensures |Targets(names)| <= |names|
  {
    if names != [] {
      var n := |names| - 1;
      TargetsSize(names[..n]);
      assert names == names[..n] + [names[n]];
      assert Targets(names) == Targets(names[..n]) + Targets([names[n]]);
      SubsetSize(Targets([names[n]]), {names[n]});
    }
  }

  /** DecideRecoveryClaim's spec counts majorities of the generation. */
  lemma {:induction false} WorkloadSpecFits(spec: Spec, names: seq<string>, generation: int,
                                            members: map<string, string>, mustAdopt: iset<Digest>)
    requires Targets(names) == members.Keys && spec.key.IsWorkload()
    requires spec.voters == names && spec.prepareQuorum == |names| / 2 + 1
    requires spec.electorate.Some? && forall v :: spec.electorate.value(v) == (names, |names| / 2 + 1)
    requires forall v :: spec.key.IsScoped() && DigestOf(v).Some? && DigestOf(v).value in mustAdopt ==>
               spec.adoptLegacy.Some? && spec.adoptLegacy.value(v)
    ensures Fits(spec, MajorityConfig(generation, members, mustAdopt))
  {
    TargetsSize(names);
  }

  // ---- verifying a certificate offline ----

  /** What a certificate must decide, and the members, by incarnation, whose accepts count. */
  datatype Expectation = Expectation(
    key: ClaimKey, valueDigest: Digest, generation: int, electorate: map<string, string>, quorum: int)

  /** verifyAccept: a member of the electorate, as the incarnation it lists, signed the
      certificate's key, generation, ballot and digest. */
  predicate AcceptVerifies(cfg: Config, net: set<Msg>, cert: Certificate, want: Expectation, a: ClaimAccept) {
    && a.voter in want.electorate && a.incarnation == want.electorate[a.voter]
    && IsFor(a, cert.key, cert.generation, cert.ballot, cert.valueDigest)
    && Signed(cfg, net, a)
  }

  function Counted(cfg: Config, net: set<Msg>, cert: Certificate, want: Expectation): set<string> {
    set a | a in cert.accepts && AcceptVerifies(cfg, net, cert, want, a) :: a.voter
  }

  predicate Verifies(cfg: Config, net: set<Msg>, cert: Certificate, want: Expectation) {
    && cert.key == want.key && cert.valueDigest == want.valueDigest && cert.generation == want.generation
    && want.quorum >= 1 && |Counted(cfg, net, cert, want)| >= want.quorum
  }

  /** Verify counts distinct electorate members. */
  method Verify(cfg: Config, net: set<Msg>, cert: Certificate, want: Expectation) returns (ok: bool)
    ensures ok <==> Verifies(cfg, net, cert, want)
  {
    if cert.key != want.key || cert.valueDigest != want.valueDigest { return false; }
    if cert.generation != want.generation || want.quorum < 1 { return false; }
    var counted: set<string> := {};
    for i := 0 to |cert.accepts|
      invariant counted == set a | a in cert.accepts[..i] && AcceptVerifies(cfg, net, cert, want, a) :: a.voter
    {
      assert cert.accepts[..i + 1] == cert.accepts[..i] + [cert.accepts[i]];
      if AcceptVerifies(cfg, net, cert, want, cert.accepts[i]) {
        counted := counted + {cert.accepts[i].voter};
      }
    }
    assert cert.accepts[..|cert.accepts|] == cert.accepts;
    return |counted| >= want.quorum;
  }

  /** The certificate holds what this member, as the incarnation expected, signed and sent for
      the key, generation and digest expected, at the certificate's ballot. */
  ghost predicate Vouched(cfg: Config, net: set<Msg>, cert: Certificate, want: Expectation, w: string) {
    && w in want.electorate && w in cfg.members && cfg.members[w] == want.electorate[w]
    && want.generation == cfg.generation
    && ClaimSpec.ClaimAccept.ClaimAccept(
         w, want.electorate[w], want.generation, want.key, cert.ballot, want.valueDigest) in cert.accepts
    && AcceptMsg(w, want.key, cert.ballot, want.valueDigest) in net
  }

  ghost predicate AllVouched(cfg: Config, net: set<Msg>, cert: Certificate, want: Expectation, q: set<string>) {
    forall w :: w in q ==> Vouched(cfg, net, cert, want, w)
  }

  /** A certificate verifies exactly when it is for what is expected and enough members of the
      electorate vouch for it. */
  lemma {:induction false} VerifiesMeaning(cfg: Config, net: set<Msg>, cert: Certificate, want: Expectation)
    ensures Verifies(cfg, net, cert, want) <==>
            && cert.key == want.key && cert.valueDigest == want.valueDigest && cert.generation == want.generation
            && want.quorum >= 1 && exists q :: |q| >= want.quorum && AllVouched(cfg, net, cert, want, q)
  {
    var counted := Counted(cfg, net, cert, want);
    if Verifies(cfg, net, cert, want) { assert AllVouched(cfg, net, cert, want, counted); }
    if cert.key == want.key && cert.valueDigest == want.valueDigest && cert.generation == want.generation {
      forall q | AllVouched(cfg, net, cert, want, q) ensures |q| <= |counted| {
        forall w | w in q ensures w in counted { VouchedCounts(cfg, net, cert, want, w); }
        SubsetSize(q, counted);
      }
    }
  }

  lemma {:induction false} VouchedCounts(cfg: Config, net: set<Msg>, cert: Certificate, want: Expectation, w: string)
    requires Vouched(cfg, net, cert, want, w)
    requires cert.key == want.key && cert.valueDigest == want.valueDigest && cert.generation == want.generation
    ensures w in Counted(cfg, net, cert, want)
  {
    var a := ClaimSpec.ClaimAccept.ClaimAccept(
      w, want.electorate[w], want.generation, want.key, cert.ballot, want.valueDigest);
    assert a in cert.accepts && AcceptVerifies(cfg, net, cert, want, a);
  }

  /** A certificate anybody can verify names a value that was chosen. */
  lemma {:induction false} VerifiedIsChosen(cfg: Config, s: System, cert: Certificate, want: Expectation)
    requires Verifies(cfg, s.net, cert, want)
    requires forall q :: q <= want.electorate.Keys && |q| >= want.quorum ==> q in cfg.accept
    ensures Chosen(cfg, s, cert.key, cert.ballot, cert.valueDigest)
  {
    var q := Counted(cfg, s.net, cert, want);
    assert q in cfg.accept && AllVoted(s, q, cert.key, cert.ballot, cert.valueDigest);
  }

  /** Two certificates for one key that verify against the generation carry the
      same digest, whoever assembled them and whenever they are checked. */
  lemma {:induction false} VerifiedAgree(generation: int, members: map<string, string>, must: iset<Digest>,
                                         run: seq<System>, i: nat, j: nat, c1: Certificate, c2: Certificate,
                                         w1: Expectation, w2: Expectation)
    requires Run(MajorityConfig(generation, members, must), run) && Initial(run[0]) && i <= j < |run|
    requires w1.electorate == w2.electorate == members && w1.quorum == w2.quorum == |members.Keys| / 2 + 1
    requires var cfg := MajorityConfig(generation, members, must);
             Verifies(cfg, run[i].net, c1, w1) && Verifies(cfg, run[j].net, c2, w2) && c1.key == c2.key
    ensures c1.valueDigest == c2.valueDigest
  {
    var cfg := MajorityConfig(generation, members, must);
    MajoritiesIntersect(generation, members, must);
    VerifiedIsChosen(cfg, run[i], c1, w1);
    VerifiedIsChosen(cfg, run[j], c2, w2);
    Agreement(cfg, run, i, j, c1.key, c1.ballot, c2.ballot, c1.valueDigest, c2.valueDigest);
  }

  lemma {:induction false} DistinctVoters(accepts: seq<ClaimAccept>, voters: set<string>)
    requires SortedByVoter(accepts) && forall a :: a in accepts ==> a.voter in voters
    ensures |voters| >= |accepts|
  {
    if accepts != [] {
      var n := |accepts| - 1;
      var last := accepts[n];
      forall a | a in accepts[..n] ensures a.voter in voters - {last.voter} {
        var i :| 0 <= i < n && accepts[i] == a;
        LessTotal(accepts[i].voter, accepts[n].voter);
      }
      DistinctVoters(accepts[..n], voters - {last.voter});
    }
  }

  /** CERTIFIED OR NOTHING. What Decide returns verifies against any electorate that lists
      its targets as the members they are. */
  lemma {:induction false} DecidedVerifies(spec: Spec, cfg: Config, s: System, out: Outcome,
                                           electorate: map<string, string>)
    requires Certified(spec, cfg, s, out) && ElectorateOf(spec, out.value).1 >= 1
    requires forall w :: w in Targets(ElectorateOf(spec, out.value).0) && w in cfg.members ==>
               w in electorate && electorate[w] == cfg.members[w]
    ensures var want := Expectation(spec.key, out.digest, spec.generation, electorate, ElectorateOf(spec, out.value).1);
            Verifies(cfg, s.net, out.certificate, want)
  {
    var quorum := ElectorateOf(spec, out.value).1;
    var want := Expectation(spec.key, out.digest, spec.generation, electorate, quorum);
    forall a | a in out.certificate.accepts ensures a.voter in Counted(cfg, s.net, out.certificate, want) {
      assert AcceptVerifies(cfg, s.net, out.certificate, want, a);
    }
    DistinctVoters(out.certificate.accepts, Counted(cfg, s.net, out.certificate, want));
  }

  /** Two decisions at one key, by any two calls, are for one digest, and so for one value. */
  lemma {:induction false} DecisionsAgree(cfg: Config, run: seq<System>, ls: seq<Label>, spec1: Spec, out1: Outcome,
                                          spec2: Spec, out2: Outcome)
    requires Intersecting(cfg) && LabelledRun(cfg, run, ls) && Initial(run[0])
    requires Fits(spec1, cfg) && Fits(spec2, cfg) && spec1.key == spec2.key
    requires Certified(spec1, cfg, run[|run| - 1], out1) && Certified(spec2, cfg, run[|run| - 1], out2)
    ensures out1.digest == out2.digest && SameValue(out1.value, out2.value)
  {
    var s := run[|run| - 1];
    LabelledIsRun(cfg, run, ls);
    InitialInv(cfg, run[0]);
    RunKeepsInv(cfg, run, 0, |run| - 1);
    CertifiedIsChosen(cfg, s, spec1, out1);
    CertifiedIsChosen(cfg, s, spec2, out2);
    AgreementAt(cfg, s, spec1.key, out1.certificate.ballot, out2.certificate.ballot, out1.digest, out2.digest);
    DigestLaw(out1.value, out2.value);
  }

  lemma {:induction false} CertifiedIsChosen(cfg: Config, s: System, spec: Spec, out: Outcome)
    requires Fits(spec, cfg) && Certified(spec, cfg, s, out)
    ensures Chosen(cfg, s, spec.key, out.certificate.ballot, out.digest)
  {
    var accepts := out.certificate.accepts;
    var q := set a | a in accepts :: a.voter;
    DistinctVoters(accepts, q);
    assert q <= Targets(ElectorateOf(spec, out.value).0);
    assert q in cfg.accept && AllVoted(s, q, spec.key, out.certificate.ballot, out.digest);
  }

  // ---- the round allocator ----

  /** A request at or below the largest uint64 already used. */
  predicate Exhausted(p: Proc, key: ClaimKey, want: Round, reuse: bool) {
    LastUsed(p, key) == MAX_ROUND && !(reuse && want == MAX_ROUND)
  }

  /** The round allocated is at or above the request and everything used before
      exactly when uint64 has room; then it repeats the last one only for a reuse, and is
      otherwise the lowest such round. */
  lemma {:induction false} AllocationLaw(p: Proc, key: ClaimKey, want: Round, reuse: bool)
    ensures var r := AllocatedRound(p, key, want, reuse);
            && (r >= want && r >= LastUsed(p, key) <==> !Exhausted(p, key, want, reuse))
            && (r == LastUsed(p, key) <==> reuse && want > 0 && want == LastUsed(p, key))
            && (r != LastUsed(p, key) && !Exhausted(p, key, want, reuse) ==>
                  r == if want > LastUsed(p, key) then want else LastUsed(p, key) + 1)
  {
  }

  /** A new process asked for the largest round hands out round 0 next, below the request. */
  lemma {:induction false} AllocatorWraps(key: ClaimKey)
    ensures var p := Allocate(NEW_PROC, key, MAX_ROUND, false);
            LastUsed(p, key) == MAX_ROUND && AllocatedRound(p, key, 7, false) == 0
  {
  }

  // ---- retrying ----

  /** After an attempt that saw stale promises, the round Decide asks for is above all of
      them exactly when there is room above the highest and, if the attempt failed on a
      bound ballot, none of them was in a higher round than that ballot. */
  lemma {:induction false} RetryOutranks(id: ProcId, last: Attempt, want: Round)
    requires RetriesAfter(id, last, want) && exists i :: IsStale(last.seen, i)
    ensures (forall i :: IsStale(last.seen, i) ==> last.seen[i].promised.round < want) <==>
            (if last.error == Some(BallotBound) then
               last.round < MAX_ROUND && forall i :: IsStale(last.seen, i) ==> last.seen[i].promised.round <= last.round
             else last.stale.round < MAX_ROUND)
  {
    if last.error.value.NoMajority? {
      forall i | IsStale(last.seen, i) ensures last.seen[i].promised.round <= last.stale.round {
        StaleRounds(last.seen, last.stale, i);
      }
    }
  }

  /** A caller can tell beforehand: if no round of the key is given out twice, no attempt
      finds its ballot bound, and every retry outranks what it saw. */
  lemma {:induction false} DistinctRoundsOutrank(spec: Spec, id: ProcId, run: seq<System>, tries: seq<Attempt>, i: nat)
    requires Knows(run, id) && Room(run, id, spec.key) && InOrder(spec, ProcIn(run, id), tries)
    requires AllTold(spec.key, run, id, tries) && i + 1 < |tries|
    requires forall round :: !HeldTwice(ProcIn(run, id), spec.key, round)
    ensures tries[i].error != Some(BallotBound)
    ensures tries[i].error.Some? && tries[i].stale.round < MAX_ROUND ==> Outranks(tries[i], tries[i + 1])
  {
    assert BindingTold(spec.key, run, id, tries[i]);
  }
}
