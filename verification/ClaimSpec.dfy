/** One decision to drive: what it asks for, which value the promises oblige it to
    send, what the voters answered, and what its certificate says. */
module ClaimSpec {
  import opened Options
  import opened Orders
  import opened ClaimTypes
  import opened ClaimVoter
  import opened ClaimSystem

  type Promises = map<string, PromiseInfo>

  /** One decision to drive. None is Go's nil function. */
  datatype Spec = Spec(
    key: ClaimKey,
    generation: int,
    voters: seq<string>,
    prepareQuorum: int,
    electorate: Option<ClaimValue -> (seq<string>, int)>,
    propose: Option<Promises -> Option<ClaimValue>>,
    startRound: Round,
    maxRounds: int,
    reuseRound: bool,
    adoptLegacy: Option<ClaimValue -> bool>)

  /** One voter's signed accept. */
  datatype ClaimAccept = ClaimAccept(
    voter: string, incarnation: string, generation: int, key: ClaimKey, ballot: Ballot, digest: Digest)

  datatype Certificate = Certificate(
    key: ClaimKey, generation: int, ballot: Ballot, valueDigest: Digest, sourceHost: string, accepts: seq<ClaimAccept>)

  datatype Outcome = Outcome(value: ClaimValue, digest: Digest, certificate: Certificate, ours: bool)

  datatype Refusal = Refusal(voter: string, reason: Reason, promised: Ballot)

  datatype Phase = PreparePhase | AcceptPhase

  datatype Error =
    | NoMajority(phase: Phase, got: nat, need: int)
    | NoValue
    | ProposeFailed
    | DigestFailed
    | BallotBound
    | Cancelled

  datatype TryResult = Decided(out: Outcome) | Failed(error: Error, stale: Ballot)

  datatype Decision = Done(out: Outcome) | GaveUp(error: Error)

  function Targets(names: seq<string>): set<string> {
    set x | x in names && x != ""
  }

  function ElectorateOf(spec: Spec, v: ClaimValue): (seq<string>, int) {
    if spec.electorate.Some? then spec.electorate.value(v) else (spec.voters, spec.prepareQuorum)
  }

  /** The quorums a spec counts are quorums of the configuration in force, and a
      scoped spec adopts every legacy value it has to. */
  ghost predicate Fits(spec: Spec, cfg: Config) {
    && (forall q :: q <= Targets(spec.voters) && |q| >= spec.prepareQuorum ==> q in cfg.prepare)
    && (forall v, q :: q <= Targets(ElectorateOf(spec, v).0) && |q| >= ElectorateOf(spec, v).1 ==> q in cfg.accept)
    && (spec.key.incarnation != "" ==> spec.key.IsWorkload())
    && (forall v :: spec.key.IsScoped() && !MayRefuse(cfg, v) ==>
          spec.adoptLegacy.Some? && spec.adoptLegacy.value(v))
  }

  // ---- dedup ----

  /** The distinct non-empty names, sorted. */
  method Dedup(names: seq<string>) returns (out: seq<string>)
    ensures StrictlySorted(out)
    ensures forall x :: x in out <==> x in names && x != ""
  {
    var seen: set<string> := {};
    out := [];
    for i := 0 to |names|
      invariant StrictlySorted(out)
      invariant forall x :: x in out <==> x in seen
      invariant seen == Targets(names[..i])
    {
      assert names[..i + 1] == names[..i] + [names[i]];
      if names[i] != "" && names[i] !in seen {
        InsertElements(names[i], out);
        InsertSorted(names[i], out);
        seen := seen + {names[i]};
        out := Insert(names[i], out);
      }
    }
    assert names[..|names|] == names;
  }

  // ---- the highest stale promise ----

  ghost predicate IsStale(rs: seq<Refusal>, i: int) {
    0 <= i < |rs| && rs[i].reason == BallotStale
  }

  /** A refusal as stale carries a promise above the ballot refused. */
  ghost predicate PromisedAbove(b: Ballot, promised: Ballot) {
    Below(b, promised) && promised.round > 0
  }

  ghost predicate StaleAbove(b: Ballot, rs: seq<Refusal>) {
    forall i :: IsStale(rs, i) ==> PromisedAbove(b, rs[i].promised)
  }

  ghost predicate PrepareAbove(b: Ballot, reply: Option<PrepareReply>) {
    reply.Some? && reply.value.PrepareRefused? && reply.value.reason == BallotStale ==>
      PromisedAbove(b, reply.value.promised)
  }

  /** noteStale over a list of refusals: the highest of start and every promise a
      ballot-stale refusal carried. */
  method NoteStale(start: Ballot, rs: seq<Refusal>) returns (stale: Ballot)
    ensures stale == start || exists i :: IsStale(rs, i) && stale == rs[i].promised
    ensures !Below(stale, start)
    ensures forall i :: IsStale(rs, i) ==> !Below(stale, rs[i].promised)
  {
    BallotOrder();
    stale := start;
    for n := 0 to |rs|
      invariant stale == start || exists i :: i < n && IsStale(rs, i) && stale == rs[i].promised
      invariant !Below(stale, start)
      invariant forall i :: i < n && IsStale(rs, i) ==> !Below(stale, rs[i].promised)
    {
      if rs[n].reason == BallotStale && CompareBallots(rs[n].promised, stale) > 0 {
        assert IsStale(rs, n);
        stale := rs[n].promised;
      }
    }
  }

  // ---- the value to send ----

  ghost predicate RealAccepted(ps: Promises) {
    forall w :: w in ps && Carries(ps[w].state) ==> ps[w].state.accepted.round != 0
  }

  ghost predicate RealLegacy(ps: Promises) {
    forall w :: w in ps && CarriesLegacy(ps[w]) ==> ps[w].legacy.value.accepted.round != 0
  }

  /** The accepted value with the highest ballot any promise reports. */
  method HighestAccepted(ps: Promises) returns (value: Option<ClaimValue>)
    requires RealAccepted(ps)
    ensures value.None? ==> forall w :: w in ps ==> !Carries(ps[w].state)
    ensures value.Some? ==> exists w :: Highest(ps, w) && value.value == ps[w].state.value.value
  {
    BallotOrder();
    var best := ZERO_BALLOT;
    value := None;
    ghost var from := "";
    var todo := ps.Keys;
    while todo != {}
      invariant todo <= ps.Keys
      invariant value.None? ==> best == ZERO_BALLOT && forall w :: w in ps && w !in todo ==> !Carries(ps[w].state)
      invariant value.Some? ==> from in ps && Carries(ps[from].state) && best == ps[from].state.accepted
                                && value == ps[from].state.value
      invariant forall w :: w in ps && w !in todo && Carries(ps[w].state) ==> !Below(best, ps[w].state.accepted)
    {
      var u :| u in todo;
      todo := todo - {u};
      var row := ps[u].state;
      if row.value.Some? && !row.accepted.IsZero() && CompareBallots(row.accepted, best) > 0 {
        best, value, from := row.accepted, row.value, u;
      }
    }
    if value.Some? { assert Highest(ps, from); }
  }

  /** The same over what the promises report of the legacy key. */
  method HighestLegacyValue(ps: Promises) returns (value: Option<ClaimValue>)
    requires RealLegacy(ps)
    ensures value.None? ==> forall w :: w in ps ==> !CarriesLegacy(ps[w])
    ensures value.Some? ==> exists w :: HighestLegacy(ps, w) && value.value == ps[w].legacy.value.value.value
  {
    BallotOrder();
    var best := ZERO_BALLOT;
    value := None;
    ghost var from := "";
    var todo := ps.Keys;
    while todo != {}
      invariant todo <= ps.Keys
      invariant value.None? ==> best == ZERO_BALLOT && forall w :: w in ps && w !in todo ==> !CarriesLegacy(ps[w])
      invariant value.Some? ==> from in ps && CarriesLegacy(ps[from]) && best == ps[from].legacy.value.accepted
                                && value == ps[from].legacy.value.value
      invariant forall w :: w in ps && w !in todo && CarriesLegacy(ps[w]) ==> !Below(best, ps[w].legacy.value.accepted)
    {
      var u :| u in todo;
      todo := todo - {u};
      var l := ps[u].legacy;
      if l.Some? && l.value.value.Some? && !l.value.accepted.IsZero() && CompareBallots(l.value.accepted, best) > 0 {
        best, value, from := l.value.accepted, l.value.value, u;
      }
    }
    if value.Some? { assert HighestLegacy(ps, from); }
  }

  lemma {:induction false} HighestLegacyExists(ps: Promises)
    requires exists u :: u in ps && CarriesLegacy(ps[u])
    ensures exists w :: HighestLegacy(ps, w)
  {
    BallotOrder();
    var best :| best in ps && CarriesLegacy(ps[best]);
    var todo := ps.Keys;
    while todo != {}
      invariant todo <= ps.Keys && best in ps && CarriesLegacy(ps[best])
      invariant forall w :: w in ps && w !in todo && CarriesLegacy(ps[w]) ==>
                  !Below(ps[best].legacy.value.accepted, ps[w].legacy.value.accepted)
    {
      var u :| u in todo;
      todo := todo - {u};
      if CarriesLegacy(ps[u]) && Below(ps[best].legacy.value.accepted, ps[u].legacy.value.accepted) { best := u; }
    }
    assert HighestLegacy(ps, best);
  }

  /** Where a value came from. */
  datatype Origin = FromPromise | FromLegacy | FromPropose

  datatype Choice = Choice(value: ClaimValue, origin: Origin)

  ghost predicate NoneAccepted(ps: Promises) {
    forall w :: w in ps ==> !Carries(ps[w].state)
  }

  /** The legacy value with the highest ballot, which the spec adopts. */
  ghost predicate LegacyTaken(spec: Spec, ps: Promises, v: ClaimValue) {
    && spec.adoptLegacy.Some? && spec.key.incarnation != "" && spec.adoptLegacy.value(v)
    && exists w :: HighestLegacy(ps, w) && v == ps[w].legacy.value.value.value
  }

  /** The spec asks for no legacy value, none is reported, or it refuses the highest. */
  ghost predicate LegacyPassed(spec: Spec, ps: Promises) {
    || spec.adoptLegacy.None? || spec.key.incarnation == "" || (forall w :: w in ps ==> !CarriesLegacy(ps[w]))
    || exists w :: HighestLegacy(ps, w) && !spec.adoptLegacy.value(ps[w].legacy.value.value.value)
  }

  /** The value is the one these promises lead to, in the order the proposer looks. */
  ghost predicate Comes(spec: Spec, ps: Promises, c: Choice) {
    match c.origin
    case FromPromise => exists w :: Highest(ps, w) && c.value == ps[w].state.value.value
    case FromLegacy => NoneAccepted(ps) && LegacyTaken(spec, ps, c.value)
    case FromPropose =>
      && NoneAccepted(ps) && LegacyPassed(spec, ps)
      && spec.propose.Some? && spec.propose.value(ps) == Some(c.value)
  }

  /** Whatever the promises lead to, the protocol allows. */
  lemma {:induction false} ComesMayPropose(spec: Spec, cfg: Config, ps: Promises, c: Choice)
    requires Fits(spec, cfg) && Comes(spec, ps, c)
    ensures MayPropose(cfg, spec.key, ps, c.value)
  {
    if c.origin.FromPropose? && spec.key.IsScoped() && exists u :: u in ps && CarriesLegacy(ps[u]) {
      HighestLegacyExists(ps);
    }
  }

  /** The value the promises oblige this spec to send; none when Propose may build one. */
  method ChooseValue(spec: Spec, ps: Promises) returns (c: Option<Choice>)
    requires RealAccepted(ps) && (spec.key.incarnation != "" ==> RealLegacy(ps))
    ensures c.Some? ==> Comes(spec, ps, c.value) && !c.value.origin.FromPropose?
    ensures c.None? ==> NoneAccepted(ps) && LegacyPassed(spec, ps)
  {
    var value := HighestAccepted(ps);
    if value.Some? { return Some(Choice(value.value, FromPromise)); }
    if spec.adoptLegacy.Some? && spec.key.incarnation != "" {
      var legacy := HighestLegacyValue(ps);
      if legacy.Some? && spec.adoptLegacy.value(legacy.value) {
        return Some(Choice(legacy.value, FromLegacy));
      }
    }
    return None;
  }

  /** The digest a choice adds to the call's own: that of a value Propose built. */
  function BuiltDigest(c: Option<Choice>): set<Digest> {
    if c.Some? && c.value.origin.FromPropose? && DigestOf(c.value.value).Some? then
      {DigestOf(c.value.value).value}
    else {}
  }

  datatype Picked = Pick(choice: Choice, ours: bool) | NoPick(error: Error, rejected: Option<Choice>)

  /** Why there is no value to bind. */
  ghost predicate NoValueFor(spec: Spec, ps: Promises, error: Error, choice: Option<Choice>) {
    match error
    case NoValue => choice.None? && NoneAccepted(ps) && LegacyPassed(spec, ps) && spec.propose.None?
    case ProposeFailed =>
      && choice.None? && NoneAccepted(ps) && LegacyPassed(spec, ps)
      && spec.propose.Some? && spec.propose.value(ps).None?
    case DigestFailed => choice.Some? && Comes(spec, ps, choice.value) && DigestOf(choice.value.value).None?
    case _ => false
  }

  /** The value to bind, and whether this call built it now or earlier. */
  method PickValue(spec: Spec, ps: Promises, own: set<Digest>) returns (p: Picked, own': set<Digest>)
    requires RealAccepted(ps) && (spec.key.incarnation != "" ==> RealLegacy(ps))
    ensures p.Pick? ==> Comes(spec, ps, p.choice) && DigestOf(p.choice.value).Some?
    ensures p.Pick? ==> own' == own + BuiltDigest(Some(p.choice))
    ensures p.Pick? ==> (p.ours <==> DigestOf(p.choice.value).value in own')
    ensures p.NoPick? ==> NoValueFor(spec, ps, p.error, p.rejected) && own' == own
  {
    own' := own;
    var ours := false;
    var choice := ChooseValue(spec, ps);
    if choice.None? {
      if spec.propose.None? { return NoPick(NoValue, None), own'; }
      var value := spec.propose.value(ps);
      if value.None? { return NoPick(ProposeFailed, None), own'; }
      choice, ours := Some(Choice(value.value, FromPropose)), true;
    }
    if DigestOf(choice.value.value).None? { return NoPick(DigestFailed, choice), own'; }
    var digest := DigestOf(choice.value.value).value;
    if ours {
      own' := own' + {digest};
    } else {
      ours := digest in own';
    }
    return Pick(choice.value, ours), own';
  }

  // ---- the certificate ----

  ghost predicate SortedByVoter(accepts: seq<ClaimAccept>) {
    forall i, j :: 0 <= i < j < |accepts| ==> Less(accepts[i].voter, accepts[j].voter)
  }

  /** The accepts in voter order. */
  method SortAccepts(accepts: map<string, ClaimAccept>) returns (out: seq<ClaimAccept>)
    requires forall w :: w in accepts ==> accepts[w].voter == w
    ensures |out| == |accepts| && SortedByVoter(out)
    ensures forall a :: a in out ==> a.voter in accepts && a == accepts[a.voter]
  {
    var names: seq<string> := [];
    var todo := accepts.Keys;
    while todo != {}
      invariant todo <= accepts.Keys && |names| + |todo| == |accepts.Keys|
      invariant StrictlySorted(names)
      invariant forall x :: x in names <==> x in accepts.Keys - todo
    {
      var u :| u in todo;
      InsertElements(u, names);
      InsertSorted(u, names);
      names := Insert(u, names);
      todo := todo - {u};
    }
    assert forall i :: 0 <= i < |names| ==> names[i] in names;
    out := seq(|names|, i requires 0 <= i < |names| => accepts[names[i]]);
  }

  datatype AcceptAnswer = AcceptAnswer(accept: Option<ClaimAccept>, reason: Reason, promised: Ballot)

  ghost predicate AcceptAbove(b: Ballot, answer: Option<AcceptAnswer>) {
    answer.Some? && answer.value.reason == BallotStale ==> PromisedAbove(b, answer.value.promised)
  }

  /** The voter sent this accept as the member it is of the generation in force. What it
      signs names its incarnation and the generation, and signatures cannot be forged. */
  predicate Signed(cfg: Config, net: set<Msg>, a: ClaimAccept) {
    && a.voter in cfg.members && a.incarnation == cfg.members[a.voter] && a.generation == cfg.generation
    && AcceptMsg(a.voter, a.key, a.ballot, a.digest) in net
  }

  /** An accept for this key, generation, ballot and digest. */
  predicate IsFor(a: ClaimAccept, key: ClaimKey, generation: int, b: Ballot, d: Digest) {
    a.key == key && a.generation == generation && a.ballot == b && a.digest == d
  }

  /** The certificate is a quorum of accepts that each voter really signed, for
      this key, this ballot and the digest of the returned value. */
  ghost predicate Certified(spec: Spec, cfg: Config, s: System, out: Outcome) {
    var cert := out.certificate;
    var (targets, quorum) :=
      if spec.electorate.None? then (spec.voters, spec.prepareQuorum) else spec.electorate.value(out.value);
    && DigestOf(out.value) == Some(out.digest)
    && cert.key == spec.key && cert.generation == spec.generation
    && cert.valueDigest == out.digest && cert.sourceHost == out.value.sourceHost
    && |cert.accepts| >= quorum && SortedByVoter(cert.accepts)
    && forall a :: a in cert.accepts ==>
         && a.voter in targets && a.voter != "" && Signed(cfg, s.net, a)
         && IsFor(a, spec.key, spec.generation, cert.ballot, out.digest)
  }

  /** stale is the highest promise a ballot-stale refusal among rs carried, or zero. */
  ghost predicate HighestStale(rs: seq<Refusal>, stale: Ballot) {
    && (stale == ZERO_BALLOT || exists i :: IsStale(rs, i) && stale == rs[i].promised)
    && forall i :: IsStale(rs, i) ==> !Below(stale, rs[i].promised)
  }

  /** What one failed attempt tells Decide about a higher ballot. */
  ghost predicate StaleAnswer(error: Error, stale: Ballot, b: Ballot, seen: seq<Refusal>) {
    match error
    case NoMajority(_, got, need) => got < need && HighestStale(seen, stale)
    case BallotBound => stale == b
    case _ => stale == ZERO_BALLOT
  }

  lemma {:induction false} HighestStaleBoth(rs: seq<Refusal>, qs: seq<Refusal>, first: Ballot, both: Ballot)
    requires HighestStale(rs, first) && !Below(both, first)
    requires both == first || exists i :: IsStale(qs, i) && both == qs[i].promised
    requires forall i :: IsStale(qs, i) ==> !Below(both, qs[i].promised)
    ensures HighestStale(rs + qs, both)
  {
    BallotOrder();
    var all := rs + qs;
    assert forall i :: IsStale(rs, i) ==> IsStale(all, i);
    assert forall i :: IsStale(qs, i) ==> IsStale(all, |rs| + i) && all[|rs| + i] == qs[i];
    forall i | IsStale(all, i) ensures !Below(both, all[i].promised) {
      if i < |rs| { assert IsStale(rs, i); } else { assert IsStale(qs, i - |rs|); }
    }
  }

  // ---- what the voters answered ----

  /** One call to a voter and its answer. */
  datatype Asked =
    | AskedPrepare(voter: string, reply: Option<PrepareReply>)
    | AskedAccept(voter: string, answer: Option<AcceptAnswer>)

  /** Every target was asked once, in order. */
  ghost predicate Polled(asked: seq<Asked>, targets: set<string>) {
    && InVoterOrder(asked)
    && (forall w :: w in targets <==> exists i :: 0 <= i < |asked| && asked[i].voter == w)
  }

  function PromisesIn(asked: seq<Asked>): Promises {
    if asked == [] then map[]
    else
      var before := PromisesIn(asked[..|asked| - 1]);
      match asked[|asked| - 1]
      case AskedPrepare(w, Some(Promise(state, legacy))) => before[w := PromiseInfo(state, legacy)]
      case _ => before
  }

  /** The accepts that count: from the voter asked, for this key. */
  function AcceptsIn(key: ClaimKey, asked: seq<Asked>): map<string, ClaimAccept> {
    if asked == [] then map[]
    else
      var before := AcceptsIn(key, asked[..|asked| - 1]);
      match asked[|asked| - 1]
      case AskedAccept(w, Some(AcceptAnswer(Some(a), _, _))) =>
        if a.voter == w && a.key == key then before[w := a] else before
      case _ => before
  }

  function RefusalsIn(key: ClaimKey, asked: seq<Asked>): seq<Refusal> {
    if asked == [] then []
    else
      var before := RefusalsIn(key, asked[..|asked| - 1]);
      match asked[|asked| - 1]
      case AskedPrepare(_, Some(Promise(_, _))) => before
      case AskedPrepare(w, Some(PrepareRefused(reason, promised))) => before + [Refusal(w, reason, promised)]
      case AskedAccept(w, Some(AcceptAnswer(a, reason, promised))) =>
        if a.Some? && a.value.voter == w && a.value.key == key then before else before + [Refusal(w, reason, promised)]
      case AskedPrepare(w, None) => before + [Refusal(w, Unreachable, ZERO_BALLOT)]
      case AskedAccept(w, None) => before + [Refusal(w, Unreachable, ZERO_BALLOT)]
  }

  // ---- what that means ----

  /** Each call goes to a later voter than the one before. */
  ghost predicate InVoterOrder(asked: seq<Asked>) {
    forall i, j :: 0 <= i < j < |asked| ==> Less(asked[i].voter, asked[j].voter)
  }

  /** The call was answered with a promise. */
  ghost predicate PromisedIn(q: Asked) {
    q.AskedPrepare? && q.reply.Some? && q.reply.value.Promise?
  }

  /** The call was answered with an accept by the voter asked, for this key. */
  ghost predicate AcceptedIn(key: ClaimKey, q: Asked) {
    && q.AskedAccept? && q.answer.Some? && q.answer.value.accept.Some?
    && q.answer.value.accept.value.voter == q.voter && q.answer.value.accept.value.key == key
  }

  /** The call failed, with this reason and ballot, or was not answered. */
  ghost predicate RefusedIn(key: ClaimKey, q: Asked, r: Refusal) {
    match q
    case AskedPrepare(w, None) => r == Refusal(w, Unreachable, ZERO_BALLOT)
    case AskedPrepare(_, Some(Promise(_, _))) => false
    case AskedPrepare(w, Some(PrepareRefused(reason, promised))) => r == Refusal(w, reason, promised)
    case AskedAccept(w, None) => r == Refusal(w, Unreachable, ZERO_BALLOT)
    case AskedAccept(w, Some(AcceptAnswer(a, reason, promised))) =>
      r == Refusal(w, reason, promised) && !(a.Some? && a.value.voter == w && a.value.key == key)
  }

  ghost predicate PromisedAt(asked: seq<Asked>, i: int, w: string) {
    0 <= i < |asked| && asked[i].voter == w && PromisedIn(asked[i])
  }

  /** ps is every promise among the answers and nothing else. */
  ghost predicate PromisesAre(asked: seq<Asked>, ps: Promises) {
    && (forall w :: w in ps ==> exists i :: PromisedAt(asked, i, w))
    && (forall i, w :: PromisedAt(asked, i, w) ==>
          w in ps && ps[w] == PromiseInfo(asked[i].reply.value.state, asked[i].reply.value.legacy))
  }

  ghost predicate AcceptedAt(key: ClaimKey, asked: seq<Asked>, i: int, w: string) {
    0 <= i < |asked| && asked[i].voter == w && AcceptedIn(key, asked[i])
  }

  /** accepts is every accept for the key among the answers and nothing else. */
  ghost predicate AcceptsAre(key: ClaimKey, asked: seq<Asked>, accepts: map<string, ClaimAccept>) {
    && (forall w :: w in accepts ==> exists i :: AcceptedAt(key, asked, i, w))
    && (forall i, w :: AcceptedAt(key, asked, i, w) ==>
          w in accepts && accepts[w] == asked[i].answer.value.accept.value)
  }

  /** rs is every other answer once, in the order asked. */
  ghost predicate RefusalsAre(key: ClaimKey, asked: seq<Asked>, rs: seq<Refusal>) {
    && (forall r :: r in rs <==> exists i :: 0 <= i < |asked| && RefusedIn(key, asked[i], r))
    && forall i, j :: 0 <= i < j < |rs| ==> Less(rs[i].voter, rs[j].voter)
  }

  lemma {:induction false} PromisesMeaning(asked: seq<Asked>)
    requires InVoterOrder(asked)
    ensures PromisesAre(asked, PromisesIn(asked))
  {
    if asked != [] {
      var n := |asked| - 1;
      var pre, ps := asked[..n], PromisesIn(asked);
      LastIsNew(asked);
      PromisesMeaning(pre);
      forall w | w in ps ensures exists i :: PromisedAt(asked, i, w) {
        if w in PromisesIn(pre) {
          var i :| PromisedAt(pre, i, w);
          assert PromisedAt(asked, i, w);
        } else {
          assert PromisedAt(asked, n, w);
        }
      }
      forall i, w | PromisedAt(asked, i, w)
        ensures w in ps && ps[w] == PromiseInfo(asked[i].reply.value.state, asked[i].reply.value.legacy)
      {
        if i < n { assert PromisedAt(pre, i, w); }
      }
    }
  }

  lemma {:induction false} LastIsNew(asked: seq<Asked>)
    requires InVoterOrder(asked) && asked != []
    ensures InVoterOrder(asked[..|asked| - 1])
    ensures forall i :: 0 <= i < |asked| - 1 ==> asked[i].voter != asked[|asked| - 1].voter
  {
    forall i | 0 <= i < |asked| - 1 ensures asked[i].voter != asked[|asked| - 1].voter {
      LessTotal(asked[i].voter, asked[|asked| - 1].voter);
    }
  }

  lemma {:induction false} AcceptsMeaning(key: ClaimKey, asked: seq<Asked>)
    requires InVoterOrder(asked)
    ensures AcceptsAre(key, asked, AcceptsIn(key, asked))
  {
    if asked != [] {
      var n := |asked| - 1;
      var pre, accepts := asked[..n], AcceptsIn(key, asked);
      LastIsNew(asked);
      AcceptsMeaning(key, pre);
      forall w | w in accepts ensures exists i :: AcceptedAt(key, asked, i, w) {
        if w in AcceptsIn(key, pre) {
          var i :| AcceptedAt(key, pre, i, w);
          assert AcceptedAt(key, asked, i, w);
        } else {
          assert AcceptedAt(key, asked, n, w);
        }
      }
      forall i, w | AcceptedAt(key, asked, i, w)
        ensures w in accepts && accepts[w] == asked[i].answer.value.accept.value
      {
        if i < n { assert AcceptedAt(key, pre, i, w); }
      }
    }
  }

  lemma {:induction false} RefusalsMeaning(key: ClaimKey, asked: seq<Asked>)
    requires InVoterOrder(asked)
    ensures RefusalsAre(key, asked, RefusalsIn(key, asked))
  {
    if asked != [] {
      var n := |asked| - 1;
      var pre, rs := asked[..n], RefusalsIn(key, asked);
      RefusalsMeaning(key, pre);
      LastIsNew(asked);
      var before := RefusalsIn(key, pre);
      assert rs == before || (|rs| == |before| + 1 && rs == before + [rs[|before|]] &&
                              RefusedIn(key, asked[n], rs[|before|]));
      forall r ensures r in rs <==> exists i :: 0 <= i < |asked| && RefusedIn(key, asked[i], r) {
        if r in before {
          var i :| 0 <= i < n && RefusedIn(key, pre[i], r);
          assert RefusedIn(key, asked[i], r);
        }
        if i :| 0 <= i < |asked| && RefusedIn(key, asked[i], r) {
          if i < n { assert RefusedIn(key, pre[i], r); }
        }
      }
      forall i, j | 0 <= i < j < |rs| ensures Less(rs[i].voter, rs[j].voter) {
        if j == |before| {
          assert before[i] in before;
          var q :| 0 <= q < n && RefusedIn(key, pre[q], before[i]);
          assert Less(asked[q].voter, asked[n].voter);
        }
      }
    }
  }

  /** The calls so far of a loop over names. */
  ghost predicate Follow(asked: seq<Asked>, names: seq<string>, n: nat) {
    |asked| == n <= |names| && forall i :: 0 <= i < n ==> asked[i].voter == names[i]
  }

  lemma {:induction false} FollowMore(asked: seq<Asked>, names: seq<string>, n: nat, a: Asked)
    requires Follow(asked, names, n) && n < |names| && a.voter == names[n]
    ensures Follow(asked + [a], names, n + 1) && (asked + [a])[..n] == asked
  {
  }

  lemma {:induction false} AllPolled(asked: seq<Asked>, names: seq<string>, targets: set<string>)
    requires StrictlySorted(names) && (forall x :: x in names <==> x in targets) && Follow(asked, names, |names|)
    ensures Polled(asked, targets)
  {
    forall w ensures w in targets <==> exists i :: 0 <= i < |asked| && asked[i].voter == w {
      if w in targets {
        var i :| 0 <= i < |names| && names[i] == w;
        assert asked[i].voter == w;
      }
      if i :| 0 <= i < |asked| && asked[i].voter == w { assert names[i] in names; }
    }
  }

  /** Keep what one voter answered to a prepare. */
  method NotePrepare(key: ClaimKey, ps: Promises, rs: seq<Refusal>, w: string, reply: Option<PrepareReply>,
                     ghost asked: seq<Asked>, ghost b: Ballot)
    returns (ps': Promises, rs': seq<Refusal>)
    requires ps == PromisesIn(asked) && rs == RefusalsIn(key, asked)
    requires StaleAbove(b, rs) && PrepareAbove(b, reply)
    ensures StaleAbove(b, rs')
    ensures var more := asked + [AskedPrepare(w, reply)];
            ps' == PromisesIn(more) && rs' == RefusalsIn(key, more)
    ensures ps' == ps || (reply.Some? && reply.value.Promise? &&
                          ps' == ps[w := PromiseInfo(reply.value.state, reply.value.legacy)])
  {
    ghost var more := asked + [AskedPrepare(w, reply)];
    assert more[..|asked|] == asked;
    ps', rs' := ps, rs;
    match reply {
      case None => rs' := rs + [Refusal(w, Unreachable, ZERO_BALLOT)];
      case Some(Promise(state, legacy)) => ps' := ps[w := PromiseInfo(state, legacy)];
      case Some(PrepareRefused(reason, promised)) => rs' := rs + [Refusal(w, reason, promised)];
    }
  }

  /** Keep what one voter answered to an accept. */
  method NoteAccept(key: ClaimKey, accepts: map<string, ClaimAccept>, rs: seq<Refusal>, w: string,
                    answer: Option<AcceptAnswer>, ghost asked: seq<Asked>, ghost b: Ballot)
    returns (accepts': map<string, ClaimAccept>, rs': seq<Refusal>)
    requires accepts == AcceptsIn(key, asked) && rs == RefusalsIn(key, asked)
    requires StaleAbove(b, rs) && AcceptAbove(b, answer)
    ensures StaleAbove(b, rs')
    ensures var more := asked + [AskedAccept(w, answer)];
            accepts' == AcceptsIn(key, more) && rs' == RefusalsIn(key, more)
    ensures accepts' == accepts ||
            (answer.Some? && answer.value.accept.Some? && answer.value.accept.value.voter == w &&
             answer.value.accept.value.key == key && accepts' == accepts[w := answer.value.accept.value])
  {
    ghost var more := asked + [AskedAccept(w, answer)];
    assert more[..|asked|] == asked;
    accepts', rs' := accepts, rs;
    if answer.None? {
      rs' := rs + [Refusal(w, Unreachable, ZERO_BALLOT)];
    } else {
      var AcceptAnswer(a, reason, promised) := answer.value;
      if a.Some? && a.value.voter == w && a.value.key == key {
        accepts' := accepts[w := a.value];
      } else {
        rs' := rs + [Refusal(w, reason, promised)];
      }
    }
  }

  /** The accepts are what their voters signed for this key, generation, ballot and digest. */
  ghost predicate Sent(cfg: Config, net: set<Msg>, key: ClaimKey, generation: int, b: Ballot, d: Digest,
                       accepts: map<string, ClaimAccept>) {
    forall w :: w in accepts ==>
      accepts[w].voter == w && Signed(cfg, net, accepts[w]) && IsFor(accepts[w], key, generation, b, d)
  }

  lemma {:induction false} SentLater(cfg: Config, net: set<Msg>, more: set<Msg>, key: ClaimKey, generation: int,
                                     b: Ballot, d: Digest, accepts: map<string, ClaimAccept>)
    requires net <= more && Sent(cfg, net, key, generation, b, d, accepts)
    ensures Sent(cfg, more, key, generation, b, d, accepts)
  {
  }

  lemma {:induction false} SentMore(cfg: Config, net: set<Msg>, key: ClaimKey, generation: int, b: Ballot, d: Digest,
                                    accepts: map<string, ClaimAccept>, a: ClaimAccept)
    requires Sent(cfg, net, key, generation, b, d, accepts)
    requires Signed(cfg, net, a) && IsFor(a, key, generation, b, d)
    ensures Sent(cfg, net, key, generation, b, d, accepts[a.voter := a])
  {
  }

  /** The promises are what their voters sent for this key and ballot. */
  ghost predicate Promised(net: set<Msg>, key: ClaimKey, b: Ballot, ps: Promises) {
    forall w :: w in ps ==> PromiseMsg(w, key, b, ps[w]) in net
  }

  /** One attempt as Decide sees it: its number among the process's, its round, the calls of
      both phases, the value it settled on, and how it ended. */
  datatype Attempt = Attempt(
    index: nat, round: Round, prepares: seq<Asked>, pick: Option<Choice>, accepts: seq<Asked>,
    seen: seq<Refusal>, error: Option<Error>, stale: Ballot)

  /** The digest the attempt tried to bind to its round. */
  ghost predicate Tried(a: Attempt, d: Digest) {
    a.pick.Some? && DigestOf(a.pick.value.value) == Some(d)
  }

  /** The accept phase ran to its end for the value picked, with this many accepts. */
  ghost predicate AcceptedBy(spec: Spec, a: Attempt, got: nat, need: int) {
    && a.pick.Some? && DigestOf(a.pick.value.value).Some?
    && Polled(a.accepts, Targets(ElectorateOf(spec, a.pick.value.value).0))
    && need == ElectorateOf(spec, a.pick.value.value).1 && got == |AcceptsIn(spec.key, a.accepts)|
  }

  /** The attempt ended as its calls oblige it to. */
  ghost predicate Accounted(spec: Spec, a: Attempt) {
    var ps := PromisesIn(a.prepares);
    && Polled(a.prepares, Targets(spec.voters))
    && a.seen == RefusalsIn(spec.key, a.prepares) + RefusalsIn(spec.key, a.accepts)
    && (a.pick.Some? ==> |ps| >= spec.prepareQuorum && Comes(spec, ps, a.pick.value))
    && (|ps| < spec.prepareQuorum <==> a.error == Some(NoMajority(PreparePhase, |ps|, spec.prepareQuorum)))
    && EndedFor(spec, a, ps)
  }

  ghost predicate EndedFor(spec: Spec, a: Attempt, ps: Promises) {
    match a.error
    case None => exists got, need :: AcceptedBy(spec, a, got, need) && got >= need
    case Some(NoMajority(AcceptPhase, got, need)) => AcceptedBy(spec, a, got, need) && got < need
    case Some(NoMajority(PreparePhase, got, need)) => a.accepts == [] && got == |ps| < need == spec.prepareQuorum
    case Some(BallotBound) => a.accepts == [] && exists d :: Tried(a, d)
    case Some(error) => a.accepts == [] && NoValueFor(spec, ps, error, a.pick)
  }

  function MaxRounds(spec: Spec): nat {
    if spec.maxRounds <= 0 then 8 else spec.maxRounds
  }

  function FirstRound(spec: Spec): Round {
    if spec.startRound == 0 then 1 else spec.startRound
  }

  /** The rounds of one Decide rise strictly. */
  ghost predicate Rising(tries: seq<Attempt>) {
    forall i, j :: 0 <= i < j < |tries| ==> tries[i].round < tries[j].round
  }

  /** next outranks every promise attempt a was refused with as stale. */
  ghost predicate Outranks(a: Attempt, next: Attempt) {
    forall i :: IsStale(a.seen, i) ==> a.seen[i].promised.round < next.round
  }

  /** Each attempt outranks the promises that refused the one before, unless that failed on a
      bound ballot or rounds ran out. */
  ghost predicate Progress(tries: seq<Attempt>) {
    forall i :: 0 <= i < |tries| - 1 && tries[i].error.Some? && tries[i].error.value != BallotBound ==>
      (tries[i].stale.round < MAX_ROUND ==> Outranks(tries[i], tries[i + 1]))
  }

  lemma {:induction false} StaleRounds(seen: seq<Refusal>, stale: Ballot, i: int)
    requires HighestStale(seen, stale) && IsStale(seen, i)
    ensures seen[i].promised.round <= stale.round
  {
  }
}
