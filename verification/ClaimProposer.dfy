/** The proposer: Decide drives one spec through rounds of both phases. Between
    any two of its actions every other process, voter and concurrent Decide of
    this same process may take any number of steps. */
module ClaimProposer {
  import opened Options
  import opened Orders
  import opened ClaimTypes
  import opened ClaimVoter
  import opened ClaimSystem
  import opened ClaimAgreement
  import opened ClaimRuns
  import opened ClaimSpec

  // ---- what a caller may rely on after others have run ----

  lemma {:induction false} Onward(cfg: Config, run: seq<System>, ls: seq<Label>, i: nat, j: nat, p: ProcId)
    requires LabelledRun(cfg, run, ls) && Initial(run[0]) && i <= j < |run| && p in run[i].procs
    ensures Inv(cfg, run[j]) && Later(run[i], run[j])
    ensures p in run[j].procs && ProcLater(run[i].procs[p], run[j].procs[p])
  {
    LabelledIsRun(cfg, run, ls);
    InitialInv(cfg, run[0]);
    RunKeepsInv(cfg, run, 0, i);
    RunKeepsInv(cfg, run, i, j);
    RunProcLater(cfg, run, ls, i, j, p);
  }

  /** Honest promises report ballots some proposer really used. */
  lemma {:induction false} PromisesReal(cfg: Config, s: System, key: ClaimKey, b: Ballot, ps: Promises)
    requires Inv(cfg, s) && Promised(s.net, key, b, ps)
    requires key.incarnation != "" ==> key.IsWorkload()
    ensures RealAccepted(ps)
    ensures key.incarnation != "" ==> RealLegacy(ps)
  {
    forall w | w in ps && Carries(ps[w].state) ensures ps[w].state.accepted.round != 0 {
      assert PromiseInv(s, w, key, b, ps[w]);
    }
    forall w | w in ps && CarriesLegacy(ps[w]) && key.IsScoped() ensures ps[w].legacy.value.accepted.round != 0 {
      assert PromiseInv(s, w, key, b, ps[w]);
    }
  }

  // ---- the rounds of a call ----

  ghost predicate Knows(run: seq<System>, id: ProcId) {
    run != [] && id in run[|run| - 1].procs
  }

  ghost function ProcIn(run: seq<System>, id: ProcId): Proc
    requires Knows(run, id)
  {
    run[|run| - 1].procs[id]
  }

  /** The attempts of a call so far, and the round it asks for next. */
  ghost predicate Underway(spec: Spec, id: ProcId, run: seq<System>, tries: seq<Attempt>, want: Round)
    requires Knows(run, id)
  {
    && (tries == [] ==> want == FirstRound(spec))
    && (tries != [] ==> RetriesAfter(id, tries[|tries| - 1], want))
    && (Room(run, id, spec.key) ==> InOrder(spec, ProcIn(run, id), tries))
  }

  /** A failed attempt that told of a higher ballot, and the round above that. */
  ghost predicate RetriesAfter(id: ProcId, last: Attempt, want: Round) {
    && last.error.Some? && !last.stale.IsZero() && want == NextRound(last.stale.round)
    && StaleAnswer(last.error.value, last.stale, BallotOf(id, last.round), last.seen)
  }

  ghost predicate InOrder(spec: Spec, me: Proc, tries: seq<Attempt>) {
    && Rising(tries) && Progress(tries)
    && (tries != [] ==> FirstRound(spec) <= tries[0].round && tries[|tries| - 1].round <= LastUsed(me, spec.key))
  }

  /** A retry outranks every promise that refused the attempt before it as stale. */
  lemma {:induction false} RetryRises(id: ProcId, last: Attempt, want: Round, a: Attempt)
    requires RetriesAfter(id, last, want) && want <= a.round && last.stale.round < MAX_ROUND
    requires last.error.value != BallotBound
    ensures Outranks(last, a)
  {
    forall i | IsStale(last.seen, i) ensures last.seen[i].promised.round < a.round {
      if last.error.value.NoMajority? { StaleRounds(last.seen, last.stale, i); }
    }
  }

  /** One more attempt, allocated at the end of was, keeps the rounds of a call
      rising and outranks what refused the attempt before, while there is room. */
  lemma {:induction false} AttemptRises(spec: Spec, id: ProcId, cfg: Config, was: seq<System>, run: seq<System>,
                                        ls: seq<Label>, tries: seq<Attempt>, want: Round, reuse: bool, a: Attempt)
    requires LabelledRun(cfg, run, ls) && was < run && Knows(was, id)
    requires Underway(spec, id, was, tries, want) && (reuse ==> tries == [])
    requires ls[|was| - 1] == Allocates(id, spec.key, want, reuse)
    requires a.round == AllocatedRound(ProcIn(was, id), spec.key, want, reuse)
    ensures Knows(run, id) && (Room(run, id, spec.key) ==> InOrder(spec, ProcIn(run, id), tries + [a]))
  {
    var i := |was| - 1;
    assert run[i] == was[i];
    assert LabelledAt(cfg, run, ls, i);
    RunProcLater(cfg, run, ls, i, |run| - 1, id);
    if Room(run, id, spec.key) {
      assert Room(was, id, spec.key);
      var me := run[i].procs[id];
      assert LastUsed(me, spec.key) < MAX_ROUND;
      UsedRises(cfg, run, ls, i + 1, |run| - 1, id, spec.key);
      RoundAdded(spec, id, me, tries, want, reuse, a);
    }
  }

  /** The attempt keeps the number and the round it was allocated. */
  lemma {:induction false} AttemptNumbered(cfg: Config, id: ProcId, was: seq<System>, run: seq<System>, ls: seq<Label>,
                                           key: ClaimKey, want: Round, reuse: bool)
    requires LabelledRun(cfg, run, ls) && was < run && Knows(was, id) && Knows(run, id)
    requires ls[|was| - 1] == Allocates(id, key, want, reuse)
    ensures ProcLater(ProcIn(was, id), ProcIn(run, id))
    ensures var me, p := ProcIn(run, id), ProcIn(was, id);
            && |p.allocations| < |me.allocations|
            && me.allocations[|p.allocations|] == Allocation(key, AllocatedRound(p, key, want, reuse), want, reuse)
  {
    var i := |was| - 1;
    assert run[i] == was[i] && LabelledAt(cfg, run, ls, i);
    RunProcLater(cfg, run, ls, i, |run| - 1, id);
    RunProcLater(cfg, run, ls, i + 1, |run| - 1, id);
    assert run[i + 1].procs[id] == Allocate(run[i].procs[id], key, want, reuse);
  }

  lemma {:induction false} RoundAdded(spec: Spec, id: ProcId, me: Proc, tries: seq<Attempt>, want: Round, reuse: bool,
                                      a: Attempt)
    requires InOrder(spec, me, tries) && LastUsed(me, spec.key) < MAX_ROUND && (reuse ==> tries == [])
    requires tries == [] ==> want == FirstRound(spec)
    requires tries != [] ==> RetriesAfter(id, tries[|tries| - 1], want)
    requires a.round == AllocatedRound(me, spec.key, want, reuse)
    ensures Rising(tries + [a]) && Progress(tries + [a]) && FirstRound(spec) <= (tries + [a])[0].round
  {
    if tries != [] {
      var last := tries[|tries| - 1];
      assert a.round > last.round && a.round >= want;
      if last.error.value != BallotBound && last.stale.round < MAX_ROUND { RetryRises(id, last, want, a); }
    }
  }

  lemma {:induction false} StillUnderway(spec: Spec, id: ProcId, run: seq<System>, tries: seq<Attempt>, a: Attempt,
                                         want: Round)
    requires Knows(run, id) && (Room(run, id, spec.key) ==> InOrder(spec, ProcIn(run, id), tries + [a]))
    requires RetriesAfter(id, a, want)
    ensures Underway(spec, id, run, tries + [a], want)
  {
  }

  /** What a call knows of its rounds survives whatever happens meanwhile. */
  lemma {:induction false} UnderwayLater(spec: Spec, id: ProcId, cfg: Config, was: seq<System>, run: seq<System>,
                                         ls: seq<Label>, tries: seq<Attempt>, want: Round)
    requires LabelledRun(cfg, run, ls) && was <= run && Knows(was, id) && Knows(run, id)
    requires Underway(spec, id, was, tries, want)
    ensures Underway(spec, id, run, tries, want)
  {
    if Room(run, id, spec.key) {
      assert Room(was, id, spec.key);
      UsedRises(cfg, run, ls, |was| - 1, |run| - 1, id, spec.key);
    }
  }

  // ---- bindings ----

  /** The round an attempt tried to bind a digest to is bound: to that digest, unless the
      attempt said it was bound to another. That takes a round given out twice. */
  ghost predicate BindingTold(key: ClaimKey, run: seq<System>, id: ProcId, a: Attempt)
    requires Knows(run, id)
  {
    var bound := BoundAt(ProcIn(run, id), key);
    && (forall d :: Tried(a, d) ==> a.round in bound && (a.error == Some(BallotBound) <==> bound[a.round] != d))
    && (a.error == Some(BallotBound) ==> HeldTwice(ProcIn(run, id), key, a.round))
  }

  lemma {:induction false} StillHeldTwice(p: Proc, q: Proc, key: ClaimKey, round: Round)
    requires ProcLater(p, q) && HeldTwice(p, key, round)
    ensures HeldTwice(q, key, round)
  {
    var c: nat, d: nat :| c < d && Holds(p, c, key, round) && Holds(p, d, key, round);
    assert Holds(q, c, key, round) && Holds(q, d, key, round);
  }

  lemma {:induction false} BindingStays(cfg: Config, was: seq<System>, run: seq<System>, ls: seq<Label>, key: ClaimKey,
                                        id: ProcId, a: Attempt)
    requires LabelledRun(cfg, run, ls) && was <= run && Knows(was, id) && BindingTold(key, was, id, a)
    ensures Knows(run, id) && BindingTold(key, run, id, a)
  {
    RunProcLater(cfg, run, ls, |was| - 1, |run| - 1, id);
    var p, q := ProcIn(was, id), ProcIn(run, id);
    forall d | Tried(a, d) ensures a.round in BoundAt(q, key) && BoundAt(q, key)[a.round] == BoundAt(p, key)[a.round] {
      assert key in p.bound && a.round in p.bound[key];
    }
    if a.error == Some(BallotBound) { StillHeldTwice(p, q, key, a.round); }
  }

  /** The round could not be bound: it held another digest. */
  lemma {:induction false} BoundTold(cfg: Config, run: seq<System>, ls: seq<Label>, key: ClaimKey, id: ProcId,
                                     mine: nat, a: Attempt)
    requires LabelledRun(cfg, run, ls) && Initial(run[0]) && Knows(run, id) && Unsent(ls, id, mine)
    requires Holds(ProcIn(run, id), mine, key, a.round) && a.error == Some(BallotBound)
    requires a.pick.Some? && DigestOf(a.pick.value.value).Some?
    requires !CanBind(ProcIn(run, id), key, a.round, DigestOf(a.pick.value.value).value)
    ensures BindingTold(key, run, id, a)
  {
    BoundIsHeldTwice(cfg, run, ls, id, mine, key, a.round);
  }

  predicate BoundTo(p: Proc, key: ClaimKey, round: Round, d: Digest) {
    key in p.bound && round in p.bound[key] && p.bound[key][round] == d
  }

  /** The round was bound to the digest sent, and still is. */
  lemma {:induction false} SentTold(run: seq<System>, key: ClaimKey, id: ProcId, bound: Proc, a: Attempt, d: Digest)
    requires Knows(run, id) && ProcLater(bound, ProcIn(run, id)) && a.error != Some(BallotBound)
    requires BoundTo(bound, key, a.round, d) && Tried(a, d)
    ensures BindingTold(key, run, id, a)
  {
  }

  ghost predicate AllTold(key: ClaimKey, run: seq<System>, id: ProcId, tries: seq<Attempt>)
    requires Knows(run, id)
  {
    forall i :: 0 <= i < |tries| ==> BindingTold(key, run, id, tries[i])
  }

  lemma {:induction false} AllStay(cfg: Config, was: seq<System>, run: seq<System>, ls: seq<Label>, key: ClaimKey,
                                   id: ProcId, tries: seq<Attempt>, a: Attempt)
    requires LabelledRun(cfg, run, ls) && was <= run && Knows(was, id) && AllTold(key, was, id, tries)
    requires Knows(run, id) && BindingTold(key, run, id, a)
    ensures AllTold(key, run, id, tries + [a])
  {
    forall i | 0 <= i < |tries| ensures BindingTold(key, run, id, tries[i]) {
      BindingStays(cfg, was, run, ls, key, id, tries[i]);
    }
  }

  // ---- what an attempt tells ----

  /** Phase 1 as its calls tell it, with nothing decided yet. */
  ghost predicate Opened(spec: Spec, a: Attempt) {
    && Polled(a.prepares, Targets(spec.voters)) && a.accepts == [] && a.error.None? && a.pick.None?
    && a.seen == RefusalsIn(spec.key, a.prepares)
  }

  /** What an attempt tells its caller. */
  ghost predicate Tells(a: Attempt, r: TryResult, b: Ballot) {
    && StaleAbove(b, a.seen)
    && match r
       case Decided(_) => a.error.None?
       case Failed(error, stale) => a.error == Some(error) && a.stale == stale && StaleAnswer(error, stale, b, a.seen)
  }

  /** Phase 1 was not enough: too few promises, or no value to bind. */
  lemma {:induction false} FirstPhaseAccounted(spec: Spec, a: Attempt, error: Error, pick: Option<Choice>,
                                               stale: Ballot)
    requires Opened(spec, a)
    requires var ps := PromisesIn(a.prepares);
             if |ps| < spec.prepareQuorum then pick.None? && error == NoMajority(PreparePhase, |ps|, spec.prepareQuorum)
             else NoValueFor(spec, ps, error, pick)
    ensures Accounted(spec, a.(error := Some(error), pick := pick, stale := stale))
    ensures forall d :: !Tried(a.(error := Some(error), pick := pick, stale := stale), d)
  {
  }

  lemma {:induction false} BoundAccounted(spec: Spec, a: Attempt, choice: Choice, stale: Ballot)
    requires Opened(spec, a) && |PromisesIn(a.prepares)| >= spec.prepareQuorum
    requires Comes(spec, PromisesIn(a.prepares), choice) && DigestOf(choice.value).Some?
    ensures Accounted(spec, a.(error := Some(BallotBound), pick := Some(choice), stale := stale))
  {
    assert Tried(a.(error := Some(BallotBound), pick := Some(choice), stale := stale), DigestOf(choice.value).value);
  }

  /** The attempt once phase 2 has run. */
  ghost function Ended(first: Attempt, choice: Choice, asked: seq<Asked>, rs: seq<Refusal>, r: TryResult): Attempt {
    var a := first.(pick := Some(choice), accepts := asked, seen := first.seen + rs);
    if r.Failed? then a.(error := Some(r.error), stale := r.stale) else a
  }

  lemma {:induction false} SecondPhaseAccounted(spec: Spec, choice: Choice, first: Attempt, asked: seq<Asked>,
                                                rs: seq<Refusal>, r: TryResult)
    requires Opened(spec, first) && |PromisesIn(first.prepares)| >= spec.prepareQuorum
    requires Comes(spec, PromisesIn(first.prepares), choice) && DigestOf(choice.value).Some?
    requires Polled(asked, Targets(ElectorateOf(spec, choice.value).0)) && rs == RefusalsIn(spec.key, asked)
    requires var got, need := |AcceptsIn(spec.key, asked)|, ElectorateOf(spec, choice.value).1;
             if got < need then r.Failed? && r.error == NoMajority(AcceptPhase, got, need) else r.Decided?
    ensures Accounted(spec, Ended(first, choice, asked, rs, r))
  {
    var a := Ended(first, choice, asked, rs, r);
    assert AcceptedBy(spec, a, |AcceptsIn(spec.key, a.accepts)|, ElectorateOf(spec, choice.value).1);
  }

  lemma {:induction false} SecondPhaseTells(first: Attempt, choice: Choice, asked: seq<Asked>, rs: seq<Refusal>,
                                            r: TryResult, stale: Ballot, b: Ballot)
    requires HighestStale(first.seen, stale) && first.error.None? && StaleAbove(b, first.seen) && StaleAbove(b, rs)
    requires r.Failed? ==>
               && r.error.NoMajority? && r.error.got < r.error.need && !Below(r.stale, stale)
               && (r.stale == stale || exists i :: IsStale(rs, i) && r.stale == rs[i].promised)
               && forall i :: IsStale(rs, i) ==> !Below(r.stale, rs[i].promised)
    ensures Tells(Ended(first, choice, asked, rs, r), r, b)
  {
    var all := first.seen + rs;
    forall i | IsStale(all, i) ensures PromisedAbove(b, all[i].promised) {
      if i < |first.seen| { assert IsStale(first.seen, i); } else { assert IsStale(rs, i - |first.seen|); }
    }
    if r.Failed? { HighestStaleBoth(first.seen, rs, stale, r.stale); }
  }

  // ---- the attempts of a call ----

  /** A higher ballot may do better: a voter refused this one as stale, or the process had
      bound the round to another value. */
  ghost predicate Retryable(id: ProcId, a: Attempt) {
    && a.error.Some?
    && match a.error.value
       case NoMajority(_, _, _) => exists i :: IsStale(a.seen, i)
       case BallotBound => !BallotOf(id, a.round).IsZero()
       case _ => false
  }

  lemma {:induction false} StaleIffRetryable(id: ProcId, a: Attempt)
    requires a.error.Some? && StaleAnswer(a.error.value, a.stale, BallotOf(id, a.round), a.seen)
    requires StaleAbove(BallotOf(id, a.round), a.seen)
    ensures !a.stale.IsZero() <==> Retryable(id, a)
  {
    if a.error.value.NoMajority? {
      if i :| IsStale(a.seen, i) { assert a.seen[i].promised.round > 0; }
    }
  }

  /** The round an attempt asks for: the first, or above what refused the one before. */
  function Wanted(spec: Spec, tries: seq<Attempt>, i: nat): Round
    requires i < |tries|
  {
    if i > 0 then
      var above := tries[i - 1].stale.round;
      if above == MAX_ROUND then 0 else above + 1
    else if spec.startRound == 0 then 1
    else spec.startRound
  }

  /** Attempt i was given its round for the one it had to ask for, reports the refusals it
      saw, and follows an attempt that a higher ballot could better. */
  ghost predicate MadeAt(spec: Spec, id: ProcId, me: Proc, tries: seq<Attempt>, i: nat)
    requires i < |tries|
  {
    var a := tries[i];
    && a.index < |me.allocations|
    && me.allocations[a.index] == Allocation(spec.key, a.round, Wanted(spec, tries, i), spec.reuseRound && i == 0)
    && StaleAbove(BallotOf(id, a.round), a.seen)
    && (a.error.Some? ==> StaleAnswer(a.error.value, a.stale, BallotOf(id, a.round), a.seen))
    && (i > 0 ==> tries[i - 1].index < a.index && Retryable(id, tries[i - 1]))
  }

  /** A call's attempts, all made since the process was as it was. */
  ghost predicate Made(spec: Spec, id: ProcId, was: Proc, me: Proc, tries: seq<Attempt>) {
    && |was.allocations| <= |me.allocations|
    && (forall i: nat :: i < |tries| ==> MadeAt(spec, id, me, tries, i))
    && (tries != [] ==> |was.allocations| <= tries[0].index)
  }

  lemma {:induction false} MadeStays(spec: Spec, id: ProcId, was: Proc, me: Proc, later: Proc, tries: seq<Attempt>)
    requires Made(spec, id, was, me, tries) && ProcLater(me, later)
    ensures Made(spec, id, was, later, tries)
  {
    forall i: nat | i < |tries| ensures MadeAt(spec, id, later, tries, i) { assert MadeAt(spec, id, me, tries, i); }
  }

  lemma {:induction false} MadeMore(spec: Spec, id: ProcId, was: Proc, me: Proc, later: Proc, tries: seq<Attempt>,
                                    want: Round, a: Attempt)
    requires Made(spec, id, was, me, tries) && ProcLater(me, later)
    requires tries == [] ==> want == FirstRound(spec)
    requires tries != [] ==> RetriesAfter(id, tries[|tries| - 1], want)
    requires a.index == |me.allocations| < |later.allocations|
    requires later.allocations[a.index] == Allocation(spec.key, a.round, want, spec.reuseRound && tries == [])
    requires StaleAbove(BallotOf(id, a.round), a.seen)
    requires a.error.Some? ==> StaleAnswer(a.error.value, a.stale, BallotOf(id, a.round), a.seen)
    ensures Made(spec, id, was, later, tries + [a])
  {
    var more := tries + [a];
    MadeStays(spec, id, was, me, later, tries);
    forall i: nat | i < |more| ensures MadeAt(spec, id, later, more, i) {
      if i > 0 {
        assert MadeAt(spec, id, me, tries, i - 1);
        if i == |tries| { StaleIffRetryable(id, tries[i - 1]); }
      }
      if i < |tries| { assert MadeAt(spec, id, later, tries, i); }
    }
  }

  /** An attempt accounted for, its binding and what it answers. */
  ghost predicate Stands(spec: Spec, id: ProcId, run: seq<System>, a: Attempt, r: TryResult) {
    && Accounted(spec, a) && Tells(a, r, BallotOf(id, a.round))
    && Knows(run, id) && BindingTold(spec.key, run, id, a)
  }

  /** A decision is certified, at the attempt's ballot, with every accept it got, for the
      value it picked. */
  ghost predicate Wins(spec: Spec, id: ProcId, cfg: Config, s: System, a: Attempt, r: TryResult) {
    r.Decided? ==>
      && Certified(spec, cfg, s, r.out) && r.out.certificate.ballot == BallotOf(id, a.round)
      && |r.out.certificate.accepts| == |AcceptsIn(spec.key, a.accepts)|
      && a.pick.Some? && r.out.value == a.pick.value.value
  }

  /** The attempt that found its round bound to another value. */
  ghost function OnBound(first: Attempt, choice: Choice, b: Ballot): Attempt {
    first.(error := Some(BallotBound), pick := Some(choice), stale := b)
  }

  lemma {:induction false} BoundStands(spec: Spec, cfg: Config, run: seq<System>, ls: seq<Label>, id: ProcId, mine: nat,
                                       first: Attempt, choice: Choice)
    requires LabelledRun(cfg, run, ls) && Initial(run[0]) && Knows(run, id) && Unsent(ls, id, mine)
    requires Opened(spec, first) && |PromisesIn(first.prepares)| >= spec.prepareQuorum
    requires Comes(spec, PromisesIn(first.prepares), choice) && DigestOf(choice.value).Some?
    requires Holds(ProcIn(run, id), mine, spec.key, first.round) && StaleAbove(BallotOf(id, first.round), first.seen)
    requires !CanBind(ProcIn(run, id), spec.key, first.round, DigestOf(choice.value).value)
    ensures var b := BallotOf(id, first.round);
            Stands(spec, id, run, OnBound(first, choice, b), Failed(BallotBound, b))
  {
    var b := BallotOf(id, first.round);
    BoundAccounted(spec, first, choice, b);
    BoundTold(cfg, run, ls, spec.key, id, mine, OnBound(first, choice, b));
  }

  // ---- how a call ends ----

  /** When the caller's context ends: before an attempt, or in the backoff after it. */
  datatype Context = Context(doneBefore: nat -> bool, doneInBackoff: nat -> bool)

  function CallsOf(tries: seq<Attempt>): seq<Asked> {
    if tries == [] then []
    else
      var last := tries[|tries| - 1];
      CallsOf(tries[..|tries| - 1]) + last.prepares + last.accepts
  }

  /** Every digest Propose built during the call. */
  function OwnOf(tries: seq<Attempt>): set<Digest> {
    if tries == [] then {} else OwnOf(tries[..|tries| - 1]) + BuiltDigest(tries[|tries| - 1].pick)
  }

  lemma {:induction false} OwnMeaning(tries: seq<Attempt>, d: Digest)
    ensures d in OwnOf(tries) <==> exists i :: 0 <= i < |tries| && d in BuiltDigest(tries[i].pick)
  {
    if tries != [] {
      var n := |tries| - 1;
      OwnMeaning(tries[..n], d);
      if i :| 0 <= i < n && d in BuiltDigest(tries[..n][i].pick) { assert d in BuiltDigest(tries[i].pick); }
      if i :| 0 <= i < |tries| && d in BuiltDigest(tries[i].pick) {
        if i < n { assert d in BuiltDigest(tries[..n][i].pick); }
      }
    }
  }

  ghost predicate AllAccounted(spec: Spec, tries: seq<Attempt>) {
    forall i :: 0 <= i < |tries| ==> Accounted(spec, tries[i])
  }

  function LastError(tries: seq<Attempt>): Option<Error> {
    if tries == [] then Some(Cancelled) else tries[|tries| - 1].error
  }

  ghost predicate MayGiveUp(spec: Spec, id: ProcId, ctx: Context, tries: seq<Attempt>) {
    var n := |tries|;
    || ctx.doneBefore(n) || n == (if spec.maxRounds <= 0 then 8 else spec.maxRounds)
    || (n > 0 && (!Retryable(id, tries[n - 1]) || ctx.doneInBackoff(n - 1)))
  }

  /** In this attempt Propose built a value with that digest. */
  ghost predicate BuiltHere(a: Attempt, d: Digest) {
    a.pick.Some? && a.pick.value.origin == FromPropose && DigestOf(a.pick.value.value) == Some(d)
  }

  /** The outcome is the last attempt's: the value it picked, certified with every accept
      it got, and called ours exactly when Propose built its digest during this call. */
  ghost predicate EndsWith(spec: Spec, id: ProcId, tries: seq<Attempt>, out: Outcome) {
    && tries != []
    && var a := tries[|tries| - 1];
       && a.error.None? && a.pick.Some? && out.value == a.pick.value.value
       && out.certificate.ballot == BallotOf(id, a.round)
       && |out.certificate.accepts| == |AcceptsIn(spec.key, a.accepts)|
       && (out.ours <==> exists i :: 0 <= i < |tries| && BuiltHere(tries[i], out.digest))
  }

  lemma {:induction false} Regrouped(a: seq<Asked>, b: seq<Asked>, c: seq<Asked>, d: seq<Asked>)
    ensures a + (b + c + d) == a + b + c + d
  {
  }

  lemma {:induction false} CallsMore(spec: Spec, first: seq<Asked>, tries: seq<Attempt>, a: Attempt)
    requires AllAccounted(spec, tries) && Accounted(spec, a)
    ensures AllAccounted(spec, tries + [a]) && LastError(tries + [a]) == a.error
    ensures OwnOf(tries + [a]) == OwnOf(tries) + BuiltDigest(a.pick)
    ensures first + CallsOf(tries + [a]) == first + CallsOf(tries) + a.prepares + a.accepts
  {
    assert (tries + [a])[..|tries|] == tries;
    Regrouped(first, CallsOf(tries), a.prepares, a.accepts);
  }

  /** What a call has to show for its attempts: the calls it made since first, each
      attempt accounted for, its bindings, and the digests Propose built. */
  ghost predicate Logged(spec: Spec, id: ProcId, run: seq<System>, first: seq<Asked>, calls: seq<Asked>,
                         tries: seq<Attempt>, own: set<Digest>)
    requires Knows(run, id)
  {
    && calls == first + CallsOf(tries) && AllAccounted(spec, tries) && AllTold(spec.key, run, id, tries)
    && own == OwnOf(tries)
  }

  lemma {:induction false} LoggedMore(spec: Spec, id: ProcId, cfg: Config, was: seq<System>, run: seq<System>,
                                      ls: seq<Label>, first: seq<Asked>, calls: seq<Asked>, tries: seq<Attempt>,
                                      own: set<Digest>, a: Attempt)
    requires LabelledRun(cfg, run, ls) && was <= run && Knows(was, id) && Knows(run, id)
    requires Logged(spec, id, was, first, calls, tries, own)
    requires Accounted(spec, a) && BindingTold(spec.key, run, id, a)
    ensures Logged(spec, id, run, first, calls + a.prepares + a.accepts, tries + [a], own + BuiltDigest(a.pick))
    ensures LastError(tries + [a]) == a.error
  {
    CallsMore(spec, first, tries, a);
    AllStay(cfg, was, run, ls, spec.key, id, tries, a);
  }

  lemma {:induction false} LoggedLater(spec: Spec, id: ProcId, cfg: Config, was: seq<System>, run: seq<System>,
                                       ls: seq<Label>, first: seq<Asked>, calls: seq<Asked>, tries: seq<Attempt>,
                                       own: set<Digest>)
    requires LabelledRun(cfg, run, ls) && was <= run && Knows(was, id) && Knows(run, id)
    requires Logged(spec, id, was, first, calls, tries, own)
    ensures Logged(spec, id, run, first, calls, tries, own)
  {
    forall i | 0 <= i < |tries| ensures BindingTold(spec.key, run, id, tries[i]) {
      BindingStays(cfg, was, run, ls, spec.key, id, tries[i]);
    }
  }

  lemma {:induction false} OutcomeEnds(spec: Spec, id: ProcId, tries: seq<Attempt>, a: Attempt, out: Outcome)
    requires a.error.None? && a.pick.Some? && out.value == a.pick.value.value
    requires out.certificate.ballot == BallotOf(id, a.round)
    requires |out.certificate.accepts| == |AcceptsIn(spec.key, a.accepts)|
    requires out.ours <==> out.digest in OwnOf(tries + [a])
    ensures EndsWith(spec, id, tries + [a], out)
  {
    var more := tries + [a];
    OwnMeaning(more, out.digest);
    if out.ours {
      var i :| 0 <= i < |more| && out.digest in BuiltDigest(more[i].pick);
      assert BuiltHere(more[i], out.digest);
    }
    if i :| 0 <= i < |more| && BuiltHere(more[i], out.digest) { assert out.digest in BuiltDigest(more[i].pick); }
  }

  /** The whole cluster, with every step it has taken. */
  class World {
    var sys: System
    const generation: int
    const members: map<string, string>
    ghost const cfg: Config
    ghost var history: seq<System>
    ghost var labels: seq<Label>

    ghost predicate Valid()
      reads this
    {
      && LabelledRun(cfg, history, labels) && Initial(history[0]) && history[|history| - 1] == sys
      && cfg.generation == generation && cfg.members == members
    }

    constructor (ghost cfg: Config, generation: int, members: map<string, string>, sys: System)
      requires Initial(sys) && cfg.generation == generation && cfg.members == members
      ensures Valid() && this.cfg == cfg && this.sys == sys && history == [sys]
    {
      this.cfg, this.generation, this.members, this.sys := cfg, generation, members, sys;
      history, labels := [sys], [];
    }

    method Take(l: Label)
      requires Valid() && Enabled(cfg, sys, l)
      modifies this
      ensures Valid() && sys == After(old(sys), l)
      ensures history == old(history) + [sys] && labels == old(labels) + [l]
    {
      Stepped(cfg, history, labels, l);
      sys := After(sys, l);
      history, labels := history + [sys], labels + [l];
    }
  }

  /** What has happened by some moment. */
  datatype Mark = Mark(history: seq<System>, labels: seq<Label>, net: set<Msg>)

  /** Proposer: one per process. used and bound change only under its mutex, so
      each of Ballot and Bind is one step; anything may happen in between. */
  class Proposer {
    const self: string
    const nonce: string
    const world: World
    var used: map<ClaimKey, Round>
    var bound: map<ClaimKey, map<Round, Digest>>
    /** Every call made so far, with its answer. */
    ghost var calls: seq<Asked>

    function Id(): ProcId { ProcId(self, nonce) }

    /** This object is the process the system knows by its name and nonce. */
    ghost predicate Valid()
      reads this, world
    {
      && world.Valid() && Id() in world.sys.procs
      && world.sys.procs[Id()].used == used
      && world.sys.procs[Id()].bound == bound
    }

    ghost function Me(): Proc
      reads this, world
      requires Id() in world.sys.procs
    {
      world.sys.procs[Id()]
    }

    /** History has only been added to. */
    twostate predicate Grows()
      reads this, world
    {
      old(world.history) <= world.history && old(world.labels) <= world.labels && old(world.sys).net <= world.sys.net
    }

    ghost function Now(): Mark
      reads world
    {
      Mark(world.history, world.labels, world.sys.net)
    }

    ghost predicate Since(m: Mark)
      reads world
    {
      m.history <= world.history && m.labels <= world.labels && m.net <= world.sys.net
    }

    /** NewProposer: joins the system under a nonce nobody has used. */
    constructor (self: string, nonce: string, world: World)
      requires world.Valid() && ProcId(self, nonce) !in world.sys.procs
      modifies world
      ensures Valid() && this.self == self && this.nonce == nonce && this.world == world
      ensures used == map[] && bound == map[] && calls == []
      ensures world.labels == old(world.labels) + [Starts(ProcId(self, nonce))]
    {
      this.self, this.nonce, this.world := self, nonce, world;
      used, bound, calls := map[], map[], [];
      new;
      world.Take(Starts(ProcId(self, nonce)));
    }

    /** Any number of steps of anybody, this process's other calls included; only attempt
        mine is this call's own to send. */
    method Others(ghost mine: nat)
      requires Valid()
      modifies world, this`used, this`bound
      ensures Valid() && old(world.history) <= world.history && old(world.labels) <= world.labels
      ensures Unsent(old(world.labels), Id(), mine) ==> Unsent(world.labels, Id(), mine)
    {
    }

    method Interfere(ghost mine: nat)
      requires Valid()
      modifies world, this`used, this`bound
      ensures Valid() && Grows() && ProcLater(old(Me()), Me())
      ensures Unsent(old(world.labels), Id(), mine) ==> Unsent(world.labels, Id(), mine)
    {
      Others(mine);
      Onward(world.cfg, world.history, world.labels, |old(world.history)| - 1, |world.history| - 1, Id());
    }

    /** ballot: allocate a round for key and announce phase 1 at it, as attempt mine. */
    method Ballot(key: ClaimKey, want: Round, reuse: bool) returns (b: Ballot, mine: nat)
      requires Valid()
      modifies world, this`used
      ensures Valid() && Grows() && mine == |old(Me()).allocations| && Unsent(world.labels, Id(), mine)
      ensures b == BallotOf(Id(), AllocatedRound(old(Me()), key, want, reuse))
      ensures b.coordinator == self && b.nonce == nonce
      ensures Me() == Allocate(old(Me()), key, want, reuse) && used == old(used)[key := b.round]
      ensures PrepareReq(key, b) in world.sys.net
      ensures world.labels == old(world.labels) + [Allocates(Id(), key, want, reuse)]
    {
      mine := |world.sys.procs[Id()].allocations|;
      NewAttemptUnsent(world.cfg, world.history, world.labels, Id());
      var r := want;
      var last := if key in used then used[key] else 0;
      if reuse && want > 0 && want == last {
      } else if r <= last {
        r := NextRound(last);
      }
      used := used[key := r];
      b := ClaimTypes.Ballot.Ballot(r, self, nonce);
      world.Take(Allocates(Id(), key, want, reuse));
    }

    /** bind: a round already bound to another digest is refused. */
    method Bind(key: ClaimKey, round: Round, digest: Digest) returns (ok: bool)
      modifies this`bound
      ensures ok <==> !(key in old(bound) && round in old(bound)[key] && old(bound)[key][round] != digest)
      ensures ok ==> forall p: Proc :: p.bound == old(bound) ==>
                CanBind(p, key, round, digest) && ClaimSystem.Bind(p, key, round, digest).bound == bound
      ensures !ok ==> bound == old(bound)
    {
      if key !in bound {
        bound := bound[key := map[]];
      }
      var byRound: map<Round, Digest> := bound[key];
      if round in byRound && byRound[round] != digest {
        return false;
      }
      bound := bound[key := byRound[round := digest]];
      return true;
    }

    /** A member's transaction on a prepare request. */
    method RunPrepare(voter: string, key: ClaimKey, b: Ballot) returns (reply: PrepareReply)
      requires Valid() && PrepareReq(key, b) in world.sys.net && voter in world.sys.voters
      modifies world
      ensures Valid() && Grows() && Me() == old(Me()) && PrepareAbove(b, Some(reply))
      ensures reply.PrepareRefused? && reply.reason == BallotStale ==>
                && voter in world.sys.voters && key in world.sys.voters[voter]
                && reply.promised == world.sys.voters[voter][key].promised
      ensures forall p, n :: Unsent(old(world.labels), p, n) ==> Unsent(world.labels, p, n)
      ensures reply.Promise? ==> PromiseMsg(voter, key, b, PromiseInfo(reply.state, reply.legacy)) in world.sys.net
    {
      BallotsTotal(RowAt(world.sys.voters[voter], key).promised, b);
      reply := ClaimPrepare(world.sys.voters[voter], key, b).1;
      if reply.Promise? { world.Take(VoterPrepares(voter, key, b)); }
    }

    /** Transport.Prepare: the voter runs its transaction, unless it is not a member of
        this generation or refuses for reasons of its own. None is "no answer": the
        request or the reply was lost. */
    method Prepare(voter: string, key: ClaimKey, generation: int, b: Ballot, ghost mine: nat)
      returns (reply: Option<PrepareReply>)
      requires Valid() && PrepareReq(key, b) in world.sys.net
      modifies world, this
      ensures Valid() && Grows() && ProcLater(old(Me()), Me())
      ensures Unsent(old(world.labels), Id(), mine) ==> Unsent(world.labels, Id(), mine)
      ensures calls == old(calls) + [AskedPrepare(voter, reply)] && PrepareAbove(b, reply)
      ensures reply.Some? && reply.value.Promise? ==>
                PromiseMsg(voter, key, b, PromiseInfo(reply.value.state, reply.value.legacy)) in world.sys.net
    {
      Interfere(mine);
      reply := None;
      var reached, refused, lost: bool := *, *, *;
      if reached && voter in world.sys.voters {
        if refused || voter !in world.members || generation != world.generation {
          reply := Some(PrepareRefused(OtherRefusal, ZERO_BALLOT));
        } else {
          var answer := RunPrepare(voter, key, b);
          if !lost { reply := Some(answer); }
        }
      }
      calls := calls + [AskedPrepare(voter, reply)];
    }

    /** Ask one voter and keep what it answers. */
    method PrepareNext(spec: Spec, b: Ballot, w: string, ps0: Promises, rs0: seq<Refusal>, ghost asked0: seq<Asked>,
                       ghost mine: nat)
      returns (ps: Promises, rs: seq<Refusal>, ghost asked: seq<Asked>)
      requires Valid() && PrepareReq(spec.key, b) in world.sys.net && w in Targets(spec.voters)
      requires ps0 == PromisesIn(asked0) && rs0 == RefusalsIn(spec.key, asked0) && ps0.Keys <= Targets(spec.voters)
      requires Promised(world.sys.net, spec.key, b, ps0) && StaleAbove(b, rs0)
      modifies world, this
      ensures Valid() && Grows() && ProcLater(old(Me()), Me())
      ensures Unsent(old(world.labels), Id(), mine) ==> Unsent(world.labels, Id(), mine)
      ensures |asked| == |asked0| + 1 && asked == asked0 + [asked[|asked0|]] && asked[|asked0|].voter == w
      ensures calls == old(calls) + [asked[|asked0|]]
      ensures ps == PromisesIn(asked) && rs == RefusalsIn(spec.key, asked) && ps.Keys <= Targets(spec.voters)
      ensures Promised(world.sys.net, spec.key, b, ps) && StaleAbove(b, rs)
    {
      var res := Prepare(w, spec.key, spec.generation, b, mine);
      ps, rs := NotePrepare(spec.key, ps0, rs0, w, res, asked0, b);
      asked := asked0 + [AskedPrepare(w, res)];
    }

    /** prepareAll: ask every distinct voter once and keep what each one answers. */
    method PrepareAll(spec: Spec, b: Ballot, ghost mine: nat)
      returns (ps: Promises, rs: seq<Refusal>, ghost asked: seq<Asked>)
      requires Valid() && PrepareReq(spec.key, b) in world.sys.net
      modifies world, this
      ensures Valid() && Grows() && ProcLater(old(Me()), Me())
      ensures Unsent(old(world.labels), Id(), mine) ==> Unsent(world.labels, Id(), mine)
      ensures calls == old(calls) + asked && Polled(asked, Targets(spec.voters))
      ensures ps == PromisesIn(asked) && rs == RefusalsIn(spec.key, asked) && ps.Keys <= Targets(spec.voters)
      ensures Promised(world.sys.net, spec.key, b, ps) && StaleAbove(b, rs)
      ensures PromisesAre(asked, ps) && RefusalsAre(spec.key, asked, rs)
    {
      var targets := Dedup(spec.voters);
      ps, rs, asked := map[], [], [];
      for i := 0 to |targets|
        invariant Valid() && Grows() && ProcLater(old(Me()), Me())
        invariant Unsent(old(world.labels), Id(), mine) ==> Unsent(world.labels, Id(), mine)
        invariant calls == old(calls) + asked && Follow(asked, targets, i)
        invariant ps == PromisesIn(asked) && rs == RefusalsIn(spec.key, asked) && ps.Keys <= Targets(spec.voters)
        invariant Promised(world.sys.net, spec.key, b, ps) && StaleAbove(b, rs)
      {
        ghost var was := asked;
        assert targets[i] in targets;
        ps, rs, asked := PrepareNext(spec, b, targets[i], ps, rs, asked, mine);
        FollowMore(was, targets, i, asked[i]);
      }
      AllPolled(asked, targets, Targets(spec.voters));
      PromisesMeaning(asked);
      RefusalsMeaning(spec.key, asked);
    }

    /** A member's transaction on an accept request, signed if it accepts. */
    method RunAccept(voter: string, key: ClaimKey, b: Ballot, v: ClaimValue) returns (answer: AcceptAnswer)
      requires Valid() && AcceptReq(key, b, v) in world.sys.net && DigestOf(v).Some?
      requires voter in world.sys.voters && voter in world.members
      modifies world
      ensures Valid() && Grows() && Me() == old(Me()) && AcceptAbove(b, Some(answer))
      ensures answer.reason == BallotStale ==>
                && voter in world.sys.voters && key in world.sys.voters[voter]
                && answer.promised == world.sys.voters[voter][key].promised
      ensures answer.accept.Some? ==>
                && Signed(world.cfg, world.sys.net, answer.accept.value)
                && IsFor(answer.accept.value, key, world.generation, b, DigestOf(v).value)
    {
      var checked: bool := *;
      BallotsTotal(RowAt(world.sys.voters[voter], key).promised, b);
      var (_, r) := ClaimVoter.ClaimAccept(world.sys.voters[voter], key, b, v, checked);
      if r.AcceptRefused? { return AcceptAnswer(None, r.reason, r.promised); }
      world.Take(VoterAccepts(voter, key, b, v, checked));
      var signed := ClaimSpec.ClaimAccept.ClaimAccept(voter, world.members[voter], world.generation, key, b, r.digest);
      return AcceptAnswer(Some(signed), OtherRefusal, ZERO_BALLOT);
    }

    /** Transport.Accept: the voter runs its transaction on this request and signs the
        outcome. What a voter on another build answers may be for another key. */
    method Accept(voter: string, key: ClaimKey, generation: int, b: Ballot, v: ClaimValue, ghost mine: nat)
      returns (reply: Option<AcceptAnswer>)
      requires Valid() && AcceptReq(key, b, v) in world.sys.net && DigestOf(v).Some?
      modifies world, this
      ensures Valid() && Grows() && ProcLater(old(Me()), Me())
      ensures calls == old(calls) + [AskedAccept(voter, reply)] && AcceptAbove(b, reply)
      ensures reply.Some? && reply.value.accept.Some? ==>
                var a := reply.value.accept.value;
                a.voter == voter && a.key == key ==>
                  Signed(world.cfg, world.sys.net, a) && IsFor(a, key, generation, b, DigestOf(v).value)
    {
      Interfere(mine);
      reply := None;
      var reached, refused, foreign, lost: bool := *, *, *, *;
      var other: ClaimAccept := *;
      if foreign && (other.voter != voter || other.key != key) {
        reply := Some(AcceptAnswer(Some(other), OtherRefusal, ZERO_BALLOT));
      } else if reached && voter in world.sys.voters {
        if refused || voter !in world.members || generation != world.generation {
          reply := Some(AcceptAnswer(None, OtherRefusal, ZERO_BALLOT));
        } else {
          var answer := RunAccept(voter, key, b, v);
          if !lost { reply := Some(answer); }
        }
      }
      calls := calls + [AskedAccept(voter, reply)];
    }

    /** Ask one target and keep what it answers. */
    method AcceptNext(spec: Spec, b: Ballot, v: ClaimValue, w: string, ghost targets: seq<string>,
                      accepts0: map<string, ClaimAccept>, rs0: seq<Refusal>, ghost asked0: seq<Asked>, ghost mine: nat)
      returns (accepts: map<string, ClaimAccept>, rs: seq<Refusal>, ghost asked: seq<Asked>)
      requires Valid() && AcceptReq(spec.key, b, v) in world.sys.net && DigestOf(v).Some? && w in Targets(targets)
      requires accepts0 == AcceptsIn(spec.key, asked0) && rs0 == RefusalsIn(spec.key, asked0)
      requires accepts0.Keys <= Targets(targets) && StaleAbove(b, rs0)
      requires Sent(world.cfg, world.sys.net, spec.key, spec.generation, b, DigestOf(v).value, accepts0)
      modifies world, this
      ensures Valid() && Grows() && ProcLater(old(Me()), Me())
      ensures |asked| == |asked0| + 1 && asked == asked0 + [asked[|asked0|]] && asked[|asked0|].voter == w
      ensures calls == old(calls) + [asked[|asked0|]]
      ensures accepts == AcceptsIn(spec.key, asked) && rs == RefusalsIn(spec.key, asked)
      ensures accepts.Keys <= Targets(targets) && StaleAbove(b, rs)
      ensures Sent(world.cfg, world.sys.net, spec.key, spec.generation, b, DigestOf(v).value, accepts)
    {
      var d := DigestOf(v).value;
      var res := Accept(w, spec.key, spec.generation, b, v, mine);
      SentLater(world.cfg, old(world.sys.net), world.sys.net, spec.key, spec.generation, b, d, accepts0);
      if res.Some? && res.value.accept.Some? {
        var a := res.value.accept.value;
        if a.voter == w && a.key == spec.key {
          SentMore(world.cfg, world.sys.net, spec.key, spec.generation, b, d, accepts0, a);
        }
      }
      accepts, rs := NoteAccept(spec.key, accepts0, rs0, w, res, asked0, b);
      asked := asked0 + [AskedAccept(w, res)];
    }

    /** acceptAll: an accept counts only from the voter asked and for the key it signs. */
    method AcceptAll(spec: Spec, b: Ballot, v: ClaimValue, targets: seq<string>, ghost mine: nat)
      returns (accepts: map<string, ClaimAccept>, rs: seq<Refusal>, ghost asked: seq<Asked>)
      requires Valid() && AcceptReq(spec.key, b, v) in world.sys.net && DigestOf(v).Some?
      modifies world, this
      ensures Valid() && Grows() && ProcLater(old(Me()), Me())
      ensures calls == old(calls) + asked && Polled(asked, Targets(targets))
      ensures accepts == AcceptsIn(spec.key, asked) && rs == RefusalsIn(spec.key, asked)
      ensures accepts.Keys <= Targets(targets)
      ensures Sent(world.cfg, world.sys.net, spec.key, spec.generation, b, DigestOf(v).value, accepts)
      ensures StaleAbove(b, rs)
      ensures AcceptsAre(spec.key, asked, accepts) && RefusalsAre(spec.key, asked, rs)
    {
      var names := Dedup(targets);
      var d := DigestOf(v).value;
      accepts, rs, asked := map[], [], [];
      for i := 0 to |names|
        invariant Valid() && Grows() && ProcLater(old(Me()), Me())
        invariant calls == old(calls) + asked && Follow(asked, names, i)
        invariant accepts == AcceptsIn(spec.key, asked) && rs == RefusalsIn(spec.key, asked)
        invariant accepts.Keys <= Targets(targets)
        invariant Sent(world.cfg, world.sys.net, spec.key, spec.generation, b, d, accepts)
        invariant StaleAbove(b, rs)
      {
        ghost var was := asked;
        assert names[i] in names;
        accepts, rs, asked := AcceptNext(spec, b, v, names[i], targets, accepts, rs, asked, mine);
        FollowMore(was, names, i, asked[i]);
      }
      AllPolled(asked, names, Targets(targets));
      AcceptsMeaning(spec.key, asked);
      RefusalsMeaning(spec.key, asked);
    }

    /** Phase 2 from the bound value: a certificate of every accept, or the refusals. */
    method AcceptPhaseOf(spec: Spec, b: Ballot, v: ClaimValue, ours: bool, stale: Ballot, ghost mine: nat)
      returns (r: TryResult, rs: seq<Refusal>, ghost asked: seq<Asked>)
      requires Valid() && AcceptReq(spec.key, b, v) in world.sys.net && DigestOf(v).Some?
      modifies world, this
      ensures Valid() && Grows() && ProcLater(old(Me()), Me())
      ensures calls == old(calls) + asked && Polled(asked, Targets(ElectorateOf(spec, v).0))
      ensures rs == RefusalsIn(spec.key, asked) && StaleAbove(b, rs)
      ensures var got, need := |AcceptsIn(spec.key, asked)|, ElectorateOf(spec, v).1;
              if got < need then r.Failed? && r.error == NoMajority(AcceptPhase, got, need)
              else r.Decided? && |r.out.certificate.accepts| == got
      ensures r.Decided? ==> Certified(spec, world.cfg, world.sys, r.out)
      ensures r.Decided? ==> r.out.certificate.ballot == b && r.out.value == v && r.out.ours == ours
      ensures r.Failed? ==> (r.stale == stale || exists i :: IsStale(rs, i) && r.stale == rs[i].promised)
      ensures r.Failed? ==> !Below(r.stale, stale) && forall i :: IsStale(rs, i) ==> !Below(r.stale, rs[i].promised)
    {
      var (targets, quorum) := ElectorateOf(spec, v);
      var accepts;
      accepts, rs, asked := AcceptAll(spec, b, v, targets, mine);
      var highest := NoteStale(stale, rs);
      if |accepts| < quorum {
        return Failed(NoMajority(AcceptPhase, |accepts|, quorum), highest), rs, asked;
      }
      var sorted := SortAccepts(accepts);
      var d := DigestOf(v).value;
      var cert := Certificate(spec.key, spec.generation, b, d, v.sourceHost, sorted);
      return Decided(Outcome(v, d, cert, ours)), rs, asked;
    }

    /** Bind the value to the ballot and, if the round is free for it, send it. */
    method BindAndSend(spec: Spec, b: Ballot, ps: Promises, v: ClaimValue, mine: nat) returns (ok: bool)
      requires Valid() && Fits(spec, world.cfg) && b == BallotOf(Id(), b.round)
      requires Holds(Me(), mine, spec.key, b.round)
      requires ps.Keys <= Targets(spec.voters) && |ps| >= spec.prepareQuorum
      requires Promised(world.sys.net, spec.key, b, ps)
      requires DigestOf(v).Some? && MayPropose(world.cfg, spec.key, ps, v)
      modifies world, this`bound
      ensures Valid() && Grows()
      ensures ok <==> CanBind(old(Me()), spec.key, b.round, DigestOf(v).value)
      ensures ok ==> AcceptReq(spec.key, b, v) in world.sys.net
      ensures ok ==> Me() == ClaimSystem.Bind(old(Me()), spec.key, b.round, DigestOf(v).value)
      ensures ok ==> BoundTo(Me(), spec.key, b.round, DigestOf(v).value)
      ensures !ok ==> Me() == old(Me()) && world.history == old(world.history) && world.labels == old(world.labels)
    {
      ok := Bind(spec.key, b.round, DigestOf(v).value);
      if ok {
        assert |ps.Keys| == |ps|;
        world.Take(Proposes(Id(), mine, spec.key, b, v, ps));
      }
    }

    /** Bind the value picked, whatever others have done meanwhile, or say it is bound. */
    method BindChoice(spec: Spec, b: Ballot, ps: Promises, choice: Choice, mine: nat, ghost first: Attempt)
      returns (ok: bool)
      requires Valid() && Fits(spec, world.cfg) && b == BallotOf(Id(), b.round) && first.round == b.round
      requires Holds(Me(), mine, spec.key, b.round) && Unsent(world.labels, Id(), mine)
      requires ps.Keys <= Targets(spec.voters) && Promised(world.sys.net, spec.key, b, ps)
      requires DigestOf(choice.value).Some? && Comes(spec, ps, choice) && StaleAbove(b, first.seen)
      requires Opened(spec, first) && ps == PromisesIn(first.prepares) && |ps| >= spec.prepareQuorum
      modifies world, this`used, this`bound
      ensures Valid() && Grows()
      ensures ok ==> AcceptReq(spec.key, b, choice.value) in world.sys.net
      ensures ok ==> BoundTo(Me(), spec.key, b.round, DigestOf(choice.value).value)
      ensures !ok ==> Stands(spec, Id(), world.history, OnBound(first, choice, b), Failed(BallotBound, b))
    {
      Interfere(mine);
      ComesMayPropose(spec, world.cfg, ps, choice);
      ok := BindAndSend(spec, b, ps, choice.value, mine);
      if !ok { BoundStands(spec, world.cfg, world.history, world.labels, Id(), mine, first, choice); }
    }

    /** try once the value is bound and sent: phase 2. */
    method OnceBound(spec: Spec, b: Ballot, choice: Choice, ours: bool, stale: Ballot, ghost mine: nat,
                     ghost first: Attempt)
      returns (r: TryResult, ghost a: Attempt)
      requires Valid() && b == BallotOf(Id(), b.round) && first.round == b.round
      requires AcceptReq(spec.key, b, choice.value) in world.sys.net
      requires DigestOf(choice.value).Some? && Comes(spec, PromisesIn(first.prepares), choice)
      requires BoundTo(Me(), spec.key, b.round, DigestOf(choice.value).value)
      requires Opened(spec, first) && |PromisesIn(first.prepares)| >= spec.prepareQuorum
      requires HighestStale(first.seen, stale) && StaleAbove(b, first.seen)
      modifies world, this
      ensures Valid() && Grows()
      ensures calls == old(calls) + a.accepts
      ensures a.index == first.index && a.prepares == first.prepares && a.round == b.round && a.pick == Some(choice)
      ensures Stands(spec, Id(), world.history, a, r) && Wins(spec, Id(), world.cfg, world.sys, a, r)
      ensures r.Decided? ==> r.out.ours == ours
    {
      ghost var asked;
      var qs;
      r, qs, asked := AcceptPhaseOf(spec, b, choice.value, ours, stale, mine);
      SecondPhaseAccounted(spec, choice, first, asked, qs, r);
      SecondPhaseTells(first, choice, asked, qs, r, stale, b);
      a := Ended(first, choice, asked, qs, r);
      assert Tried(a, DigestOf(choice.value).value);
      SentTold(world.history, spec.key, Id(), old(Me()), a, DigestOf(choice.value).value);
    }

    /** try from a quorum of promises on: bind the value, then phase 2. */
    method SecondPhase(spec: Spec, b: Ballot, ps: Promises, choice: Choice, ours: bool, stale: Ballot, mine: nat,
                       ghost first: Attempt)
      returns (r: TryResult, ghost a: Attempt)
      requires Valid() && Fits(spec, world.cfg) && b == BallotOf(Id(), b.round) && first.round == b.round
      requires Holds(Me(), mine, spec.key, b.round) && Unsent(world.labels, Id(), mine)
      requires ps.Keys <= Targets(spec.voters) && Promised(world.sys.net, spec.key, b, ps)
      requires DigestOf(choice.value).Some? && Comes(spec, ps, choice)
      requires Opened(spec, first) && ps == PromisesIn(first.prepares) && |ps| >= spec.prepareQuorum
      requires HighestStale(first.seen, stale) && StaleAbove(b, first.seen)
      modifies world, this
      ensures Valid() && Grows()
      ensures calls == old(calls) + a.accepts
      ensures a.index == first.index && a.prepares == first.prepares && a.round == b.round && a.pick == Some(choice)
      ensures Stands(spec, Id(), world.history, a, r) && Wins(spec, Id(), world.cfg, world.sys, a, r)
      ensures r.Decided? ==> r.out.ours == ours
    {
      var ok := BindChoice(spec, b, ps, choice, mine, first);
      if !ok {
        assert calls == old(calls) + [];
        return Failed(BallotBound, b), OnBound(first, choice, b);
      }
      r, a := OnceBound(spec, b, choice, ours, stale, mine, first);
    }

    /** try up to the promises: them, and the highest stale promise instead of one. */
    method FirstPhase(spec: Spec, b: Ballot, ghost mine: nat)
      returns (ps: Promises, stale: Ballot, ghost first: Attempt)
      requires Valid() && Fits(spec, world.cfg) && PrepareReq(spec.key, b) in world.sys.net
      modifies world, this
      ensures Valid() && Grows() && ProcLater(old(Me()), Me())
      ensures Unsent(old(world.labels), Id(), mine) ==> Unsent(world.labels, Id(), mine)
      ensures calls == old(calls) + first.prepares && Opened(spec, first)
      ensures first.index == mine && first.round == b.round
      ensures ps == PromisesIn(first.prepares) && HighestStale(first.seen, stale) && StaleAbove(b, first.seen)
      ensures ps.Keys <= Targets(spec.voters) && Promised(world.sys.net, spec.key, b, ps)
      ensures RealAccepted(ps) && (spec.key.incarnation != "" ==> RealLegacy(ps))
    {
      var rs;
      ghost var asked;
      ps, rs, asked := PrepareAll(spec, b, mine);
      first := Attempt(mine, b.round, asked, None, [], rs, None, ZERO_BALLOT);
      stale := NoteStale(ZERO_BALLOT, rs);
      Onward(world.cfg, world.history, world.labels, |world.history| - 1, |world.history| - 1, Id());
      PromisesReal(world.cfg, world.sys, spec.key, b, ps);
    }

    /** try: both phases at one ballot. own is every digest Propose built so far, a the
        attempt as its calls tell it. */
    method Try(spec: Spec, b: Ballot, own: set<Digest>, mine: nat)
      returns (r: TryResult, own': set<Digest>, ghost a: Attempt)
      requires Valid() && Fits(spec, world.cfg) && b == BallotOf(Id(), b.round)
      requires Holds(Me(), mine, spec.key, b.round) && Unsent(world.labels, Id(), mine)
      requires PrepareReq(spec.key, b) in world.sys.net
      modifies world, this
      ensures Valid() && Grows()
      ensures calls == old(calls) + a.prepares + a.accepts && a.index == mine && a.round == b.round
      ensures Stands(spec, Id(), world.history, a, r) && Wins(spec, Id(), world.cfg, world.sys, a, r)
      ensures own' == own + BuiltDigest(a.pick)
      ensures r.Decided? ==> (r.out.ours <==> r.out.digest in own')
    {
      own' := own;
      var ps, stale;
      ps, stale, a := FirstPhase(spec, b, mine);
      if |ps| < spec.prepareQuorum {
        r := Failed(NoMajority(PreparePhase, |ps|, spec.prepareQuorum), stale);
        FirstPhaseAccounted(spec, a, r.error, None, stale);
        a := a.(error := Some(r.error), pick := None, stale := stale);
        return;
      }
      var picked;
      picked, own' := PickValue(spec, ps, own);
      if picked.NoPick? {
        FirstPhaseAccounted(spec, a, picked.error, picked.rejected, ZERO_BALLOT);
        a := a.(error := Some(picked.error), pick := picked.rejected, stale := ZERO_BALLOT);
        return Failed(picked.error, ZERO_BALLOT), own', a;
      }
      r, a := SecondPhase(spec, b, ps, picked.choice, picked.ours, stale, mine, a);
    }

    /** A ballot, then both phases at it. */
    method AtNewBallot(spec: Spec, want: Round, reuse: bool, own: set<Digest>, ghost tries: seq<Attempt>)
      returns (r: TryResult, own': set<Digest>, ghost a: Attempt)
      requires Valid() && Fits(spec, world.cfg)
      requires Underway(spec, Id(), world.history, tries, want) && (reuse ==> tries == [])
      modifies world, this
      ensures Valid() && Grows() && ProcLater(old(Me()), Me())
      ensures a.index == |old(Me()).allocations| < |Me().allocations|
      ensures Me().allocations[a.index] == Allocation(spec.key, a.round, want, reuse)
      ensures calls == old(calls) + a.prepares + a.accepts
      ensures Stands(spec, Id(), world.history, a, r) && Wins(spec, Id(), world.cfg, world.sys, a, r)
      ensures own' == own + BuiltDigest(a.pick)
      ensures Room(world.history, Id(), spec.key) ==> InOrder(spec, Me(), tries + [a])
      ensures r.Decided? ==> (r.out.ours <==> r.out.digest in own')
    {
      var b, mine := Ballot(spec.key, want, reuse);
      assert world.labels[|old(world.labels)|] == Allocates(Id(), spec.key, want, reuse);
      r, own', a := Try(spec, b, own, mine);
      AttemptNumbered(world.cfg, Id(), old(world.history), world.history, world.labels, spec.key, want, reuse);
      AttemptRises(spec, Id(), world.cfg, old(world.history), world.history, world.labels, tries, want, reuse, a);
    }

    /** One attempt of Decide, added to those before it; first is the calls made before
        Decide began. */
    method OneAttempt(spec: Spec, want: Round, reuse: bool, own: set<Digest>, ghost tries: seq<Attempt>,
                      ghost first: seq<Asked>, ghost was: Proc, ghost start: Mark)
      returns (r: TryResult, own': set<Digest>, ghost tries': seq<Attempt>)
      requires Valid() && Fits(spec, world.cfg) && reuse == (spec.reuseRound && tries == [])
      requires Underway(spec, Id(), world.history, tries, want)
      requires Made(spec, Id(), was, Me(), tries) && Since(start)
      requires Logged(spec, Id(), world.history, first, calls, tries, own)
      modifies world, this
      ensures Valid() && Since(start) && |tries'| == |tries| + 1
      ensures Logged(spec, Id(), world.history, first, calls, tries', own')
      ensures Made(spec, Id(), was, Me(), tries')
      ensures Room(world.history, Id(), spec.key) ==> InOrder(spec, Me(), tries')
      ensures r.Decided? ==> Certified(spec, world.cfg, world.sys, r.out) && EndsWith(spec, Id(), tries', r.out)
      ensures r.Failed? ==> LastError(tries') == Some(r.error)
      ensures r.Failed? ==> (!r.stale.IsZero() <==> Retryable(Id(), tries'[|tries|]))
      ensures r.Failed? && !r.stale.IsZero() ==>
                Underway(spec, Id(), world.history, tries', NextRound(r.stale.round))
    {
      ghost var a;
      r, own', a := AtNewBallot(spec, want, reuse, own, tries);
      LoggedMore(spec, Id(), world.cfg, old(world.history), world.history, world.labels, first, old(calls), tries,
                 own, a);
      MadeMore(spec, Id(), was, old(Me()), Me(), tries, want, a);
      if r.Failed? { StaleIffRetryable(Id(), a); }
      tries' := tries + [a];
      if r.Decided? {
        OutcomeEnds(spec, Id(), tries, a, r.out);
      } else if !r.stale.IsZero() {
        StillUnderway(spec, Id(), world.history, tries, a, NextRound(r.stale.round));
      }
    }

    /** The backoff: others may do anything meanwhile. */
    method Sleep(spec: Spec, want: Round, own: set<Digest>, ghost tries: seq<Attempt>, ghost first: seq<Asked>,
                 ghost was: Proc, ghost start: Mark)
      requires Valid() && Since(start) && Underway(spec, Id(), world.history, tries, want)
      requires Logged(spec, Id(), world.history, first, calls, tries, own)
      requires Made(spec, Id(), was, Me(), tries)
      modifies world, this`used, this`bound
      ensures Valid() && Since(start) && Underway(spec, Id(), world.history, tries, want)
      ensures Logged(spec, Id(), world.history, first, calls, tries, own)
      ensures Made(spec, Id(), was, Me(), tries)
    {
      Interfere(0);
      UnderwayLater(spec, Id(), world.cfg, old(world.history), world.history, world.labels, tries, want);
      LoggedLater(spec, Id(), world.cfg, old(world.history), world.history, world.labels, first, calls, tries, own);
      MadeStays(spec, Id(), was, old(Me()), Me(), tries);
    }

    /** Decide: a certified value, or the last error. It gives up only when the context
        ends, a higher ballot could not do better, or the rounds are used up. */
    method Decide(spec: Spec, ctx: Context) returns (r: Decision, own: set<Digest>, ghost tries: seq<Attempt>)
      requires Valid() && Fits(spec, world.cfg)
      modifies world, this
      ensures Valid() && Grows() && Logged(spec, Id(), world.history, old(calls), calls, tries, own)
      ensures Made(spec, Id(), old(Me()), Me(), tries)
      ensures r.Done? ==> Certified(spec, world.cfg, world.sys, r.out) && EndsWith(spec, Id(), tries, r.out)
      ensures r.GaveUp? ==> MayGiveUp(spec, Id(), ctx, tries) && Some(r.error) == LastError(tries)
      ensures |tries| <= if spec.maxRounds <= 0 then 8 else spec.maxRounds
      ensures Room(world.history, Id(), spec.key) ==> InOrder(spec, Me(), tries)
    {
      var round: Round := FirstRound(spec);
      var lastErr := Cancelled;
      own, tries := {}, [];
      ghost var start := Now();
      for attempt := 0 to MaxRounds(spec)
        invariant Valid() && Since(start) && Logged(spec, Id(), world.history, old(calls), calls, tries, own)
        invariant |tries| == attempt && Some(lastErr) == LastError(tries)
        invariant Underway(spec, Id(), world.history, tries, round)
        invariant Made(spec, Id(), old(Me()), Me(), tries)
      {
        if ctx.doneBefore(attempt) {
          return GaveUp(lastErr), own, tries;
        }
        var res;
        res, own, tries := OneAttempt(spec, round, spec.reuseRound && attempt == 0, own, tries, old(calls),
                                      old(Me()), start);
        if res.Decided? {
          return Done(res.out), own, tries;
        }
        lastErr := res.error;
        if res.stale.IsZero() {
          return GaveUp(lastErr), own, tries;
        }
        round := NextRound(res.stale.round);
        if ctx.doneInBackoff(attempt) {
          return GaveUp(lastErr), own, tries;
        }
        Sleep(spec, round, own, tries, old(calls), old(Me()), start);
      }
      return GaveUp(lastErr), own, tries;
    }
  }
}
