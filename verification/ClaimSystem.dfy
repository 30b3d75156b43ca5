/** Every proposer process, every voter and the network as one transition
    system. Messages are never consumed: a message that is lost is one nobody
    acts on, and a delayed or repeated one is acted on later or again. A restart
    is a new process with a fresh nonce. */
module ClaimSystem {
  import opened Options
  import opened ClaimTypes
  import opened ClaimVoter

  /** A proposer process: its host name and boot nonce. */
  datatype ProcId = ProcId(self: string, nonce: string)

  /** One call to Proposer.ballot: an attempt at a key holds the round it was given for the
      one it wanted. */
  datatype Allocation = Allocation(key: ClaimKey, round: Round, want: Round, reuse: bool)

  /** used and bound are the proposer's two maps; allocations numbers its attempts. */
  datatype Proc = Proc(
    used: map<ClaimKey, Round>, bound: map<ClaimKey, map<Round, Digest>>, allocations: seq<Allocation>)

  const NEW_PROC := Proc(map[], map[], [])

  /** A promise as the proposer holds it. */
  datatype PromiseInfo = PromiseInfo(state: Row, legacy: Option<Row>)

  datatype Msg =
    | PrepareReq(key: ClaimKey, ballot: Ballot)
    | PromiseMsg(voter: string, key: ClaimKey, ballot: Ballot, info: PromiseInfo)
    | AcceptReq(key: ClaimKey, ballot: Ballot, value: ClaimValue)
    | AcceptMsg(voter: string, key: ClaimKey, ballot: Ballot, digest: Digest)

  datatype System = System(voters: map<string, Rows>, procs: map<ProcId, Proc>, net: set<Msg>)

  /** The voter generation in force with its members' incarnations, its quorum systems,
      and the digests no AdoptLegacy ever refuses. */
  datatype Config = Config(
    generation: int, members: map<string, string>,
    prepare: iset<set<string>>, accept: iset<set<string>>, mustAdopt: iset<Digest>)

  ghost predicate Intersecting(cfg: Config) {
    && {} !in cfg.accept
    && forall p, a :: p in cfg.prepare && a in cfg.accept ==> p * a != {}
  }

  // ---- the proposer's two critical sections ----

  function LastUsed(p: Proc, key: ClaimKey): Round {
    if key in p.used then p.used[key] else 0
  }

  /** Proposer.ballot: the round allocated for a request. */
  function AllocatedRound(p: Proc, key: ClaimKey, want: Round, reuse: bool): Round {
    if reuse && want > 0 && want == LastUsed(p, key) then want
    else if want <= LastUsed(p, key) then NextRound(LastUsed(p, key))
    else want
  }

  function Allocate(p: Proc, key: ClaimKey, want: Round, reuse: bool): Proc {
    var r := AllocatedRound(p, key, want, reuse);
    p.(used := p.used[key := r], allocations := p.allocations + [Allocation(key, r, want, reuse)])
  }

  function BoundAt(p: Proc, key: ClaimKey): map<Round, Digest> {
    if key in p.bound then p.bound[key] else map[]
  }

  /** Proposer.bind: a second digest at a bound round is refused. */
  predicate CanBind(p: Proc, key: ClaimKey, round: Round, digest: Digest) {
    round in BoundAt(p, key) ==> BoundAt(p, key)[round] == digest
  }

  function Bind(p: Proc, key: ClaimKey, round: Round, digest: Digest): Proc {
    p.(bound := p.bound[key := BoundAt(p, key)[round := digest]])
  }

  // ---- which value a quorum of promises lets a proposer send ----

  predicate Carries(row: Row) {
    row.value.Some? && !row.accepted.IsZero()
  }

  /** w's report carries the highest accepted ballot among the promises. */
  ghost predicate Highest(ps: map<string, PromiseInfo>, w: string) {
    && w in ps && Carries(ps[w].state)
    && forall u :: u in ps && Carries(ps[u].state) ==> !Below(ps[w].state.accepted, ps[u].state.accepted)
  }

  predicate CarriesLegacy(p: PromiseInfo) {
    p.legacy.Some? && Carries(p.legacy.value)
  }

  ghost predicate HighestLegacy(ps: map<string, PromiseInfo>, w: string) {
    && w in ps && CarriesLegacy(ps[w])
    && forall u :: u in ps && CarriesLegacy(ps[u]) ==>
                     !Below(ps[w].legacy.value.accepted, ps[u].legacy.value.accepted)
  }

  /** The highest accepted value if any promise carries one; else, at a scoped
      key, the highest legacy value unless it may be and is refused; else the
      proposer's own. */
  ghost predicate MayPropose(cfg: Config, key: ClaimKey, ps: map<string, PromiseInfo>, v: ClaimValue) {
    if exists u :: u in ps && Carries(ps[u].state) then
      exists w :: Highest(ps, w) && v == ps[w].state.value.value
    else if key.IsScoped() && exists u :: u in ps && CarriesLegacy(ps[u]) then
      exists w :: HighestLegacy(ps, w) &&
                  (v == ps[w].legacy.value.value.value || MayRefuse(cfg, ps[w].legacy.value.value.value))
    else true
  }

  ghost predicate MayRefuse(cfg: Config, v: ClaimValue) {
    DigestOf(v).Some? ==> DigestOf(v).value !in cfg.mustAdopt
  }

  // ---- steps ----

  datatype Label =
    | Starts(p: ProcId)
    | Allocates(p: ProcId, key: ClaimKey, want: Round, reuse: bool)
    | VoterPrepares(w: string, key: ClaimKey, b: Ballot)
    | Proposes(p: ProcId, attempt: nat, key: ClaimKey, b: Ballot, v: ClaimValue, ps: map<string, PromiseInfo>)
    | VoterAccepts(w: string, key: ClaimKey, b: Ballot, v: ClaimValue, ownerChecked: bool)

  /** The attempt was given this round of the key. */
  predicate Holds(p: Proc, attempt: nat, key: ClaimKey, round: Round) {
    attempt < |p.allocations| && p.allocations[attempt].key == key && p.allocations[attempt].round == round
  }

  function BallotOf(p: ProcId, round: Round): Ballot {
    Ballot(round, p.self, p.nonce)
  }

  ghost predicate Enabled(cfg: Config, s: System, l: Label) {
    match l
    case Starts(p) => p !in s.procs
    case Allocates(p, _, _, _) => p in s.procs
    case VoterPrepares(w, key, b) =>
      w in s.voters && PrepareReq(key, b) in s.net && ClaimPrepare(s.voters[w], key, b).1.Promise?
    case Proposes(p, attempt, key, b, v, ps) =>
      && p in s.procs && b == BallotOf(p, b.round)
      && Holds(s.procs[p], attempt, key, b.round)
      && ps.Keys in cfg.prepare
      && (forall w :: w in ps ==> PromiseMsg(w, key, b, ps[w]) in s.net)
      && MayPropose(cfg, key, ps, v)
      && DigestOf(v).Some? && CanBind(s.procs[p], key, b.round, DigestOf(v).value)
    case VoterAccepts(w, key, b, v, ok) =>
      w in s.voters && AcceptReq(key, b, v) in s.net && ClaimAccept(s.voters[w], key, b, v, ok).1.Accepted?
  }

  function After(s: System, l: Label): System {
    match l
    case Starts(p) => s.(procs := s.procs[p := NEW_PROC])
    case Allocates(p, key, want, reuse) =>
      if p !in s.procs then s
      else s.(procs := s.procs[p := Allocate(s.procs[p], key, want, reuse)],
              net := s.net + {PrepareReq(key, BallotOf(p, AllocatedRound(s.procs[p], key, want, reuse)))})
    case VoterPrepares(w, key, b) =>
      if w !in s.voters then s
      else
        var (rows, reply) := ClaimPrepare(s.voters[w], key, b);
        if reply.PrepareRefused? then s
        else s.(voters := s.voters[w := rows],
                net := s.net + {PromiseMsg(w, key, b, PromiseInfo(reply.state, reply.legacy))})
    case Proposes(p, _, key, b, v, _) =>
      if p !in s.procs || DigestOf(v).None? then s
      else s.(procs := s.procs[p := Bind(s.procs[p], key, b.round, DigestOf(v).value)],
              net := s.net + {AcceptReq(key, b, v)})
    case VoterAccepts(w, key, b, v, ok) =>
      if w !in s.voters then s
      else
        var (rows, reply) := ClaimAccept(s.voters[w], key, b, v, ok);
        if reply.AcceptRefused? then s
        else s.(voters := s.voters[w := rows], net := s.net + {AcceptMsg(w, key, b, reply.digest)})
  }

  ghost predicate Step(cfg: Config, s: System, t: System) {
    exists l :: Enabled(cfg, s, l) && t == After(s, l)
  }

  /** Any number of proposers may already exist; nothing has been said yet. */
  ghost predicate Initial(s: System) {
    && s.net == {}
    && (forall w :: w in s.voters ==> s.voters[w] == map[])
    && (forall p :: p in s.procs ==> s.procs[p] == NEW_PROC)
  }

  ghost predicate StepAt(cfg: Config, run: seq<System>, i: nat)
    requires i + 1 < |run|
  {
    Step(cfg, run[i], run[i + 1])
  }

  ghost predicate Run(cfg: Config, run: seq<System>) {
    |run| > 0 && forall i: nat :: i + 1 < |run| ==> StepAt(cfg, run, i)
  }

  ghost predicate LabelledAt(cfg: Config, run: seq<System>, ls: seq<Label>, i: nat)
    requires |run| == |ls| + 1 && i < |ls|
  {
    Enabled(cfg, run[i], ls[i]) && run[i + 1] == After(run[i], ls[i])
  }

  /** A run with the step taken at each state. */
  ghost predicate LabelledRun(cfg: Config, run: seq<System>, ls: seq<Label>) {
    |run| == |ls| + 1 && forall i: nat :: i < |ls| ==> LabelledAt(cfg, run, ls, i)
  }

  // ---- what a state says ----

  /** The process owning b has bound the value d to b at key k. */
  predicate Proposal(s: System, k: ClaimKey, b: Ballot, d: Digest) {
    var p := ProcId(b.coordinator, b.nonce);
    p in s.procs && k in s.procs[p].bound && b.round in s.procs[p].bound[k] && s.procs[p].bound[k][b.round] == d
  }

  ghost predicate Voted(s: System, w: string, k: ClaimKey, b: Ballot) {
    exists d :: AcceptMsg(w, k, b, d) in s.net
  }

  predicate PromisedTo(s: System, w: string, k: ClaimKey, b: Ballot) {
    w in s.voters && k in s.voters[w] && !Below(s.voters[w][k].promised, b)
  }

  /** w has not voted at (k, b) and never will. */
  ghost predicate Blocked(s: System, w: string, k: ClaimKey, b: Ballot) {
    && w in s.voters && !Voted(s, w, k, b)
    && (Sealed(s.voters[w], k) || (k in s.voters[w] && Below(b, s.voters[w][k].promised)))
  }

  ghost predicate AllBlocked(s: System, q: set<string>, k: ClaimKey, b: Ballot) {
    forall w :: w in q ==> Blocked(s, w, k, b)
  }

  ghost predicate NeverChosen(cfg: Config, s: System, k: ClaimKey, b: Ballot) {
    exists q :: q in cfg.prepare && AllBlocked(s, q, k, b)
  }

  ghost predicate AllVoted(s: System, q: set<string>, k: ClaimKey, b: Ballot, d: Digest) {
    forall w :: w in q ==> AcceptMsg(w, k, b, d) in s.net
  }

  /** A quorum of signed accepts for one ballot and one digest exists. */
  ghost predicate Chosen(cfg: Config, s: System, k: ClaimKey, b: Ballot, d: Digest) {
    exists q :: q in cfg.accept && AllVoted(s, q, k, b, d)
  }
}
