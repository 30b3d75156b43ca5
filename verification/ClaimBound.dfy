/** A run in which reusing a round costs a proposer its view of higher promises. */
module ClaimBound {
  import opened Options
  import opened Orders
  import opened ClaimTypes
  import opened ClaimVoter
  import opened ClaimSystem
  import opened ClaimRuns
  import opened ClaimSpec
  import opened ClaimProposer
  import opened ClaimCertificate

  const KEY := ClaimKey("vm", "x", 1, 0, "")
  const A := ProcId("a", "n")
  const B := ProcId("b", "m")
  const FIVE := Ballot(5, "a", "n")
  const NINE := Ballot(9, "b", "m")
  const ONE := ClaimValue(Some(ActionProof(["1"], "")), "", None)
  const TWO := ClaimValue(Some(ActionProof(["2"], "")), "", None)
  const MEMBERS: map<string, string> := map["u" := "", "v" := "", "w" := ""]

  ghost function Cfg(): Config { MajorityConfig(1, MEMBERS, iset{}) }

  function PromisedAt(b: Ballot): Row { EMPTY_ROW.(promised := b) }

  /** The cluster: what each voter has promised at the key, and both proposers. */
  function Cluster(u: Ballot, v: Ballot, w: Ballot, a: Proc, b: Proc, net: set<Msg>): System {
    System(map["u" := RowsOf(u), "v" := RowsOf(v), "w" := RowsOf(w)], map[A := a, B := b], net)
  }

  function RowsOf(b: Ballot): Rows {
    if b == ZERO_BALLOT then map[] else map[KEY := PromisedAt(b)]
  }

  function PromiseOf(voter: string, b: Ballot): Msg {
    PromiseMsg(voter, KEY, b, PromiseInfo(PromisedAt(b), None))
  }

  const FIRST := Proc(map[KEY := 5], map[], [Allocation(KEY, 5, 5, false)])
  const BOUND := FIRST.(bound := map[KEY := map[5 := DigestOf(ONE).value]])
  const AGAIN := BOUND.(allocations := [Allocation(KEY, 5, 5, false), Allocation(KEY, 5, 5, true)])
  const RIVAL := Proc(map[KEY := 9], map[], [Allocation(KEY, 9, 9, false)])
  const NET1: set<Msg> := {PrepareReq(KEY, FIVE)}
  const NET3 := NET1 + {PromiseOf("u", FIVE)} + {PromiseOf("v", FIVE)}
  const NET4 := NET3 + {AcceptReq(KEY, FIVE, ONE)}
  const NET6 := NET4 + {PrepareReq(KEY, NINE)}
  const NET7 := NET6 + {PromiseOf("w", NINE)}
  const PS: Promises :=
    map["u" := PromiseInfo(PromisedAt(FIVE), None), "v" := PromiseInfo(PromisedAt(FIVE), None)]

  /** One more step, to the state it leads to. */
  lemma {:induction false} Then(run: seq<System>, ls: seq<Label>, l: Label, s: System)
    returns (run': seq<System>, ls': seq<Label>)
    requires LabelledRun(Cfg(), run, ls) && Enabled(Cfg(), run[|run| - 1], l) && s == After(run[|run| - 1], l)
    ensures LabelledRun(Cfg(), run', ls') && run' == run + [s] && ls' == ls + [l]
    ensures Unsent(ls, A, 1) && !IsProposal(l, A, 1) ==> Unsent(ls', A, 1)
  {
    Stepped(Cfg(), run, ls, l);
    run', ls' := run + [s], ls + [l];
  }

  lemma {:induction false} AllocatesA(u: Ballot, v: Ballot, w: Ballot, a: Proc, b: Proc, net: set<Msg>, reuse: bool)
    ensures After(Cluster(u, v, w, a, b, net), Allocates(A, KEY, 5, reuse)) ==
            Cluster(u, v, w, Allocate(a, KEY, 5, reuse), b,
                    net + {PrepareReq(KEY, BallotOf(A, AllocatedRound(a, KEY, 5, reuse)))})
  {
    var s := Cluster(u, v, w, a, b, net);
    assert s.procs[A := Allocate(a, KEY, 5, reuse)] == map[A := Allocate(a, KEY, 5, reuse), B := b];
  }

  lemma {:induction false} AllocatesB(u: Ballot, v: Ballot, w: Ballot, a: Proc, net: set<Msg>)
    ensures After(Cluster(u, v, w, a, NEW_PROC, net), Allocates(B, KEY, 9, false)) ==
            Cluster(u, v, w, a, RIVAL, net + {PrepareReq(KEY, NINE)})
  {
    var s := Cluster(u, v, w, a, NEW_PROC, net);
    assert LastUsed(NEW_PROC, KEY) == 0 && Allocate(NEW_PROC, KEY, 9, false) == RIVAL;
    assert s.procs[B := RIVAL] == map[A := a, B := RIVAL];
  }

  /** A voter that has answered nobody promises. */
  lemma {:induction false} FreshPromise(b: Ballot)
    requires b == FIVE || b == NINE
    ensures ClaimPrepare(map[], KEY, b) == (RowsOf(b), Promise(PromisedAt(b), None))
  {
    BallotsTotal(ZERO_BALLOT, b);
    assert map[][KEY := PromisedAt(b)] == map[KEY := PromisedAt(b)];
  }

  lemma {:induction false} Prepares(voter: string, b: Ballot, s: System)
    requires voter in s.voters && s.voters[voter] == map[] && (b == FIVE || b == NINE) && PrepareReq(KEY, b) in s.net
    ensures Enabled(Cfg(), s, VoterPrepares(voter, KEY, b))
    ensures After(s, VoterPrepares(voter, KEY, b)) ==
            s.(voters := s.voters[voter := RowsOf(b)], net := s.net + {PromiseOf(voter, b)})
  {
    FreshPromise(b);
  }

  lemma {:induction false} Voters(u: Ballot, v: Ballot, w: Ballot, a: Proc, b: Proc, net: set<Msg>, x: Ballot)
    ensures Cluster(u, v, w, a, b, net).voters["u" := RowsOf(x)] == Cluster(x, v, w, a, b, net).voters
    ensures Cluster(u, v, w, a, b, net).voters["v" := RowsOf(x)] == Cluster(u, x, w, a, b, net).voters
    ensures Cluster(u, v, w, a, b, net).voters["w" := RowsOf(x)] == Cluster(u, v, x, a, b, net).voters
  {
    Names();
    ThreeRows(RowsOf(u), RowsOf(v), RowsOf(w), RowsOf(x));
  }

  lemma {:induction false} Names()
    ensures "u" != "v" && "u" != "w" && "v" != "w"
  {
    assert "u"[0] != "v"[0] && "u"[0] != "w"[0] && "v"[0] != "w"[0];
  }

  lemma {:induction false} ThreeRows(u: Rows, v: Rows, w: Rows, x: Rows)
    requires "u" != "v" && "u" != "w" && "v" != "w"
    ensures map["u" := u, "v" := v, "w" := w]["u" := x] == map["u" := x, "v" := v, "w" := w]
    ensures map["u" := u, "v" := v, "w" := w]["v" := x] == map["u" := u, "v" := x, "w" := w]
    ensures map["u" := u, "v" := v, "w" := w]["w" := x] == map["u" := u, "v" := v, "w" := x]
  {
  }

  lemma {:induction false} FirstRoundIsFive()
    ensures Allocate(NEW_PROC, KEY, 5, false) == FIRST && AllocatedRound(NEW_PROC, KEY, 5, false) == 5
    ensures {} + {PrepareReq(KEY, FIVE)} == NET1 && BallotOf(A, 5) == FIVE
  {
    assert LastUsed(NEW_PROC, KEY) == 0;
  }

  /** A allocates round 5. */
  lemma {:induction false} Begins() returns (run: seq<System>, ls: seq<Label>)
    ensures LabelledRun(Cfg(), run, ls) && Initial(run[0]) && Unsent(ls, A, 1)
    ensures |run| == 2 && run[1] == Cluster(ZERO_BALLOT, ZERO_BALLOT, ZERO_BALLOT, FIRST, NEW_PROC, NET1)
  {
    var z, n := ZERO_BALLOT, NEW_PROC;
    run, ls := [Cluster(z, z, z, n, n, {})], [];
    AllocatesA(z, z, z, n, n, {}, false);
    FirstRoundIsFive();
    run, ls := Then(run, ls, Allocates(A, KEY, 5, false), Cluster(z, z, z, FIRST, n, NET1));
  }

  /** A majority promises it. */
  lemma {:induction false} Opens() returns (run: seq<System>, ls: seq<Label>)
    ensures LabelledRun(Cfg(), run, ls) && Initial(run[0]) && Unsent(ls, A, 1)
    ensures run[|run| - 1] == Cluster(FIVE, FIVE, ZERO_BALLOT, FIRST, NEW_PROC, NET3)
  {
    var z, n := ZERO_BALLOT, NEW_PROC;
    run, ls := Begins();
    Prepares("u", FIVE, run[1]);
    Voters(z, z, z, FIRST, n, NET1, FIVE);
    var net2 := NET1 + {PromiseOf("u", FIVE)};
    run, ls := Then(run, ls, VoterPrepares("u", KEY, FIVE), Cluster(FIVE, z, z, FIRST, n, net2));
    Prepares("v", FIVE, run[2]);
    Voters(FIVE, z, z, FIRST, n, net2, FIVE);
    run, ls := Then(run, ls, VoterPrepares("v", KEY, FIVE), Cluster(FIVE, FIVE, z, FIRST, n, NET3));
  }

  lemma {:induction false} Quorum()
    ensures PS.Keys in Cfg().prepare && MajorityOf(|MEMBERS.Keys|) == 2 && |PS| == 2
  {
    assert MEMBERS.Keys == {"u", "v", "w"} && PS.Keys == {"u", "v"};
  }

  /** A's first call sends ONE at round 5. */
  lemma {:induction false} Sends(net: set<Msg>)
    requires PromiseOf("u", FIVE) in net && PromiseOf("v", FIVE) in net
    ensures var s := Cluster(FIVE, FIVE, ZERO_BALLOT, FIRST, NEW_PROC, net);
            && Enabled(Cfg(), s, Proposes(A, 0, KEY, FIVE, ONE, PS))
            && After(s, Proposes(A, 0, KEY, FIVE, ONE, PS)) ==
               Cluster(FIVE, FIVE, ZERO_BALLOT, BOUND, NEW_PROC, net + {AcceptReq(KEY, FIVE, ONE)})
  {
    var s := Cluster(FIVE, FIVE, ZERO_BALLOT, FIRST, NEW_PROC, net);
    Quorum();
    var none: map<Round, Digest> := map[];
    assert none[5 := DigestOf(ONE).value] == map[5 := DigestOf(ONE).value];
    var empty: map<ClaimKey, map<Round, Digest>> := map[];
    assert empty[KEY := map[5 := DigestOf(ONE).value]] == map[KEY := map[5 := DigestOf(ONE).value]];
    assert Bind(FIRST, KEY, 5, DigestOf(ONE).value) == BOUND;
    assert s.procs[A := BOUND] == map[A := BOUND, B := NEW_PROC];
    forall w | w in PS ensures PromiseMsg(w, KEY, FIVE, PS[w]) in net && !Carries(PS[w].state) {}
  }

  lemma {:induction false} SameRound()
    ensures Allocate(BOUND, KEY, 5, true) == AGAIN && AllocatedRound(BOUND, KEY, 5, true) == 5
    ensures NET4 + {PrepareReq(KEY, FIVE)} == NET4
  {
    assert LastUsed(BOUND, KEY) == 5 && BOUND.used[KEY := 5] == BOUND.used;
    assert PrepareReq(KEY, FIVE) in NET1;
  }

  /** It binds ONE there, and a second call asks for round 5 again. */
  lemma {:induction false} AsksAgain() returns (run: seq<System>, ls: seq<Label>)
    ensures LabelledRun(Cfg(), run, ls) && Initial(run[0]) && Unsent(ls, A, 1)
    ensures run[|run| - 1] == Cluster(FIVE, FIVE, ZERO_BALLOT, AGAIN, NEW_PROC, NET4)
  {
    var z, n := ZERO_BALLOT, NEW_PROC;
    run, ls := Opens();
    Sends(NET3);
    run, ls := Then(run, ls, Proposes(A, 0, KEY, FIVE, ONE, PS), Cluster(FIVE, FIVE, z, BOUND, n, NET4));
    AllocatesA(FIVE, FIVE, z, BOUND, n, NET4, true);
    SameRound();
    run, ls := Then(run, ls, Allocates(A, KEY, 5, true), Cluster(FIVE, FIVE, z, AGAIN, n, NET4));
  }

  /** Meanwhile B gets w to promise 9. */
  lemma {:induction false} Rivals() returns (run: seq<System>, ls: seq<Label>)
    ensures LabelledRun(Cfg(), run, ls) && Initial(run[0]) && Unsent(ls, A, 1)
    ensures run[|run| - 1] == Cluster(FIVE, FIVE, NINE, AGAIN, RIVAL, NET7)
  {
    var z := ZERO_BALLOT;
    run, ls := AsksAgain();
    AllocatesB(FIVE, FIVE, z, AGAIN, NET4);
    run, ls := Then(run, ls, Allocates(B, KEY, 9, false), Cluster(FIVE, FIVE, z, AGAIN, RIVAL, NET6));
    Prepares("w", NINE, run[|run| - 1]);
    Voters(FIVE, FIVE, z, AGAIN, RIVAL, NET6, NINE);
    run, ls := Then(run, ls, VoterPrepares("w", KEY, NINE), Cluster(FIVE, FIVE, NINE, AGAIN, RIVAL, NET7));
  }

  /** The second call: it would send TWO. */
  const SPEC := Spec(KEY, 1, ["u", "v", "w"], 2, None, Some((_: Promises) => Some(TWO)), 5, 0, true, None)

  const ASKED := [
    AskedPrepare("u", Some(Promise(PromisedAt(FIVE), None))),
    AskedPrepare("v", Some(Promise(PromisedAt(FIVE), None))),
    AskedPrepare("w", Some(PrepareRefused(BallotStale, NINE)))]

  const ATTEMPT := Attempt(
    1, 5, ASKED, Some(Choice(TWO, FromPropose)), [], [Refusal("w", BallotStale, NINE)], Some(BallotBound), FIVE)

  /** What the voters answer its prepares in this state. */
  ghost predicate Answers(s: System) {
    forall i :: 0 <= i < 3 ==>
      && ASKED[i].voter in s.voters
      && ASKED[i].reply == Some(ClaimPrepare(s.voters[ASKED[i].voter], KEY, FIVE).1)
  }

  lemma {:induction false} VotersAnswer(net: set<Msg>)
    ensures Answers(Cluster(FIVE, FIVE, NINE, AGAIN, RIVAL, net))
  {
    BallotsTotal(FIVE, FIVE);
    assert CompareBallots(NINE, FIVE) == 1;
  }

  lemma {:induction false} OnePromise(asked: seq<Asked>, w: string)
    ensures var more := asked + [AskedPrepare(w, Some(Promise(PromisedAt(FIVE), None)))];
            && PromisesIn(more) == PromisesIn(asked)[w := PromiseInfo(PromisedAt(FIVE), None)]
            && RefusalsIn(KEY, more) == RefusalsIn(KEY, asked)
  {
    assert (asked + [AskedPrepare(w, Some(Promise(PromisedAt(FIVE), None)))])[..|asked|] == asked;
  }

  lemma {:induction false} OneRefusal(asked: seq<Asked>, w: string)
    ensures var more := asked + [AskedPrepare(w, Some(PrepareRefused(BallotStale, NINE)))];
            && PromisesIn(more) == PromisesIn(asked)
            && RefusalsIn(KEY, more) == RefusalsIn(KEY, asked) + [Refusal(w, BallotStale, NINE)]
  {
    assert (asked + [AskedPrepare(w, Some(PrepareRefused(BallotStale, NINE)))])[..|asked|] == asked;
  }

  lemma {:induction false} AnswersAre()
    ensures PromisesIn(ASKED) == PS && RefusalsIn(KEY, ASKED) == ATTEMPT.seen
  {
    OnePromise([], "u");
    OnePromise([] + [ASKED[0]], "v");
    OneRefusal([] + [ASKED[0]] + [ASKED[1]], "w");
    assert [] + [ASKED[0]] + [ASKED[1]] + [ASKED[2]] == ASKED;
    var none: Promises := map[];
    assert none["u" := PS["u"]]["v" := PS["v"]] == PS;
  }

  lemma {:induction false} AttemptAccounted()
    ensures Accounted(SPEC, ATTEMPT)
  {
    AnswersAre();
    Quorum();
    AllPolled(ASKED, ["u", "v", "w"], Targets(SPEC.voters));
    assert Tried(ATTEMPT, DigestOf(TWO).value);
  }

  lemma {:induction false} OtherValueBound()
    ensures Holds(AGAIN, 1, KEY, 5) && !CanBind(AGAIN, KEY, 5, DigestOf(TWO).value)
    ensures AllocatedRound(AGAIN, KEY, 6, false) == 6
  {
    var one, two := DigestOf(ONE).value, DigestOf(TWO).value;
    assert one[1] == "1" && two[1] == "2" && one[1][0] != two[1][0];
    assert BoundAt(AGAIN, KEY)[5] == one && LastUsed(AGAIN, KEY) == 5;
  }

  /** A reused round bound to another value, with a voter already at round 9: the
      proposer asks for round 6 next, and gets it. */
  lemma {:induction false} BoundBallotForgetsStale() returns (run: seq<System>, ls: seq<Label>)
    ensures LabelledRun(Cfg(), run, ls) && Initial(run[0])
    ensures var s := run[|run| - 1];
            && A in s.procs && Holds(s.procs[A], 1, KEY, 5) && Unsent(ls, A, 1) && Answers(s)
            && !CanBind(s.procs[A], KEY, 5, DigestOf(TWO).value)
            && AllocatedRound(s.procs[A], KEY, 6, false) == 6
    ensures Accounted(SPEC, ATTEMPT) && RetriesAfter(A, ATTEMPT, 6)
    ensures IsStale(ATTEMPT.seen, 0) && ATTEMPT.seen[0].promised.round == 9
  {
    run, ls := Rivals();
    VotersAnswer(NET7);
    OtherValueBound();
    AttemptAccounted();
  }
}
