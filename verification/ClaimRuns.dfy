/** What one proposer process's own maps do over a run: bindings stay, and rounds rise
    for as long as uint64 has room. */
module ClaimRuns {
  import opened ClaimTypes
  import opened ClaimSystem

  lemma {:induction false} LabelledIsRun(cfg: Config, run: seq<System>, ls: seq<Label>)
    requires LabelledRun(cfg, run, ls)
    ensures Run(cfg, run)
  {
    forall i: nat | i + 1 < |run| ensures StepAt(cfg, run, i) { assert LabelledAt(cfg, run, ls, i); }
  }

  /** One more step. */
  lemma {:induction false} Stepped(cfg: Config, run: seq<System>, ls: seq<Label>, l: Label)
    requires LabelledRun(cfg, run, ls) && Enabled(cfg, run[|run| - 1], l)
    ensures LabelledRun(cfg, run + [After(run[|run| - 1], l)], ls + [l])
  {
    var more, labels := run + [After(run[|run| - 1], l)], ls + [l];
    forall i: nat | i < |labels| ensures LabelledAt(cfg, more, labels, i) {
      if i < |ls| { assert LabelledAt(cfg, run, ls, i); }
    }
  }

  // ---- what no step takes back ----

  /** Attempts keep their numbers, and bindings stay. */
  ghost predicate ProcLater(p: Proc, q: Proc) {
    && p.allocations <= q.allocations
    && (forall k, r :: k in p.bound && r in p.bound[k] ==>
          k in q.bound && r in q.bound[k] && q.bound[k][r] == p.bound[k][r])
  }

  lemma {:induction false} BindKeeps(p: Proc, key: ClaimKey, round: Round, digest: Digest)
    requires CanBind(p, key, round, digest)
    ensures ProcLater(p, Bind(p, key, round, digest))
  {
  }

  lemma {:induction false} StepProcLater(cfg: Config, s: System, l: Label, p: ProcId)
    requires Enabled(cfg, s, l) && p in s.procs
    ensures p in After(s, l).procs && ProcLater(s.procs[p], After(s, l).procs[p])
  {
    if l.Proposes? { BindKeeps(s.procs[l.p], l.key, l.b.round, DigestOf(l.v).value); }
  }

  lemma {:induction false} RunProcLater(cfg: Config, run: seq<System>, ls: seq<Label>, i: nat, j: nat, p: ProcId)
    requires LabelledRun(cfg, run, ls) && i <= j < |run| && p in run[i].procs
    ensures p in run[j].procs && ProcLater(run[i].procs[p], run[j].procs[p])
    decreases j
  {
    if i < j {
      RunProcLater(cfg, run, ls, i, j - 1, p);
      assert LabelledAt(cfg, run, ls, j - 1);
      StepProcLater(cfg, run[j - 1], ls[j - 1], p);
    }
  }

  // ---- rounds ----

  /** Before each step of the run the process could still go above its last round. */
  ghost predicate Room(run: seq<System>, p: ProcId, key: ClaimKey) {
    forall n :: 0 <= n < |run| - 1 && p in run[n].procs ==> LastUsed(run[n].procs[p], key) < MAX_ROUND
  }

  /** The rounds given out for a key never decrease, repeat only for a call that wants that
      very round again, and the last one is remembered. */
  ghost predicate Orderly(p: Proc, key: ClaimKey) {
    && (forall c :: 0 <= c < |p.allocations| && p.allocations[c].key == key ==>
          p.allocations[c].round <= LastUsed(p, key))
    && (forall c, a :: 0 <= c < a < |p.allocations| && p.allocations[c].key == key && p.allocations[a].key == key ==>
          && p.allocations[c].round <= p.allocations[a].round
          && (p.allocations[c].round == p.allocations[a].round ==>
                p.allocations[a].reuse && p.allocations[a].want == p.allocations[a].round))
  }

  lemma {:induction false} OrderlyAllocate(p: Proc, key: ClaimKey, want: Round, reuse: bool, k: ClaimKey)
    requires Orderly(p, k) && LastUsed(p, k) < MAX_ROUND
    ensures Orderly(Allocate(p, key, want, reuse), k)
  {
  }

  lemma {:induction false} OrderlyStep(cfg: Config, s: System, l: Label, p: ProcId, key: ClaimKey)
    requires Enabled(cfg, s, l)
    requires p in s.procs ==> Orderly(s.procs[p], key) && LastUsed(s.procs[p], key) < MAX_ROUND
    ensures p in After(s, l).procs ==> Orderly(After(s, l).procs[p], key)
  {
    if l.Allocates? && l.p == p { OrderlyAllocate(s.procs[p], l.key, l.want, l.reuse, key); }
  }

  /** Over every run of the whole system, one process's rounds at a key never decrease,
      and repeat only when a call wants the same round again, while it has room. */
  lemma {:induction false} RoundsNeverDecrease(cfg: Config, run: seq<System>, ls: seq<Label>, n: nat, p: ProcId,
                                               key: ClaimKey)
    requires LabelledRun(cfg, run, ls) && Initial(run[0]) && n < |run| && Room(run, p, key)
    ensures p in run[n].procs ==> Orderly(run[n].procs[p], key)
  {
    if n > 0 {
      RoundsNeverDecrease(cfg, run, ls, n - 1, p, key);
      assert LabelledAt(cfg, run, ls, n - 1);
      OrderlyStep(cfg, run[n - 1], ls[n - 1], p, key);
    }
  }

  lemma {:induction false} UsedRises(cfg: Config, run: seq<System>, ls: seq<Label>, i: nat, j: nat, p: ProcId,
                                     key: ClaimKey)
    requires LabelledRun(cfg, run, ls) && i <= j < |run| && p in run[i].procs && Room(run, p, key)
    ensures p in run[j].procs && LastUsed(run[i].procs[p], key) <= LastUsed(run[j].procs[p], key)
    decreases j
  {
    if i < j {
      UsedRises(cfg, run, ls, i, j - 1, p, key);
      assert LabelledAt(cfg, run, ls, j - 1);
      assert LastUsed(run[j - 1].procs[p], key) < MAX_ROUND;
    }
  }

  // ---- when a round is bound to another value ----

  ghost predicate IsProposal(l: Label, p: ProcId, attempt: nat) {
    l.Proposes? && l.p == p && l.attempt == attempt
  }

  /** The attempt has sent nothing yet. */
  ghost predicate Unsent(ls: seq<Label>, p: ProcId, attempt: nat) {
    forall q :: 0 <= q < |ls| ==> !IsProposal(ls[q], p, attempt)
  }

  /** The round was given out to two attempts. */
  ghost predicate HeldTwice(p: Proc, key: ClaimKey, round: Round) {
    exists c: nat, d: nat :: c < d && Holds(p, c, key, round) && Holds(p, d, key, round)
  }

  /** A bound round was bound by an attempt that held it. */
  lemma {:induction false} BoundByAttempt(cfg: Config, run: seq<System>, ls: seq<Label>, n: nat, p: ProcId,
                                          key: ClaimKey, round: Round)
    returns (q: nat)
    requires LabelledRun(cfg, run, ls) && Initial(run[0]) && n < |run| && p in run[n].procs
    requires round in BoundAt(run[n].procs[p], key)
    ensures q < n && ls[q].Proposes? && ls[q].p == p && Holds(run[n].procs[p], ls[q].attempt, key, round)
  {
    if n > 0 {
      assert LabelledAt(cfg, run, ls, n - 1);
      var l, s := ls[n - 1], run[n - 1];
      if p in s.procs && round in BoundAt(s.procs[p], key) {
        q := BoundByAttempt(cfg, run, ls, n - 1, p, key, round);
        StepProcLater(cfg, s, l, p);
      } else {
        q := n - 1;
      }
    }
  }

  /** A round an attempt holds is bound before it sends only if the round was given out to
      another attempt too. */
  lemma {:induction false} BoundIsHeldTwice(cfg: Config, run: seq<System>, ls: seq<Label>, p: ProcId, attempt: nat,
                                            key: ClaimKey, round: Round)
    requires LabelledRun(cfg, run, ls) && Initial(run[0]) && Unsent(ls, p, attempt)
    requires p in run[|run| - 1].procs && Holds(run[|run| - 1].procs[p], attempt, key, round)
    requires round in BoundAt(run[|run| - 1].procs[p], key)
    ensures HeldTwice(run[|run| - 1].procs[p], key, round)
  {
    var q := BoundByAttempt(cfg, run, ls, |run| - 1, p, key, round);
    assert !IsProposal(ls[q], p, attempt);
    var c, me := ls[q].attempt, run[|run| - 1].procs[p];
    if c < attempt {
      assert Holds(me, c, key, round) && Holds(me, attempt, key, round);
    } else {
      assert attempt < c && Holds(me, attempt, key, round) && Holds(me, c, key, round);
    }
  }

  /** An attempt not yet begun has sent nothing. */
  lemma {:induction false} NewAttemptUnsent(cfg: Config, run: seq<System>, ls: seq<Label>, p: ProcId)
    requires LabelledRun(cfg, run, ls) && p in run[|run| - 1].procs
    ensures Unsent(ls, p, |run[|run| - 1].procs[p].allocations|)
  {
    forall q | 0 <= q < |ls| ensures !IsProposal(ls[q], p, |run[|run| - 1].procs[p].allocations|) {
      assert LabelledAt(cfg, run, ls, q);
      if ls[q].Proposes? && ls[q].p == p { RunProcLater(cfg, run, ls, q, |run| - 1, p); }
    }
  }
}
