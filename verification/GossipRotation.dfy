/** lv host install-gossip-key and rotate-gossip-key, against a fleet whose daemons
    reload, start and stop between any two operations. Every call to a host may
    fail, and a failed write may still have landed. */
module GossipRotation {
  import opened Options
  import opened GossipRing
  import opened GossipFleet
  import opened GossipSafety

  /** One host as the operator last saw it. */
  datatype Surveyed = Surveyed(host: string, file: Option<Ring>, report: Option<Ring>)

  datatype RotateResult =
    | Rotated
    | SettledOnly
    | NoLocalKey
    | MissingPrimary
    | Interrupted

  datatype InstallResult =
    | Installed
    | ClusterHasKey
    | Conflict
    | NothingDone
    | PartlyDone

  /** st is what is on every host: no one else writes the files. */
  ghost predicate Tracks(c: Cluster, st: seq<Surveyed>) {
    && (forall i :: 0 <= i < |st| ==> st[i].host in c.hosts && st[i].file == c.hosts[st[i].host].file)
    && (forall i, j :: 0 <= i < j < |st| ==> st[i].host != st[j].host)
    && (forall n :: n in c.hosts ==> exists i :: 0 <= i < |st| && st[i].host == n)
  }

  /** The same hosts and files, whatever they report. */
  ghost predicate SameButReports(st: seq<Surveyed>, su: seq<Surveyed>) {
    |st| == |su| && forall i :: 0 <= i < |st| ==> st[i].host == su[i].host && st[i].file == su[i].file
  }

  lemma {:induction false} ReportNoted(st: seq<Surveyed>, su: seq<Surveyed>, i: nat, report: Option<Ring>)
    requires SameButReports(st, su) && i < |su|
    ensures SameButReports(st, su[i := su[i].(report := report)])
  {
  }

  lemma {:induction false} StillTracks(c: Cluster, d: Cluster, st: seq<Surveyed>, su: seq<Surveyed>)
    requires Tracks(c, st) && SameFiles(c, d) && SameButReports(st, su)
    ensures Tracks(d, su)
  {
    forall n | n in d.hosts ensures exists i :: 0 <= i < |su| && su[i].host == n {
      var i :| 0 <= i < |st| && st[i].host == n;
      assert su[i].host == n;
    }
  }

  lemma {:induction false} WrittenTracks(c: Cluster, d: Cluster, st: seq<Surveyed>, i: nat, r: Ring)
    requires Tracks(c, st) && i < |st| && c.hosts.Keys == d.hosts.Keys
    requires forall n :: n in c.hosts ==> d.hosts[n].file == if n == st[i].host then Some(r) else c.hosts[n].file
    ensures Tracks(d, st[i := st[i].(file := Some(r))])
  {
    var su := st[i := st[i].(file := Some(r))];
    forall n | n in d.hosts ensures exists j :: 0 <= j < |su| && su[j].host == n {
      var j :| 0 <= j < |st| && st[j].host == n;
      assert su[j].host == n;
    }
  }

  ghost predicate FirstHold(st: seq<Surveyed>, n: nat, r: Ring)
    requires n <= |st|
  {
    forall j :: 0 <= j < n ==> st[j].file == Some(r)
  }

  lemma {:induction false} OneMoreHolds(st: seq<Surveyed>, n: nat, r: Ring)
    requires n < |st| && FirstHold(st, n, r)
    ensures FirstHold(st[n := st[n].(file := Some(r))], n + 1, r)
  {
  }

  /** The first n hosts have r on file. */
  ghost predicate Filled(c: Cluster, st: seq<Surveyed>, n: nat, r: Ring)
    requires n <= |st|
  {
    forall j :: 0 <= j < n ==> st[j].host in c.hosts && c.hosts[st[j].host].file == Some(r)
  }

  lemma {:induction false} FilledKept(c: Cluster, d: Cluster, st: seq<Surveyed>, n: nat, r: Ring)
    requires n <= |st| && Filled(c, st, n, r) && c.hosts.Keys == d.hosts.Keys
    requires forall m :: m in c.hosts ==> d.hosts[m].file == c.hosts[m].file || d.hosts[m].file == Some(r)
    ensures Filled(d, st, n, r)
  {
  }

  ghost predicate On(s: Surveyed, r: Ring) {
    s.file == Some(r) && (s.report.Some? ==> Same(s.report.value, r))
  }

  /** A one-key keyring everywhere: no rotation was left half-way. */
  ghost predicate Uninterrupted(st: seq<Surveyed>, local: Ring) {
    |local| <= 1 && forall s :: s in st ==> On(s, local)
  }

  method SurveyClean(st: seq<Surveyed>, local: Ring) returns (clean: bool)
    ensures clean <==> Uninterrupted(st, local)
  {
    var interrupted := |local| > 1;
    for i := 0 to |st|
      invariant interrupted <==> |local| > 1 || exists j :: 0 <= j < i && !On(st[j], local)
    {
      if st[i].file != Some(local) {
        interrupted := true;
      } else if st[i].report.Some? {
        var same := SameGossipKeyring(st[i].report.value, local);
        if !same { interrupted := true; }
      }
    }
    clean := !interrupted;
  }

  /** A live host that does not hold the primary would be cut off. */
  ghost predicate PrimaryLost(st: seq<Surveyed>, primary: Key) {
    exists s :: s in st && s.report.Some? && primary !in s.report.value
  }

  method PrimaryMissing(st: seq<Surveyed>, primary: Key) returns (missing: bool)
    ensures missing <==> PrimaryLost(st, primary)
  {
    for i := 0 to |st|
      invariant forall j :: 0 <= j < i && st[j].report.Some? ==> primary in st[j].report.value
    {
      if st[i].report.Some? && primary !in st[i].report.value { return true; }
    }
    return false;
  }

  /** Only absent files may have been written, and only with r. */
  ghost predicate OnlyFilled(c: Cluster, d: Cluster, r: Ring) {
    && c.local == d.local && c.hosts.Keys == d.hosts.Keys
    && forall n :: n in c.hosts ==>
         d.hosts[n].file == c.hosts[n].file || (c.hosts[n].file.None? && d.hosts[n].file == Some(r))
  }

  ghost predicate SameHostFiles(c: Cluster, d: Cluster) {
    c.hosts.Keys == d.hosts.Keys && forall n :: n in c.hosts ==> d.hosts[n].file == c.hosts[n].file
  }

  method SomeFile(st: seq<Surveyed>) returns (held: bool)
    ensures held <==> exists i :: 0 <= i < |st| && st[i].file.Some?
  {
    for i := 0 to |st|
      invariant forall j :: 0 <= j < i ==> st[j].file.None?
    {
      if st[i].file.Some? { return true; }
    }
    return false;
  }

  /** Some host holds a key file. */
  ghost predicate HasFile(c: Cluster) {
    exists n :: n in c.hosts && c.hosts[n].file.Some?
  }

  /** Some host holds a key file other than r. */
  ghost predicate HasOtherFile(c: Cluster, r: Ring) {
    exists n :: n in c.hosts && c.hosts[n].file.Some? && c.hosts[n].file.value != r
  }

  lemma {:induction false} SurveyedFiles(c: Cluster, st: seq<Surveyed>)
    requires Tracks(c, st)
    ensures HasFile(c) <==> exists i :: 0 <= i < |st| && st[i].file.Some?
    ensures forall r :: HasOtherFile(c, r) <==> exists i :: 0 <= i < |st| && st[i].file.Some? && st[i].file.value != r
  {
    if HasFile(c) {
      var n :| n in c.hosts && c.hosts[n].file.Some?;
      var i :| 0 <= i < |st| && st[i].host == n;
      assert st[i].file.Some?;
    }
    forall r | HasOtherFile(c, r) ensures exists i :: 0 <= i < |st| && st[i].file.Some? && st[i].file.value != r {
      var n :| n in c.hosts && c.hosts[n].file.Some? && c.hosts[n].file.value != r;
      var i :| 0 <= i < |st| && st[i].host == n;
      assert st[i].file.Some?;
    }
  }

  method ConflictingFile(st: seq<Surveyed>, r: Ring) returns (conflict: bool)
    ensures conflict <==> exists i :: 0 <= i < |st| && st[i].file.Some? && st[i].file.value != r
  {
    conflict := false;
    for i := 0 to |st|
      invariant conflict <==> exists j :: 0 <= j < i && st[j].file.Some? && st[j].file.value != r
    {
      if st[i].file.Some? && st[i].file.value != r { conflict := true; }
    }
  }

  /** run goes on from past without a file being written. */
  ghost predicate QuietSince(past: seq<Cluster>, run: seq<Cluster>) {
    past <= run && Quiet(run, |past| - 1)
  }

  lemma {:induction false} QuietRun(past: seq<Cluster>, run: seq<Cluster>, prompt: bool)
    requires past != [] && past <= run && FleetRun(run[|past| - 1..], prompt)
    ensures QuietSince(past, run) && SameFiles(past[|past| - 1], run[|run| - 1])
  {
    var k := |past| - 1;
    forall m: nat | k <= m < |run| ensures QuietAt(run, k, m) {
      FleetRunFiles(run[k..], prompt, m - k);
    }
    assert QuietAt(run, k, |run| - 1);
  }

  lemma {:induction false} QuietNow(run: seq<Cluster>)
    requires run != []
    ensures QuietSince(run, run)
  {
    assert QuietAt(run, |run| - 1, |run| - 1);
  }

  /** The first n hosts have been let through. */
  ghost predicate FirstThrough(run: seq<Cluster>, st: seq<Surveyed>, n: nat, r: Ring)
    requires n <= |st|
  {
    forall j :: 0 <= j < n ==> Through(run, st[j].host, r)
  }

  lemma {:induction false} OneMoreThrough(was: seq<Cluster>, run: seq<Cluster>, st: seq<Surveyed>, n: nat, r: Ring)
    requires n < |st| && FirstThrough(was, st, n, r) && QuietSince(was, run)
    ensures FirstThrough(run, st, n, r)
    ensures Through(run, st[n].host, r) ==> FirstThrough(run, st, n + 1, r)
  {
    forall j | 0 <= j < n ensures Through(run, st[j].host, r) {
      var k :| LetThroughAt(was, k, st[j].host, r);
      StillThrough(was, run, k, st[j].host, r);
    }
  }

  lemma {:induction false} AllThrough(run: seq<Cluster>, st: seq<Surveyed>, r: Ring)
    requires run != [] && Tracks(run[|run| - 1], st) && FirstThrough(run, st, |st|, r)
    ensures LetThrough(run, r)
  {
    forall n | n in run[|run| - 1].hosts ensures Through(run, n, r) {
      var i :| 0 <= i < |st| && st[i].host == n;
    }
  }

  lemma {:induction false} QuietOn(past: seq<Cluster>, was: seq<Cluster>, run: seq<Cluster>)
    requires QuietSince(past, was) && QuietSince(was, run)
    ensures QuietSince(past, run)
  {
    var k := |past| - 1;
    assert QuietAt(was, k, |was| - 1);
    forall m: nat | k <= m < |run| ensures QuietAt(run, k, m) {
      if m < |was| { assert QuietAt(was, k, m); } else { assert QuietAt(run, |was| - 1, m); }
    }
  }

  lemma {:induction false} WrittenLocallyTracks(c: Cluster, d: Cluster, st: seq<Surveyed>)
    requires Tracks(c, st) && SameHostFiles(c, d)
    ensures Tracks(d, st)
  {
  }

  lemma {:induction false} StillLetThrough(was: seq<Cluster>, run: seq<Cluster>, r: Ring)
    requires LetThrough(was, r) && QuietSince(was, run)
    ensures LetThrough(run, r)
  {
    assert QuietAt(run, |was| - 1, |run| - 1);
    forall n | n in run[|run| - 1].hosts ensures Through(run, n, r) {
      assert Through(was, n, r);
      var k :| LetThroughAt(was, k, n, r);
      StillThrough(was, run, k, n, r);
    }
  }

  // ---- what a survey saw ----

  /** s is what host s.host held and reported in state i, nothing having been written
      since past. */
  ghost predicate SawAt(past: seq<Cluster>, run: seq<Cluster>, i: int, s: Surveyed) {
    && past != [] && |past| - 1 <= i < |run| && SameFiles(past[|past| - 1], run[i]) && s.host in run[i].hosts
    && s.file == run[i].hosts[s.host].file && s.report == run[i].hosts[s.host].report
  }

  ghost predicate Saw(past: seq<Cluster>, run: seq<Cluster>, s: Surveyed) {
    exists i :: SawAt(past, run, i, s)
  }

  ghost predicate Sighted(past: seq<Cluster>, run: seq<Cluster>, st: seq<Surveyed>) {
    forall j {:trigger Saw(past, run, st[j])} :: 0 <= j < |st| ==> Saw(past, run, st[j])
  }

  lemma {:induction false} StillSighted(past: seq<Cluster>, was: seq<Cluster>, run: seq<Cluster>, st: seq<Surveyed>)
    requires Sighted(past, was, st) && was <= run
    ensures Sighted(past, run, st)
  {
    forall j | 0 <= j < |st| ensures Saw(past, run, st[j]) {
      assert Saw(past, was, st[j]);
      var i :| SawAt(past, was, i, st[j]);
      assert SawAt(past, run, i, st[j]);
    }
  }

  lemma {:induction false} OneMoreSighted(past: seq<Cluster>, was: seq<Cluster>, run: seq<Cluster>, st: seq<Surveyed>,
                                          s: Surveyed)
    requires Sighted(past, was, st) && was <= run && past != [] && QuietSince(past, run)
    requires s.host in run[|run| - 1].hosts && s.file == run[|run| - 1].hosts[s.host].file
    requires s.report == run[|run| - 1].hosts[s.host].report
    ensures Sighted(past, run, st + [s])
  {
    StillSighted(past, was, run, st);
    assert QuietAt(run, |past| - 1, |run| - 1);
    assert SawAt(past, run, |run| - 1, s);
    var more := st + [s];
    forall j | 0 <= j < |more| ensures Saw(past, run, more[j]) { if j < |st| { assert Saw(past, run, st[j]); } }
  }

  lemma {:induction false} SightedTracks(past: seq<Cluster>, c: Cluster, run: seq<Cluster>, hosts: seq<string>,
                                         st: seq<Surveyed>)
    requires past != [] && Sighted(past, run, st) && SameFiles(past[|past| - 1], c)
    requires |st| == |hosts| && forall j :: 0 <= j < |st| ==> st[j].host == hosts[j]
    requires forall n :: n in c.hosts <==> n in hosts
    requires forall i, j :: 0 <= i < j < |hosts| ==> hosts[i] != hosts[j]
    ensures Tracks(c, st)
  {
    forall j | 0 <= j < |st| ensures st[j].host in c.hosts && st[j].file == c.hosts[st[j].host].file {
      assert Saw(past, run, st[j]);
    }
    forall n | n in c.hosts ensures exists i :: 0 <= i < |st| && st[i].host == n {
      assert n in hosts;
      var i :| 0 <= i < |hosts| && hosts[i] == n;
      assert st[i].host == n;
    }
  }

  /** A live host without the local primary shows that a skip was unsound. */
  lemma {:induction false} LostIsUnsound(past: seq<Cluster>, run: seq<Cluster>, prompt: bool, st: seq<Surveyed>)
    requires ProtocolRun(run, prompt) && Founded(run[0]) && past != [] && past <= run && Sighted(past, run, st)
    requires var c := past[|past| - 1]; c.local.Some? && c.local.value != [] && PrimaryLost(st, c.local.value[0])
    ensures !SkipsSound(run)
  {
    if SkipsSound(run) {
      var primary := past[|past| - 1].local.value[0];
      var j :| 0 <= j < |st| && st[j].report.Some? && primary !in st[j].report.value;
      assert Saw(past, run, st[j]);
      var i: nat :| SawAt(past, run, i, st[j]);
      ReportsHoldPrimary(run, prompt, i, st[j].host);
    }
  }

  // ---- the order of the phases ----

  ghost predicate LocalAt(run: seq<Cluster>, i: nat, r: Ring)
    requires i < |run|
  {
    run[i].local == Some(r)
  }

  /** The local keyring is r in every state from k to m. */
  ghost predicate Stays(run: seq<Cluster>, k: int, m: int, r: Ring) {
    0 <= k && m <= |run| && forall i: nat :: k <= i < m ==> LocalAt(run, i, r)
  }

  /** run goes on from past with r as the local keyring. */
  ghost predicate Keeps(past: seq<Cluster>, run: seq<Cluster>, r: Ring) {
    past != [] && past <= run && Stays(run, |past| - 1, |run|, r)
  }

  lemma {:induction false} QuietKeeps(past: seq<Cluster>, run: seq<Cluster>, r: Ring)
    requires past != [] && QuietSince(past, run) && past[|past| - 1].local == Some(r)
    ensures Keeps(past, run, r)
  {
    var k := |past| - 1;
    forall i: nat | k <= i < |run| ensures LocalAt(run, i, r) { assert QuietAt(run, k, i); }
  }

  lemma {:induction false} KeepsOn(past: seq<Cluster>, was: seq<Cluster>, run: seq<Cluster>, r: Ring)
    requires Keeps(past, was, r) && Keeps(was, run, r)
    ensures Keeps(past, run, r)
  {
    forall i: nat | |past| - 1 <= i < |run| ensures LocalAt(run, i, r) { if i < |was| { assert LocalAt(was, i, r); } }
  }

  /** Stage p of a command lasts from state at[p] to the next stage, or to now. */
  ghost predicate StageAt(run: seq<Cluster>, at: seq<nat>, stages: seq<Ring>, p: nat)
    requires p < |at| <= |stages|
  {
    var end := if p + 1 < |at| then at[p + 1] else |run|;
    at[p] < end <= |run| && Stays(run, at[p], end, stages[p])
  }

  /** Since past the local keyring was the first |at| of the stages, in that order. */
  ghost predicate StagesAt(past: seq<Cluster>, run: seq<Cluster>, at: seq<nat>, stages: seq<Ring>) {
    && 0 < |at| <= |stages| && at[0] == |past| - 1
    && forall p: nat :: p < |at| ==> StageAt(run, at, stages, p)
  }

  lemma {:induction false} SameStage(past: seq<Cluster>, was: seq<Cluster>, run: seq<Cluster>, at: seq<nat>,
                                     stages: seq<Ring>)
    requires StagesAt(past, was, at, stages) && Keeps(was, run, stages[|at| - 1])
    ensures StagesAt(past, run, at, stages)
  {
    forall p: nat | p < |at| ensures StageAt(run, at, stages, p) {
      assert StageAt(was, at, stages, p);
      var end := if p + 1 < |at| then at[p + 1] else |was|;
      forall i: nat | at[p] <= i < end ensures LocalAt(run, i, stages[p]) { assert LocalAt(was, i, stages[p]); }
    }
  }

  lemma {:induction false} InStage(past: seq<Cluster>, run: seq<Cluster>, at: seq<nat>, stages: seq<Ring>)
    requires run != [] && StagesAt(past, run, at, stages)
    ensures run[|run| - 1].local == Some(stages[|at| - 1])
  {
    assert StageAt(run, at, stages, |at| - 1) && LocalAt(run, |run| - 1, stages[|at| - 1]);
  }

  lemma {:induction false} NextStage(past: seq<Cluster>, was: seq<Cluster>, d: Cluster, at: seq<nat>, stages: seq<Ring>)
    requires StagesAt(past, was, at, stages) && |at| < |stages| && d.local == Some(stages[|at|])
    ensures StagesAt(past, was + [d], at + [|was|], stages)
  {
    var run, more := was + [d], at + [|was|];
    forall p: nat | p < |more| ensures StageAt(run, more, stages, p) {
      if p < |at| {
        assert StageAt(was, at, stages, p);
        var end := if p + 1 < |at| then at[p + 1] else |was|;
        forall i: nat | at[p] <= i < end ensures LocalAt(run, i, stages[p]) { assert LocalAt(was, i, stages[p]); }
      }
    }
  }

  /** What a rotation to next does: settle on the primary unless the survey found one key
      everywhere, and otherwise go through the three phases. */
  ghost function Stages(st: seq<Surveyed>, local: Ring, next: Key): seq<Ring>
    requires local != []
  {
    var k := local[0];
    if Uninterrupted(st, local) then [[k], [k, next], [next, k], [next]]
    else if |local| > 1 then [local, [k]]
    else [local]
  }

  /** With sound skips, each stage that changes the keyring was opened with every host on
      the one before. */
  ghost predicate OpenedSettled(run: seq<Cluster>, at: seq<nat>, stages: seq<Ring>)
    requires |at| <= |stages|
  {
    SkipsSound(run) ==>
      forall p :: 0 < p < |at| && stages[p] != stages[p - 1] ==>
                    0 < at[p] <= |run| && AllSettled(stages[p - 1], run[at[p] - 1])
  }

  lemma {:induction false} StagesOpenSettled(past: seq<Cluster>, run: seq<Cluster>, prompt: bool, at: seq<nat>,
                                             stages: seq<Ring>)
    requires ProtocolRun(run, prompt) && Founded(run[0]) && StagesAt(past, run, at, stages)
    ensures OpenedSettled(run, at, stages)
  {
    forall p | SkipsSound(run) && 0 < p < |at| && stages[p] != stages[p - 1]
      ensures 0 < at[p] <= |run| && AllSettled(stages[p - 1], run[at[p] - 1])
    {
      assert StageAt(run, at, stages, p) && StageAt(run, at, stages, p - 1);
      assert LocalAt(run, at[p], stages[p]) && LocalAt(run, at[p] - 1, stages[p - 1]);
      PhaseOpensSettled(run, prompt, at[p]);
    }
  }

  lemma {:induction false} FirstStage(past: seq<Cluster>, run: seq<Cluster>, st: seq<Surveyed>, local: Ring, next: Key)
    requires local != [] && Keeps(past, run, local)
    ensures StagesAt(past, run, [|past| - 1], Stages(st, local, next))
  {
    assert |local| <= 1 ==> local == [local[0]];
    assert StageAt(run, [|past| - 1], Stages(st, local, next), 0);
  }

  lemma {:induction false} OpenedAtOnce(run: seq<Cluster>, at: seq<nat>, stages: seq<Ring>)
    requires |at| == 1 <= |stages|
    ensures OpenedSettled(run, at, stages)
  {
  }

  class Fleet {
    var cluster: Cluster
    /** Whether daemons write their state file before they join gossip. */
    ghost const prompt: bool
    /** Every state of the cluster, the current one last. */
    ghost var history: seq<Cluster>
    /** How many operations have failed, run out of time or been cancelled. */
    ghost var failures: nat

    /** history is a run of the protocol up to now. */
    ghost predicate Recorded()
      reads this
    {
      ProtocolRun(history, prompt) && history[|history| - 1] == cluster
    }

    /** It began on a cluster uniformly on one key, and so can always be finished. */
    ghost predicate Valid()
      reads this
    {
      && Recorded() && Founded(history[0]) && (prompt ==> Visible(history[0]))
      && cluster.local.Some? && cluster.local.value != []
    }

    constructor (cluster: Cluster, ghost prompt: bool)
      requires Founded(cluster) && (prompt ==> Visible(cluster))
      ensures Valid() && this.cluster == cluster && this.prompt == prompt && history == [cluster]
    {
      this.cluster, this.prompt, this.history, failures := cluster, prompt, [cluster], 0;
    }

    /** One operation's outcome: counted when it fails. */
    method Succeeds() returns (ok: bool)
      modifies this`failures
      ensures failures == old(failures) + if ok then 0 else 1
    {
      ok := *;
      if !ok { failures := failures + 1; }
    }

    /** The caller's success is told exactly by whether anything failed. */
    twostate predicate Told(ok: bool)
      reads this
    {
      failures == old(failures) + if ok then 0 else 1
    }

    ghost predicate Covers(hosts: seq<string>)
      reads this
    {
      && (forall n :: n in cluster.hosts <==> n in hosts)
      && forall i, j :: 0 <= i < j < |hosts| ==> hosts[i] != hosts[j]
    }

    /** Any number of daemon steps. */
    method Others()
      requires history != [] && history[|history| - 1] == cluster
      modifies this`cluster, this`history
      ensures old(history) <= history && history[|history| - 1] == cluster
      ensures FleetRun(history[|old(history)| - 1..], prompt)
    {
    }

    /** They keep to the protocol and touch no file. */
    method Interfere()
      requires Recorded()
      modifies this`cluster, this`history
      ensures Recorded() && QuietSince(old(history), history) && SameFiles(old(cluster), cluster)
    {
      Others();
      RunContinued(old(history), history, prompt);
      QuietRun(old(history), history, prompt);
    }

    /** Nothing but host n's file may differ, and it only by holding r. */
    twostate predicate OnlyWrote(n: string, r: Ring)
      reads this
    {
      && cluster.local == old(cluster).local && cluster.hosts.Keys == old(cluster).hosts.Keys
      && forall m :: m in cluster.hosts ==>
           cluster.hosts[m].file == old(cluster).hosts[m].file || (m == n && cluster.hosts[m].file == Some(r))
    }

    /** The file is replaced, in one step. */
    method Store(n: string, r: Ring)
      requires Recorded() && n in cluster.hosts && cluster.local == Some(r)
      modifies this`cluster, this`history
      ensures Recorded() && history == old(history) + [cluster] && cluster == WriteHost(old(cluster), n, r)
    {
      ghost var d := WriteHost(cluster, n, r);
      assert (history + [d])[|history| - 1] == cluster && ProtocolStepAt(history + [d], |history|, prompt);
      RunExtended(history, d, prompt);
      cluster := WriteHost(cluster, n, r);
      history := history + [cluster];
    }

    /** WriteKeyFile: atomic, and possibly done even when it reports an error. */
    method WriteKeyFile(n: string, r: Ring) returns (ok: bool)
      requires Recorded() && n in cluster.hosts && cluster.local == Some(r)
      modifies this`cluster, this`history, this`failures
      ensures Recorded() && Keeps(old(history), history, r) && OnlyWrote(n, r) && Told(ok)
      ensures ok ==> cluster.hosts[n].file == Some(r)
    {
      Interfere();
      QuietKeeps(old(history), history, r);
      ghost var was := history;
      ok := Succeeds();
      var applied: bool := *;
      applied := applied || ok;
      if applied {
        Store(n, r);
        assert LocalAt(history, |was|, r) && LocalAt(history, |was| - 1, r);
        KeepsOn(old(history), was, history, r);
      }
    }

    /** WriteGossipKeyring on the local file, starting the next phase. */
    method WriteLocalKeyring(r: Ring, ghost past: seq<Cluster>, ghost at: seq<nat>, ghost stages: seq<Ring>)
      returns (ok: bool, ghost at': seq<nat>)
      requires Valid() && Compatible(cluster.local.value, r) && LetThrough(history, cluster.local.value)
      requires StagesAt(past, history, at, stages) && |at| < |stages| && stages[|at|] == r
      modifies this`cluster, this`history, this`failures
      ensures Valid() && old(history) <= history && SameHostFiles(old(cluster), cluster) && Told(ok)
      ensures StagesAt(past, history, at', stages) && at <= at' && (at' == at || |at'| == |at| + 1)
      ensures ok ==> cluster.local == Some(r) && |at'| == |at| + 1
    {
      Interfere();
      StillLetThrough(old(history), history, cluster.local.value);
      InStage(past, old(history), at, stages);
      QuietKeeps(old(history), history, cluster.local.value);
      SameStage(past, old(history), history, at, stages);
      at' := at;
      ok := Succeeds();
      var applied: bool := *;
      applied := applied || ok;
      if applied {
        ghost var more := history + [WriteLocal(cluster, r)];
        assert more[..|history|] == history && more[|history| - 1] == cluster;
        assert ProtocolStepAt(more, |history|, prompt);
        RunExtended(history, WriteLocal(cluster, r), prompt);
        NextStage(past, history, WriteLocal(cluster, r), at, stages);
        at' := at + [|history|];
        cluster := WriteLocal(cluster, r);
        history := history + [cluster];
      }
    }

    /** Read one host's key file, then its state file. */
    method SurveyHost(n: string, ghost st: seq<Surveyed>, ghost first: Cluster, ghost past: seq<Cluster>)
      returns (ok: bool, s: Surveyed)
      requires Recorded() && n in cluster.hosts && SameFiles(first, cluster)
      requires past != [] && QuietSince(past, history) && Sighted(past, history, st)
      modifies this`cluster, this`history, this`failures
      ensures Recorded() && SameFiles(first, cluster) && QuietSince(past, history) && Told(ok)
      ensures s.host == n && Sighted(past, history, st + [s])
    {
      Interfere();
      QuietOn(past, old(history), history);
      var file := cluster.hosts[n].file;
      ghost var was := history;
      Interfere();
      QuietOn(past, was, history);
      s := Surveyed(n, file, cluster.hosts[n].report);
      Longer(old(history), was, history);
      OneMoreSighted(past, old(history), history, st, s);
      ok := Succeeds();
    }

    /** survey: both files of every host, or nothing at all. */
    method Survey(hosts: seq<string>) returns (ok: bool, st: seq<Surveyed>)
      requires Recorded() && Covers(hosts)
      modifies this`cluster, this`history, this`failures
      ensures Recorded() && QuietSince(old(history), history) && SameFiles(old(cluster), cluster) && Told(ok)
      ensures ok ==> Tracks(cluster, st) && Tracks(old(cluster), st) && Sighted(old(history), history, st)
    {
      st := [];
      QuietNow(history);
      for i := 0 to |hosts|
        invariant Recorded() && SameFiles(old(cluster), cluster) && failures == old(failures)
        invariant QuietSince(old(history), history) && Sighted(old(history), history, st)
        invariant |st| == i && (forall j :: 0 <= j < i ==> st[j].host == hosts[j])
      {
        var s;
        ok, s := SurveyHost(hosts[i], st, old(cluster), old(history));
        if !ok { return; }
        st := st + [s];
      }
      ok := true;
      SightedTracks(old(history), old(cluster), history, hosts, st);
      StillTracks(old(cluster), cluster, st, st);
    }

    /** Look once at host n's state file; passed when the barrier lets it through. */
    method PollOnce(n: string, r: Ring, ghost first: Cluster, ghost past: seq<Cluster>)
      returns (answered: bool, report: Option<Ring>, passed: bool)
      requires Valid() && QuietSince(past, history) && SameFiles(first, cluster)
      requires n in cluster.hosts && cluster.local == Some(r) && cluster.hosts[n].file == Some(r)
      modifies this`cluster, this`history
      ensures Valid() && QuietSince(past, history) && SameFiles(first, cluster)
      ensures passed <==> answered && Passes(cluster.hosts[n], r)
      ensures answered ==> report == cluster.hosts[n].report
      ensures passed ==> Through(history, n, r)
    {
      Interfere();
      QuietOn(past, old(history), history);
      answered := *;
      report, passed := None, false;
      if answered {
        report := cluster.hosts[n].report;
        passed := report.None?;
        if !passed { passed := SameGossipKeyring(report.value, r); }
        if passed {
          assert OnFile(history, |history| - 1, n, r);
          assert LetThroughAt(history, |history| - 1, n, r);
        }
      }
    }

    /** Poll host n until it passes, the deadline or an interruption. */
    method WaitHost(n: string, r: Ring, patience: nat, ghost first: Cluster)
      returns (ok: bool, report: Option<Ring>, left: nat)
      requires Valid() && n in cluster.hosts && cluster.local == Some(r) && cluster.hosts[n].file == Some(r)
      requires SameFiles(first, cluster)
      modifies this`cluster, this`history, this`failures
      ensures Valid() && QuietSince(old(history), history) && SameFiles(first, cluster)
      ensures left <= patience && Told(ok) && (ok ==> Through(history, n, r))
    {
      left, report := patience, None;
      QuietNow(history);
      while true
        invariant Valid() && QuietSince(old(history), history) && SameFiles(first, cluster)
        invariant left <= patience && failures == old(failures)
        decreases left
      {
        var answered, seen, passed := PollOnce(n, r, first, old(history));
        if answered { report := seen; }
        if passed { return true, report, left; }
        var cancelled: bool := *;
        if left == 0 || cancelled {
          failures := failures + 1;
          return false, report, left;
        }
        left := left - 1;
      }
    }

    /** One host of waitLive: the first i have been let through, and then so has this one. */
    method WaitNext(st: seq<Surveyed>, i: nat, r: Ring, patience: nat, ghost first: Cluster, ghost past: seq<Cluster>)
      returns (ok: bool, report: Option<Ring>, left: nat)
      requires Valid() && QuietSince(past, history) && SameFiles(first, cluster)
      requires i < |st| && Tracks(first, st) && first.local == Some(r) && st[i].file == Some(r)
      requires FirstThrough(history, st, i, r)
      modifies this`cluster, this`history, this`failures
      ensures Valid() && QuietSince(past, history) && SameFiles(first, cluster)
      ensures left <= patience && Told(ok)
      ensures ok ==> FirstThrough(history, st, i + 1, r)
    {
      ok, report, left := WaitHost(st[i].host, r, patience, first);
      QuietOn(past, old(history), history);
      OneMoreThrough(old(history), history, st, i, r);
    }

    /** waitLive: every live host reports r as the keyring it is using. */
    method WaitLive(st0: seq<Surveyed>, r: Ring, patience: nat) returns (ok: bool, st: seq<Surveyed>)
      requires Valid() && Tracks(cluster, st0) && cluster.local == Some(r)
      requires forall i :: 0 <= i < |st0| ==> st0[i].file == Some(r)
      modifies this`cluster, this`history, this`failures
      ensures Valid() && QuietSince(old(history), history) && SameFiles(old(cluster), cluster)
      ensures SameButReports(st0, st) && Told(ok)
      ensures ok ==> LetThrough(history, r)
      ensures ok ==> SoundlyOn(history, r)
    {
      st := st0;
      var left := patience;
      QuietNow(history);
      for i := 0 to |st0|
        invariant Valid() && QuietSince(old(history), history) && SameFiles(old(cluster), cluster)
        invariant failures == old(failures) && SameButReports(st0, st)
        invariant FirstThrough(history, st0, i, r)
      {
        var report;
        ok, report, left := WaitNext(st0, i, r, left, old(cluster), old(history));
        if !ok { return; }
        ReportNoted(st0, st, i, report);
        st := st[i := st[i].(report := report)];
      }
      ok := true;
      StillTracks(old(cluster), cluster, st0, st0);
      AllThrough(history, st0, r);
      SoundBarrier(history, prompt, r);
    }

    /** The writes of pushPhase: every host whose file differs gets r. */
    method PushFiles(st0: seq<Surveyed>, r: Ring) returns (ok: bool, st: seq<Surveyed>)
      requires Valid() && Tracks(cluster, st0) && cluster.local == Some(r)
      modifies this`cluster, this`history, this`failures
      ensures Valid() && Keeps(old(history), history, r)
      ensures cluster.local == Some(r) && cluster.hosts.Keys == old(cluster).hosts.Keys && Told(ok)
      ensures ok ==> Tracks(cluster, st) && forall i :: 0 <= i < |st| ==> st[i].file == Some(r)
    {
      st := st0;
      assert LocalAt(history, |history| - 1, r);
      for i := 0 to |st0|
        invariant Valid() && Keeps(old(history), history, r)
        invariant cluster.local == Some(r) && cluster.hosts.Keys == old(cluster).hosts.Keys && failures == old(failures)
        invariant |st| == |st0| && Tracks(cluster, st) && FirstHold(st, i, r)
      {
        if st[i].file != Some(r) {
          ghost var was, past := cluster, history;
          ok := WriteKeyFile(st[i].host, r);
          KeepsOn(old(history), past, history, r);
          if !ok { return; }
          WrittenTracks(was, cluster, st, i, r);
          OneMoreHolds(st, i, r);
          st := st[i := st[i].(file := Some(r))];
        }
      }
      ok := true;
    }

    /** pushPhase: when it succeeds every file is r and every host was let through. */
    method PushPhase(st0: seq<Surveyed>, r: Ring, patience: nat) returns (ok: bool, st: seq<Surveyed>)
      requires Valid() && Tracks(cluster, st0) && cluster.local == Some(r)
      modifies this`cluster, this`history, this`failures
      ensures Valid() && Keeps(old(history), history, r)
      ensures cluster.local == Some(r) && cluster.hosts.Keys == old(cluster).hosts.Keys && Told(ok)
      ensures ok ==> Tracks(cluster, st) && LetThrough(history, r)
      ensures ok ==> SoundlyOn(history, r)
    {
      ok, st := PushFiles(st0, r);
      if ok {
        ghost var was, past := cluster, history;
        var su;
        ok, su := WaitLive(st, r, patience);
        QuietKeeps(past, history, r);
        KeepsOn(old(history), past, history, r);
        StillTracks(was, cluster, st, su);
        st := su;
      }
    }

    /** Record the next stage locally, then push it. */
    method EnterPhase(st0: seq<Surveyed>, r: Ring, patience: nat, ghost past: seq<Cluster>, ghost at: seq<nat>,
                      ghost stages: seq<Ring>)
      returns (ok: bool, st: seq<Surveyed>, ghost at': seq<nat>)
      requires Valid() && Tracks(cluster, st0) && Compatible(cluster.local.value, r)
      requires LetThrough(history, cluster.local.value)
      requires StagesAt(past, history, at, stages) && |at| < |stages| && stages[|at|] == r
      modifies this
      ensures Valid() && old(history) <= history
      ensures cluster.hosts.Keys == old(cluster).hosts.Keys && Told(ok)
      ensures StagesAt(past, history, at', stages) && at <= at'
      ensures ok ==> Tracks(cluster, st) && cluster.local == Some(r) && LetThrough(history, r) && |at'| == |at| + 1
    {
      st := st0;
      ok, at' := WriteLocalKeyring(r, past, at, stages);
      if ok {
        ghost var was := history;
        WrittenLocallyTracks(old(cluster), cluster, st0);
        ok, st := PushPhase(st0, r, patience);
        Longer(old(history), was, history);
        SameStage(past, was, history, at', stages);
      }
    }

    /** Put every host on the local keyring, then, unless the survey found every host already
        there, on its primary alone. */
    method Resync(st0: seq<Surveyed>, local: Ring, next: Key, patience: nat, ghost past: seq<Cluster>,
                  ghost at: seq<nat>)
      returns (ok: bool, clean: bool, st: seq<Surveyed>, ghost at': seq<nat>)
      requires Valid() && Tracks(cluster, st0) && cluster.local == Some(local)
      requires |at| == 1 && StagesAt(past, history, at, Stages(st0, local, next))
      modifies this
      ensures Valid() && old(history) <= history
      ensures cluster.hosts.Keys == old(cluster).hosts.Keys && Told(ok)
      ensures clean <==> Uninterrupted(st0, local)
      ensures StagesAt(past, history, at', Stages(st0, local, next)) && at <= at'
      ensures ok ==> Tracks(cluster, st) && cluster.local == Some([local[0]]) && LetThrough(history, [local[0]])
      ensures ok ==> |at'| == if clean then 1 else |Stages(st0, local, next)|
    {
      clean := SurveyClean(st0, local);
      assert |local| <= 1 ==> local == [local[0]];
      at' := at;
      ok, st := PushPhase(st0, local, patience);
      SameStage(past, old(history), history, at, Stages(st0, local, next));
      if ok && |local| > 1 {
        ghost var was := history;
        ok, st, at' := EnterPhase(st, [local[0]], patience, past, at, Stages(st0, local, next));
        Longer(old(history), was, history);
      }
    }

    /** A fresh rotation from the key k to next. */
    method ThreePhases(st0: seq<Surveyed>, k: Key, next: Key, patience: nat, ghost past: seq<Cluster>,
                       ghost at: seq<nat>)
      returns (ok: bool, ghost at': seq<nat>)
      requires Valid() && Tracks(cluster, st0) && cluster.local == Some([k]) && LetThrough(history, [k])
      requires |at| == 1 && StagesAt(past, history, at, [[k], [k, next], [next, k], [next]])
      modifies this
      ensures Valid() && old(history) <= history && Told(ok)
      ensures cluster.hosts.Keys == old(cluster).hosts.Keys
      ensures StagesAt(past, history, at', [[k], [k, next], [next, k], [next]])
      ensures ok ==> cluster.local == Some([next]) && LetThrough(history, [next]) && |at'| == 4
    {
      ghost var stages := [[k], [k, next], [next, k], [next]];
      var st;
      ok, st, at' := EnterPhase(st0, [k, next], patience, past, at, stages);
      if !ok { return; }
      ghost var was := history;
      ok, st, at' := EnterPhase(st, [next, k], patience, past, at', stages);
      Longer(old(history), was, history);
      if !ok { return; }
      ok := Succeeds();  // the grace period
      if !ok { return; }
      was := history;
      ok, st, at' := EnterPhase(st, [next], patience, past, at', stages);
      Longer(old(history), was, history);
    }

    /** A rotation after its survey. */
    method CarryOut(st0: seq<Surveyed>, local: Ring, next: Key, patience: nat, ghost past: seq<Cluster>,
                    ghost at: seq<nat>)
      returns (res: RotateResult, ghost at': seq<nat>)
      requires Valid() && Tracks(cluster, st0) && cluster.local == Some(local)
      requires |at| == 1 && StagesAt(past, history, at, Stages(st0, local, next))
      modifies this
      ensures Valid() && old(history) <= history && cluster.hosts.Keys == old(cluster).hosts.Keys
      ensures Told(!res.Interrupted?) && StagesAt(past, history, at', Stages(st0, local, next))
      ensures res.Rotated? || res.SettledOnly? || res.Interrupted?
      ensures res.Rotated? ==> Uninterrupted(st0, local)
      ensures res.SettledOnly? ==> !Uninterrupted(st0, local)
      ensures !res.Interrupted? ==>
                var key := if res.Rotated? then next else local[0];
                |at'| == |Stages(st0, local, next)| && cluster.local == Some([key]) && LetThrough(history, [key])
    {
      var ok, clean, st;
      ok, clean, st, at' := Resync(st0, local, next, patience, past, at);
      if !ok { return Interrupted, at'; }
      if !clean { return SettledOnly, at'; }
      ghost var was := history;
      ok, at' := ThreePhases(st, local[0], next, patience, past, at');
      Longer(old(history), was, history);
      return if ok then Rotated else Interrupted, at';
    }

    /** Before a rotation writes anything: survey the hosts and look for a live one without the
        local primary. */
    method Examine(hosts: seq<string>, ghost next: Key)
      returns (ok: bool, missing: bool, st: seq<Surveyed>, ghost at: seq<nat>)
      requires Valid() && Covers(hosts)
      modifies this`cluster, this`history, this`failures
      ensures Valid() && QuietSince(old(history), history) && SameFiles(old(cluster), cluster) && Told(ok)
      ensures |at| == 1 && StagesAt(old(history), history, at, Stages(st, old(cluster).local.value, next))
      ensures ok ==> Tracks(cluster, st) && Tracks(old(cluster), st) && Sighted(old(history), history, st)
      ensures ok ==> (missing <==> PrimaryLost(st, old(cluster).local.value[0]))
      ensures ok && missing ==> !SkipsSound(history)
    {
      var local := cluster.local.value;
      ok, st := Survey(hosts);
      at, missing := [|old(history)| - 1], false;
      QuietKeeps(old(history), history, local);
      FirstStage(old(history), history, st, local, next);
      if ok {
        missing := PrimaryMissing(st, local[0]);
        if missing { LostIsUnsound(old(history), history, prompt, st); }
      }
    }

    /** RotateGossipKey: finish an interrupted rotation, or rotate to next. st0 is its
        survey, at the states at which its stages began. */
    method RotateGossipKey(hosts: seq<string>, next: Key, patience: nat)
      returns (res: RotateResult, ghost st0: seq<Surveyed>, ghost at: seq<nat>)
      requires Recorded() && Covers(hosts) && (cluster.local.Some? ==> Valid())
      modifies this
      ensures Recorded() && old(history) <= history && cluster.hosts.Keys == old(cluster).hosts.Keys
      ensures old(cluster).local.None? ==> res == NoLocalKey && cluster == old(cluster) && at == []
      ensures old(cluster).local.Some? ==>
                && Valid() && res != NoLocalKey
                && StagesAt(old(history), history, at, Stages(st0, old(cluster).local.value, next))
                && OpenedSettled(history, at, Stages(st0, old(cluster).local.value, next))
      ensures Told(!res.Interrupted?)
      ensures res.Rotated? || res.SettledOnly? || res.MissingPrimary? || |at| > 1 ==>
                && Tracks(old(cluster), st0) && Sighted(old(history), history, st0)
                && (res.MissingPrimary? <==> PrimaryLost(st0, old(cluster).local.value[0]))
      ensures res.Rotated? ==> Uninterrupted(st0, old(cluster).local.value)
      ensures res.SettledOnly? ==> !Uninterrupted(st0, old(cluster).local.value)
      ensures res.Rotated? || res.SettledOnly? ==>
                var k := if res.Rotated? then next else old(cluster).local.value[0];
                && |at| == |Stages(st0, old(cluster).local.value, next)| && cluster.local == Some([k])
                && LetThrough(history, [k]) && SoundlyOn(history, [k])
      ensures res.MissingPrimary? ==> !SkipsSound(history) && QuietSince(old(history), history)
    {
      st0, at := [], [];
      if cluster.local.None? { return NoLocalKey, st0, at; }
      var local := cluster.local.value;
      var ok, missing, st;
      ok, missing, st, at := Examine(hosts, next);
      st0 := st;
      OpenedAtOnce(history, at, Stages(st0, local, next));
      if !ok { return Interrupted, st0, at; }
      if missing { return MissingPrimary, st0, at; }
      ghost var past := history;
      res, at := CarryOut(st, local, next, patience, old(history), at);
      Longer(old(history), past, history);
      StillSighted(old(history), past, history, st0);
      StagesOpenSettled(old(history), history, prompt, at, Stages(st0, local, next));
      SoundBarrier(history, prompt, cluster.local.value);
    }

    /** Any number of rotations, each completed, refused or interrupted anywhere. */
    method RotateRepeatedly(hosts: seq<string>, keys: seq<Key>, patience: nat)
      requires Valid() && Covers(hosts)
      modifies this
      ensures Valid() && old(history) <= history
      ensures SkipsSound(history) || prompt ==> Connected(history)
    {
      for i := 0 to |keys|
        invariant Valid() && Covers(hosts) && old(history) <= history
      {
        ghost var past := history;
        var _, _, _ := RotateGossipKey(hosts, keys[i], patience);
        Longer(old(history), past, history);
      }
      if prompt { PromptIsSound(history); }
      if SkipsSound(history) { NeverPartitioned(history, prompt); }
    }

    /** One host of it: it had no file when the command began, in cluster first. */
    method FillNext(st: seq<Surveyed>, i: nat, r: Ring, ghost first: Cluster, ghost past: seq<Cluster>)
      returns (ok: bool)
      requires Recorded() && past <= history && OnlyFilled(first, cluster, r) && cluster.local == Some(r)
      requires i < |st| && st[i].host in first.hosts && first.hosts[st[i].host].file.None? && Filled(cluster, st, i, r)
      modifies this`cluster, this`history, this`failures
      ensures Recorded() && past <= history && OnlyFilled(first, cluster, r) && Told(ok)
      ensures ok ==> Filled(cluster, st, i + 1, r)
      ensures old(Valid()) ==> Valid()
    {
      ok := WriteKeyFile(st[i].host, r);
      Longer(past, old(history), history);
      FilledKept(old(cluster), cluster, st, i, r);
    }

    /** Write r to every surveyed host that holds no key file. */
    method FillAbsent(st: seq<Surveyed>, r: Ring, ghost past: seq<Cluster>) returns (ok: bool)
      requires Recorded() && past <= history && Tracks(cluster, st) && cluster.local == Some(r)
      requires forall i :: 0 <= i < |st| ==> st[i].file.None? || st[i].file == Some(r)
      modifies this`cluster, this`history, this`failures
      ensures Recorded() && past <= history && OnlyFilled(old(cluster), cluster, r) && Told(ok)
      ensures ok ==> forall n :: n in cluster.hosts ==> cluster.hosts[n].file == Some(r)
      ensures old(Valid()) ==> Valid()
    {
      ghost var valid := Valid();
      for i := 0 to |st|
        invariant Recorded() && past <= history
        invariant OnlyFilled(old(cluster), cluster, r) && failures == old(failures)
        invariant valid ==> Valid()
        invariant Filled(cluster, st, i, r)
      {
        if st[i].file.None? {
          ok := FillNext(st, i, r, old(cluster), past);
          if !ok { return; }
        }
      }
      ok := true;
      forall n | n in cluster.hosts ensures cluster.hosts[n].file == Some(r) {
        var i :| 0 <= i < |st| && st[i].host == n;
      }
    }

    /** Write the local keyring of a cluster surveyed to have none. */
    method Mint(ghost st: seq<Surveyed>, minted: Key, ghost past: seq<Cluster>)
      requires Recorded() && past <= history && cluster.local.None? && Tracks(cluster, st)
      requires forall i :: 0 <= i < |st| ==> st[i].file.None?
      modifies this`cluster, this`history
      ensures Recorded() && past <= history && cluster == WriteLocal(old(cluster), [minted])
    {
      forall n | n in cluster.hosts ensures cluster.hosts[n].file.None? {
        var i :| 0 <= i < |st| && st[i].host == n;
      }
      ghost var more := history + [WriteLocal(cluster, [minted])];
      assert more[|history| - 1] == cluster && ProtocolStepAt(more, |history|, prompt);
      RunExtended(history, WriteLocal(cluster, [minted]), prompt);
      cluster := WriteLocal(cluster, [minted]);
      history := history + [cluster];
    }

    /** InstallGossipKey: give the cluster key to hosts that have none, minting it if
        nobody has. It replaces no file. */
    method InstallGossipKey(hosts: seq<string>, minted: Key) returns (res: InstallResult)
      requires Recorded() && Covers(hosts)
      modifies this`cluster, this`history, this`failures
      ensures Recorded() && old(history) <= history && cluster.hosts.Keys == old(cluster).hosts.Keys
      ensures Told(res !in {NothingDone, PartlyDone})
      ensures old(cluster).local.None? ==> cluster.local.None? || cluster.local == Some([minted])
      ensures old(cluster).local.None? && res in {Installed, PartlyDone} ==> cluster.local == Some([minted])
      ensures res != NothingDone ==>
                (res == ClusterHasKey <==> old(cluster).local.None? && HasFile(old(cluster)))
      ensures res != NothingDone ==>
                (res == Conflict <==> old(cluster).local.Some? && HasOtherFile(old(cluster), old(cluster).local.value))
      ensures res == ClusterHasKey ==> cluster.local.None?
      ensures forall n :: n in cluster.hosts && old(cluster).hosts[n].file.Some? ==>
                            cluster.hosts[n].file == old(cluster).hosts[n].file
      ensures forall n :: n in cluster.hosts ==>
                cluster.hosts[n].file == old(cluster).hosts[n].file || cluster.hosts[n].file == cluster.local
      ensures res in {ClusterHasKey, Conflict, NothingDone} ==> SameHostFiles(old(cluster), cluster)
      ensures res == Installed ==> cluster.local.Some?
      ensures res == Installed ==> forall n :: n in cluster.hosts ==> cluster.hosts[n].file == cluster.local
      ensures old(cluster).local.Some? ==> cluster.local == old(cluster).local && (old(Valid()) ==> Valid())
    {
      var ok, st := Survey(hosts);
      if !ok { return NothingDone; }
      SurveyedFiles(old(cluster), st);
      if cluster.local.None? {
        var held := SomeFile(st);
        if held { return ClusterHasKey; }
        ok := Succeeds();
        var applied: bool := *;
        if ok || applied { Mint(st, minted, old(history)); }
        if !ok { return NothingDone; }
      }
      var ring := cluster.local.value;
      var conflict := ConflictingFile(st, ring);
      if conflict { return Conflict; }
      ok := FillAbsent(st, ring, old(history));
      res := if ok then Installed else PartlyDone;
    }
  }
}
