/** Every host's key file, live keyring and reported state, what daemons do on
    their own, and the invariant a rotation keeps at every instant. */
module GossipFleet {
  import opened Options
  import opened GossipRing

  /** file: the host's gossip.key. live: the keyring its daemon is using, None when
      it is off or not running. loading: the keyring a reload in flight has read.
      starting: the keyring a daemon that has not joined gossip yet has read.
      report: the state file, None when absent or off; it lags live. */
  datatype Host = Host(
    file: Option<Ring>, live: Option<Ring>, loading: Option<Ring>, starting: Option<Ring>, report: Option<Ring>)

  /** local: the operator machine's own keyring file. */
  datatype Cluster = Cluster(local: Option<Ring>, hosts: map<string, Host>)

  // ---- what a daemon does on its own ----

  /** One step of one daemon. A reload reads the file, then changes the keyring one
      memberlist call at a time (GossipRing.Keyring.SetGossipKeys), and may give up. */
  ghost predicate DaemonStep(h: Host, g: Host) {
    || (&& h.live.Some? && h.loading.None? && h.file.Some? && !Same(h.live.value, h.file.value)
        && g == h.(loading := h.file))
    || (h.live.Some? && h.loading.Some? && !Same(h.live.value, h.loading.value) &&
        g.live.Some? && LoadInstant(h.live.value, h.loading.value, g.live.value) && g == h.(live := g.live))
    || g == h.(loading := None)
    || (h.loading.None? && h.starting.None? && g == h.(report := h.live))
    || Reads(h, g)
    || Joins(h, g)
    || g == h.(live := None, loading := None, starting := None)
  }

  /** A daemon starts by reading its key file; its state file is an old one. */
  ghost predicate Reads(h: Host, g: Host) {
    h.live.None? && h.starting.None? && h.file.Some? && g == h.(starting := h.file)
  }

  /** Later it joins gossip with what it read. */
  ghost predicate Joins(h: Host, g: Host) {
    && h.live.None? && h.starting.Some? && g.live.Some? && Same(g.live.value, h.starting.value)
    && g == h.(live := g.live, starting := None)
  }

  /** A daemon with no state file that writes one as it reads its keys, before it joins. */
  ghost predicate PromptRead(h: Host, g: Host) {
    && h.live.None? && h.starting.None? && h.file.Some?
    && g == h.(starting := h.file, report := if h.report.None? then h.file else h.report)
  }

  ghost predicate PromptStep(h: Host, g: Host) {
    (DaemonStep(h, g) && !Reads(h, g)) || PromptRead(h, g)
  }

  ghost predicate FleetStep(c: Cluster, d: Cluster, prompt: bool) {
    exists n, g :: n in c.hosts && (if prompt then PromptStep(c.hosts[n], g) else DaemonStep(c.hosts[n], g)) &&
                   d == c.(hosts := c.hosts[n := g])
  }

  ghost predicate FleetStepAt(run: seq<Cluster>, i: nat, prompt: bool)
    requires 0 < i < |run|
  {
    FleetStep(run[i - 1], run[i], prompt)
  }

  /** Daemons taking any number of steps while the operator does nothing. */
  ghost predicate FleetRun(run: seq<Cluster>, prompt: bool) {
    run != [] && forall i: nat :: 0 < i < |run| ==> FleetStepAt(run, i, prompt)
  }

  // ---- no partition ----

  ghost predicate NoPartition(c: Cluster) {
    forall m, n :: m in c.hosts && n in c.hosts && c.hosts[m].live.Some? && c.hosts[n].live.Some? ==>
                     var primary := c.hosts[m].live.value; primary != [] && primary[0] in c.hosts[n].live.value
  }

  /** Each keyring holds the other's primary. */
  ghost predicate Compatible(a: Ring, b: Ring) {
    a != [] && b != [] && a[0] in b && b[0] in a
  }

  /** A keyring that can talk to any other keyring between a and b. */
  ghost predicate Between(a: Ring, b: Ring, x: Ring)
    requires a != [] && b != []
  {
    x != [] && (x[0] == a[0] || x[0] == b[0]) && a[0] in x && b[0] in x
  }

  /** On r, and nothing in flight or on file would take it elsewhere. */
  ghost predicate Settled(r: Ring, h: Host) {
    && (h.file.Some? ==> h.file.value == r)
    && (h.live.Some? ==> Same(h.live.value, r))
    && (h.loading.Some? ==> h.live.Some? && Same(h.live.value, h.loading.value))
    && (h.starting.Some? ==> Same(h.starting.value, r))
    && (h.report.Some? ==> Same(h.report.value, r))
  }

  /** Has b's file; its keyring is between a and b until it reports b. */
  ghost predicate Moving(a: Ring, b: Ring, h: Host)
    requires a != [] && b != []
  {
    && h.file == Some(b)
    && (h.live.Some? ==> Between(a, b, h.live.value))
    && (h.loading.Some? ==> h.live.Some? && (h.loading.value == b || Same(h.live.value, h.loading.value)))
    && (h.starting.Some? ==> Between(a, b, h.starting.value))
    && (h.report.Some? ==> Between(a, b, h.report.value))
    && (h.report.Some? && Same(h.report.value, b) && h.live.Some? ==> Same(h.live.value, b))
    && (h.report.Some? && Same(h.report.value, b) && h.starting.Some? ==> Same(h.starting.value, b))
  }

  ghost predicate HostInPhase(a: Ring, c: Cluster, n: string)
    requires n in c.hosts && c.local.Some? && a != [] && c.local.value != []
  {
    Settled(a, c.hosts[n]) || Moving(a, c.local.value, c.hosts[n])
  }

  /** The cluster is between keyring a and the local keyring. */
  ghost predicate InPhase(a: Ring, c: Cluster) {
    && c.local.Some? && Compatible(a, c.local.value)
    && forall n {:trigger HostInPhase(a, c, n)} :: n in c.hosts ==> HostInPhase(a, c, n)
  }

  lemma {:induction false} SettledIsBetween(a: Ring, b: Ring, h: Host)
    requires Compatible(a, b) && (Settled(a, h) || Moving(a, b, h)) && h.live.Some?
    ensures Between(a, b, h.live.value)
  {
    if Settled(a, h) { SameElements(h.live.value, a); }
  }

  /** Any two hosts of one phase hear each other. */
  lemma {:induction false} PhaseConnected(a: Ring, c: Cluster)
    requires InPhase(a, c)
    ensures NoPartition(c)
  {
    forall m, n | m in c.hosts && n in c.hosts && c.hosts[m].live.Some? && c.hosts[n].live.Some?
      ensures c.hosts[m].live.value != [] && c.hosts[m].live.value[0] in c.hosts[n].live.value
    {
      assert HostInPhase(a, c, m) && HostInPhase(a, c, n);
      SettledIsBetween(a, c.local.value, c.hosts[m]);
      SettledIsBetween(a, c.local.value, c.hosts[n]);
    }
  }

  // ---- daemons keep the phase ----

  lemma {:induction false} SettledKept(r: Ring, h: Host, g: Host)
    requires Settled(r, h) && (DaemonStep(h, g) || PromptRead(h, g))
    ensures Settled(r, g)
  {
  }

  lemma {:induction false} InstantKeepsBetween(a: Ring, b: Ring, l: Ring, x: Ring)
    requires Compatible(a, b) && Between(a, b, l) && LoadInstant(l, b, x)
    ensures Between(a, b, x)
  {
  }

  lemma {:induction false} MovingKept(a: Ring, b: Ring, h: Host, g: Host)
    requires Compatible(a, b) && Moving(a, b, h) && (DaemonStep(h, g) || PromptRead(h, g))
    ensures Moving(a, b, g)
  {
    if Joins(h, g) {
      SameElements(g.live.value, h.starting.value);
    } else if h.live.Some? && h.loading.Some? && g.live.Some? && g.live != h.live {
      InstantKeepsBetween(a, b, h.live.value, g.live.value);
    }
  }

  lemma {:induction false} FleetStepKeeps(a: Ring, c: Cluster, d: Cluster, prompt: bool)
    requires InPhase(a, c) && FleetStep(c, d, prompt)
    ensures InPhase(a, d)
  {
    var n, g :| n in c.hosts && (if prompt then PromptStep(c.hosts[n], g) else DaemonStep(c.hosts[n], g)) &&
                d == c.(hosts := c.hosts[n := g]);
    assert HostInPhase(a, c, n);
    if Settled(a, c.hosts[n]) {
      SettledKept(a, c.hosts[n], g);
    } else {
      MovingKept(a, c.local.value, c.hosts[n], g);
    }
    forall m | m in d.hosts ensures HostInPhase(a, d, m) { assert HostInPhase(a, c, m); }
  }

  /** Daemons never touch a key file or the local one. */
  ghost predicate SameFiles(c: Cluster, d: Cluster) {
    && c.local == d.local && c.hosts.Keys == d.hosts.Keys
    && forall n :: n in c.hosts ==> d.hosts[n].file == c.hosts[n].file
  }

  /** A host that has loaded and reported its file stays with it. */
  ghost predicate ArrivedKept(c: Cluster, d: Cluster) {
    forall n, r :: Arrived(c, n, r) ==> Arrived(d, n, r)
  }

  ghost predicate Arrived(c: Cluster, n: string, r: Ring) {
    n in c.hosts && c.hosts[n].file == Some(r) && Settled(r, c.hosts[n])
  }

  lemma {:induction false} FleetStepFiles(c: Cluster, d: Cluster, prompt: bool)
    requires FleetStep(c, d, prompt)
    ensures SameFiles(c, d) && ArrivedKept(c, d)
  {
    var n, g :| n in c.hosts && (if prompt then PromptStep(c.hosts[n], g) else DaemonStep(c.hosts[n], g)) &&
                d == c.(hosts := c.hosts[n := g]);
    forall r | Settled(r, c.hosts[n]) ensures Settled(r, g) { SettledKept(r, c.hosts[n], g); }
  }

  lemma {:induction false} FilesTransitive(c: Cluster, d: Cluster, e: Cluster)
    requires SameFiles(c, d) && ArrivedKept(c, d) && SameFiles(d, e) && ArrivedKept(d, e)
    ensures SameFiles(c, e) && ArrivedKept(c, e)
  {
  }

  lemma {:induction false} FleetRunFiles(run: seq<Cluster>, prompt: bool, i: nat)
    requires FleetRun(run, prompt) && i < |run|
    ensures SameFiles(run[0], run[i]) && ArrivedKept(run[0], run[i])
  {
    if i > 0 {
      FleetRunFiles(run, prompt, i - 1);
      assert FleetStepAt(run, i, prompt);
      FleetStepFiles(run[i - 1], run[i], prompt);
      FilesTransitive(run[0], run[i - 1], run[i]);
    }
  }

  lemma {:induction false} FleetRunPhase(a: Ring, run: seq<Cluster>, prompt: bool, i: nat)
    requires FleetRun(run, prompt) && InPhase(a, run[0]) && i < |run|
    ensures InPhase(a, run[i]) && NoPartition(run[i])
  {
    if i > 0 {
      FleetRunPhase(a, run, prompt, i - 1);
      assert FleetStepAt(run, i, prompt);
      FleetStepKeeps(a, run[i - 1], run[i], prompt);
    }
    PhaseConnected(a, run[i]);
  }

  // ---- hosts that report ----

  /** A daemon that is using a keyring, or about to, has a state file. */
  ghost predicate Visible(c: Cluster) {
    forall n :: n in c.hosts && (c.hosts[n].live.Some? || c.hosts[n].starting.Some?) ==> c.hosts[n].report.Some?
  }

  // ---- what the operator does ----

  function WriteHost(c: Cluster, n: string, r: Ring): Cluster
    requires n in c.hosts
  {
    c.(hosts := c.hosts[n := c.hosts[n].(file := Some(r))])
  }

  function WriteLocal(c: Cluster, r: Ring): Cluster {
    c.(local := Some(r))
  }

  /** Pushing the local keyring to a host keeps the phase. */
  lemma {:induction false} WriteHostKeeps(a: Ring, c: Cluster, n: string)
    requires InPhase(a, c) && n in c.hosts
    ensures InPhase(a, WriteHost(c, n, c.local.value))
  {
    var b := c.local.value;
    var h := c.hosts[n];
    assert HostInPhase(a, c, n);
    forall m | m in c.hosts && m != n ensures HostInPhase(a, WriteHost(c, n, b), m) { assert HostInPhase(a, c, m); }
    if Settled(a, h) {
      if h.live.Some? { SameElements(h.live.value, a); }
      if h.report.Some? { SameElements(h.report.value, a); }
      if h.starting.Some? { SameElements(h.starting.value, a); }
      if h.report.Some? && Same(h.report.value, b) {
        if h.live.Some? { SameTransitive(h.live.value, a, h.report.value, b); }
        if h.starting.Some? { SameTransitive(h.starting.value, a, h.report.value, b); }
      }
      assert Moving(a, b, h.(file := Some(b)));
    }
  }

  ghost predicate AllSettled(r: Ring, c: Cluster) {
    forall n :: n in c.hosts ==> c.hosts[n].file == Some(r) && Settled(r, c.hosts[n])
  }

  /** A new phase may begin once every host has arrived at the last one. */
  lemma {:induction false} NextPhase(c: Cluster, b: Ring)
    requires c.local.Some? && AllSettled(c.local.value, c) && Compatible(c.local.value, b)
    ensures InPhase(c.local.value, WriteLocal(c, b))
  {
  }

  /** Skipping a host that reports nothing is sound when it neither runs a keyring nor
      has read one to start with, unless it is this one. */
  ghost predicate SkipSound(h: Host, r: Ring) {
    h.report.None? ==>
      && (h.live.Some? ==> Same(h.live.value, r))
      && (h.starting.Some? ==> Same(h.starting.value, r))
  }

  /** The barrier lets a host through: it reports the keyring, or nothing. */
  ghost predicate Passes(h: Host, r: Ring) {
    h.report.None? || Same(h.report.value, r)
  }

  /** A host the barrier lets through has arrived. */
  lemma {:induction false} PassedIsSettled(a: Ring, b: Ring, h: Host)
    requires Compatible(a, b) && (Settled(a, h) || Moving(a, b, h))
    requires h.file == Some(b) && Passes(h, b) && SkipSound(h, b)
    ensures Settled(b, h)
  {
  }

  // ---- the protocol ----

  /** In state m the keyring being pushed is r, and host n has it on file. */
  ghost predicate OnFile(run: seq<Cluster>, m: nat, n: string, r: Ring)
    requires m < |run|
  {
    run[m].local == Some(r) && n in run[m].hosts && run[m].hosts[n].file == Some(r)
  }

  /** Since state k host n has had r on file, and the barrier let it through then. */
  ghost predicate LetThroughAt(run: seq<Cluster>, k: int, n: string, r: Ring) {
    && 0 <= k < |run|
    && (forall m: nat :: k <= m < |run| ==> OnFile(run, m, n, r))
    && n in run[k].hosts && Passes(run[k].hosts[n], r)
  }

  ghost predicate Through(run: seq<Cluster>, n: string, r: Ring) {
    exists k :: LetThroughAt(run, k, n, r)
  }

  /** The barrier has let every host through. */
  ghost predicate LetThrough(run: seq<Cluster>, r: Ring) {
    run != [] && forall n :: n in run[|run| - 1].hosts ==> Through(run, n, r)
  }

  /** Step i of a rotation: a daemon's step, a push of the local keyring, the next phase
      once every host was let through, or the first key of a cluster that has none. */
  ghost predicate ProtocolStepAt(run: seq<Cluster>, i: nat, prompt: bool)
    requires 0 < i < |run|
  {
    var c, d := run[i - 1], run[i];
    || FleetStep(c, d, prompt)
    || (exists n :: n in c.hosts && c.local.Some? && d == WriteHost(c, n, c.local.value))
    || (&& c.local.Some? && d.local.Some? && LetThrough(run[..i], c.local.value)
        && Compatible(c.local.value, d.local.value) && d == WriteLocal(c, d.local.value))
    || (&& c.local.None? && d.local.Some? && |d.local.value| == 1 && d == WriteLocal(c, d.local.value)
        && forall n :: n in c.hosts ==> c.hosts[n].file.None?)
  }

  ghost predicate ProtocolRun(run: seq<Cluster>, prompt: bool) {
    run != [] && forall i: nat :: 0 < i < |run| ==> ProtocolStepAt(run, i, prompt)
  }

  /** Which step a state is reached by depends on what came before it only. */
  lemma {:induction false} StepStays(was: seq<Cluster>, run: seq<Cluster>, i: nat, prompt: bool)
    requires was <= run && 0 < i < |was| && ProtocolStepAt(was, i, prompt)
    ensures ProtocolStepAt(run, i, prompt)
  {
    assert run[..i] == was[..i];
  }

  lemma {:induction false} RunExtended(was: seq<Cluster>, d: Cluster, prompt: bool)
    requires ProtocolRun(was, prompt) && ProtocolStepAt(was + [d], |was|, prompt)
    ensures ProtocolRun(was + [d], prompt)
  {
    forall i: nat | 0 < i < |was| ensures ProtocolStepAt(was + [d], i, prompt) { StepStays(was, was + [d], i, prompt); }
  }

  /** Daemons running on their own keep to the protocol. */
  lemma {:induction false} RunContinued(was: seq<Cluster>, run: seq<Cluster>, prompt: bool)
    requires ProtocolRun(was, prompt) && was <= run && FleetRun(run[|was| - 1..], prompt)
    ensures ProtocolRun(run, prompt)
  {
    forall i: nat | 0 < i < |run| ensures ProtocolStepAt(run, i, prompt) {
      if i < |was| {
        StepStays(was, run, i, prompt);
      } else {
        assert FleetStepAt(run[|was| - 1..], i - |was| + 1, prompt);
      }
    }
  }

  lemma {:induction false} Longer(a: seq<Cluster>, b: seq<Cluster>, c: seq<Cluster>)
    requires a <= b && b <= c
    ensures a <= c
  {
  }

  /** No file has changed since state k. */
  ghost predicate Quiet(run: seq<Cluster>, k: int) {
    0 <= k < |run| && forall m: nat :: k <= m < |run| ==> QuietAt(run, k, m)
  }

  ghost predicate QuietAt(run: seq<Cluster>, k: nat, m: nat)
    requires k < |run| && m < |run|
  {
    SameFiles(run[k], run[m])
  }

  lemma {:induction false} StillThrough(was: seq<Cluster>, run: seq<Cluster>, k: int, n: string, r: Ring)
    requires LetThroughAt(was, k, n, r) && was <= run && Quiet(run, |was| - 1)
    ensures LetThroughAt(run, k, n, r)
  {
    assert OnFile(was, |was| - 1, n, r);
    forall m: nat | k <= m < |run| ensures OnFile(run, m, n, r) {
      if m < |was| { assert OnFile(was, m, n, r); } else { assert QuietAt(run, |was| - 1, m); }
    }
  }
}
