/** What a run of the rotation protocol keeps: connection at every instant, as long as no
    phase was opened on the strength of an unsound skip. */
module GossipSafety {
  import opened Options
  import opened GossipRing
  import opened GossipFleet

  /** A cluster uniformly on one key, each daemon using it or off. */
  ghost predicate Founded(c: Cluster) {
    c.local.Some? && |c.local.value| == 1 && AllSettled(c.local.value, c)
  }

  /** Host n was let through since it got r, and not by an unsound skip. */
  ghost predicate SoundlyThrough(run: seq<Cluster>, n: string, r: Ring) {
    exists k :: LetThroughAt(run, k, n, r) && SkipSound(run[k].hosts[n], r)
  }

  ghost predicate AllSoundlyThrough(run: seq<Cluster>, r: Ring) {
    run != [] && forall n :: n in run[|run| - 1].hosts ==> SoundlyThrough(run, n, r)
  }

  /** If state j opens a phase, every host had soundly been let through the one before. */
  ghost predicate SoundAt(run: seq<Cluster>, j: nat)
    requires 0 < j < |run|
  {
    run[j - 1].local.Some? && run[j].local != run[j - 1].local ==> AllSoundlyThrough(run[..j], run[j - 1].local.value)
  }

  /** No phase was opened because an unsound skip let a host through. */
  ghost predicate SkipsSound(run: seq<Cluster>) {
    forall j: nat :: 0 < j < |run| ==> SoundAt(run, j)
  }

  lemma {:induction false} PrefixRun(run: seq<Cluster>, n: nat, prompt: bool)
    requires ProtocolRun(run, prompt) && 0 < n <= |run|
    ensures ProtocolRun(run[..n], prompt)
  {
    forall i: nat | 0 < i < n ensures ProtocolStepAt(run[..n], i, prompt) {
      assert ProtocolStepAt(run, i, prompt) && run[..n][..i] == run[..i];
    }
  }

  lemma {:induction false} PrefixSound(run: seq<Cluster>, n: nat)
    requires SkipsSound(run) && n <= |run|
    ensures SkipsSound(run[..n])
  {
    forall j: nat | 0 < j < n ensures SoundAt(run[..n], j) { assert SoundAt(run, j) && run[..n][..j] == run[..j]; }
  }

  /** Having arrived, host n stays as long as r is what is pushed. */
  lemma {:induction false} StaysArrived(run: seq<Cluster>, prompt: bool, k: nat, m: nat, n: string, r: Ring)
    requires ProtocolRun(run, prompt) && k <= m < |run| && LetThroughAt(run, k, n, r) && Arrived(run[k], n, r)
    ensures Arrived(run[m], n, r)
  {
    if m > k {
      StaysArrived(run, prompt, k, m - 1, n, r);
      assert ProtocolStepAt(run, m, prompt) && OnFile(run, m - 1, n, r) && OnFile(run, m, n, r);
      if FleetStep(run[m - 1], run[m], prompt) { FleetStepFiles(run[m - 1], run[m], prompt); }
    }
  }

  /** Every state of such a run is in some phase. */
  lemma {:induction false} RunInPhase(run: seq<Cluster>, prompt: bool) returns (a: Ring)
    requires ProtocolRun(run, prompt) && Founded(run[0]) && SkipsSound(run)
    ensures InPhase(a, run[|run| - 1])
    decreases |run|, 0
  {
    var j := |run| - 1;
    if j == 0 { return run[0].local.value; }
    PrefixRun(run, j, prompt);
    PrefixSound(run, j);
    a := RunInPhase(run[..j], prompt);
    var c, d := run[j - 1], run[j];
    assert run[..j][j - 1] == c && ProtocolStepAt(run, j, prompt);
    if FleetStep(c, d, prompt) {
      FleetStepKeeps(a, c, d, prompt);
    } else if n :| n in c.hosts && c.local.Some? && d == WriteHost(c, n, c.local.value) {
      WriteHostKeeps(a, c, n);
    } else if d.local != c.local {
      assert SoundAt(run, j);
      BarrierSettles(run[..j], prompt, c.local.value);
      NextPhase(c, d.local.value);
      a := c.local.value;
    }
  }

  /** What the barrier is for: when it has soundly let every host through, all have arrived. */
  lemma {:induction false} BarrierSettles(run: seq<Cluster>, prompt: bool, r: Ring)
    requires ProtocolRun(run, prompt) && Founded(run[0]) && SkipsSound(run) && AllSoundlyThrough(run, r)
    ensures AllSettled(r, run[|run| - 1])
    decreases |run|, 1
  {
    var last := run[|run| - 1];
    forall n | n in last.hosts ensures Arrived(last, n, r) {
      assert SoundlyThrough(run, n, r);
      var k: nat :| LetThroughAt(run, k, n, r) && SkipSound(run[k].hosts[n], r);
      PrefixRun(run, k + 1, prompt);
      PrefixSound(run, k + 1);
      var a := RunInPhase(run[..k + 1], prompt);
      assert run[..k + 1][k] == run[k] && OnFile(run, k, n, r) && HostInPhase(a, run[k], n);
      PassedIsSettled(a, r, run[k].hosts[n]);
      StaysArrived(run, prompt, k, |run| - 1, n, r);
    }
  }

  /** With sound skips, this last barrier's too, every host has r on file and is on it or off. */
  ghost predicate SoundlyOn(run: seq<Cluster>, r: Ring) {
    run != [] && (SkipsSound(run) && AllSoundlyThrough(run, r) ==> AllSettled(r, run[|run| - 1]))
  }

  lemma {:induction false} SoundBarrier(run: seq<Cluster>, prompt: bool, r: Ring)
    requires ProtocolRun(run, prompt) && Founded(run[0])
    ensures SoundlyOn(run, r)
  {
    if SkipsSound(run) && AllSoundlyThrough(run, r) { BarrierSettles(run, prompt, r); }
  }

  ghost predicate ConnectedAt(run: seq<Cluster>, i: nat)
    requires i < |run|
  {
    NoPartition(run[i])
  }

  /** At no instant of the run was the cluster partitioned. */
  ghost predicate Connected(run: seq<Cluster>) {
    forall i: nat :: i < |run| ==> ConnectedAt(run, i)
  }

  /** NO PARTITION. */
  lemma {:induction false} NeverPartitioned(run: seq<Cluster>, prompt: bool)
    requires ProtocolRun(run, prompt) && Founded(run[0]) && SkipsSound(run)
    ensures Connected(run)
  {
    forall i: nat | i < |run| ensures ConnectedAt(run, i) {
      PrefixRun(run, i + 1, prompt);
      PrefixSound(run, i + 1);
      var a := RunInPhase(run[..i + 1], prompt);
      PhaseConnected(a, run[i]);
    }
  }

  /** A phase opens on a cluster settled on the one before. */
  lemma {:induction false} PhaseOpensSettled(run: seq<Cluster>, prompt: bool, j: nat)
    requires ProtocolRun(run, prompt) && Founded(run[0]) && SkipsSound(run)
    requires 0 < j < |run| && run[j - 1].local.Some? && run[j].local != run[j - 1].local
    ensures AllSettled(run[j - 1].local.value, run[j - 1])
  {
    PrefixRun(run, j, prompt);
    PrefixSound(run, j);
    assert SoundAt(run, j);
    BarrierSettles(run[..j], prompt, run[j - 1].local.value);
  }

  /** A keyring reported while a rotation is under way holds the local primary. */
  lemma {:induction false} ReportsHoldPrimary(run: seq<Cluster>, prompt: bool, i: nat, n: string)
    requires ProtocolRun(run, prompt) && Founded(run[0]) && SkipsSound(run)
    requires i < |run| && n in run[i].hosts && run[i].hosts[n].report.Some?
    ensures run[i].local.Some? && run[i].local.value != [] && run[i].local.value[0] in run[i].hosts[n].report.value
  {
    PrefixRun(run, i + 1, prompt);
    PrefixSound(run, i + 1);
    var a := RunInPhase(run[..i + 1], prompt);
    var h := run[i].hosts[n];
    assert HostInPhase(a, run[i], n);
    if Settled(a, h) { SameElements(h.report.value, a); }
  }

  // ---- daemons that report before they join ----

  lemma {:induction false} AlwaysVisible(run: seq<Cluster>, i: nat)
    requires ProtocolRun(run, true) && Visible(run[0]) && i < |run|
    ensures Visible(run[i])
  {
    if i > 0 {
      AlwaysVisible(run, i - 1);
      assert ProtocolStepAt(run, i, true);
    }
  }

  /** If daemons wrote their state file as they read their keys, no skip would be unsound. */
  lemma {:induction false} PromptIsSound(run: seq<Cluster>)
    requires ProtocolRun(run, true) && Visible(run[0])
    ensures SkipsSound(run)
  {
    forall j: nat | 0 < j < |run| ensures SoundAt(run, j) {
      var c, d := run[j - 1], run[j];
      assert ProtocolStepAt(run, j, true);
      if c.local.Some? && d.local != c.local {
        var was, r := run[..j], c.local.value;
        forall n | n in c.hosts ensures SoundlyThrough(was, n, r) {
          assert was[j - 1] == c && Through(was, n, r);
          var k: nat :| LetThroughAt(was, k, n, r);
          AlwaysVisible(run, k);
          assert SkipSound(was[k].hosts[n], r);
        }
      }
    }
  }
}
