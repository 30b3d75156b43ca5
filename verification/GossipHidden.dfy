/** Why a barrier must not skip a host that is starting: runs that follow the rotation
    protocol to the letter and still partition the cluster, and how little they need. */
module GossipHidden {
  import opened Options
  import opened GossipRing
  import opened GossipFleet

  function Last(run: seq<Cluster>): Cluster
    requires run != []
  {
    run[|run| - 1]
  }

  function With(c: Cluster, n: string, h: Host): Cluster {
    c.(hosts := c.hosts[n := h])
  }

  /** Host n takes a step of its own. */
  lemma {:induction false} Moves(run: seq<Cluster>, n: string, g: Host) returns (longer: seq<Cluster>)
    requires ProtocolRun(run, false) && n in Last(run).hosts && DaemonStep(Last(run).hosts[n], g)
    ensures ProtocolRun(longer, false) && run < longer && Last(longer) == With(Last(run), n, g)
  {
    var d := With(Last(run), n, g);
    longer := run + [d];
    assert longer[|run| - 1] == Last(run) && FleetStep(Last(run), d, false);
    assert ProtocolStepAt(longer, |run|, false);
    RunExtended(run, d, false);
  }

  /** The local keyring is pushed to host n. */
  lemma {:induction false} Pushes(run: seq<Cluster>, n: string) returns (longer: seq<Cluster>)
    requires ProtocolRun(run, false) && n in Last(run).hosts && Last(run).local.Some?
    ensures ProtocolRun(longer, false) && run < longer
    ensures Last(longer) == WriteHost(Last(run), n, Last(run).local.value)
  {
    var d := WriteHost(Last(run), n, Last(run).local.value);
    longer := run + [d];
    assert longer[|run| - 1] == Last(run) && ProtocolStepAt(longer, |run|, false);
    RunExtended(run, d, false);
  }

  /** The operator opens the next phase. */
  lemma {:induction false} Advances(run: seq<Cluster>, r: Ring) returns (longer: seq<Cluster>)
    requires ProtocolRun(run, false) && Last(run).local.Some? && LetThrough(run, Last(run).local.value)
    requires Compatible(Last(run).local.value, r)
    ensures ProtocolRun(longer, false) && run < longer && Last(longer) == WriteLocal(Last(run), r)
  {
    var d := WriteLocal(Last(run), r);
    longer := run + [d];
    assert longer[|run| - 1] == Last(run) && longer[..|run|] == run;
    assert ProtocolStepAt(longer, |run|, false);
    RunExtended(run, d, false);
  }

  /** A barrier that would let every host through at once has let them through. */
  lemma {:induction false} OpenLetsThrough(run: seq<Cluster>, r: Ring)
    requires run != [] && Last(run).local == Some(r)
    requires forall n :: n in Last(run).hosts ==> Last(run).hosts[n].file == Some(r) && Passes(Last(run).hosts[n], r)
    ensures LetThrough(run, r)
  {
    forall n | n in Last(run).hosts ensures Through(run, n, r) {
      assert OnFile(run, |run| - 1, n, r);
      assert LetThroughAt(run, |run| - 1, n, r);
    }
  }

  /** Host n gets the local keyring and loads it. */
  lemma {:induction false} Reloads(run: seq<Cluster>, n: string, r: Ring) returns (longer: seq<Cluster>)
    requires ProtocolRun(run, false) && Last(run).local == Some(r) && r != [] && n in Last(run).hosts
    requires var h := Last(run).hosts[n];
             h.loading.None? && h.live.Some? && h.live.value != [] && !Same(h.live.value, r)
    ensures ProtocolRun(longer, false) && run < longer
    ensures var h := Last(run).hosts[n];
            Last(longer) == With(Last(run), n, h.(file := Some(r), live := Some(r), loading := Some(r)))
  {
    var c := Last(run);
    var h := c.hosts[n].(file := Some(r), loading := Some(r));
    longer := Pushes(run, n);
    longer := Moves(longer, n, h);
    assert Holds(r, r) && LoadInstant(h.live.value, r, r);
    longer := Moves(longer, n, h.(live := Some(r)));
    assert With(With(WriteHost(c, n, r), n, h), n, h.(live := Some(r))) == With(c, n, h.(live := Some(r)));
  }

  /** Having loaded it, the host reports what it is using. */
  lemma {:induction false} Reports(run: seq<Cluster>, n: string) returns (longer: seq<Cluster>)
    requires ProtocolRun(run, false) && n in Last(run).hosts && Last(run).hosts[n].starting.None?
    ensures ProtocolRun(longer, false) && run < longer
    ensures var h := Last(run).hosts[n];
            Last(longer) == With(Last(run), n, h.(loading := None, report := h.live))
  {
    var c := Last(run);
    var h := c.hosts[n];
    longer := Moves(run, n, h.(loading := None));
    longer := Moves(longer, n, h.(loading := None, report := h.live));
    assert With(With(c, n, h.(loading := None)), n, h.(loading := None, report := h.live))
        == With(c, n, h.(loading := None, report := h.live));
  }

  // ---- one host is enough ----

  /** The keyring a host uses, or has read to start with. */
  ghost predicate Uses(h: Host, x: Ring) {
    h.live == Some(x) || (h.live.None? && h.starting == Some(x))
  }

  /** Host n, if it is starting, joins. */
  lemma {:induction false} Runs(run: seq<Cluster>, n: string, x: Ring) returns (longer: seq<Cluster>)
    requires ProtocolRun(run, false) && n in Last(run).hosts && Uses(Last(run).hosts[n], x)
    ensures ProtocolRun(longer, false) && run <= longer && Last(longer).local == Last(run).local
    ensures Last(longer).hosts.Keys == Last(run).hosts.Keys && Last(longer).hosts[n].live == Some(x)
    ensures forall m :: m in Last(run).hosts && m != n ==> Last(longer).hosts[m] == Last(run).hosts[m]
  {
    longer := run;
    if Last(run).hosts[n].live.None? {
      longer := Moves(run, n, Last(run).hosts[n].(live := Some(x), starting := None));
    }
  }

  /** The condition cannot be weakened. At any point where the barrier has let every host
      through, one host that uses, or is starting with, a keyring that the next phase's
      cannot talk to is enough: the next daemon m to follow that phase is cut off from it. */
  lemma {:induction false} SkippedHostPartitions(run: seq<Cluster>, r: Ring, next: Ring, m: string, n: string, x: Ring)
    returns (longer: seq<Cluster>)
    requires ProtocolRun(run, false) && Last(run).local == Some(r) && LetThrough(run, r) && Compatible(r, next)
    requires m in Last(run).hosts && n in Last(run).hosts && m != n
    requires var h := Last(run).hosts[m]; h.loading.None? && h.live.Some? && Same(h.live.value, r) && !Same(r, next)
    requires Uses(Last(run).hosts[n], x) && x != [] && !Compatible(x, next)
    ensures ProtocolRun(longer, false) && run <= longer && !NoPartition(Last(longer))
  {
    var h := Last(run).hosts[m];
    SameElements(h.live.value, r);
    if Same(h.live.value, next) { SameSymmetric(h.live.value, r, next); }
    longer := Advances(run, next);
    longer := Runs(longer, n, x);
    longer := Reloads(longer, m, next);
    var d := Last(longer);
    assert d.hosts[m].live == Some(next) && d.hosts[n].live == Some(x);
    assert next[0] !in x || x[0] !in next;
  }

  lemma {:induction false} SameSymmetric(x: Ring, a: Ring, b: Ring)
    requires Same(x, a) && Same(x, b)
    ensures Same(a, b)
  {
  }

  /** A keyring of the two keys of a rotation, as daemons hold them. */
  ghost predicate OfKeys(x: Ring, k: Key, next: Key) {
    NoRepeats(x) && forall j :: j in x ==> j == k || j == next
  }

  /** In phases 1 and 2, skipping a host is unsound exactly when its keyring, of the two
      keys a rotation deals in, cannot talk to the next phase's. */
  lemma {:induction false} UnsoundIsIncompatible(x: Ring, k: Key, next: Key)
    requires k != next && OfKeys(x, k, next)
    ensures Between([k], [k, next], x) ==> (Same(x, [k, next]) <==> Compatible(x, [next, k]))
    ensures Between([k, next], [next, k], x) ==> (Same(x, [next, k]) <==> Compatible(x, [next]))
  {
    if Between([k], [k, next], x) && next in x { SameByElements(x, [k, next]); }
    if Between([k, next], [next, k], x) && x[0] == next { SameByElements(x, [next, k]); }
    if Same(x, [k, next]) { SameElements(x, [k, next]); }
    if Same(x, [next, k]) { SameElements(x, [next, k]); }
  }

  // ---- two such runs ----

  const A := ["A"]
  const AB := ["A", "B"]
  const BA := ["B", "A"]
  const ON := Host(Some(A), Some(A), None, None, Some(A))
  const OFF := Host(Some(A), None, None, None, None)

  /** Two hosts settled on [A], b's daemon off and without a state file. */
  function Start(): Cluster { Cluster(Some(A), map["a" := ON, "b" := OFF]) }

  lemma {:induction false} StartIsSettled()
    ensures ProtocolRun([Start()], false) && AllSettled(A, Start()) && Visible(Start()) && NoPartition(Start())
  {
  }

  /** Phase 1 goes by without b, whatever b is doing without a state file. */
  lemma {:induction false} PhaseOne(run: seq<Cluster>, b: Host) returns (longer: seq<Cluster>)
    requires ProtocolRun(run, false) && Last(run) == Cluster(Some(A), map["a" := ON, "b" := b])
    requires b.file == Some(A) && b.report.None?
    ensures ProtocolRun(longer, false) && run <= longer && LetThrough(longer, AB) && Last(longer).local == Some(AB)
    ensures Last(longer).hosts.Keys == {"a", "b"} && Last(longer).hosts["b"] == b.(file := Some(AB))
    ensures Last(longer).hosts["a"] == Host(Some(AB), Some(AB), None, None, Some(AB))
  {
    assert "a"[0] != "b"[0];
    OpenLetsThrough(run, A);
    longer := Advances(run, AB);
    longer := Reloads(longer, "a", AB);
    longer := Reports(longer, "a");
    longer := Pushes(longer, "b");
    OpenLetsThrough(longer, AB);
  }

  lemma {:induction false} PhaseTwo(run: seq<Cluster>, b: Host) returns (longer: seq<Cluster>)
    requires ProtocolRun(run, false) && Last(run) == Cluster(Some(A), map["a" := ON, "b" := b])
    requires b.file == Some(A) && b.report.None? && Uses(b, A)
    ensures ProtocolRun(longer, false) && run <= longer && !NoPartition(Last(longer))
  {
    longer := PhaseOne(run, b);
    assert AB[0] != BA[0] by { assert "A"[0] != "B"[0]; }
    longer := SkippedHostPartitions(longer, AB, BA, "a", "b", A);
  }

  /** Host b starts on [A] but its state file still says nothing; the barriers of phases
      1 and 2 skip it, and host a ends up encrypting with a key b lacks. */
  lemma {:induction false} HiddenStartPartitions() returns (run: seq<Cluster>)
    ensures ProtocolRun(run, false) && run[0] == Start() && AllSettled(A, Start()) && Visible(Start())
    ensures !NoPartition(Last(run))
  {
    StartIsSettled();
    var reading := OFF.(starting := Some(A));
    run := Moves([Start()], "b", reading);
    var hidden := OFF.(live := Some(A));
    run := Moves(run, "b", hidden);
    assert With(With(Start(), "b", reading), "b", hidden) == Cluster(Some(A), map["a" := ON, "b" := hidden]);
    run := PhaseTwo(run, hidden);
  }

  /** Host b has read [A] and not joined yet: when the barrier skips it, it runs no
      keyring at all. It joins afterwards. */
  lemma {:induction false} StartingHostPartitions() returns (run: seq<Cluster>)
    ensures ProtocolRun(run, false) && run[0] == Start() && AllSettled(A, Start()) && Visible(Start())
    ensures exists i :: 0 < i < |run| && run[i].local == Some(AB) && LetThrough(run[..i + 1], AB)
                     && "b" in run[i].hosts && run[i].hosts["b"].live.None?
    ensures !NoPartition(Last(run))
  {
    StartIsSettled();
    var reading := OFF.(starting := Some(A));
    run := Moves([Start()], "b", reading);
    assert With(Start(), "b", reading) == Cluster(Some(A), map["a" := ON, "b" := reading]);
    var one := PhaseOne(run, reading);
    assert AB[0] != BA[0] by { assert "A"[0] != "B"[0]; }
    run := SkippedHostPartitions(one, AB, BA, "a", "b", A);
    var i := |one| - 1;
    assert run[..i + 1] == one && run[i] == Last(one);
  }
}
