/** Any number of concurrent Reloads and removals, each taken step by step, with the
    tables edited between any two steps. */
module RbacRace {
  import opened Options
  import opened RbacPaths
  import opened RbacEngine

  /** Where a producer is. Everything from Locked on holds the mutex. */
  datatype Stage =
    | Idle
    | WantsReload
    | Locked
    | HasRoles(verbs: map<string, seq<string>>)
    | HasBindings(verbs: map<string, seq<string>>, bindings: seq<Binding>)
    | WantsRemoval(r: Removal)
    | RemovalLocked(r: Removal)
    | RemovalLoaded(r: Removal, cur: Snapshot)

  predicate HoldsLock(s: Stage) {
    s.Locked? || s.HasRoles? || s.HasBindings? || s.RemovalLocked? || s.RemovalLoaded?
  }

  /** revoked: ids whose row was tombstoned when a removal of them was stored. */
  datatype State = State(tables: Tables, snap: Snapshot, lock: Option<nat>, threads: map<nat, Stage>,
                         revoked: set<string>)

  datatype Label =
    | Edit(tables: Tables)
    | Call(t: nat, stage: Stage)
    | Acquire(t: nat)
    | ReadRoles(t: nat)
    | ReadBindings(t: nat, bindings: seq<Binding>)
    | StoreReload(t: nat)
    | FailReload(t: nat)
    | LoadSnapshot(t: nat)
    | StoreRemoval(t: nat)

  function StageOf(s: State, t: nat): Stage {
    if t in s.threads then s.threads[t] else Idle
  }

  ghost predicate Enabled(s: State, l: Label) {
    match l
    case Edit(tables) => Edited(s.tables, tables) && WellKeyed(tables)
    case Call(t, stage) => StageOf(s, t).Idle? && (stage.WantsReload? || stage.WantsRemoval?)
    case Acquire(t) => s.lock.None? && (StageOf(s, t).WantsReload? || StageOf(s, t).WantsRemoval?)
    case ReadRoles(t) => StageOf(s, t).Locked?
    case ReadBindings(t, bindings) => StageOf(s, t).HasRoles? && Lists(s.tables, bindings)
    case StoreReload(t) => StageOf(s, t).HasBindings?
    case FailReload(t) => StageOf(s, t).Locked? || StageOf(s, t).HasRoles? || StageOf(s, t).HasBindings?
    case LoadSnapshot(t) => StageOf(s, t).RemovalLocked?
    case StoreRemoval(t) => StageOf(s, t).RemovalLoaded?
  }

  function At(s: State, t: nat, stage: Stage): State {
    s.(threads := s.threads[t := stage])
  }

  function Released(s: State, t: nat): State {
    s.(threads := s.threads[t := Idle], lock := None)
  }

  function After(s: State, l: Label): State {
    match l
    case Edit(tables) => s.(tables := tables)
    case Call(t, stage) => At(s, t, stage)
    case Acquire(t) =>
      var stage := StageOf(s, t);
      At(s, t, if stage.WantsRemoval? then RemovalLocked(stage.r) else Locked).(lock := Some(t))
    case ReadRoles(t) => At(s, t, HasRoles(s.tables.roles))
    case ReadBindings(t, bindings) =>
      var stage := StageOf(s, t);
      if stage.HasRoles? then At(s, t, HasBindings(stage.verbs, bindings)) else s
    case StoreReload(t) =>
      var stage := StageOf(s, t);
      if stage.HasBindings? then Released(s, t).(snap := Snapshot(stage.verbs, stage.bindings)) else s
    case FailReload(t) => Released(s, t)
    case LoadSnapshot(t) =>
      var stage := StageOf(s, t);
      if stage.RemovalLocked? then At(s, t, RemovalLoaded(stage.r, s.snap)) else s
    case StoreRemoval(t) =>
      var stage := StageOf(s, t);
      if stage.RemovalLoaded? then
        Released(s, t).(snap := stage.cur.(bindings := Kept(stage.r, stage.cur.bindings)),
                        revoked := s.revoked + Tombstoned(s.tables, stage.r))
      else s
  }

  ghost predicate StepAt(run: seq<State>, ls: seq<Label>, i: nat)
    requires |run| == |ls| + 1 && i < |ls|
  {
    Enabled(run[i], ls[i]) && run[i + 1] == After(run[i], ls[i])
  }

  ghost predicate Run(run: seq<State>, ls: seq<Label>) {
    && |run| == |ls| + 1
    && forall i: nat :: i < |ls| ==> StepAt(run, ls, i)
  }

  ghost predicate Initial(s: State) {
    WellKeyed(s.tables) && s.snap == Snapshot(map[], []) && s.lock.None? && s.threads == map[] && s.revoked == {}
  }

  // ---- the invariant ----

  /** What a thread holds is still current. */
  ghost predicate Consistent(s: State, t: nat) {
    var stage := StageOf(s, t);
    && (HoldsLock(stage) ==> s.lock == Some(t))
    && (stage.HasBindings? ==> Clean(s.tables, stage.bindings, s.revoked))
    && (stage.RemovalLoaded? ==> stage.cur == s.snap)
  }

  ghost predicate Inv(s: State) {
    WellKeyed(s.tables) && Clean(s.tables, s.snap.bindings, s.revoked) && forall t :: Consistent(s, t)
  }

  lemma {:induction false} EditKeeps(s: State, l: Label)
    requires Inv(s) && Enabled(s, l) && l.Edit?
    ensures Inv(After(s, l))
  {
    var n := After(s, l);
    forall t ensures Consistent(n, t) { assert Consistent(s, t); }
  }

  lemma {:induction false} ReloadKeeps(s: State, l: Label)
    requires Inv(s) && Enabled(s, l)
    requires !l.Edit? && !l.StoreRemoval?
    ensures Inv(After(s, l))
  {
    var n := After(s, l);
    assert Consistent(s, l.t);
    forall t ensures Consistent(n, t) { assert Consistent(s, t); }
  }

  lemma {:induction false} RemovalKeeps(s: State, l: Label)
    requires Inv(s) && Enabled(s, l) && l.StoreRemoval?
    ensures Inv(After(s, l))
  {
    var n := After(s, l);
    var stage := StageOf(s, l.t);
    assert Consistent(s, l.t);
    KeptElements(stage.r, stage.cur.bindings);
    forall t ensures Consistent(n, t) { assert Consistent(s, t); }
  }

  lemma {:induction false} StepKeeps(s: State, l: Label)
    requires Inv(s) && Enabled(s, l)
    ensures Inv(After(s, l)) && s.revoked <= After(s, l).revoked
  {
    if l.Edit? { EditKeeps(s, l); } else if l.StoreRemoval? { RemovalKeeps(s, l); } else { ReloadKeeps(s, l); }
  }

  lemma {:induction false} RunKeeps(run: seq<State>, ls: seq<Label>, i: nat, j: nat)
    requires Run(run, ls) && i <= j < |run| && Inv(run[i])
    ensures Inv(run[j]) && run[i].revoked <= run[j].revoked
    decreases j
  {
    if i < j {
      RunKeeps(run, ls, i, j - 1);
      assert StepAt(run, ls, j - 1);
      StepKeeps(run[j - 1], ls[j - 1]);
    }
  }

  /** REVOCATION IS NEVER RESURRECTED. Once a removal of id is stored with id's row
      already tombstoned, no later snapshot holds id, and access is decided by
      exactly the other bindings. */
  lemma {:induction false} NeverResurrected(run: seq<State>, ls: seq<Label>, i: nat, j: nat, id: string,
                                            principals: seq<string>, verb: string, path: string)
    requires Run(run, ls) && Initial(run[0]) && i < j < |run|
    requires ls[i].StoreRemoval? && StageOf(run[i], ls[i].t).RemovalLoaded?
    requires id in run[i].tables.rows && run[i].tables.rows[id].deleted
    requires StageOf(run[i], ls[i].t).r in {ById(id), ByPrincipal(run[i].tables.rows[id].binding.principal)}
    ensures forall b :: b in run[j].snap.bindings ==> b.id != id
    ensures Decision(run[j].snap, principals, verb, path) ==>
            exists other :: && other in run[j].tables.rows && other != id
                            && Permits(run[j].snap.roleVerbs, run[j].tables.rows[other].binding, principals, verb, path)
  {
    forall t ensures Consistent(run[0], t) { }
    RunKeeps(run, ls, 0, i + 1);
    assert StepAt(run, ls, i);
    RunKeeps(run, ls, 0, i);
    assert id in run[i + 1].revoked;
    RunKeeps(run, ls, i + 1, j);
    if Decision(run[j].snap, principals, verb, path) {
      var b :| b in run[j].snap.bindings && Permits(run[j].snap.roleVerbs, b, principals, verb, path);
      assert b.id != id && run[j].tables.rows[b.id].binding == b;
    }
  }

  // ---- the order matters ----

  lemma {:induction false} Then(run: seq<State>, ls: seq<Label>, l: Label) returns (run': seq<State>, ls': seq<Label>)
    requires Run(run, ls) && Enabled(run[|run| - 1], l)
    ensures Run(run', ls') && run' == run + [After(run[|run| - 1], l)] && ls' == ls + [l]
  {
    run', ls' := run + [After(run[|run| - 1], l)], ls + [l];
    forall i: nat | i < |ls'| ensures StepAt(run', ls', i) {
      if i < |ls| { assert StepAt(run, ls, i); }
    }
  }

  /** A thread reloads, undisturbed. */
  lemma {:induction false} Reloads(run: seq<State>, ls: seq<Label>, t: nat, bindings: seq<Binding>)
    returns (run': seq<State>, ls': seq<Label>)
    requires Run(run, ls) && run[|run| - 1].lock.None? && StageOf(run[|run| - 1], t).Idle?
    requires Lists(run[|run| - 1].tables, bindings)
    ensures Run(run', ls') && run <= run' && ls <= ls'
    ensures run'[|run'| - 1].tables == run[|run| - 1].tables && run'[|run'| - 1].snap.bindings == bindings
  {
    run', ls' := Then(run, ls, Call(t, WantsReload));
    run', ls' := Then(run', ls', Acquire(t));
    run', ls' := Then(run', ls', ReadRoles(t));
    run', ls' := Then(run', ls', ReadBindings(t, bindings));
    run', ls' := Then(run', ls', StoreReload(t));
  }

  /** The live rows can be listed. */
  lemma {:induction false} CanList(t: Tables, todo: set<string>) returns (bindings: seq<Binding>)
    requires WellKeyed(t) && todo <= t.rows.Keys
    ensures forall b :: b in bindings <==> b.id in todo && t.rows[b.id] == Row(b, false)
  {
    bindings := [];
    if todo != {} {
      var id :| id in todo;
      bindings := CanList(t, todo - {id});
      if !t.rows[id].deleted { bindings := bindings + [t.rows[id].binding]; }
    }
  }

  /** Removing before tombstoning. After any stored removal of a binding whose row is still
      live there is a continuation, a reload and then the tombstone, that ends with the row
      tombstoned and the binding in the snapshot. */
  lemma {:induction false} RemovalBeforeTombstone(run: seq<State>, ls: seq<Label>, b: Binding)
    returns (run': seq<State>, ls': seq<Label>)
    requires Run(run, ls) && Initial(run[0]) && ls != [] && ls[|ls| - 1].StoreRemoval?
    requires b.id in run[|run| - 1].tables.rows && run[|run| - 1].tables.rows[b.id] == Row(b, false)
    ensures Run(run', ls') && run <= run' && ls <= ls'
    ensures var s := run'[|run'| - 1];
            b.id in s.tables.rows && s.tables.rows[b.id] == Row(b, true) && b in s.snap.bindings
  {
    var s := run[|run| - 1];
    forall t ensures Consistent(run[0], t) { }
    RunKeeps(run, ls, 0, |run| - 1);
    assert StepAt(run, ls, |ls| - 1);
    var bindings := CanList(s.tables, s.tables.rows.Keys);
    run', ls' := Reloads(run, ls, ls[|ls| - 1].t, bindings);
    var dead := s.tables.(rows := s.tables.rows[b.id := Row(b, true)]);
    run', ls' := Then(run', ls', Edit(dead));
  }
}
