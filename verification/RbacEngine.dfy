/** The permission engine: a snapshot of roles and bindings that readers consult
    without a lock and producers replace under one. */
module RbacEngine {
  import opened RbacPaths

  datatype Binding = Binding(id: string, path: string, role: string, principal: string, propagate: bool)

  datatype Snapshot = Snapshot(roleVerbs: map<string, seq<string>>, bindings: seq<Binding>)

  // ---- the decision ----

  /** A propagating binding covers its subtree, any other its own path. */
  ghost predicate Covers(b: Binding, path: string) {
    var at, wanted := Segments(CanonicalPath(b.path)), Segments(CanonicalPath(path));
    if b.propagate then at <= wanted else at == wanted
  }

  /** Some grant of the binding's role stands for verb. */
  ghost predicate RoleGrants(roleVerbs: map<string, seq<string>>, role: string, verb: string) {
    role in roleVerbs && exists g :: g in roleVerbs[role] && Grants(ParseGrant(g), verb)
  }

  /** What b alone allows. */
  ghost predicate Permits(roleVerbs: map<string, seq<string>>, b: Binding, principals: seq<string>, verb: string,
                          path: string) {
    b.principal in principals && Covers(b, path) && RoleGrants(roleVerbs, b.role, verb)
  }

  /** May any of the principals perform verb at path? */
  ghost predicate Decision(s: Snapshot, principals: seq<string>, verb: string, path: string) {
    exists b :: b in s.bindings && Permits(s.roleVerbs, b, principals, verb, path)
  }

  /** More bindings, more principals, never less access. */
  lemma {:induction false} DecisionMonotone(s: Snapshot, t: Snapshot, ps: seq<string>, qs: seq<string>, verb: string,
                                            path: string)
    requires s.roleVerbs == t.roleVerbs && forall b :: b in s.bindings ==> b in t.bindings
    requires forall p :: p in ps ==> p in qs
    requires Decision(s, ps, verb, path)
    ensures Decision(t, qs, verb, path)
  {
    var b :| b in s.bindings && Permits(s.roleVerbs, b, ps, verb, path);
    assert Permits(t.roleVerbs, b, qs, verb, path);
  }

  /** verbMatches over a role's grants. */
  method VerbMatches(grants: seq<string>, verb: string) returns (ok: bool)
    ensures ok <==> exists g :: g in grants && Grants(ParseGrant(g), verb)
  {
    for i := 0 to |grants|
      invariant forall j :: 0 <= j < i ==> !Grants(ParseGrant(grants[j]), verb)
    {
      GrantMeaning(grants[i], verb);
      if GrantMatches(grants[i], verb) {
        assert grants[i] in grants;
        return true;
      }
    }
    return false;
  }

  /** The path test of one binding, as the engine makes it. */
  predicate PathApplies(b: Binding, path: string) {
    var at := CanonicalPath(b.path);
    if b.propagate then PathPrefixOf(at, path) else at == path
  }

  lemma {:induction false} PathAppliesMeaning(b: Binding, path: string)
    ensures PathApplies(b, CanonicalPath(path)) <==> Covers(b, path)
  {
    CanonicalPathLaw(b.path);
    CanonicalPathLaw(path);
    PrefixIsSegmentPrefix(CanonicalPath(b.path), CanonicalPath(path));
    if Segments(CanonicalPath(b.path)) == Segments(CanonicalPath(path)) {
      SameSegments(CanonicalPath(b.path), CanonicalPath(path));
    }
  }

  // ---- the database it is loaded from ----

  /** A binding row: deleting it only ever sets its tombstone, and its id is never
      reused (every grant mints a fresh one). */
  datatype Row = Row(binding: Binding, deleted: bool)

  datatype Tables = Tables(roles: map<string, seq<string>>, rows: map<string, Row>)

  /** Any grants, tombstones and role edits. */
  ghost predicate Edited(a: Tables, b: Tables) {
    forall id :: id in a.rows ==>
      && id in b.rows && b.rows[id].binding == a.rows[id].binding
      && (a.rows[id].deleted ==> b.rows[id].deleted)
  }

  ghost predicate WellKeyed(t: Tables) {
    forall id :: id in t.rows ==> t.rows[id].binding.id == id
  }

  /** ListRoleBindings: the rows without a tombstone, in some order. */
  ghost predicate Lists(t: Tables, bindings: seq<Binding>) {
    forall b :: b in bindings <==> b.id in t.rows && t.rows[b.id] == Row(b, false)
  }

  /** Bindings as the tables have them, none of them revoked; revoked rows stay dead. */
  ghost predicate Clean(t: Tables, bindings: seq<Binding>, revoked: set<string>) {
    && (forall b :: b in bindings ==> b.id in t.rows && t.rows[b.id].binding == b && b.id !in revoked)
    && (forall id :: id in revoked ==> id in t.rows && t.rows[id].deleted)
  }

  /** Which bindings a removal drops. */
  datatype Removal = ById(id: string) | ByPrincipal(principal: string)

  predicate Drops(r: Removal, b: Binding) {
    match r
    case ById(id) => b.id == id
    case ByPrincipal(p) => b.principal == p
  }

  function Kept(r: Removal, bindings: seq<Binding>): seq<Binding> {
    if bindings == [] then []
    else
      var last := bindings[|bindings| - 1];
      Kept(r, bindings[..|bindings| - 1]) + (if Drops(r, last) then [] else [last])
  }

  lemma {:induction false} KeptElements(r: Removal, bindings: seq<Binding>)
    ensures forall b :: b in Kept(r, bindings) <==> b in bindings && !Drops(r, b)
  {
    if bindings != [] {
      var n := |bindings| - 1;
      KeptElements(r, bindings[..n]);
      assert bindings == bindings[..n] + [bindings[n]];
    }
  }

  /** What is kept keeps its order. */
  lemma {:induction false} KeptConcat(r: Removal, a: seq<Binding>, b: seq<Binding>)
    ensures Kept(r, a + b) == Kept(r, a) + Kept(r, b)
  {
    if b == [] {
      assert a + b == a && Kept(r, b) == [];
    } else {
      var n := |b| - 1;
      var last := if Drops(r, b[n]) then [] else [b[n]];
      KeptConcat(r, a, b[..n]);
      assert (a + b)[..|a| + n] == a + b[..n] && (a + b)[|a| + n] == b[n];
      Regroup(Kept(r, a), Kept(r, b[..n]), last);
    }
  }

  lemma {:induction false} Regroup(a: seq<Binding>, b: seq<Binding>, c: seq<Binding>)
    ensures (a + b) + c == a + (b + c)
  {
  }

  /** The bindings a removal keeps, and whether it drops any. */
  method Filter(r: Removal, bindings: seq<Binding>) returns (kept: seq<Binding>, changed: bool)
    ensures kept == Kept(r, bindings) && (!changed ==> kept == bindings)
  {
    kept, changed := [], false;
    for i := 0 to |bindings|
      invariant kept == Kept(r, bindings[..i])
      invariant !changed ==> kept == bindings[..i]
    {
      assert bindings[..i + 1][..i] == bindings[..i];
      if Drops(r, bindings[i]) { changed := true; } else { kept := kept + [bindings[i]]; }
    }
    assert bindings[..|bindings|] == bindings;
  }

  class Database {
    var tables: Tables
    /** Every state of the tables, the current one last. */
    ghost var states: seq<Tables>
    /** How many queries have failed. */
    ghost var failures: nat

    ghost predicate Valid()
      reads this
    {
      states != [] && states[|states| - 1] == tables && WellKeyed(tables)
    }

    constructor (tables: Tables)
      requires WellKeyed(tables)
      ensures Valid() && this.tables == tables && states == [tables]
    {
      this.tables, states, failures := tables, [tables], 0;
    }

    /** Other handlers and replication editing the tables. */
    method Others()
      requires Valid()
      modifies `tables, `states
      ensures Valid() && old(states) <= states && Edited(old(tables), tables)
    {
    }

    method ListRoles() returns (roles: map<string, seq<string>>, err: bool)
      requires Valid()
      modifies this
      ensures Valid() && old(states) <= states && Edited(old(tables), tables)
      ensures !err ==> roles == tables.roles
      ensures failures == old(failures) + if err then 1 else 0
    {
      Others();
      err := *;
      if err { failures := failures + 1; }
      roles := tables.roles;
    }

    method ListRoleBindings() returns (bindings: seq<Binding>, err: bool)
      requires Valid()
      modifies this
      ensures Valid() && old(states) <= states && Edited(old(tables), tables)
      ensures !err ==> Lists(tables, bindings)
      ensures failures == old(failures) + if err then 1 else 0
    {
      Others();
      err := *;
      bindings := [];
      if err {
        failures := failures + 1;
        return;
      }
      var todo := tables.rows.Keys;
      while todo != {}
        modifies {}
        invariant todo <= tables.rows.Keys
        invariant forall b :: b in bindings <==> b.id in tables.rows.Keys - todo && tables.rows[b.id] == Row(b, false)
      {
        var id :| id in todo;
        todo := todo - {id};
        if !tables.rows[id].deleted { bindings := bindings + [tables.rows[id].binding]; }
      }
    }
  }

  /** Producers hold mu from their first read to their store, so between a
      producer's steps only the database changes. revoked is every id dropped by a
      finished removal that found its row tombstoned. */
  class Engine {
    const db: Database
    var snap: Snapshot
    ghost var revoked: set<string>

    ghost predicate Valid()
      reads this, db
    {
      db.Valid() && Clean(db.tables, snap.bindings, revoked)
    }

    constructor (db: Database)
      requires db.Valid()
      ensures Valid() && this.db == db && snap == Snapshot(map[], []) && revoked == {}
    {
      this.db, snap, revoked := db, Snapshot(map[], []), {};
    }

    /** The roles were these in some state of the tables since from, the snapshot's bindings
        being those of the last one. */
    ghost predicate ReadSince(from: nat)
      reads this, db
    {
      && Lists(db.tables, snap.bindings)
      && exists i :: from <= i < |db.states| && snap.roleVerbs == db.states[i].roles
    }

    /** Reload: on any error the old snapshot stays. */
    method Reload() returns (ok: bool)
      requires Valid()
      modifies this`snap, db
      ensures Valid() && Edited(old(db.tables), db.tables) && old(db.states) <= db.states
      ensures !ok ==> snap == old(snap) && db.failures == old(db.failures) + 1
      ensures ok ==> db.failures == old(db.failures) && ReadSince(|old(db.states)| - 1)
    {
      var roles, err := db.ListRoles();
      if err { return false; }
      ghost var i, mid := |db.states| - 1, db.states;
      var bindings;
      bindings, err := db.ListRoleBindings();
      if err { return false; }
      snap := Snapshot(roles, bindings);
      assert db.states[i] == mid[i] && snap.roleVerbs == db.states[i].roles;
      return true;
    }

    /** removeWhere: drop bindings from the live snapshot, touching no table. */
    method RemoveWhere(r: Removal)
      requires Valid()
      modifies this`snap, this`revoked
      ensures Valid()
      ensures snap == old(snap).(bindings := Kept(r, old(snap).bindings))
      ensures revoked == old(revoked) + Tombstoned(db.tables, r)
    {
      var cur := snap;
      var kept, changed := Filter(r, cur.bindings);
      KeptElements(r, cur.bindings);
      if changed { snap := cur.(bindings := kept); }
      revoked := revoked + Tombstoned(db.tables, r);
    }

    /** RemoveBinding: the binding with this id leaves, and only it. */
    method RemoveBinding(id: string)
      requires Valid()
      modifies this`snap, this`revoked
      ensures Valid() && snap.roleVerbs == old(snap).roleVerbs
      ensures forall b :: b in snap.bindings <==> b in old(snap).bindings && b.id != id
      ensures id in db.tables.rows && db.tables.rows[id].deleted ==> id in revoked
    {
      KeptElements(ById(id), snap.bindings);
      RemoveWhere(ById(id));
    }

    /** RemovePrincipal: all of the principal's bindings leave, and alone it may do nothing. */
    method RemovePrincipal(p: string)
      requires Valid()
      modifies this`snap, this`revoked
      ensures Valid() && snap.roleVerbs == old(snap).roleVerbs
      ensures forall b :: b in snap.bindings <==> b in old(snap).bindings && b.principal != p
      ensures forall verb, path :: !Decision(snap, [p], verb, path)
      ensures forall id :: id in db.tables.rows && db.tables.rows[id].deleted ==>
                (db.tables.rows[id].binding.principal == p ==> id in revoked)
    {
      KeptElements(ByPrincipal(p), snap.bindings);
      RemoveWhere(ByPrincipal(p));
    }

    /** Allowed reads the snapshot once. */
    method Allowed(principals: seq<string>, verb: string, path: string) returns (ok: bool)
      ensures ok <==> Decision(snap, principals, verb, path)
    {
      var s := snap;
      var wanted := CanonicalPath(path);
      for i := 0 to |s.bindings|
        invariant forall j :: 0 <= j < i ==> !Permits(s.roleVerbs, s.bindings[j], principals, verb, path)
      {
        var b := s.bindings[i];
        PathAppliesMeaning(b, path);
        if b.principal in principals && PathApplies(b, wanted) && b.role in s.roleVerbs && |s.roleVerbs[b.role]| > 0 {
          var matched := VerbMatches(s.roleVerbs[b.role], verb);
          if matched {
            assert b in s.bindings && Permits(s.roleVerbs, b, principals, verb, path);
            return true;
          }
        }
      }
      return false;
    }
  }

  /** The rows a removal drops for good: those already tombstoned. */
  function Tombstoned(t: Tables, r: Removal): set<string> {
    set id | id in t.rows && t.rows[id].deleted && Drops(r, t.rows[id].binding)
  }

  /** After a removal, access is what the bindings with another id, or of another principal,
      give. */
  lemma {:induction false} RemovalDecision(s: Snapshot, x: string, principals: seq<string>, verb: string, path: string)
    ensures Decision(s.(bindings := Kept(ById(x), s.bindings)), principals, verb, path) <==>
            exists b :: b in s.bindings && b.id != x && Permits(s.roleVerbs, b, principals, verb, path)
    ensures Decision(s.(bindings := Kept(ByPrincipal(x), s.bindings)), principals, verb, path) <==>
            exists b :: b in s.bindings && b.principal != x && Permits(s.roleVerbs, b, principals, verb, path)
  {
    KeptElements(ById(x), s.bindings);
    KeptElements(ByPrincipal(x), s.bindings);
  }
}
