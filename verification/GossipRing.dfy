/** A gossip keyring, primary first, and how a running daemon replaces one. Key
    IDs are taken to be injective, so a key stands for its ID. */
module GossipRing {
  type Key = string
  type Ring = seq<Key>

  ghost predicate NoRepeats(r: Ring) {
    forall i, j :: 0 <= i < j < |r| ==> r[i] != r[j]
  }

  /** Same primary, same secondaries in any order. */
  ghost predicate Same(a: Ring, b: Ring) {
    |a| == |b| && (a == [] || (a[0] == b[0] && multiset(a[1..]) == multiset(b[1..])))
  }

  lemma {:induction false} PrefixCount(s: Ring, i: nat, k: Key)
    requires i <= |s|
    ensures multiset(s[..i])[k] <= multiset(s)[k]
  {
    assert s == s[..i] + s[i..];
  }

  lemma {:induction false} NothingLeft(a: multiset<Key>, b: multiset<Key>)
    requires b <= a && |a| == |b|
    ensures a == b
  {
    assert a == b + (a - b);
  }

  method CountUp(a: Ring) returns (seen: multiset<Key>)
    ensures seen == multiset(a)
  {
    seen := multiset{};
    for i := 0 to |a|
      invariant seen == multiset(a[..i])
    {
      assert a[..i + 1] == a[..i] + [a[i]];
      seen := seen + multiset{a[i]};
    }
    assert a[..|a|] == a;
  }

  /** Count one list up and the other back down. */
  method SameSecondaries(a: Ring, b: Ring) returns (same: bool)
    requires |a| == |b|
    ensures same <==> multiset(a) == multiset(b)
  {
    var all := CountUp(a);
    var seen := all;
    for i := 0 to |b|
      invariant multiset(b[..i]) <= all && seen == all - multiset(b[..i])
    {
      assert b[..i + 1] == b[..i] + [b[i]];
      if seen[b[i]] == 0 {
        PrefixCount(b, i + 1, b[i]);
        return false;
      }
      seen := seen - multiset{b[i]};
    }
    assert b[..|b|] == b;
    NothingLeft(multiset(a), multiset(b));
    return true;
  }

  /** pki.SameGossipKeyring. */
  method SameGossipKeyring(a: Ring, b: Ring) returns (same: bool)
    ensures same <==> Same(a, b)
  {
    if |a| != |b| { return false; }
    if |a| == 0 { return true; }
    if a[0] != b[0] { return false; }
    same := SameSecondaries(a[1..], b[1..]);
  }

  lemma {:induction false} SameElements(a: Ring, b: Ring)
    requires Same(a, b)
    ensures forall k :: k in a <==> k in b
    ensures a != [] ==> a[0] == b[0]
  {
    forall k ensures k in a <==> k in b {
      if a != [] {
        assert a == [a[0]] + a[1..] && b == [b[0]] + b[1..];
        assert k in a[1..] <==> k in multiset(a[1..]);
        assert k in b[1..] <==> k in multiset(b[1..]);
      }
    }
  }

  /** Two keyrings the same as others that are the same. */
  lemma {:induction false} SameTransitive(x: Ring, a: Ring, y: Ring, b: Ring)
    requires Same(x, a) && Same(y, a) && Same(y, b)
    ensures Same(x, b)
  {
  }

  lemma {:induction false} NoRepeatsCount(s: Ring)
    requires NoRepeats(s)
    ensures forall k :: multiset(s)[k] == if k in s then 1 else 0
  {
    if s != [] {
      NoRepeatsCount(s[1..]);
      assert s == [s[0]] + s[1..];
    }
  }

  lemma {:induction false} TailCount(s: Ring)
    requires s != []
    ensures multiset(s[1..]) == multiset(s) - multiset{s[0]}
  {
    assert s == [s[0]] + s[1..];
  }

  lemma {:induction false} EqualCounts(a: Ring, b: Ring)
    requires NoRepeats(a) && NoRepeats(b) && forall k :: k in a <==> k in b
    ensures multiset(a) == multiset(b) && |a| == |b|
  {
    NoRepeatsCount(a);
    NoRepeatsCount(b);
    assert |multiset(a)| == |a| && |multiset(b)| == |b|;
  }

  /** Rings without repeats are the same once their primary and their keys are. */
  lemma {:induction false} SameByElements(a: Ring, b: Ring)
    requires NoRepeats(a) && NoRepeats(b) && a != [] && b != []
    requires a[0] == b[0] && forall k :: k in a <==> k in b
    ensures Same(a, b)
  {
    EqualCounts(a, b);
    TailCount(a);
    TailCount(b);
  }

  ghost predicate Holds(r: Ring, keys: Ring) {
    forall k :: k in keys ==> k in r
  }

  /** One instant of moving a live keyring from l towards f: it encrypts with one of
      the two primaries and holds all of l or all of f. */
  ghost predicate LoadInstant(l: Ring, f: Ring, x: Ring) {
    && l != [] && f != [] && x != []
    && (x[0] == l[0] || x[0] == f[0])
    && (Holds(x, l) || Holds(x, f))
  }

  /** memberlist's keyring: adding appends, using moves to the front, and the
      primary cannot be removed. history is every keyring it has ever been. */
  class Keyring {
    var keys: Ring
    ghost var history: seq<Ring>

    ghost predicate Valid()
      reads this
    {
      && keys != [] && NoRepeats(keys)
      && history != [] && history[|history| - 1] == keys
    }

    constructor (keys: Ring)
      requires keys != [] && NoRepeats(keys)
      ensures Valid() && this.keys == keys && history == [keys]
    {
      this.keys := keys;
      history := [keys];
    }

    method AddKey(k: Key)
      requires Valid()
      modifies this
      ensures Valid() && history == old(history) + [keys]
      ensures keys == if k in old(keys) then old(keys) else old(keys) + [k]
    {
      if k !in keys { keys := keys + [k]; }
      history := history + [keys];
    }

    method UseKey(k: Key) returns (ok: bool)
      requires Valid()
      modifies this
      ensures Valid() && history == old(history) + [keys]
      ensures ok <==> k in old(keys)
      ensures ok ==> keys[0] == k && forall j :: j in keys <==> j in old(keys)
      ensures !ok ==> keys == old(keys)
    {
      ok := k in keys;
      if ok {
        var i :| 0 <= i < |keys| && keys[i] == k;
        var was := keys;
        keys := [k] + was[..i] + was[i + 1..];
        assert was == was[..i] + [k] + was[i + 1..];
      }
      history := history + [keys];
    }

    method RemoveKey(k: Key) returns (ok: bool)
      requires Valid()
      modifies this
      ensures Valid() && history == old(history) + [keys]
      ensures ok <==> k != old(keys)[0]
      ensures ok ==> keys[0] == old(keys)[0] && forall j :: j in keys <==> j in old(keys) && j != k
      ensures !ok ==> keys == old(keys)
    {
      ok := k != keys[0];
      if ok && k in keys {
        var i :| 0 <= i < |keys| && keys[i] == k;
        var was := keys;
        keys := was[..i] + was[i + 1..];
        assert was == was[..i] + [k] + was[i + 1..];
      }
      history := history + [keys];
    }

    /** Every keyring since index n was an instant of loading f. */
    ghost predicate LoadedThrough(n: nat, f: Ring)
      reads this
    {
      n < |history| && forall i :: n < i < |history| ==> LoadInstant(history[i - 1], f, history[i])
    }

    method AddAll(f: Ring)
      requires Valid() && f != []
      modifies this
      ensures Valid() && keys[0] == old(keys)[0] && Holds(keys, old(keys)) && Holds(keys, f)
      ensures old(history) <= history && LoadedThrough(|old(history)| - 1, f)
    {
      ghost var n := |history| - 1;
      for i := 0 to |f|
        invariant Valid() && old(history) <= history && LoadedThrough(n, f)
        invariant keys[0] == old(keys)[0] && Holds(keys, old(keys)) && Holds(keys, f[..i])
      {
        assert f[..i + 1] == f[..i] + [f[i]];
        AddKey(f[i]);
      }
      assert f[..|f|] == f;
    }

    method RemoveOthers(f: Ring, ghost n: nat)
      requires Valid() && f != [] && keys[0] == f[0] && Holds(keys, f) && LoadedThrough(n, f)
      modifies this
      ensures Valid() && keys[0] == f[0] && Holds(keys, f) && Holds(f, keys)
      ensures old(history) <= history && LoadedThrough(n, f)
    {
      var installed := keys;
      for i := 0 to |installed|
        invariant Valid() && old(history) <= history && LoadedThrough(n, f)
        invariant keys[0] == f[0] && Holds(keys, f)
        invariant forall k :: k in keys ==> k in f || k in installed[i..]
      {
        assert installed[i..] == [installed[i]] + installed[i + 1..];
        if installed[i] !in f {
          var removed := RemoveKey(installed[i]);
        }
      }
    }

    /** SetGossipKeys: add all, promote, then remove. */
    method SetGossipKeys(f: Ring)
      requires Valid() && f != [] && NoRepeats(f)
      modifies this
      ensures Valid() && Same(keys, f)
      ensures old(history) <= history && LoadedThrough(|old(history)| - 1, f)
    {
      AddAll(f);
      assert f[0] in keys;
      var used := UseKey(f[0]);
      RemoveOthers(f, |old(history)| - 1);
      SameByElements(keys, f);
    }
  }
}
