/** In-flight OIDC logins: a single-use store that sweeps expired entries when a new
    one is added. */
module OidcFlows {
  import opened Options

  datatype Flow = Flow(expiry: int, verifier: string, nonce: string)

  type Store = map<string, Flow>

  datatype Op =
    | Remember(state: string, verifier: string, nonce: string, at: int)
    | Consume(state: string, at: int)

  /** stateExpiry: ten minutes, in seconds. */
  const STATE_EXPIRY := 600

  // ---- what the store does, with and without the sweep ----

  function Swept(store: Store, now: int): Store {
    map s | s in store && !(now > store[s].expiry) :: store[s]
  }

  function FlowOf(op: Op): Flow
    requires op.Remember?
  {
    Flow(op.at + STATE_EXPIRY, op.verifier, op.nonce)
  }

  function After(store: Store, op: Op, sweeps: bool): Store {
    match op
    case Remember(state, _, _, at) => (if sweeps then Swept(store, at) else store)[state := FlowOf(op)]
    case Consume(state, _) => store - {state}
  }

  /** What an operation answers; only a consume answers anything. */
  function Answer(store: Store, op: Op): Option<Flow> {
    if op.Consume? && op.state in store && !(op.at > store[op.state].expiry) then Some(store[op.state]) else None
  }

  function StoreAfter(ops: seq<Op>, sweeps: bool): Store {
    if ops == [] then map[] else After(StoreAfter(ops[..|ops| - 1], sweeps), ops[|ops| - 1], sweeps)
  }

  /** The answer to the j-th of a sequence of operations. */
  function AnswerAt(ops: seq<Op>, j: nat, sweeps: bool): Option<Flow>
    requires j < |ops|
  {
    Answer(StoreAfter(ops[..j], sweeps), ops[j])
  }

  // ---- what it promises ----

  /** Times are taken under the lock and carry a monotonic reading. */
  ghost predicate ClockRises(ops: seq<Op>) {
    forall i, j :: 0 <= i <= j < |ops| ==> ops[i].at <= ops[j].at
  }

  /** The i-th operation remembered the state that the j-th asks for, and nothing in
      between concerned that state. */
  ghost predicate Licenses(ops: seq<Op>, i: int, j: int) {
    && 0 <= i < j <= |ops| && ops[i].Remember?
    && forall m :: i < m < j ==> ops[m].state != ops[i].state
  }

  /** The last word on a state before the j-th operation. */
  ghost predicate Remembered(ops: seq<Op>, state: string, f: Flow) {
    exists i :: Licenses(ops, i, |ops|) && ops[i].state == state && f == FlowOf(ops[i])
  }

  /** Every entry is the last word on its state, whatever the clock does. */
  lemma {:induction false} EntryMeaning(ops: seq<Op>, sweeps: bool, state: string)
    requires state in StoreAfter(ops, sweeps)
    ensures Remembered(ops, state, StoreAfter(ops, sweeps)[state])
  {
    var n := |ops| - 1;
    if ops[n].state == state {
      assert Licenses(ops, n, |ops|);
    } else {
      EntryMeaning(ops[..n], sweeps, state);
      OtherState(ops, state, StoreAfter(ops, sweeps)[state]);
    }
  }

  /** A last word is missing only if the sweep took it when it had expired. */
  lemma {:induction false} MissingMeaning(ops: seq<Op>, sweeps: bool, state: string, f: Flow)
    requires ClockRises(ops) && Remembered(ops, state, f) && state !in StoreAfter(ops, sweeps)
    ensures sweeps && ops[|ops| - 1].at > f.expiry
  {
    var i :| Licenses(ops, i, |ops|) && ops[i].state == state && f == FlowOf(ops[i]);
    var n := |ops| - 1;
    assert ops[n].state != state;
    OtherState(ops, state, f);
    if state in StoreAfter(ops[..n], sweeps) {
      EntryMeaning(ops[..n], sweeps, state);
      RememberedOnce(ops[..n], state, f, StoreAfter(ops[..n], sweeps)[state]);
    } else {
      MissingMeaning(ops[..n], sweeps, state, f);
    }
  }

  /** An operation on another state leaves the last word as it was. */
  lemma {:induction false} OtherState(ops: seq<Op>, state: string, f: Flow)
    requires ops != [] && ops[|ops| - 1].state != state
    ensures Remembered(ops, state, f) <==> Remembered(ops[..|ops| - 1], state, f)
  {
    var n := |ops| - 1;
    if Remembered(ops, state, f) {
      var i :| Licenses(ops, i, |ops|) && ops[i].state == state && f == FlowOf(ops[i]);
      LicensesLonger(ops, i);
    }
    if Remembered(ops[..n], state, f) {
      var i :| Licenses(ops[..n], i, n) && ops[..n][i].state == state && f == FlowOf(ops[..n][i]);
      LicensesLonger(ops, i);
    }
  }

  lemma {:induction false} LicensesLonger(ops: seq<Op>, i: int)
    requires ops != [] && 0 <= i < |ops| - 1 && ops[i].state != ops[|ops| - 1].state
    ensures Licenses(ops, i, |ops|) <==> Licenses(ops[..|ops| - 1], i, |ops| - 1)
  {
  }

  lemma {:induction false} RememberedOnce(ops: seq<Op>, state: string, f: Flow, g: Flow)
    requires Remembered(ops, state, f) && Remembered(ops, state, g)
    ensures f == g
  {
    var i :| Licenses(ops, i, |ops|) && ops[i].state == state && f == FlowOf(ops[i]);
    var j :| Licenses(ops, j, |ops|) && ops[j].state == state && g == FlowOf(ops[j]);
    assert i == j;
  }

  /** SINGLE USE. A consume succeeds exactly when a remember licenses it and has not
      expired, ten minutes on, and then it returns that login's verifier and nonce. */
  lemma {:induction false} ConsumeMeaning(ops: seq<Op>, j: nat, sweeps: bool, f: Flow)
    requires ClockRises(ops) && j < |ops| && ops[j].Consume?
    ensures AnswerAt(ops, j, sweeps) == Some(f) <==>
            exists i :: && Licenses(ops, i, j) && ops[i].state == ops[j].state
                        && f == Flow(ops[i].at + 600, ops[i].verifier, ops[i].nonce) && ops[j].at <= ops[i].at + 600
  {
    var pre, state := ops[..j], ops[j].state;
    assert ClockRises(pre);
    PrefixLicenses(ops, j);
    if AnswerAt(ops, j, sweeps) == Some(f) {
      EntryMeaning(pre, sweeps, state);
      var i :| Licenses(pre, i, |pre|) && pre[i].state == state && f == FlowOf(pre[i]);
      assert Licenses(ops, i, j);
    }
    if exists i :: Licenses(ops, i, j) && ops[i].state == state && f == FlowOf(ops[i]) && ops[j].at <= f.expiry {
      var i :| Licenses(ops, i, j) && ops[i].state == state && f == FlowOf(ops[i]) && ops[j].at <= f.expiry;
      assert Licenses(pre, i, |pre|);
      assert Remembered(pre, state, f);
      if state !in StoreAfter(pre, sweeps) { MissingMeaning(pre, sweeps, state, f); }
      EntryMeaning(pre, sweeps, state);
      RememberedOnce(pre, state, f, StoreAfter(pre, sweeps)[state]);
    }
  }

  lemma {:induction false} PrefixLicenses(ops: seq<Op>, j: nat)
    requires j <= |ops|
    ensures forall i :: Licenses(ops, i, j) <==> Licenses(ops[..j], i, j)
  {
  }

  /** Between two consumes of a state, the second successful, it was remembered again: no
      login licenses two, whatever the clock does. */
  lemma {:induction false} ConsumedOnce(ops: seq<Op>, j: nat, k: nat, sweeps: bool)
    requires j < k < |ops| && ops[j].Consume? && ops[k].Consume? && ops[j].state == ops[k].state
    requires AnswerAt(ops, k, sweeps).Some?
    ensures exists i :: j < i < k && ops[i].Remember? && ops[i].state == ops[k].state
                     && AnswerAt(ops, k, sweeps) == Some(Flow(ops[i].at + 600, ops[i].verifier, ops[i].nonce))
  {
    var pre, state := ops[..k], ops[k].state;
    EntryMeaning(pre, sweeps, state);
    var f := StoreAfter(pre, sweeps)[state];
    var i :| Licenses(pre, i, |pre|) && pre[i].state == state && f == FlowOf(pre[i]);
    assert pre[j].Consume?;
  }

  /** The sweep cannot be observed. */
  lemma {:induction false} SweepUnobservable(ops: seq<Op>, j: nat)
    requires ClockRises(ops) && j < |ops|
    ensures AnswerAt(ops, j, true) == AnswerAt(ops, j, false)
  {
    if ops[j].Consume? {
      if AnswerAt(ops, j, true).Some? {
        ConsumeMeaning(ops, j, true, AnswerAt(ops, j, true).value);
        ConsumeMeaning(ops, j, false, AnswerAt(ops, j, true).value);
      }
      if AnswerAt(ops, j, false).Some? {
        ConsumeMeaning(ops, j, false, AnswerAt(ops, j, false).value);
        ConsumeMeaning(ops, j, true, AnswerAt(ops, j, false).value);
      }
    }
  }

  // ---- the realm ----

  /** What the provider's token endpoint and the token verifier make of a code; claims
      that do not decode are None, and a missing subject claim is empty. */
  datatype Exchange = ExchangeFailed | NoIdToken | BadToken | Token(nonce: string, claims: Option<string>)

  datatype AuthResult = Principal(subject: string) | InvalidCredentials | RealmUnavailable | BadClaims

  class OidcRealm {
    var stateStore: Store
    ghost var ops: seq<Op>

    ghost predicate Valid()
      reads this
    {
      stateStore == StoreAfter(ops, true)
    }

    constructor ()
      ensures Valid() && ops == []
    {
      stateStore, ops := map[], [];
    }

    lemma {:induction false} Appended(op: Op)
      ensures StoreAfter(ops + [op], true) == After(StoreAfter(ops, true), op, true)
    {
      assert (ops + [op])[..|ops|] == ops;
    }

    /** Drops every expired entry, in whatever order the map is walked. */
    method Sweep(now: int)
      modifies `stateStore
      ensures stateStore == Swept(old(stateStore), now)
      ensures forall s :: s in stateStore <==> s in old(stateStore) && now <= old(stateStore)[s].expiry
      ensures forall s :: s in stateStore ==> stateStore[s] == old(stateStore)[s]
    {
      ghost var was := stateStore;
      var todo := stateStore.Keys;
      while todo != {}
        invariant todo <= was.Keys
        invariant stateStore == map s | s in was && (s in todo || !(now > was[s].expiry)) :: was[s]
      {
        var s :| s in todo;
        todo := todo - {s};
        if now > stateStore[s].expiry { stateStore := stateStore - {s}; }
      }
    }

    /** rememberFlow: sweep, then insert. */
    method RememberFlow(state: string, verifier: string, nonce: string, now: int)
      requires Valid()
      modifies this
      ensures Valid() && ops == old(ops) + [Remember(state, verifier, nonce, now)]
      ensures state in stateStore && stateStore[state] == Flow(now + 600, verifier, nonce)
      ensures forall s :: s in stateStore && s != state ==> s in old(stateStore) && now <= stateStore[s].expiry
    {
      Sweep(now);
      stateStore := stateStore[state := Flow(now + STATE_EXPIRY, verifier, nonce)];
      Appended(Remember(state, verifier, nonce, now));
      ops := ops + [Remember(state, verifier, nonce, now)];
    }

    /** consumeFlow: remove, then check the expiry. */
    method ConsumeFlow(state: string, now: int) returns (flow: Option<Flow>)
      requires Valid()
      modifies this
      ensures Valid() && ops == old(ops) + [Consume(state, now)]
      ensures flow == AnswerAt(ops, |old(ops)|, true)
    {
      Appended(Consume(state, now));
      ops := ops + [Consume(state, now)];
      assert ops[..|old(ops)|] == old(ops);
      if state !in stateStore {
        assert stateStore - {state} == stateStore;
        return None;
      }
      var f := stateStore[state];
      stateStore := stateStore - {state};
      if now > f.expiry { return None; }
      return Some(f);
    }

    /** Authenticate: the flow is spent before the provider is asked, and the token
        must carry the flow's own nonce. */
    method Authenticate(code: string, state: string, now: int, idp: (string, string) -> Exchange)
      returns (r: AuthResult)
      requires Valid()
      modifies this
      ensures Valid()
      ensures code == "" || state == "" ==> r == InvalidCredentials && ops == old(ops)
      ensures code != "" && state != "" ==> ops == old(ops) + [Consume(state, now)]
      ensures forall subject :: r == Principal(subject) <==>
                && code != "" && state != "" && subject != ""
                && exists f :: AnswerAt(ops, |old(ops)|, true) == Some(f)
                            && idp(code, f.verifier) == Token(f.nonce, Some(subject))
      ensures r == RealmUnavailable <==>
                && code != "" && state != ""
                && exists f :: AnswerAt(ops, |old(ops)|, true) == Some(f)
                            && idp(code, f.verifier) in {ExchangeFailed, NoIdToken}
      ensures r == BadClaims <==>
                && code != "" && state != ""
                && exists f :: AnswerAt(ops, |old(ops)|, true) == Some(f)
                            && idp(code, f.verifier) == Token(f.nonce, None)
    {
      if code == "" || state == "" { return InvalidCredentials; }
      var flow := ConsumeFlow(state, now);
      if flow.None? { return InvalidCredentials; }
      match idp(code, flow.value.verifier) {
        case ExchangeFailed => return RealmUnavailable;
        case NoIdToken => return RealmUnavailable;
        case BadToken => return InvalidCredentials;
        case Token(nonce, claims) =>
          if nonce != flow.value.nonce { return InvalidCredentials; }
          if claims.None? { return BadClaims; }
          if claims.value == "" { return InvalidCredentials; }
          return Principal(claims.value);
      }
    }
  }
}
