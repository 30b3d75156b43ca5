/** Keys, ballots and values of single-decree recovery claims. */
module ClaimTypes {
  import opened Options
  import opened Orders

  /** Rounds are uint64 in the source, so incrementing one can wrap. */
  const MAX_ROUND: nat := 0xFFFF_FFFF_FFFF_FFFF
  type Round = r: nat | r <= MAX_ROUND

  function NextRound(r: Round): Round {
    if r == MAX_ROUND then 0 else r + 1
  }

  datatype ClaimKey = ClaimKey(kind: string, name: string, epoch: int, attempt: int, incarnation: string) {
    /** The key the same decision was claimed under before keys carried an incarnation. */
    function Legacy(): ClaimKey { this.(incarnation := "") }

    predicate IsVoterConfig() { kind == "voter_config" }

    predicate IsWorkload() { kind == "vm" || kind == "container" }

    /** An incarnation-scoped workload key. */
    predicate IsScoped() { IsWorkload() && incarnation != "" }

    predicate Valid() {
      if IsVoterConfig() then name == "" && attempt == 0 && epoch >= 0 && incarnation == ""
      else IsWorkload() && name != "" && epoch >= 0 && attempt >= 0
    }
  }

  /** Legacy forgets the incarnation and nothing else. */
  lemma {:induction false} LegacyLaw(a: ClaimKey, b: ClaimKey)
    ensures a.Legacy().incarnation == ""
    ensures a.Legacy() == b.Legacy() <==>
            a.kind == b.kind && a.name == b.name && a.epoch == b.epoch && a.attempt == b.attempt
    ensures a.incarnation == "" ==> a.Legacy() == a
  {
  }

  datatype Ballot = Ballot(round: Round, coordinator: string, nonce: string) {
    predicate IsZero() { this == ZERO_BALLOT }
  }

  const ZERO_BALLOT := Ballot(0, "", "")

  /** Higher round first; at an equal round the LOWER coordinator ranks higher;
      the boot nonce breaks what is left. */
  function CompareBallots(a: Ballot, b: Ballot): int {
    if a.round > b.round then 1
    else if a.round < b.round then -1
    else if Less(a.coordinator, b.coordinator) then 1
    else if Less(b.coordinator, a.coordinator) then -1
    else CompareStrings(a.nonce, b.nonce)
  }

  /** a ranks strictly below b. */
  predicate Below(a: Ballot, b: Ballot) {
    CompareBallots(a, b) < 0
  }

  /** CompareBallots is a total order: by round, then the lower coordinator higher, then nonce. */
  lemma BallotsTotal(a: Ballot, b: Ballot)
    ensures Below(a, b) <==>
            || a.round < b.round
            || (a.round == b.round && Less(b.coordinator, a.coordinator))
            || (a.round == b.round && a.coordinator == b.coordinator && Less(a.nonce, b.nonce))
    ensures CompareBallots(a, b) == 0 <==> a == b
    ensures CompareBallots(a, b) > 0 <==> Below(b, a)
    ensures Below(a, b) || a == b || Below(b, a)
    ensures !(Below(a, b) && Below(b, a))
  {
    CompareFlips(a.nonce, b.nonce);
    LessTotal(a.coordinator, b.coordinator);
  }

  lemma BelowTransitive(a: Ballot, b: Ballot, c: Ballot)
    requires Below(a, b) && Below(b, c)
    ensures Below(a, c)
  {
    LessTotal(a.coordinator, b.coordinator);
    LessTotal(b.coordinator, c.coordinator);
    LessTotal(a.coordinator, c.coordinator);
    if a.round == b.round == c.round {
      if a.coordinator == b.coordinator == c.coordinator {
        LessTransitive(a.nonce, b.nonce, c.nonce);
      } else if Less(c.coordinator, b.coordinator) && Less(b.coordinator, a.coordinator) {
        LessTransitive(c.coordinator, b.coordinator, a.coordinator);
      }
    }
  }

  /** The order facts in the form the protocol proofs use. */
  lemma BallotOrder()
    ensures forall a, b :: Below(a, b) || a == b || Below(b, a)
    ensures forall a, b :: !(Below(a, b) && Below(b, a))
    ensures forall a, b, c :: Below(a, b) && Below(b, c) ==> Below(a, c)
    ensures forall a, b :: CompareBallots(a, b) > 0 <==> Below(b, a)
  {
    forall a, b ensures CompareBallots(a, b) > 0 <==> Below(b, a) { BallotsTotal(a, b); }
    forall a, b ensures Below(a, b) || a == b || Below(b, a) { BallotsTotal(a, b); }
    forall a, b ensures !(Below(a, b) && Below(b, a)) { BallotsTotal(a, b); }
    forall a, b, c | Below(a, b) && Below(b, c) ensures Below(a, c) { BelowTransitive(a, b, c); }
  }

  /** The proof fields a claim decides on, and the ones it does not digest. */
  datatype ActionProof = ActionProof(binding: seq<string>, undigested: string)

  datatype ClaimValue = ClaimValue(proof: Option<ActionProof>, sourceHost: string, config: Option<seq<string>>)

  /** SHA-256 over length-prefixed fields is taken to be injective, so a digest
      is modelled as the field list itself. */
  type Digest = seq<string>

  /** None where the source returns an error: not exactly one of proof and config. */
  function DigestOf(v: ClaimValue): Option<Digest> {
    if v.proof.Some? && v.config.None? then
      Some(["litevirt-recovery-value-v1"] + v.proof.value.binding + [v.sourceHost])
    else if v.config.Some? && v.proof.None? && v.sourceHost == "" then
      Some(["litevirt-voter-config-value-v1"] + v.config.value)
    else None
  }

  /** A value has a digest when it is exactly one of a proof and a voter list, the list with
      no source host. */
  ghost predicate Digestible(v: ClaimValue) {
    (v.proof.Some? && v.config.None?) || (v.proof.None? && v.config.Some? && v.sourceHost == "")
  }

  /** Two values decide the same thing: the same proof fields for the same host, or the same
      voter list. */
  ghost predicate SameValue(v: ClaimValue, u: ClaimValue) {
    && v.sourceHost == u.sourceHost && v.proof.Some? == u.proof.Some?
    && (v.proof.Some? ==> v.proof.value.binding == u.proof.value.binding)
    && (v.proof.None? ==> v.config == u.config)
  }

  /** A digest stands for exactly one decision. */
  lemma {:induction false} DigestLaw(v: ClaimValue, u: ClaimValue)
    ensures DigestOf(v).Some? <==> Digestible(v)
    ensures Digestible(v) && Digestible(u) ==> (DigestOf(v) == DigestOf(u) <==> SameValue(v, u))
  {
    if Digestible(v) && Digestible(u) {
      var d, e := DigestOf(v).value, DigestOf(u).value;
      TagsDiffer();
      if d == e {
        assert d[0] == e[0];
        if v.proof.Some? {
          var n := |d| - 1;
          assert v.proof.value.binding == d[1..n] && u.proof.value.binding == e[1..n] && d[n] == e[n];
        } else {
          assert v.config.value == d[1..] && u.config.value == e[1..];
        }
      }
    }
  }

  lemma {:induction false} TagsDiffer()
    ensures "litevirt-recovery-value-v1" != "litevirt-voter-config-value-v1"
  {
    assert |"litevirt-recovery-value-v1"| != |"litevirt-voter-config-value-v1"|;
  }
}
