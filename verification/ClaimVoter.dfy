/** One voter's two transactions, ClaimPrepare and ClaimAccept. Membership and
    generation checks only ever refuse without writing; they are the caller's
    choice not to take a step. */
module ClaimVoter {
  import opened Options
  import opened ClaimTypes

  /** What a voter has recorded for a key; zero ballots where it recorded nothing. */
  datatype Row = Row(promised: Ballot, accepted: Ballot, value: Option<ClaimValue>, digest: Digest)

  const EMPTY_ROW := Row(ZERO_BALLOT, ZERO_BALLOT, None, [])

  type Rows = map<ClaimKey, Row>

  function RowAt(rows: Rows, key: ClaimKey): Row {
    if key in rows then rows[key] else EMPTY_ROW
  }

  datatype Reason = BallotStale | LegacyKeySealed | ValueConflict | InvalidValue | Unreachable | OtherRefusal

  datatype PrepareReply =
    | Promise(state: Row, legacy: Option<Row>)
    | PrepareRefused(reason: Reason, promised: Ballot)

  datatype AcceptReply =
    | Accepted(digest: Digest)
    | AcceptRefused(reason: Reason, promised: Ballot)

  /** A legacy workload key this voter has answered at any scoped form of. */
  predicate Sealed(rows: Rows, key: ClaimKey) {
    key.IsWorkload() && key.incarnation == "" &&
    exists k :: k in rows && k.incarnation != "" && k.Legacy() == key
  }

  predicate ProposerBallot(b: Ballot) {
    b.round != 0 && b.coordinator != ""
  }

  function Legacy(rows: Rows, key: ClaimKey): Option<Row> {
    var row := RowAt(rows, key.Legacy());
    if key.IsScoped() && !row.accepted.IsZero() && row.value.Some? then Some(row) else None
  }

  function ClaimPrepare(rows: Rows, key: ClaimKey, b: Ballot): (Rows, PrepareReply) {
    var row := RowAt(rows, key);
    if !ProposerBallot(b) || !key.Valid() then (rows, PrepareRefused(InvalidValue, ZERO_BALLOT))
    else if Sealed(rows, key) then (rows, PrepareRefused(LegacyKeySealed, ZERO_BALLOT))
    else if CompareBallots(row.promised, b) > 0 then (rows, PrepareRefused(BallotStale, row.promised))
    else
      var row' := row.(promised := b);
      var rows' := if row.promised == b then rows else rows[key := row'];
      (rows', Promise(row', Legacy(rows', key)))
  }

  /** ownerChecked: the owner check for a value not accepted before has passed. */
  function ClaimAccept(rows: Rows, key: ClaimKey, b: Ballot, v: ClaimValue, ownerChecked: bool): (Rows, AcceptReply) {
    var row := RowAt(rows, key);
    if DigestOf(v).None? || !ProposerBallot(b) || !key.Valid() then (rows, AcceptRefused(InvalidValue, ZERO_BALLOT))
    else if Sealed(rows, key) then (rows, AcceptRefused(LegacyKeySealed, ZERO_BALLOT))
    else if CompareBallots(row.promised, b) > 0 then (rows, AcceptRefused(BallotStale, row.promised))
    else if row.accepted == b && row.digest != DigestOf(v).value then (rows, AcceptRefused(ValueConflict, ZERO_BALLOT))
    else if row.accepted == b then (rows, Accepted(row.digest))
    else if key.IsWorkload() && row.digest != DigestOf(v).value && !ownerChecked then
      (rows, AcceptRefused(OtherRefusal, ZERO_BALLOT))
    else (rows[key := Row(b, b, Some(v), DigestOf(v).value)], Accepted(DigestOf(v).value))
  }
}
