# litevirt: verified models of its coordination and credential cores

litevirt runs virtual machines on a small cluster that has no external coordinator. This
project models the parts of it where a mistake is silent and expensive, and proves what
they promise:

- **Recovery claims** (`Claim*.dfy`). Before a workload is restarted elsewhere, a proposer
  gets a quorum of voters to decide who may do it: single-decree Paxos with signed accepts,
  and a bridge from keys that carried no incarnation. `ClaimSystem` is every proposer
  process, every voter and a network that loses, delays and repeats messages;
  `ClaimAgreement` is the invariant and agreement over all its runs, `ClaimProgress` that
  a run can always still reach a decision, and `ClaimRuns` what every run keeps of a
  process's rounds and bindings; `ClaimSpec` and `ClaimProposer` are
  the proposer's own code, with any number of steps of anybody between two of its actions
  and every answer it gets accounted for; `ClaimCertificate` is what an offline verifier
  learns, and `ClaimBound` a run in which a retry is outranked.
- **Gossip-key rotation** (`Gossip*.dfy`). Three phases push a new keyring over SSH while
  daemons reload, start and stop. No two running daemons may ever be unable to hear each
  other. `GossipSafety` proves it of every run of the protocol and `GossipRotation` that the
  commands keep to the protocol; `GossipHidden` is what happens without its condition.
- **Audit export** (`Audit*.dfy`). A cursor walk that streams a signed chain into one JSON
  document, which must be the whole chain or an error.
- **Permissions** (`Rbac*.dfy`). Path prefixes, verb patterns, the access decision, and a
  snapshot that concurrent reloads must never refill with a revoked binding.
- **Single-use credentials** (`OidcFlows.dfy`, `Totp*.dfy`). OIDC login flows, TOTP steps
  and recovery codes.

The form follows the source. A protocol is a transition system over values with an
invariant proved for every run. Code that updates fields is a class; where other threads or
machines act in between, the class has a method `Others` whose contract lets them do
anything they are able to do, and the methods are proved against that contract alone.
Nothing was executed.

## What turned out to hold only under a condition

Each of these has a lemma showing the failure and one showing when it cannot happen.

- *A round is never below the one asked for.* Rounds are `uint64` and the allocator adds
  one without a check, so it hands out round 0 after the largest (`AllocatorWraps`). It
  holds exactly when there is room (`AllocationLaw`), and over every run the rounds of a
  process rise while there is (`RoundsNeverDecrease`). Agreement does not depend on it: it
  rests on binding one value to a round.
- *A retry outranks every stale promise the attempt saw.* After a ballot that was already
  bound to another value the proposer reports its own ballot, and forgets higher promises:
  `BoundBallotForgetsStale` is such a run. `RetryOutranks` says exactly when a retry does
  not. A caller can tell beforehand: a ballot is found bound only if its round was given out
  twice (`BoundIsHeldTwice`), which takes a call that wants the process's last round again
  (`RoundsNeverDecrease`). If no round is, every retry outranks what it saw, as long as
  there is room (`DistinctRoundsOutrank`).
- *The three-phase order keeps the cluster connected.* The comment on `RotateGossipKey` says
  so for every instant; the code does not quite. The barrier skips a host whose state file
  is absent or says off. A daemon reads its key file, then joins gossip, and only later
  writes that file. So a host that is starting can be skipped while it runs the old keyring
  (`HiddenStartPartitions`) or before it has joined with it (`StartingHostPartitions`), and
  two phases later the cluster is partitioned. `NeverPartitioned` shows that nothing else
  can go wrong in any run of the protocol: every instant is connected as long as each phase
  was opened with every host let through at a moment when, if it was skipped, it neither ran
  nor had read another keyring; and that always holds if daemons wrote the state file as
  they read their keys (`PromptIsSound`). Everything the rotation commands do is such a run
  (`RotateRepeatedly`). The condition cannot be weakened. Whatever the cluster, one skipped host whose
  keyring the next phase cannot talk to is enough (`SkippedHostPartitions`), and in phases 1
  and 2, where the next phase changes which key is used, those are exactly the hosts whose
  skipping is unsound (`UnsoundIsIncompatible`). After phase 3 nothing more is dropped: a
  host skipped there keeps the retired key, but is not cut off.
- *A removed binding stays removed.* Tombstone first, as `RevokeRole` does, and it never
  comes back (`NeverResurrected`). A removal stored while its row is still live can always
  be undone by a reload, and the tombstone does not take it out again
  (`RemovalBeforeTombstone`).
- *A code is accepted once.* With freshly generated secrets this holds over the whole
  history (`SecretStepsIncrease`). Enrolling a secret again resets the ratchet, and every
  step it was accepted for is accepted again exactly if that enrolment is active
  (`ReenrolledSecretReplays`).

## Model

| member | source | states |
|---|---|---|
| ClaimTypes.BallotsTotal | internal/corrosion/recovery_claims.go:153-167 | CompareBallots is a total order: by round, at a tied round the lower coordinator higher, then by nonce |
| ClaimTypes.BelowTransitive | internal/corrosion/recovery_claims.go:153-167 | the ballot order, in which the lower coordinator wins a tied round, is transitive |
| Orders.LessMeaning | internal/corrosion/recovery_claims.go:153-167 | the byte order of names is the dictionary order: a proper prefix, or the smaller byte where they first differ |
| ClaimTypes.LegacyLaw | internal/corrosion/recovery_claims.go:78-86 | the legacy form of a key has no incarnation, and two keys share one if and only if kind, name, epoch and attempt are equal |
| ClaimTypes.DigestLaw | internal/corrosion/recovery_claims.go:270-296 | a value has a digest if and only if it is exactly one of a proof and a voter list, and two such digests are equal if and only if the bound fields and the source host are |
| ClaimAgreement.PrepareStep | internal/corrosion/recovery_claims_voter.go:377-440 | a voter's promise, whatever the other messages in flight, keeps the whole protocol invariant |
| ClaimAgreement.AcceptStep | internal/corrosion/recovery_claims_voter.go:451-558 | a voter's accept keeps the whole protocol invariant, including every promise made before it |
| ClaimAgreement.ProposeStep | internal/claims/proposer.go:281-325 | sending the value adopted from a quorum of promises, once bound, keeps the invariant: no lower ballot can be chosen with another value |
| ClaimAgreement.RunKeepsInv | internal/claims/proposer.go:220-347 | every run from a state of the invariant stays in it and takes back no promise, accept or binding |
| ClaimAgreement.Agreement | internal/claims/proposer.go:220-347 | in every run, any two decisions at one key, at any two moments and ballots, carry one digest |
| ClaimAgreement.LegacyBridge | internal/claims/proposer.go:288-301 | once the key of the same kind, name, epoch and attempt without an incarnation decides a digest that no AdoptLegacy refuses, every decision at the key with one is that digest, whichever came first |
| ClaimAgreement.NoLegacyReported | internal/corrosion/recovery_claims_voter.go:321-329 | a quorum of promises at a scoped workload key without a legacy value proves that the key of the same kind, name, epoch and attempt without an incarnation never decides |
| ClaimAgreement.OneBallotOneValue | internal/claims/proposer.go:173-189 | over every run no two phase-2 requests at one ballot of one key carry different digests, whatever concurrent calls reuse the round |
| ClaimProgress.CanDecide | internal/claims/proposer.go:220-347 | from the end of every run, a process with a free round above what a prepare and an accept quorum have promised can go on to a decision at that round, at any well-formed key those voters do not hold closed; if they have accepted nothing it is the process's own value |
| ClaimProgress.PrepareMeaning | internal/corrosion/recovery_claims_voter.go:377-440 | a voter promises if and only if key and ballot are well-formed, it has answered no scoped key of the same decision, and it has promised nothing higher; then only the promise changes; a stale refusal carries the promise |
| ClaimProgress.LegacyRowMeaning | internal/corrosion/recovery_claims_voter.go:419-432 | a promise at a scoped key reports the voter's row of the key of the same kind, name, epoch and attempt without an incarnation, if it has accepted there |
| ClaimProgress.AcceptMeaning | internal/corrosion/recovery_claims_voter.go:451-558 | when a voter accepts, with which row, and which refusal each obstacle gives |
| ClaimSpec.Dedup | internal/claims/proposer.go:422-433 | the distinct non-empty names, strictly sorted |
| ClaimSpec.NoteStale | internal/claims/proposer.go:264-269 | the highest promise among ballot-stale refusals, or what it started from |
| ClaimSpec.ChooseValue | internal/claims/proposer.go:281-301 | the accepted value with the highest ballot any promise reports; failing any, the highest legacy value the spec adopts; none only if there is neither |
| ClaimSpec.PickValue | internal/claims/proposer.go:281-321 | that value, or what Propose builds from these promises; the call's own digests grow by exactly the digest Propose built, and "ours" means the digest is among them; each error has its cause |
| ClaimSpec.SortAccepts | internal/claims/proposer.go:340-346 | every accept exactly once, in voter order |
| ClaimSpec.PromisesMeaning | internal/claims/proposer.go:363-389 | the promises counted are exactly the voters that answered with one, each with what it answered |
| ClaimSpec.AcceptsMeaning | internal/claims/proposer.go:391-420 | the accepts counted are exactly those answered by the voter asked for this key |
| ClaimSpec.RefusalsMeaning | internal/claims/proposer.go:363-420 | every other call is one refusal, in order, with the reason and ballot it was answered with, or unreachable |
| ClaimProposer.Proposer.constructor | internal/claims/proposer.go:145-148 | a process joins under an unused nonce, with nothing used or bound |
| ClaimProposer.Proposer.Ballot | internal/claims/proposer.go:156-168 | the allocation is one step of the protocol; the whole new allocator state |
| ClaimProposer.Proposer.Bind | internal/claims/proposer.go:173-189 | refused exactly when the round is bound to another digest, and then nothing changes |
| ClaimProposer.Proposer.PrepareAll | internal/claims/proposer.go:363-389 | every distinct non-empty voter name is asked exactly once; the promises are exactly the voters that answered with one, with what they answered, made at this ballot; every other call is one refusal with its reason, and a stale one carries a promise above the ballot |
| ClaimProposer.Proposer.AcceptAll | internal/claims/proposer.go:391-420 | every distinct target is asked exactly once; what counts is exactly the answers of the voter asked for this key, the outcome of that voter's own transaction, signed for this key, generation, ballot and digest; every other call is one refusal with its reason |
| ClaimProposer.Proposer.BindAndSend | internal/claims/proposer.go:322-328 | phase 2 starts exactly when the round is free for the digest, and is then a step the protocol allows |
| ClaimProposer.Proposer.Try | internal/claims/proposer.go:263-347 | decided exactly when a quorum promised, the value these promises lead to has a digest, its round could be bound to it, and a quorum accepted, with every accept in the certificate; otherwise the error that the answers oblige; a bound ballot means the round holds another digest |
| ClaimProposer.AttemptRises | internal/claims/proposer.go:220-259 | while the process has room above its last round, one more attempt keeps the rounds of a call rising, each above every promise that refused the one before as stale, bound ballots apart |
| ClaimProposer.Proposer.Decide | internal/claims/proposer.go:220-259 | a certified value or the last error, under any interference; every call accounted for; the value is the one the last attempt picked, and ours exactly when some attempt of this call had Propose build its digest; each attempt holds the round the allocator gave it for the one it had to ask for, reuse only at the first, and reports the highest stale promise it saw; another attempt follows only a stale refusal or a bound ballot, and the call gives up only without one, when the context ends or when the rounds are used up; while there is room rounds strictly rise, each outranking the stale promises before it |
| ClaimCertificate.MajoritiesIntersect | internal/corrosion/recovery_claims.go:500 | any two majorities of one member list share a voter |
| ClaimCertificate.WorkloadSpecFits | internal/grpcapi/recovery_claims.go:584-619 | the quorums a workload decision counts are majorities of the generation, for any propose, legacy and round settings |
| ClaimCertificate.Verify | internal/corrosion/recovery_claims.go:507-575 | accepted exactly when key, digest and generation are those expected and enough distinct members, each as the incarnation its entry lists, signed this key, generation, ballot and digest |
| ClaimCertificate.VerifiesMeaning | internal/corrosion/recovery_claims.go:507-575 | a certificate verifies if and only if key, digest and generation are those expected and enough distinct members, as the incarnations expected, signed and sent an accept for them at its ballot that it holds |
| ClaimCertificate.VerifiedAgree | internal/corrosion/recovery_claims.go:507-575 | any two certificates for one key that verify, at any moments of any run, carry one digest |
| ClaimCertificate.DecidedVerifies | internal/claims/proposer.go:329-346 | what Decide certifies verifies offline against any electorate that lists its targets as the members they are |
| ClaimCertificate.DecisionsAgree | internal/claims/proposer.go:220-259 | two Decide calls at one key, in any processes of any run, return one digest, and values with equal bound fields, source host and voter list |
| ClaimCertificate.AllocationLaw | internal/claims/proposer.go:156-168 | the round is at or above the request and the last one if and only if uint64 has room; it repeats the last exactly for a reuse of it, and is otherwise the lowest round above the last and not below the request |
| ClaimCertificate.AllocatorWraps | internal/claims/proposer.go:156-168 | a new process asked for the largest uint64 gives round 0 to the next request, for round 7 |
| ClaimRuns.RoundsNeverDecrease | internal/claims/proposer.go:156-168 | over every run of the whole system, the rounds one process gives out for a key never decrease, and repeat only for a call that wants that round again with reuse, while its last round is below the largest uint64 |
| ClaimCertificate.RetryOutranks | internal/claims/proposer.go:240-259 | the round asked for after a failed attempt is above every stale promise it saw if and only if there is room and, after a bound ballot, none was in a higher round than that ballot |
| ClaimRuns.BoundIsHeldTwice | internal/claims/proposer.go:156-189 | in every run an attempt finds its round bound before it has sent anything only if the round was given out to two attempts |
| ClaimCertificate.DistinctRoundsOutrank | internal/claims/proposer.go:220-259 | if no round of the key is given out twice, no attempt fails on a bound ballot and every retry outranks the stale promises before it |
| ClaimBound.BoundBallotForgetsStale | internal/claims/proposer.go:322-325 | a run in which a majority promises a reused round 5 that is bound to another value while a third voter is at round 9, and the next round is 6 |
| GossipRing.SameGossipKeyring | internal/pki/gossip_key.go:79-105 | same primary, and the same secondaries with multiplicity, in any order |
| GossipRing.Keyring.SetGossipKeys | internal/corrosion/gossip_keyring.go:223-257 | ends on exactly the new keyring; at every instant it holds all of the old or all of the new and encrypts with one of the two primaries |
| GossipFleet.PhaseConnected | internal/cli/gossip_key.go:218-243 | within a phase every running daemon can read every other |
| GossipFleet.FleetRunPhase | internal/corrosion/gossip_keyring.go:304-350 | any number of reload, start, join, stop and report steps of any daemons stay in the phase, connected at each |
| GossipFleet.WriteHostKeeps | internal/cli/gossip_key.go:337-359 | pushing the phase's keyring to any host stays in the phase |
| GossipFleet.NextPhase | internal/cli/gossip_key.go:290-333 | a compatible keyring may start the next phase once every host has arrived at the last |
| GossipFleet.PassedIsSettled | internal/cli/gossip_key.go:364-395 | a host the barrier lets through has arrived, provided a host it skips neither runs nor has read another keyring |
| GossipSafety.NeverPartitioned | internal/cli/gossip_key.go:218-243 | in every run of the protocol from a cluster on one key, with any daemon steps, pushes, restarts of the command and phases, no instant is partitioned if no phase was opened on an unsound skip |
| GossipSafety.BarrierSettles | internal/cli/gossip_key.go:364-395 | in every such run, once all hosts have soundly been let through, all of them are on the keyring and nothing in flight would take them off it |
| GossipSafety.PhaseOpensSettled | internal/cli/gossip_key.go:290-333 | in every such run a phase opens only on a cluster settled on the keyring of the one before |
| GossipSafety.ReportsHoldPrimary | internal/cli/gossip_key.go:255-266 | in every such run any state file read at any moment holds the local primary |
| GossipSafety.PromptIsSound | internal/daemon/daemon.go:154-175 | if daemons wrote their state file before joining, no run would open a phase on an unsound skip |
| GossipRotation.Fleet.Survey | internal/cli/gossip_key.go:113-132 | every host exactly once, with the key file it holds and the state file it had at some moment of the survey |
| GossipRotation.Fleet.WaitLive | internal/cli/gossip_key.go:364-395 | success means every host was let through since it got the keyring; if that was sound, and so were the phases before, every host is on it |
| GossipRotation.Fleet.PushPhase | internal/cli/gossip_key.go:337-359 | success means every file is the phase's keyring and every host was let through, and with sound skips every daemon is on it; the local keyring stays throughout, and every state is a step of the protocol |
| GossipRotation.Fleet.RotateGossipKey | internal/cli/gossip_key.go:244-333 | every state is a step of the protocol; the local keyring goes through [k], [k,next], [next,k], [next] in that order if the survey, made of reports read before anything was written, found one key everywhere, and otherwise only to its primary, and not at all without a full survey; with sound skips each stage opens on a cluster settled on the one before; interrupted exactly when an operation failed; otherwise it ends on the last stage with every host let through, or, writing nothing, on a live host without the primary, which sound skips rule out |
| GossipRotation.Fleet.RotateRepeatedly | internal/cli/gossip_key.go:244-333 | after any number of rotations, interrupted or not, the whole history is a run of the protocol, extends what was there, and was partitioned at no instant, if no phase was opened on an unsound skip or daemons report before they join |
| GossipRotation.Fleet.InstallGossipKey | internal/cli/gossip_key.go:153-217 | replaces no key file and writes nothing but the local keyring, which in a cluster without one is the minted key alone; incomplete exactly when an operation failed; otherwise a conflict if and only if some host held another keyring, refused if and only if hosts held a key and the local machine none, and else every file is the local keyring; a refusal writes nothing; a rotation's state survives it |
| GossipHidden.SkippedHostPartitions | internal/cli/gossip_key.go:364-395 | from every point where the barrier let all hosts through, in any phase, a host that uses or has read a keyring the next phase cannot talk to has a continuation that partitions the cluster |
| GossipHidden.UnsoundIsIncompatible | internal/cli/gossip_key.go:290-333 | in phases 1 and 2 a keyring of the two keys differs from the phase's if and only if it cannot talk to the next |
| GossipHidden.HiddenStartPartitions | internal/cli/gossip_key.go:364-395 | a run of the protocol, from a cluster settled on one key, that ends partitioned because a host that had just joined was skipped |
| GossipHidden.StartingHostPartitions | internal/daemon/daemon.go:154-175 | the same with a host that has read its keys and was skipped before it joined |
| AuditLaws.WalkCollects | internal/auditexport/assemble.go:111-194 | a walk that succeeds has collected every page in order up to the one with no next cursor, each asked for with the cursor before it, none repeated: the elements of their "rows" and "seq_gaps" arrays, the total, the bytes, and the first value under each other name |
| AuditLaws.ExportIsComplete | internal/auditexport/assemble.go:99-251 | a successful export holds exactly that, from pages that all decode, within the limit, with every key a row says it was signed with among the certificates, and gaps only if allowed |
| AuditLaws.ExportsExactly | internal/auditexport/assemble.go:99-251 | an export succeeds if and only if the server's answers are such a chain of pages |
| AuditValues.FieldMeaning | internal/auditexport/assemble.go:143-152 | a struct field decodes if and only if every entry that spells its name, in any case, is a string or null, and is then the last string given |
| AuditValues.AddPageMeaning | internal/auditexport/assemble.go:115-194 | which error a page is refused with: rows not an array or null, then too large, then a row that does not decode, then gaps that are not an array or null |
| AuditValues.CertifiedMeaning | internal/auditexport/assemble.go:260-290 | the certified keys are exactly the non-empty strings the certificates give, if all decode |
| AuditLaws.BoundedRefines | internal/auditexport/assemble.go:99-140 | the bounded export succeeds if and only if the unbounded one does and its rows fit, with an equal result |
| AuditDocument.DocumentUnique | internal/auditexport/assemble.go:221-250 | there is one document for what was collected |
| AuditDocument.DocumentReadsBack | internal/auditexport/assemble.go:221-250 | read back: every row in order, each evidence key once with its value, the gaps exactly when there are any, no repeated name |
| AuditDocument.PrefixDoesNotRead | internal/auditexport/assemble.go:66-80 | no proper prefix of a document is a document |
| AuditExport.StickyWriter.Write | internal/auditexport/assemble.go:87-96 | what reached the writer is always a prefix of what was sent, and all of it without an error |
| AuditExport.WriteRows | internal/auditexport/assemble.go:120-164 | a page's rows with commas between them across pages, and the first host to use each signing key |
| AuditExport.AddPageTo | internal/auditexport/assemble.go:115-194 | a page merges as specified, or fails with the specified error |
| AuditExport.CheckKeyCoverage | internal/auditexport/assemble.go:260-290 | passes exactly when every signing key the rows name is certified, or there is no evidence |
| AuditExport.WalkPages | internal/auditexport/assemble.go:111-194 | the loop computes the specified walk and fetches at most once more than there are cursors |
| AuditExport.WriteTail | internal/auditexport/assemble.go:221-250 | completes the one document of what was collected |
| AuditExport.Write | internal/auditexport/assemble.go:99-251 | success: the total and the one document of the specified export were written; any other failure is the specified one and left nothing that reads as a document; a write failure if and only if the specified export succeeds and a write failed |
| AuditExport.Assemble | internal/auditexport/assemble.go:58-65 | succeeds if and only if the unbounded export does and its rows fit, with its document and total |
| AuditExport.ExportReadsBack | internal/auditexport/assemble.go:58-83 | any document exported, read back, is the server's whole chain: all rows in order, the first page's value for each evidence key and nothing else, all gaps |
| RbacPaths.CanonicalPathLaw | internal/auth/permissions.go:25-37 | the path with a missing slash put in front and slashes taken off the end, the root only for slashes alone; always canonical, and canonical paths unchanged |
| RbacPaths.SegmentsLaw | internal/auth/permissions.go:25-37 | the segments of a canonical path hold no slash and, joined by slashes, are the path |
| RbacPaths.PrefixIsSegmentPrefix | internal/auth/permissions.go:44-57 | one path covers another if and only if its segments are a list prefix of the other's |
| RbacPaths.PathOrder | internal/auth/permissions.go:44-57 | a partial order on canonical paths with the root below all |
| RbacPaths.GrantMeaning | internal/auth/permissions.go:69-93 | a pattern matches exactly the verbs it stands for: all, one namespace, one action in every namespace, or one verb |
| RbacPaths.GrantForms | internal/auth/permissions.go:59-68 | how all verbs, a namespace, an action in every namespace and one verb are written |
| RbacEngine.DecisionMonotone | internal/auth/permissions.go:226-262 | more bindings or principals never lose access |
| RbacEngine.VerbMatches | internal/auth/permissions.go:69-93 | some grant of the list stands for the verb |
| RbacEngine.Engine.Reload | internal/auth/permissions.go:138-156 | fails exactly when a query does, and then the old snapshot stays; otherwise exactly the live rows at the end, with the roles of some state of the tables during the call; nothing revoked comes back |
| RbacEngine.Engine.RemoveWhere | internal/auth/permissions.go:178-203 | the live snapshot keeps its other bindings, in order, roles untouched; a removal of a tombstoned row is remembered as final |
| RbacEngine.Engine.RemoveBinding | internal/auth/permissions.go:164-166 | exactly the binding with this id leaves the snapshot |
| RbacEngine.Engine.RemovePrincipal | internal/auth/permissions.go:171-173 | exactly the principal's bindings leave the snapshot, and alone it is then allowed nothing anywhere |
| RbacEngine.KeptConcat | internal/auth/permissions.go:178-203 | what a removal keeps of two lists is what it keeps of each, in that order |
| RbacEngine.Engine.Allowed | internal/auth/permissions.go:226-262 | yes if and only if some binding of some principal covers the path by segments and its role grants the verb |
| RbacEngine.RemovalDecision | internal/auth/permissions.go:164-203 | after a removal by id or by principal access is exactly what the bindings with another id, or of another principal, give |
| RbacRace.StepKeeps | internal/auth/permissions.go:138-203 | each step of any thread's reload or removal, and each table edit, keeps the snapshot and everything threads hold free of revoked bindings |
| RbacRace.NeverResurrected | internal/auth/permissions.go:138-203 | in every interleaving, a removal stored with its row tombstoned is never undone, and any access later granted comes from the row of another binding |
| RbacRace.RemovalBeforeTombstone | internal/auth/permissions.go:138-203 | after every stored removal whose row is still live some continuation ends with the row tombstoned and its binding in the snapshot |
| OidcFlows.ConsumeMeaning | internal/auth/oidc.go:296-327 | with a clock that does not step back a consume succeeds with a flow if and only if the last operation on that state remembered that flow and it has not expired |
| OidcFlows.ConsumedOnce | internal/auth/oidc.go:315-327 | whatever the clock does, between two consumes of a state, the second successful, it was remembered again, and the second returns that login |
| OidcFlows.SweepUnobservable | internal/auth/oidc.go:296-310 | with times that do not step back, as the monotonic readings taken under the lock do not, every operation sequence gets the answers of a store that never sweeps |
| OidcFlows.OidcRealm.Sweep | internal/auth/oidc.go:300-304 | exactly the expired entries go |
| OidcFlows.OidcRealm.RememberFlow | internal/auth/oidc.go:148-156 | the store is that of the history with this login added: its verifier and nonce for ten minutes, and no expired entry beside it |
| OidcFlows.OidcRealm.ConsumeFlow | internal/auth/oidc.go:315-327 | the history's answer, and the state is spent whatever the answer |
| OidcFlows.OidcRealm.Authenticate | internal/auth/oidc.go:164-219 | a principal if and only if the state names a live login and the provider, given that login's verifier, returns that login's nonce and a subject; the login is spent even when the provider fails |
| TotpSearch.MatchTotpStep | internal/auth/totp.go:38-67 | a step if and only if it is the nearest of the window with this code and every nearer one could be generated; each step tried once, outward; a miss without errors tried the whole window |
| TotpSearch.QuotientLaw | internal/auth/totp.go:38-60 | the search is centred on the period the moment falls in |
| TotpSearch.FoundIffPresent | internal/auth/totp.go:38-60 | absent generator errors the search succeeds if and only if some step of the window has the code |
| TotpLedger.RecordMeaning | internal/corrosion/auth.go:403-416 | a step is recorded if and only if the secret is the one last enrolled, not retired since, its epoch active, and the step is above every one consumed since |
| TotpLedger.EpochMeaning | internal/corrosion/auth.go:421-444 | in every history the active epoch is the one an enrolment last pointed at, unless the user was deleted or its last live factor disabled since |
| TotpLedger.StepsIncrease | internal/auth/totp.go:150-172 | in every history a factor's accepted steps strictly increase between enrolments |
| TotpLedger.SecretStepsIncrease | internal/auth/totp.go:93-130 | with fresh secrets the steps accepted for a secret strictly increase over the whole history, under one label |
| TotpLedger.ReenrolledSecretReplays | internal/corrosion/auth.go:314-345 | in every history, a step accepted for a secret is accepted again after that secret is enrolled again if and only if that enrolment's epoch is active |
| TotpLedger.SpendMeaning | internal/corrosion/auth.go:512-549 | a recovery code is consumed if and only if the set in force issued it and it was not consumed since |
| TotpLedger.SpentOnce | internal/auth/totp.go:186-210 | in every history a recovery hash authenticates at most once between two issues of it |
| TotpVerify.Session.VerifyRecoveryCode | internal/auth/totp.go:186-210 | accepted if and only if this call's one update consumed a code; that code compares and was unused at some moment of the call; an error exactly when the database gave one; a refusal without an update means none compared at some moment of the call |
| TotpVerify.Session.VerifyTotp | internal/auth/totp.go:138-182 | accepted if and only if this call's one update changed a row; that update was for a step above the last used that, at some moment of the call, a live factor with that key and secret generated the code for, or, if at some moment no live factor matched, for a recovery code unused after that; every refusal has its reason, and an error is the database's |

## Left out

Recovery claims:

- Voter generations: one electorate throughout. Adopting a new generation, importing its claims and the joint quorums of a voter change are not modelled; agreement assumes intersecting quorums and is shown to have them for majorities of one member list.
- Owner probes, a voter's standing and supersede evidence appear as refusals that may happen at any time; what they check is not modelled.
- Signatures are unforgeable, digests injective and boot nonces distinct by assumption; encodings, certificate chains and revocation are not modelled.
- A voter on a build that does not know scoped keys may answer an accept for another key; what else such a voter does is not modelled, nor restores of a voter's database.
- How long Decide backs off; when its context ends is a parameter, and a call that times out is an unanswered one.

Gossip keys:

- The stages of encryption are reduced to a daemon using a keyring or not; messages in flight are not modelled, so the grace period is only a point where the command can be interrupted.
- Key files are written atomically, key IDs are injective, and one operator command runs at a time.
- GossipRing.Keyring.SetGossipKeys: memberlist's calls are modelled as never failing on a validated keyring; a reload that stops part-way is covered by GossipFleet.
- Parsing and file permissions of keyrings.

Audit export:

- JSON text: a value is one token, since compaction changes spacing and not the value; field names match ASCII letters without regard to case.
- The 64-bit total and byte count are unbounded integers.
- The server's cursors come from a finite set; against one that invents new cursors for ever the walk does not end.
- The signatures themselves, which the export carries and does not check.

Permissions:

- Replication that resurrects a tombstoned row, and reuse of binding ids.
- Seeding of built-in roles, the time of the last reload, and HasAnyBinding.

Credentials:

- The OIDC provider, token signatures, claims beyond the subject, and shadow users; the provider is any function of code and verifier.
- TOTP code generation, bcrypt and the normalization of recovery codes are parameters.
- Replication between nodes: the histories are those of one database. Enrolment's read of the active epoch is an arbitrary earlier value.
- WebAuthn, sessions and tokens.
