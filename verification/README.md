# prometheus-mcp-fleet: a verified model

A Dafny model of the parts of prometheus-mcp-fleet that decide who is trusted: the
rotation of the hub's certificate authority, the credential verifier, revocation and
renewal, first boot, and four smaller algorithms that carry an unbounded promise.

The protocols are transition systems over explicit steps, so that stale reads, lost
compare-and-swap races, crashes and every interleaving are runs of the model:

- `fleet.dfy`: any number of hub replicas sharing one CA Secret. Reading, planning (with
  its own clock reading), stamping and committing are separate steps; each replica keeps
  every snapshot it has published, and every leaf ever signed is remembered. The Secret is
  a log of versions, the resource version is an index into it, and a commit succeeds
  exactly when it was planned from the last version. `rotation.dfy` holds the decision
  functions, `planning.dfy` when each of them decides what, in the settings' own numbers, `versions.dfy` and `retirement.dfy` what the log always satisfies,
  `guarantees.dfy` the run-level results, `tightness.dfy` runs that show their timing
  conditions exact, `repair.dfy` the repair of inconsistent Secrets, `rotator.dfy`
  the classes that hold state in the source.
- `verifier.dfy`: the epoch-gated credential caches against a store that others mutate.
- `revocation.dfy`: the denylist over time, renewal, and the cached copy of the denylist.
- `bootstrap.dfy`: replicas racing to create the CA Secret, with crashes and restarts.
- `fanout.dfy`: cluster selection, the dispatcher's goroutines, coverage accounting.

`lru.dfy` (a doubly linked list in the heap), `ratelimit.dfy`, `transcript.dfy`,
`labels.dfy` and `pki.dfy` are sequential code proved against specification functions.

Times are whole seconds on one clock, as the Secret records them; the rate limiter uses
reals. Signatures and digests are ideal. PEM is a sequence of blocks. Clock readings,
generated keys, API outcomes and scheduling are parameters of the steps.

## Where the code and its comments part

Some promises hold only under a condition, which is proved to be the exact one.

- With one set of settings, retirement strands no leaf exactly when its signer was out of use less than two poll
  intervals after the recorded promotion (`Tightness.StoppingExactly`); in terms of
  delays, when the time from a write's stamp to its commit plus the age of the snapshot a
  replica signs with stay under that (`Tightness.PaddingExactly`). The comment on
  `retirementHold` allows for a losing replica's next poll only.
- Shortening the leaf lifetime is called safe in the middle of a rotation, because the
  promoter persists its horizon. The horizon is the promoter's own: a leaf signed under a
  longer lifetime, by a replica not yet restarted or before the promoter was, loses its
  root while renewable exactly when its lifetime, its signing delay and the grace reach
  the promoter's hold (`Tightness.HorizonExactly`).
- Every leaf expired for no longer than g is accepted on every current replica exactly when
  those delays stay under a leaf lifetime and, with g, under the grace plus two polls
  (`Tightness.AcceptanceExactly`).
- The retirement horizon falls within the outgoing root's life exactly when the two
  overshoots together stay within two poll intervals plus whatever the configured
  fraction adds to the runway (`Retirement.RunwaySuffices`).
- The store's prune removes keys without raising the epoch, so a cached success can be
  the verdict of a state before the call's epoch read. It is always that of a state
  within the call, and of one after the epoch read exactly when calls read the epoch
  within the store's retention of their clock reading (`Verifier.AfterReadExactly`).
- A revoked leaf is refused renewal exactly when the denylist is read no later than the
  state retention after the chain check (`Denylist.RevokedExactly`). The configuration
  calls that retention a forensics window and not a safety margin.
- A replica that loses the race to complete a partial CA Secret reloads its own files.
  Replicas agree in every run exactly when the Secret does not start out with a CA and no
  pepper, or a pepper and no CA (`Bootstrap.ConvergesExactly`).
- A hub left alone gets ready exactly when there is no CA Secret or it says something, and
  the Secret and the disk between them do not have half a CA or halves that do not match
  (`Bootstrap.BootsExactly`). So a Secret created empty beforehand is never filled in, and a
  hub stopped between writing its key file and its certificate does not start on that disk
  again until another replica has stored a CA (`Bootstrap.AlwaysBootable`).
- Evicting idle rate-limit buckets goes unnoticed exactly when an hour earns every key its
  whole burst (`RateLimit.EvictionInvisibleExactly`).
- The check on label maps built in code admits maps that do not survive being printed and
  parsed; exactly the maps the parser can produce do (`Labels.RoundTripExactly`).

## Model

| member | source | states |
|---|---|---|
| Guarantees.StrandsNothing | internal/hub/carotation.go:588-730 | In every state of every run, a leaf whose root the Secret no longer trusts is past its NotAfter plus the renewal grace, if its signer was out of use within less than two polls of the recorded time of every promotion over it. Nothing is asked of replicas away from a promotion. |
| Guarantees.HorizonProtects | internal/hub/carotation.go:53-62 | Whatever settings every other replica runs with, the retiring one included, a leaf keeps its root until it has been expired for the grace, if signing time, its own lifetime and the grace end before the horizon persisted at each promotion over its signer. |
| Tightness.HorizonExactly | internal/hub/carotation.go:53-62 | Leaves of one lifetime, signed up to d after the promotion was planned, keep their root through the grace in every run if and only if lifetime, d and grace together are under the promoter's hold. |
| Tightness.RetiredUnderLonger | internal/hub/carotation.go:683-692 | For any settings of the promoter and any longer lifetime, a run in which a replica signs under that lifetime and the root is retired at the promoter's horizon. |
| Guarantees.ProtectedLeaf | internal/hub/carotation.go:660-730 | The same for either part of the gate: the persisted horizon, or the retirer's hold from the recorded promotion. |
| Guarantees.NoRenewalLost | internal/ca/verify.go:87-124 | From a retirement on, every renewal the two-root bundle would have accepted is accepted by the narrowed bundle, for every leaf expired for the grace by the gate of each retirement after a promotion over its signer, whatever the settings. |
| Guarantees.StoppedIsProtected | internal/hub/carotation.go:635-649 | With one set of settings, a leaf whose signer stopped in time is such a leaf. |
| Tightness.StoppingExactly | internal/hub/carotation.go:635-649 | Retirement strands no leaf, in any run, whose signer stopped within d of every promotion over it, if and only if d is under two poll intervals. |
| Guarantees.PunctualStops | internal/hub/carotation.go:323-341 | A replica that signs with snapshots at most lag old has stopped within the write latency plus the lag. |
| Tightness.PaddingIsTight | internal/hub/carotation.go:635-649 | For any valid settings and any latency plus lag of two polls or more there is a run, of real steps, in which a retirement refuses a renewal that was accepted just before. |
| Tightness.PaddingExactly | internal/hub/carotation.go:635-649 | In terms of delays: if and only if write latency plus signer lag are under two poll intervals. |
| Guarantees.AcceptedEverywhere | internal/hub/carotation.go:323-341 | Every leaf no longer expired than g is accepted, with a grace of g, on every replica whose snapshot is no older than the lag, from the moment it is issued, including leaves signed by a replica that missed a promotion; settings may differ between replicas. With g zero this is service, with the renewal grace renewal. |
| Guarantees.TrustedBySnapshot | internal/hub/carotation.go:588-625 | The version behind every such snapshot trusts the root of every such leaf. |
| Guarantees.PunctualIsWellTimed | internal/hub/carotation.go:323-341 | With one set of settings, what that needs comes down to the delays. |
| Tightness.AcceptanceExactly | internal/hub/carotation.go:588-649 | That holds in every run that keeps to the delays if and only if they add up to less than a leaf lifetime and, with g, to less than the grace plus two polls. |
| Tightness.RefusedBeforeAdoption | internal/hub/carotation.go:588-625 | For any delays of a leaf lifetime or more, a run in which a replica refuses a leaf of a promoted root it has not heard of. |
| Tightness.RefusedAfterRetirement | internal/hub/carotation.go:660-730 | For any delays that with g reach the grace plus two polls, a run in which a replica that has adopted a retirement refuses a leaf. |
| Retirement.TrustedInAdvance | internal/hub/carotation.go:588-625 | A version of the Secret either trusts the signer of a later version already or was replaced at least the promoters' leaf lifetime, less the latency, before that signer signed. |
| Guarantees.SecretInvariant | internal/hub/carotation.go:406-456 | In every reachable state the Secret's history is a chain of legitimate writes with fresh keys, and phase, signer, successor, outgoing root, start time and horizon fit together. |
| Guarantees.HistoryOnlyGrows | internal/kube/secret.go:143-159 | No step of any replica ever loses or rewrites a committed version. |
| Guarantees.SnapshotAgreement | internal/ca/ca.go:393-408 | Every snapshot ever published is duplicate-free, has the signer first, and as a set is signer, operator roots and the phase's other root of a version that was current when it was read. |
| Guarantees.BundleOf | internal/hub/carotation.go:202-240 | Adopting a coherent Secret succeeds, and the bundle is exactly what the state trusts plus the operator's roots. |
| Guarantees.JoinedRoots | internal/hub/carotation.go:231-240 | Joining the operator's bundle with one more root parses to the operator's roots followed by it. |
| Guarantees.PromotionKeepsTrust | internal/hub/carotation.go:614-624 | Promotion leaves the set of trusted roots exactly as it was. |
| Guarantees.NoLeafShortened | internal/ca/issue.go:93-124 | In a rotation that keeps to one poll of overshoot per phase, no leaf the outgoing root signs is clamped to its issuer's expiry. |
| Guarantees.LeafFacts | internal/ca/issue.go:93-124 | Every leaf ever issued was signed, with a usable signer, from a version that was current when its snapshot was read, and expires within its own lifetime. |
| Guarantees.SignerDuring | internal/hub/carotation.go:588-598 | Until promotion, the signer of every version is the root the rotation was begun for. |
| Fleet.AlwaysInv | internal/hub/carotation.go:298-315 | The whole-fleet invariant holds in every state of every run: snapshots, in-flight plans, issued leaves and minted keys agree with the log. |
| Fleet.StepKeeps | internal/hub/carotation.go:298-341 | Every step of a replica, of the environment and of the clock keeps the invariant. |
| Fleet.CommitKeeps | internal/hub/carotation.go:406-456 | A commit keeps the invariant whether it wins, loses the race, or wins without hearing of it. |
| Fleet.WinnerIsLegit | internal/hub/carotation.go:406-456 | The plan that wins the compare-and-swap was decided from the very version it replaces. |
| Fleet.SyncPublishes | internal/hub/carotation.go:323-341 | The skipped adoption is sound: when certificate and extra roots are the ones applied, the snapshot already published is the one adoption would build. |
| Versions.AlwaysCoherent | internal/hub/carotation.go:463-625 | Every version in the log is coherent: certificate and key match, and each phase has exactly the keys it needs. |
| Versions.StaysCoherent | internal/hub/carotation.go:463-625 | One planned write or annotation takes a coherent Secret to a coherent Secret. |
| Versions.OnlyForward | internal/hub/carotation.go:463-498 | From a coherent Secret only the five genuine transitions are ever planned, each from its own phase; repairs never are. |
| Versions.OnePhaseForward | internal/hub/carotation.go:588-625 | A commit moves at most one phase forward in the cycle, and the signer changes only at promotion, to the published successor. |
| Versions.NewKeysAreMinted | internal/hub/carotation.go:500-524 | A key that appears in the Secret was minted by the write that put it there, at the start of a rotation. |
| Versions.GoneForGood | internal/hub/carotation.go:614-624 | A private key that has left the Secret is in no later version. |
| Versions.DemotedKeyIsGone | internal/hub/carotation.go:614-624 | Promotion takes the demoted root's private key out of the Secret, and no version from then on holds it. |
| Versions.SuccessorKeyApart | internal/hub/carotation.go:500-524 | While a successor is published, its key is not one the signer's file holds. |
| Versions.TimesGrow | internal/kube/secret.go:143-159 | Commit times never decrease along the log. |
| Versions.LegitMoves | internal/hub/carotation.go:406-456 | A legitimate write takes the state read before to the transition's own effect. |
| Retirement.KindOf | internal/hub/carotation.go:463-730 | Every legitimate move is quiet, begins, promotes, retires or records a sighting, with that transition's gate passed and that transition's effect. |
| Retirement.FleetWideVeto | internal/hub/carotation.go:660-730 | No retirement commits before the horizon persisted at promotion, nor before the retiring replica's own hold, nor within two of its polls of any committed sighting or of its own start, nor while its tracker holds a live serial of the outgoing root. |
| Retirement.HorizonKept | internal/hub/carotation.go:660-730 | No write during the signing phase moves the horizon, the promotion time, the signer or the outgoing root. |
| Retirement.SightingsKept | internal/hub/carotation.go:691-730 | No write during the signing phase loses a committed sighting or moves it back. |
| Retirement.SignerStanding | internal/hub/carotation.go:635-649 | Whatever the timing and the settings, a root that has signed still signs, or is the trusted outgoing root of a signing phase, or has been retired at the end of one. |
| Retirement.UntrustedIsRetired | internal/hub/carotation.go:635-730 | If a version does not trust it, a promotion over it and a retirement are in the log, a full hold of the promoter after the first was planned and of the retirer after it was recorded. |
| Retirement.PublishingKept | internal/hub/carotation.go:588-598 | No write during the publishing phase moves its start or the signer. |
| Retirement.RunwaySuffices | internal/config/hub.go:527-532 | The persisted horizon is within the outgoing root's life if and only if the two overshoots fit in two polls plus the margin over the runway; one poll each always fits. |
| Rotation.WrittenEffect | internal/hub/carotation.go:406-456 | Any Secret written from a plan reads back as that plan's effect on the state, and keys rotation does not own are untouched. |
| Rotation.ApplyWrites | internal/hub/carotation.go:406-456 | Applying a plan sets what it sets, deletes what it deletes and changes nothing else. |
| Rotation.PlanSlots | internal/hub/carotation.go:463-730 | No plan sets or deletes the phase and start-time keys itself. |
| Rotation.Threshold | internal/hub/carotation.go:551-568 | The remaining life that triggers a rotation is the larger of the configured fraction of the root's life, in whole seconds, and two leaf lifetimes, the grace and four polls. |
| Rotation.ReadExactly | internal/hub/carotation.go:165-193 | Only the three phase names are phases and only a time is a time; an empty or absent value is neither, anything else is unrecognised or unreadable, and no value is read from another key. |
| Planning.BeginsExactly | internal/hub/carotation.go:551-568 | A clean steady Secret plans a rotation if and only if one is ordered or the root is at or past its due time, and a successor can be minted; otherwise it plans nothing. |
| Planning.DueAt | internal/hub/carotation.go:551-568 | The due time leaves the larger of the configured fraction of the life and two leaf lifetimes, the grace and four polls. |
| Planning.BeginsInTime | internal/hub/carotation.go:298-315 | Polls no more than an interval apart write nothing before the due time and begin the rotation at the first poll after it, at most one interval late. |
| Planning.StrayIsCleared | internal/hub/carotation.go:500-541 | A steady Secret with any rotation key left in it is cleaned of all of them in one write that keeps the signer, its key, the start time and a pending order. |
| Planning.PromotesExactly | internal/hub/carotation.go:588-625 | A published successor is promoted if and only if a leaf lifetime has run since or the signer has expired; until then nothing is planned. |
| Planning.PromotionWrites | internal/hub/carotation.go:614-624 | After a promotion the successor signs, the old signer is the outgoing root, its key is gone, the horizon is lifetime, grace and two polls from the plan, and no sighting is carried over. |
| Planning.RetiresExactly | internal/hub/carotation.go:660-730 | Past both horizons and two polls of uptime, a live session on the outgoing root is recorded if and only if the last record is a poll old; without one the root is retired if and only if it is two polls old; in every other case nothing is planned. |
| Planning.SightedThenRetired | internal/hub/carotation.go:691-730 | A session seen past the gate is recorded and holds the root; two polls after that, with none left, a poll retires it, with the horizon and the record gone and the signer kept. |
| Planning.UnknownPhaseUntouched | internal/hub/carotation.go:463-498 | No number of polls writes a Secret whose phase is some other word. |
| Repair.OneRepair | internal/hub/carotation.go:463-541 | A repair is planned exactly when the measure is positive, and writing it lowers the measure by one, from any recognised state however inconsistent. |
| Repair.PollRepairs | internal/hub/carotation.go:298-315 | The same for a whole uncontested poll of a Secret. |
| Repair.PollEffect | internal/hub/carotation.go:298-315 | An uncontested poll writes exactly its plan's effect, or nothing. |
| Repair.SelfRepair | internal/hub/carotation.go:632-670 | From any Secret with an absent or recognised phase, the next polls are repair writes exactly as many times as the measure says, and the one after them is not. |
| Repair.RepairsInAll | internal/hub/carotation.go:463-752 | Over polls without end, through any number of rotations, there are never more repair writes in all than the debt at the start: three if the Secret names a signer, four if not. |
| Repair.DebtFalls | internal/hub/carotation.go:463-752 | No plan raises the debt and every repair lowers it. |
| Repair.RotationCompletes | internal/hub/carotation.go:463-730 | Three uncontested polls, one when due, one a lifetime later and one past the horizon with no session left, take any clean Secret to the newly minted root alone. |
| Repair.Repairs | internal/hub/carotation.go:744-752 | The measure of pending repairs is at most three. |
| Repair.UnknownPhaseHoldsWide | internal/hub/carotation.go:202-226 | An unknown phase is never written, and is trusted at least as widely as each known phase would be. |
| Repair.JoinHolds | internal/hub/carotation.go:231-240 | Joined bundles hold exactly the certificates of both. |
| Rotator.Controller.Sync | internal/hub/carotation.go:323-341 | After a successful sync, skipped or not, the live authority is the Secret's signer first and its duplicate-free bundle; a failed one changes nothing. |
| Rotator.Controller.Advance | internal/hub/carotation.go:406-456 | The Secret changes exactly when there is a plan and the version read is still current, to the plan applied, and the caller gets the state it then reads as. |
| Rotator.Controller.Step | internal/hub/carotation.go:298-315 | An uncontested poll leaves the authority signing with what the Secret now names, and the Secret with the plan made from what was read. |
| Rotator.SecretObject.Update | internal/kube/secret.go:143-159 | A replace takes effect exactly when the version given is current. |
| Rotator.SecretObject.Get | internal/kube/secret.go:101-110 | A read returns the contents together with their version. |
| Rotator.IssuerTracker.Verify | internal/hub/caissuers.go:96-122 | The chain is verified against the bundle in force; a verified chain records the first root that signed it in the bundle in force by then, at the recording time; in every other case nothing changes; while the bundle stays there is such a root. |
| Rotator.IssuerTracker.HoldoutsOn | internal/hub/caissuers.go:128-151 | The count is the number of live serials last verified under the root, and only stale sightings without a session are dropped. |
| Rotator.IssuerFingerprint | internal/ca/trust.go:94-104 | The first signing root of the bundle that signed the leaf is reported, if there is one. |
| Pki.NewMaterial | internal/ca/ca.go:393-408 | The bundle starts with the signer, has no duplicates, and is as a set the signer and the additional roots. |
| Pki.AppendRootsProperties | internal/ca/ca.go:393-408 | Appending keeps what was there as a prefix, keeps it duplicate-free, and adds exactly the new roots. |
| Pki.Adopted | internal/ca/ca.go:256-274 | Adopted material has a usable keypair whose certificate is in its own bundle. |
| Pki.AdoptedExactly | internal/ca/ca.go:482-563 | Material is adopted if and only if the certificate file is one signing ECDSA certificate, the key file starts with its own P-256 key and the extra roots are blank or parse; the bundle is then exactly the signer and the certificates of the extra roots. |
| Pki.Authority.AdoptPEM | internal/ca/rotate.go:50-59 | The snapshot is replaced whole, or not at all. |
| Pki.ParseTrustBundlePEM | internal/ca/trust.go:28-54 | One pass accepts exactly the bundles with at least one block, all of them signing CA certificates, and returns them in order. |
| Pki.BundleNames | internal/ca/trust.go:28-54 | A bundle is accepted exactly when the file has a block and every block in it is a signing CA certificate, and it then names exactly the certificates of the file. |
| Pki.BlocksConcat | internal/ca/trust.go:28-54 | The blocks of joined PEM are the blocks of each part. |
| Pki.Sign | internal/ca/issue.go:93-124 | Signing succeeds exactly while the issuer is unexpired; the leaf carries the serial and the issuer's key, starts five minutes back, never outlives its issuer or its lifetime, and is shortened only by the issuer. |
| Pki.RenewalExactly | internal/ca/verify.go:87-124 | Renewal accepts exactly the leaves no more than the grace past their expiry that verify now or did at the last instant of their life, and names an exhausted grace exactly when that is the case. |
| Pki.IssuerAccepts | internal/ca/verify.go:37-60 | A leaf verifies for its whole life, and renews through its grace, under any bundle that holds its issuer. |
| Verifier.CachedAuthenticationIsLinearizable | internal/authn/verifier.go:241-416 | Every success, cached or not, in every interleaving, is the store's own verdict for this token, class and clock reading in a state between the call's clock reading and its return, after its epoch read unless the key was pruned in between; and it is of the class asked for. What the verdict is, in terms of the stored key, is `GrantMeans`. |
| Verifier.GrantMeans | internal/authn/verifier.go:241-416 | In every run, a granted call found, in a state between its clock reading and its return, a stored key with its identifier, its secret and the class asked for, not revoked and not expired; the principal has exactly that key's identity, class and scope, the admin role exactly for admin keys and any other role exactly from the scope. |
| Verifier.RefusalMeans | internal/authn/verifier.go:241-416 | A refused call, apart from backoff, an unreadable store and a token of another class, was refused because the key was unknown, its secret or class did not match, or it was revoked or expired, the first of these that held in a state and at a reading tied to the call. |
| Verifier.VerdictExactly | internal/authn/verifier.go:319-358 | The store grants if and only if the stored key matches in secret and class and is neither revoked nor expired, and gives each reason if and only if it is the first that holds. |
| Verifier.HitExactly | internal/authn/verifier.go:360-389 | The positive cache grants if and only if it holds an entry of the epoch just read, younger than its lifetime, whose key has not expired. |
| Verifier.StaleIsDropped | internal/authn/verifier.go:360-389 | Any other entry is dropped; a current one of an expired key is a refusal, the rest go on to the negative cache. |
| Verifier.NegHitExactly | internal/authn/verifier.go:360-389 | The negative cache repeats a refusal, with its reason, exactly while it is younger than its lifetime. |
| Verifier.NewEpochPurges | internal/authn/verifier.go:402-416 | A call that reads another epoch than the last empties both caches before it looks in either; one that does not leaves them alone. |
| Verifier.AskedIsAnswered | internal/authn/verifier.go:286-314 | A call that asks a readable store returns what the stored key says, and leaves the positive or the negative cache saying the same. |
| Verifier.OutsideRefuses | internal/authn/verifier.go:277-306 | Backoff and an unreadable epoch refuse and leave no trace; an unreadable store refuses and is remembered as a refusal. |
| Verifier.AfterReadExactly | internal/authn/verifier.go:241-416 | In every run whose calls read the epoch within gap of their clock, every success is the verdict of a state between the epoch read and the return, if and only if gap is at most the time the store keeps an expired key. |
| Verifier.PromptGrant | internal/authn/verifier.go:241-416 | The half of that for one call. |
| Verifier.RefusalsAreTheStores | internal/authn/verifier.go:241-416 | Every refusal, apart from backoff, an unreadable store and a token of another class, is the store's own for this token and class: in a state within the call at the call's clock reading; or, from the negative cache, at a reading less than the negative lifetime before it and not after the return, in a state not superseded by that reading; or, for an expired grant, in the last state with the key, pruned before the call and within the positive lifetime. |
| Verifier.CacheHitLinearizes | internal/authn/verifier.go:360-389 | A success from the positive cache is the verdict of some store state within the call. |
| Verifier.SameEpochSameKey | internal/store/state.go:516-542 | Between two store states of one epoch a key is unchanged, until a prune removes it. |
| Verifier.PrunedBetween | internal/authn/verifier.go:402-416 | For any retention and any longer gap, a run in which a cached success is the verdict of no state after the call's epoch read. |
| Verifier.StepKeeps | internal/authn/verifier.go:241-416 | Every step of a call, of the store, of the caches' eviction and of the clock keeps that. |
| Verifier.FetchedKeeps | internal/authn/verifier.go:319-358 | Filling the positive cache under the epoch read before the key was fetched is sound. |
| Lru.LruCache.constructor | internal/authn/lru.go:39-44 | A new cache is empty and holds at least one entry. |
| Lru.LruCache.Get | internal/authn/lru.go:47-57 | A hit returns the stored value and moves exactly that entry to the front; a miss changes nothing. |
| Lru.LruCache.Put | internal/authn/lru.go:61-75 | The entry is first, the others keep their order, and only the last goes when there is no room; links, map and capacity stay consistent. |
| Lru.LruCache.Insert | internal/authn/lru.go:69-75 | The same for a new key, with a tail to evict whenever the loop evicts. |
| Lru.LruCache.Replace | internal/authn/lru.go:64-68 | The same for a present key. |
| Lru.LruCache.Remove | internal/authn/lru.go:78-88 | The entry is gone, the others keep their order, and the answer says whether it was there. |
| Lru.LruCache.Purge | internal/authn/lru.go:92-97 | Nothing is left. |
| Lru.LruCache.PushFront | internal/authn/lru.go:100-110 | Both link directions then describe the node followed by the old list. |
| Lru.LruCache.Unlink | internal/authn/lru.go:113-125 | Both link directions then describe the old list without the node. |
| Lru.LruCache.MoveToFront | internal/authn/lru.go:128-134 | Both link directions then describe the node followed by the others in their old order. |
| Lru.LruCache.EvictTail | internal/authn/lru.go:137-141 | The last node leaves the list and the map, and no other. |
| Lru.RecencyOrder | internal/authn/lru.go:39-141 | After any sequence of operations the entries are in order of last use, each with the value last put, and no more than the capacity. |
| Lru.EvictsLeastRecentlyUsed | internal/authn/lru.go:61-75 | What a full cache evicts is exactly the key used least recently in the whole history. |
| Denylist.RevokedNeverRenewed | internal/hubapi/public.go:275-300 | Every renewal of a leaf revoked before is refused, expired or not, if the list is read within the retention after the chain check. When a renewal proceeds is `RenewExactly`. |
| Denylist.RenewExactly | internal/hubapi/public.go:275-300 | A renewal proceeds if and only if the leaf is within the grace, is a client certificate signed by a CA of the bundle, both in force now or at the leaf's expiry, and is not listed; it is refused as revoked if and only if only the last fails. |
| Denylist.RecordedExactly | internal/hubapi/admin.go:459-482 | A given expiry is recorded as it is, a missing one as the longest lifetime from now, and the request is refused if and only if the one given has passed. |
| Denylist.RevokedExactly | internal/hub/prune.go:36-43 | That bound on the gap is exact: refusal over every history holds if and only if the gap is at most the retention. |
| Denylist.PruneRace | internal/hub/prune.go:36-43 | A history in which a handler a moment slower finds the entry pruned and proceeds. |
| Denylist.EntrySurvives | internal/hub/prune.go:36-43 | An entry stays on the list until retention plus grace past the leaf's own expiry, whatever is pruned or added. |
| Denylist.OmittedExpiryCovers | internal/hubapi/admin.go:459-482 | The expiry recorded when the operator gives none covers a leaf exactly when the leaf's lifetime or its issuer's ends within the lifetime now in force: always, if that has not been shortened. |
| Denylist.DefaultRevocationHolds | internal/hubapi/admin.go:459-482 | A leaf revoked without a given expiry, under a lifetime not shortened since it was signed, is never renewed. |
| RevocationCache.StalenessBound | internal/hub/tunnel.go:149-241 | A check that starts a cache lifetime plus one refresh after a revocation reports it, or the chain no longer verifies, for every interleaving of checks, refreshes, mutations and prunes. |
| RevocationCache.StalenessExactly | internal/hub/tunnel.go:149-241 | No check with successful reads that starts a given delay after a revocation misses it, in any run, if and only if the delay is at least a cache lifetime plus one refresh. |
| RevocationCache.RefreshExactly | internal/hub/tunnel.go:187-241 | Under the lock the store is asked if and only if the cache is a lifetime old, the list is fetched if and only if the epoch moved or there was none, and a failed read is a failed check. |
| RevocationCache.NeverFalselyRevoked | internal/hub/tunnel.go:149-180 | In every run a serial reported revoked has been on the denylist. |
| RevocationCache.KeepUnlapsed | internal/hub/tunnel.go:225-232 | The loop keeps exactly the serials of entries that have not lapsed. |
| RevocationCache.MissingFromCache | internal/hub/tunnel.go:187-241 | A serial absent from the cache was revoked after the epoch last confirmed, or its leaf has expired. |
| RevocationCache.RecentIsHonest | internal/hub/tunnel.go:149-180 | An answer from a recent enough cache is honest about every older revocation. |
| RevocationCache.AlwaysInv | internal/hub/tunnel.go:149-241 | The cache, its lock and all checks in flight agree with the store's history in every reachable state. |
| Bootstrap.FirstBootConverges | internal/hub/bootstrap.go:86-142 | Starting without a Secret, in every interleaving with crashes and leftover files, every replica that is ready holds exactly the certificate, key and pepper in the Secret. That replicas do get ready is `LeftAlone` and `AlwaysBootable`. |
| Bootstrap.UncontestedPersist | internal/hub/bootstrap.go:263-297 | In every run, a replica that persists while there is no Secret stores exactly the keypair and pepper it holds, and is ready with them. |
| Bootstrap.LeftAlone | internal/hub/bootstrap.go:86-142 | From any moment of any run a replica that boots is, left alone, ready within nine steps of its own, holding what the Secret then holds: its fields first, then what was on disk, then what was generated; no other replica is touched. |
| Bootstrap.BootsExactly | internal/hub/bootstrap.go:230-299 | For any Secret and any disk, a hub on its own can get ready if and only if the Secret is absent or says something, and Secret and disk do not leave half a CA or halves that do not match. |
| Bootstrap.AlwaysBootable | internal/ca/ca.go:153-190 | At every moment of every run from a settled Secret, that is the case if and only if the Secret says something, or there is none and the disk's halves match; with fresh disks the one exception is a key file its own torn creation left. |
| Bootstrap.LoserAdopts | internal/hub/bootstrap.go:273-289 | The loser of the creation is, in five steps of its own, ready with the winner's material on its disk. |
| Bootstrap.Creator | internal/hub/bootstrap.go:263-297 | A Secret that appears was created by one replica's persist, with exactly the paired material on its disk, and is never changed again. |
| Bootstrap.OneMaker | internal/hub/bootstrap.go:86-142 | From no Secret and fresh disks, whoever is ready runs with a CA and a pepper that one and the same replica generated and stored in one step. |
| Bootstrap.NothingReplaced | internal/hub/bootstrap.go:230-299 | From any Secret, in any run, no bootstrap write replaces a field that has a value, and the Secret never goes away. |
| Bootstrap.PartialDiverges | internal/hub/bootstrap.go:343-353 | From any Secret that lacks just the pepper or just the CA, a run in which the loser of the completion race is ready with its own. |
| Bootstrap.ConvergesExactly | internal/hub/bootstrap.go:320-364 | On fresh disks every ready replica agrees with the Secret in every run if and only if the Secret does not start out partial. |
| Bootstrap.StaysStuck | internal/ca/ca.go:153-190 | From half a CA, or halves that do not match, no replica ever becomes ready. |
| Bootstrap.CompleteData | internal/hub/bootstrap.go:333-347 | The merged data has the existing value wherever there is one and the generated value elsewhere; what was filled is exactly what was empty. |
| RateLimit.RateLimiter.Call | internal/mcptools/ratelimit.go:61-99 | The table and the answer are those of the token bucket; without a rate nothing changes; the wait given with a refusal is the shortest after which a call is admitted. |
| RateLimit.RateLimiter.EvictIdleLocked | internal/mcptools/ratelimit.go:105-111 | Exactly the buckets idle for over an hour go. |
| RateLimit.RateBound | internal/mcptools/ratelimit.go:61-111 | The calls of one key admitted in any window of at most an hour are at most the burst plus rate times window, whatever other keys do; without eviction, in any window. |
| RateLimit.AdmittedExactly | internal/mcptools/ratelimit.go:61-111 | A key whose calls never exceed the burst plus rate times window between any two of them has every call admitted, whatever other keys do and with or without eviction; without eviction, or where an hour earns every burst, only such a key has. |
| RateLimit.DrawExactly | internal/mcptools/ratelimit.go:83-98 | A call finds what was left plus rate times elapsed time, up to the burst; it is admitted if and only if that makes one token, and takes exactly one. |
| RateLimit.RateBoundAnyWindow | internal/mcptools/ratelimit.go:61-111 | The same in any window with eviction, when an hour earns every burst. |
| RateLimit.EvictionInvisible | internal/mcptools/ratelimit.go:101-111 | Then every call of every run is answered as if nothing were ever evicted. |
| RateLimit.EvictionInvisibleExactly | internal/mcptools/ratelimit.go:101-111 | Both hold if and only if an hour earns every key its burst. |
| RateLimit.Uncovered | internal/mcptools/ratelimit.go:101-111 | For any key an hour does not refill, a run that admits two bursts in too short a window. |
| RateLimit.RetryAfter | internal/mcptools/ratelimit.go:92-96 | A call at the end of the wait is admitted and none before it is. |
| RateLimit.DrawSound | internal/mcptools/ratelimit.go:83-98 | A draw never overdraws the bucket and conserves tokens against what was earned. |
| Transcripts.Transcript | internal/certproof/certproof.go:108-129 | The transcript is the tag and every field behind its length, refused exactly when a field is too large, in a buffer of exactly the size computed first. |
| Transcripts.RoundTrip | internal/certproof/certproof.go:108-129 | A decoder gives back the fields of every transcript, and decodes nothing else. |
| Transcripts.Injective | internal/certproof/certproof.go:108-129 | Equal transcripts have the same nonce, version, cluster and bindings, for any number of bindings. |
| Transcripts.Separated | internal/certproof/certproof.go:42-69 | An empty binding differs from an absent one, and a renewal transcript from every tunnel transcript. |
| Transcripts.UnboundedCollides | internal/certproof/certproof.go:80-88 | Without the field limit two different lists of fields share an encoding, the first at 2^32 bytes. |
| Labels.ParseClusterLabels | internal/config/labels.go:41-80 | The loop returns the labels of the pairs, or refuses at the first pair that is malformed or repeats a key. |
| Labels.FormatClusterLabels | internal/config/labels.go:84-97 | However the map is iterated, the text is the one rendering with keys in increasing order. |
| Labels.RoundTrip | internal/config/labels.go:41-97 | Parsing what is printed for a parsed map gives the same map, for every string the parser accepts. |
| Labels.RoundTripExactly | internal/config/labels.go:41-97 | Any map survives printing and parsing if and only if the parser could have produced it. |
| Labels.ParseGives | internal/config/labels.go:41-80 | Parsed maps have at most 32 well-formed keys and trimmed values without commas or control characters. |
| Labels.ParseExactly | internal/config/labels.go:41-80 | The parser reads a map from a string if and only if the string is blank and the map empty, or it is at most 32 pieces joined by commas that spell the map's entries, each once, in any order and with any space around keys and values. |
| Labels.ParsePairExactly | internal/config/labels.go:49-77 | A piece parses as a pair if and only if it is a well-formed key, an equals sign and a trimmed value without control characters, with any space around each. |
| Labels.ValidatedIsNotEnough | internal/config/labels.go:101-121 | A map the other check admits that does not survive. |
| Labels.RenderingIsUnique | internal/config/labels.go:84-97 | A map has one rendering. |
| Strings.SplitJoin | internal/config/labels.go:45-45 | Splitting joined pieces without commas gives the pieces. |
| Strings.JoinSplit | internal/config/labels.go:45-45 | Joining what splitting gives is the string. |
| Strings.TrimSpaceTrims | internal/config/labels.go:52-61 | Trimming leaves no space at either end, adds nothing, and leaves trimmed text alone. |
| Strings.TrimSpaceIs | internal/config/labels.go:52-61 | Trimming text between any amounts of space gives the text. |
| Strings.TrimSpaceCuts | internal/config/labels.go:52-61 | What trimming cuts off is space, at the two ends. |
| Strings.SortedIsUnique | internal/config/labels.go:91-91 | Strings in increasing order are determined by the set they make up. |
| Strings.SortSorts | internal/config/labels.go:91-91 | Sorting distinct strings orders them and keeps them. |
| Strings.SortAscends | internal/mcptools/fanout.go:804-808 | Sorting any strings orders them and keeps each as often as it was there. |
| Selection.SelectClusters | internal/mcptools/fanout.go:388-463 | Refused exactly when nothing matches or an untargeted query is too broad; otherwise every cluster asked for is queried or reported exactly once, with the right reason, and the clusters queried are the least ones whatever order the fleet was listed in. |
| Selection.Dedupe | internal/mcptools/guard.go:261-275 | Each name once, every name, in order of first occurrence. |
| Dispatch.EverySlotOnce | internal/mcptools/fanout.go:502-544 | For every number of workers, schedule and deadline, when dispatch returns each slot has been written exactly once, with its own target's outcome or with a timeout naming it if it was never handed out; without a deadline all were handed out. |
| Dispatch.AnsweredBy | internal/mcptools/fanout.go:502-544 | The outcome credited to a target is the one heard, in one step, by the worker that held it, and no other worker ever hears for that target. |
| Dispatch.BoundedConcurrency | internal/mcptools/fanout.go:514-515 | At every moment at most the configured number of targets are out with workers. |
| Dispatch.AlwaysReturns | internal/mcptools/fanout.go:502-544 | Every run has at most five steps per target and three more, and one that can go no further has returned. |
| Dispatch.NeverStuck | internal/mcptools/fanout.go:502-544 | No reachable state deadlocks. |
| Dispatch.StepKeeps | internal/mcptools/fanout.go:502-544 | Every step keeps each slot empty while its job is undecided and holding its own result after, and no job with two workers. |
| Coverage.AccountCoverage | internal/mcptools/fanout.go:779-822 | Each cluster is listed under an outcome exactly as often as it is among the results with that outcome, the counts are the lengths, the lists ascend, and complete holds exactly when something was requested and all of it answered. |
| Coverage.WithCounts | internal/mcptools/fanout.go:787-801 | Selecting the results of one outcome keeps each cluster exactly as often as it has that outcome. |
| Coverage.ReportIsHonest | internal/mcptools/fanout.go:338-343 | Answered, failed and timed out add up to the clusters asked for, and all answered means none was unknown, cut or withheld and every query succeeded. |
| Coverage.ReportOf | internal/mcptools/fanout.go:330-343 | The report of a returned dispatch, on any schedule: its counts add up to the clusters asked for; a cluster is listed as answered, failed or timed out if and only if it is a target whose own query came back so, never having been handed out counting as timed out and never having been dispatched as failed; and complete holds exactly when there were any and all were reachable, dispatched and answered. |

## Left out

- X.509 and PEM byte syntax, key generation and signature algorithms: certificates are records with a public key id, and a chain is one leaf; intermediates are not modelled.
- Sub-second times, clock skew between replicas and the reading of malformed start times beyond "unreadable".
- Hand edits of the CA Secret other than the rotate-now annotation: the run-level results start from a coherent steady Secret, and `repair.dfy` covers what polls do to any other one.
- Guarantees.AcceptedEverywhere: assumes no promotion passed its gate early because the old signer had already expired.
- Guarantees.NoLeafShortened: bounds each overshoot by one poll, as the runway's own comment does.
- Retirement.RunwaySuffices: is about unforced rotations; a forced one may start with any life left.
- Verifier.RefusalsAreTheStores: a refusal from the negative cache may be older than the call, by design, and is not claimed to fall within it. The failure limiter appears only as an outcome, and last-used times are not modelled.
- The credential verifier and the denylist cache are modelled as transition systems over their atomic sections and not as classes, because what is proved of them is about interleavings.
- RevocationCache.StalenessBound: assumes each refresh takes at most a bounded time; failed reads are answered as failures.
- Denylist.RevokedExactly: an expiry given by the operator may be shorter than the leaf's, and then nothing is promised.
- Bootstrap.FirstBootConverges: no rotation is in flight, and a certificate and key are a pair exactly when they were generated together. File modes, links and syncs are not modelled.
- RateLimit.RateLimiter.Call: the wait is a real number; the source truncates it to a nanosecond.
- RateLimit.RateBound: limits are fixed for the run and the clock does not go back.
- Labels.ParseClusterLabels: strings are code points, so input that is not UTF-8 is outside the model, and every refusal is one failure.
- Selection.SelectClusters: names in the report are not clipped, and labels are given by what they match.
- Rotator.IssuerTracker.Verify: the identity read out of a verified leaf is not modelled.
- Merging of fan-out rows, step selection and alignment, and rendering of results.
- Kubernetes, HTTP, MCP and tunnel plumbing, configuration loading, metrics and logging.
- The operator API other than the recorded expiry of a revocation, enrollment, and scopes.
