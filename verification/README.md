# A verified model of a hand-written xDS control plane

This Dafny project models three parts of the control planes of chapters 2, 4, 5 and 6 and proves what
they promise over whole runs.

**Delta xDS (chapters 4 and 5).** A stream keeps the subscriptions of its client, a record `sent` of
the versions it has told it, and a nonce counter. `DeltaModel` states one send and one request as
functions on values, over a `Dialect`: `Exact` is chapter 4, `Glob` is chapter 5, where a trailing `*`
selects by prefix. `DeltaSelection` says what a subscription brings its client, in these terms alone.
`DeltaServer` holds the stream loop as a class that updates its maps in loops and is
proved to compute those functions in whatever order the hash maps are walked. `DeltaReplica` puts the
stream, its client, the two message queues and the watch channel into one system of atomic steps, in
which any snapshot may be published between any two steps, also between two sends of the watch arm.
`DeltaSettling` shows that the exchange of responses and replies ends.
The other streams and the admin API are that environment. Chapter 5 itself never publishes a second
snapshot; its theorems do not rely on that.

**State of the World with rollback (chapter 2).** `SotwModel` and `SotwServer` are the same pair for
chapter 2. `SotwPlane` is the system of all streams, all clients and the admin API, at the grain of
single atomic actions: `push_good` is three steps and a rollback is two, so they can overtake each
other. `SotwRollback` and `SotwHealing` show that rollbacks end and what they end in, and `SotwContents`
what the responses say.

**ORCA (chapter 6).** `OrcaModel` and `OrcaControl` turn load reports into endpoint weights, over the
real numbers; `OrcaRace` takes the observations of several backends apart into atomic actions.

A resource body is modelled by the message it encodes. The order of a hash map is unknown: a response
is specified by the map of its resources and the set of its removed names, and its lists are proved to
name each of them once, in the order of the names in chapter 5. Counters are unbounded.

The client replies to each response with an ACK, a NACK or nothing, and its requests may come at any time.
Its replica keeps a resource until a response names it as removed. A client declares what it
holds on its first request for a type only; `DeltaLedger.LateDeclaration` says exactly when a later
declaration, which the server merges as well, does no harm.

Where the code does less than a reader may expect, the project gives an input and the exact condition.

- `sent` records what was told. A client that forgets a resource as it unsubscribes is at rest without it
  just when no response named it since (`DeltaClients.DroppedOnUnsubscribeIsLost`; a run is
  `DeltaClients.BackAndForthLosesIt`). A client that rejects responses agrees with the snapshot just when the
  last response about the name that it took says what the last one says, so after one rejection just when
  the name came up again (`DeltaClients.WhatWasTakenDecides` and `DeltaClients.RejectedUntilNamedAgain`; a run
  is `DeltaClients.RefusalIsForGood`).
- Overlapping bumps in chapter 4 can leave an older route advertised: just when the number published last is
  not the largest (`Chapter4Race.NewestIsAdvertised`; a run is `Chapter4Race.OvertakenBump`).
- Overlapping pushes and rollbacks in chapter 2 can leave an older snapshot as the rollback target of a newer
  good one. With no push under way, the two are in order just when the last write came in turn
  (`SotwDiscipline.LastWriteDecides`; a run is `SotwDiscipline.OverlappingPushes`).
- Overlapping ORCA reports can publish outdated weights last. The weights are right just when the last report
  of each backend that the last publisher missed weighs as what it published
  (`OrcaRace.MissedReportsDecide` and `OrcaRace.OneMissedEach`; a run is `OrcaRace.OvertakenReportIsLost`).
- An ORCA push can leave all weights as they were: just when both readings are at one end of the range, or
  the first one is close to half (`OrcaModel.NoPushIsWasted`; an input is `OrcaModel.ClampedPushIsWasted`).
- The comment in chapter-02/controlplane/src/snapshot.rs:106-107 says that nonces tell pushes apart across
  rollbacks. They carry only type and version, so two pushes of a stream have one nonce just when they send
  the same version of a type again (`SotwNonces.NoncesNameContents`; a run is
  `SotwNonces.RollbackRepeatsNonce`).

## Model

| member | source | states |
|---|---|---|
| `DeltaReplica.ReplicaIsSent` | chapter-04/controlplane/src/main.rs:114-207 | in every run, for each subscribed type, the replica after the responses in flight is exactly `sent`, names and versions, under any interleaving of requests, NACKs, publications and deliveries |
| `DeltaReplica.ConvergedInFlight` | chapter-04/controlplane/src/main.rs:194-205 | in every run, once a stream has seen the last change and a type is not still to be pushed, the replica after the responses in flight agrees with the advertised snapshot on every matching name, in presence and version |
| `DeltaReplica.ConvergedAtRest` | chapter-05/controlplane/src/main.rs:123-204 | in every run, with no unseen change and nothing in flight, the client has the advertised version of every name it subscribes to, globs included, and lacks what the snapshot lacks |
| `DeltaReplica.TraceDiscipline` | chapter-04/controlplane/src/main.rs:235-273 | in every run nonces differ, and two sends of one version of a resource are separated by its removal or another version |
| `DeltaReplica.NoncesNameTypes` | chapter-04/controlplane/src/main.rs:270-271 | in every run the i-th response has the nonce `lds-`, `rds-`, `cds-` or `eds-`, by its type URL, followed by a numeral that reads as i |
| `DeltaReplica.RunInv` | chapter-04/controlplane/src/main.rs:121-204 | the books, the queues, the client and the watch state keep their invariants over any sequence of events |
| `DeltaSelection.WildcardGetsAll` | chapter-04/controlplane/src/main.rs:229-233 | in every run a quiet client with a wildcard subscription holds exactly the names of the last publication, each at its version |
| `DeltaSelection.CollectionGetsAll` | chapter-05/controlplane/src/main.rs:226-238 | in every run of chapter 5 a quiet client that subscribes to `p*` holds, of the names that start with p, exactly those of the last publication, each at its version |
| `DeltaSelection.NameArrives` | chapter-04/controlplane/src/main.rs:229-233 | in every run a quiet client that subscribes to a name has it if and only if the last publication does, at its version |
| `DeltaSelection.NothingUnasked` | chapter-05/controlplane/src/main.rs:226-261 | in every run each response is about nothing but names that the subscription at that step lists, or has under a listed prefix, or any with the wildcard |
| `DeltaSelection.AdvertisedIsLastPublished` | chapter-04/controlplane/src/main.rs:54-59 | in every run the watch cell holds the last publication, and counts each |
| `DeltaModel.MatchesIsSelected` | chapter-05/controlplane/src/main.rs:68-79 | the test selects a name if and only if the wildcard is on, the name is listed, or in chapter 5 a listed `p*` has it under its prefix |
| `DeltaConvergence.BodiesConverge` | chapter-04/controlplane/src/main.rs:239-247 | if all publications agree on what a version means, the client at rest holds the advertised resources, bodies included |
| `DeltaSettling.WorkDecreases` | chapter-04/controlplane/src/main.rs:121-204 | from any reachable state every step of the stream or its client decreases a natural number, also a client's ACK or NACK of a response and the answer the server may give to it |
| `DeltaSettling.NoEndlessExchange` | chapter-04/controlplane/src/main.rs:121-204 | from any reachable state there is no endless run of stream and client steps, whatever the client acknowledges, rejects or leaves without a reply |
| `DeltaSettling.RestIsStuck` | chapter-04/controlplane/src/main.rs:124-204 | a stream is at rest if and only if no step of it or its client, replies included, is possible |
| `DeltaSettling.RunsConverge` | chapter-04/controlplane/src/main.rs:121-204 | for every way of replying, every run can be continued to rest by stream and client steps alone, and there the client has the advertised version of every name it subscribes to |
| `DeltaClients.ResubscribeResends` | chapter-04/controlplane/src/main.rs:154-159 | a name subscribed to again is sent if and only if the version last sent is not the current one |
| `DeltaClients.DroppedOnUnsubscribeIsLost` | chapter-04/controlplane/src/main.rs:157-159 | over every run, a client that forgets the names it gives up, exact, by collection or by wildcard, agrees with the snapshot at rest on a name it subscribes to if and only if the snapshot lacks it or a response named it since the last request that gave it up |
| `DeltaClients.BackAndForthLosesIt` | chapter-04/controlplane/src/main.rs:154-159 | subscribing to a name, a collection or the wildcard, unsubscribing and subscribing again ends at rest with such a client lacking a resource it is subscribed to |
| `DeltaClients.RejectedIsNotResent` | chapter-04/controlplane/src/main.rs:136-143 | in every run, after a NACK of the last response about a name, the next request brings the name up again if and only if the snapshot disagrees with what was rejected |
| `DeltaClients.NackIsForgotten` | chapter-04/controlplane/src/main.rs:136-143 | after a NACK, an ACK leaves the stream as it was before both if and only if the type is synced with the snapshot |
| `DeltaClients.WhatWasTakenDecides` | chapter-04/controlplane/src/main.rs:136-143 | in every run, a client that rejected any set of responses, kept what it had and read them all agrees with the advertised snapshot on a name if and only if the last response about it that it took, or its start if none, says what the last response about it says |
| `DeltaClients.RejectedUntilNamedAgain` | chapter-04/controlplane/src/main.rs:136-143 | in every run, a client that rejected a response about a name, kept what it had and read the rest agrees with the advertised snapshot if and only if a later response was about the name |
| `DeltaClients.PickyIsReplayBut` | chapter-04/controlplane/src/main.rs:136-143 | in every run, the client that keeps what it had whenever it replies with a NACK is such a client |
| `DeltaClients.RefusalIsForGood` | chapter-04/controlplane/src/main.rs:136-143 | subscribing and rejecting the answer ends at rest with the client lacking what the snapshot has |
| `DeltaDiff.ExactDifference` | chapter-05/controlplane/src/main.rs:240-272 | a response goes out if and only if some matching name disagrees; it lists exactly the disagreeing names, changed as resources and vanished as removed, never both; a second call sends nothing |
| `DeltaDiff.ToldAfterSend` | chapter-04/controlplane/src/main.rs:263-268 | after a send, matching names are recorded as the snapshot has them and the others are untouched |
| `DeltaDiff.SyncedIsSilent` | chapter-04/controlplane/src/main.rs:259-261 | a send leaves the stream as it is if and only if the type is synced with the snapshot |
| `DeltaDiff.CoalescingLosesNothing` | chapter-04/controlplane/src/main.rs:194-205 | over all types, any series of watch turns ending in snapshot S leaves the same `sent` and subscriptions as one turn with S, whatever the orders of the loops |
| `DeltaLedger.CoalescedReplica` | chapter-04/controlplane/src/main.rs:194-205 | any series of watch turns ending in snapshot S leaves the drained replica with the same names and versions as one turn with S |
| `DeltaBodies.CoalescedBodies` | chapter-04/controlplane/src/main.rs:194-205 | and with the same resources, bodies included, when all snapshots agree on what a version means |
| `DeltaLedger.LedgerSend` | chapter-04/controlplane/src/main.rs:220-289 | a send keeps `sent` equal to the replay of the log, the nonces numbered and every resource and removal news to the client |
| `DeltaLedger.LedgerRequest` | chapter-04/controlplane/src/main.rs:136-191 | a request, if it is a NACK or declares truthfully, keeps `sent` equal to the replay of the log and the log in order |
| `DeltaLedger.LateDeclaration` | chapter-04/controlplane/src/main.rs:146-149 | initial versions on a later request keep `sent` equal to the replica if and only if they repeat it |
| `DeltaLedger.ResendsAreSeparated` | chapter-04/controlplane/src/main.rs:237-249 | between two sends of one version there is a contradicting response |
| `DeltaLedger.NoncesDiffer` | chapter-04/controlplane/src/main.rs:270-271 | no nonce of a stream is used twice |
| `DeltaLedger.ReconnectEqualsFreshStart` | chapter-04/controlplane/src/main.rs:145-149 | with the same requests and snapshots, a stream opened with truthful initial versions and one opened with none end with the same versions of all matching names |
| `DeltaBodies.ReconnectedBodies` | chapter-04/controlplane/src/main.rs:145-149 | with the same requests and snapshots, reconnecting with truthful initial versions and starting with none end with the same resources, bodies included: those of the snapshot last compared to |
| `DeltaLedger.ReconnectSkipsWhatIsCurrent` | chapter-04/controlplane/src/main.rs:235-249 | the first answer contains a subscribed name if and only if the version held is not the current one |
| `DeltaHistory.SubscriptionsFollowHistory` | chapter-04/controlplane/src/main.rs:136-167 | a name is subscribed to if and only if its last mention was a subscribe; the wildcard is on if and only if the last `*` was a subscribe, or there was none and the first request named nothing |
| `DeltaHistory.RunIsHistory` | chapter-04/controlplane/src/main.rs:121-204 | the server's side of every run is such a history of possible exchanges, over the client's requests and replies in their order |
| `DeltaHistory.RunFollowsHistory` | chapter-04/controlplane/src/main.rs:136-167 | so in every run the subscriptions are those last mentioned in the requests answered |
| `DeltaHistory.AnsweredAsWished` | chapter-04/controlplane/src/main.rs:150-167 | in every run, when no request is waiting, the subscription is what the series of the client's requests asks for |
| `DeltaServer.WantedGlob` | chapter-05/controlplane/src/main.rs:226-238 | the expanded, sorted and deduplicated list is strictly ordered, and of the snapshot's names it has exactly those that the wildcard, a listed name or a listed `p*` selects |
| `DeltaServer.WantedExact` | chapter-04/controlplane/src/main.rs:229-233 | chapter 4's list has each name once, and of the snapshot's names exactly those listed, or all with the wildcard |
| `DeltaServer.NamesWithPrefix` | chapter-05/controlplane/src/snapshot.rs:124-135 | exactly the names of the type with the prefix |
| `DeltaServer.Additions` | chapter-05/controlplane/src/main.rs:242-254 | one resource for each wanted name whose version differs from the one told, in the order of the list |
| `DeltaServer.Removals` | chapter-05/controlplane/src/main.rs:256-261 | each matching name told that the snapshot lacks, once |
| `DeltaServer.Record` | chapter-05/controlplane/src/main.rs:267-272 | the record after inserting the resources and dropping the removed names |
| `DeltaServer.DeltaStream.SendDelta` | chapter-05/controlplane/src/main.rs:216-293 | the stream moves as the specified send; at most one response goes out, well formed, with the type and system version, each resource as the snapshot has it, removed only names that it lacks, and the next nonce |
| `DeltaServer.DeltaStream.OnRequest` | chapter-04/controlplane/src/main.rs:136-191 | the inbound arm moves the stream as the specified request |
| `DeltaServer.DeltaStream.OnChanged` | chapter-04/controlplane/src/main.rs:194-205 | the watch arm sends each subscribed type once, in some order |
| `DeltaDialects.WatchArmIsARun` | chapter-04/controlplane/src/main.rs:194-205 | that loop is a run of the system's atomic steps |
| `DeltaDialects.GlobExtendsExact` | chapter-05/controlplane/src/main.rs:226-238 | over any run whose requests name no glob, chapters 4 and 5 go through equal states: subscriptions, records, responses, nonces, replicas |
| `Chapter4Snapshot.VersionTellsBody` | chapter-04/controlplane/src/snapshot.rs:79-102 | for one upstream address, equal version if and only if equal body, and the route's versions tell its numbers apart |
| `Chapter4Snapshot.BumpsConverge` | chapter-04/controlplane/src/snapshot.rs:191-222 | whatever bumps are published in whatever order, the client at rest holds the advertised resources, bodies included |
| `Chapter4Snapshot.HeaderIsVersion` | chapter-04/controlplane/src/snapshot.rs:191-222 | whatever bumps are published, a quiet client that selects the route holds the one published last, and its header announces the version it is held at |
| `Chapter4Snapshot.OneBumpOneResource` | chapter-04/controlplane/src/main.rs:54-59 | from a synced stream, coalesced bumps yield one response with the route alone if it is wanted, else none |
| `Chapter4Snapshot.Build` | chapter-04/controlplane/src/snapshot.rs:79-102 | the inserts give a snapshot with one resource of each type under its name and version, that lead from the Listener to exactly the upstream address, and whose route announces its own version |
| `Chapter4Snapshot.GraphIsClosed` | chapter-04/controlplane/src/snapshot.rs:153-263 | each resource is filed under its own type and name, and what it refers to is in the snapshot |
| `Chapter4Snapshot.Control.Bump` | chapter-04/controlplane/src/main.rs:54-59 | run in one piece, from any state, a bump advertises such a snapshot of the next route version |
| `Chapter4Race.NewestIsAdvertised` | chapter-04/controlplane/src/main.rs:54-59 | over any interleaving of bumps, the newest route is advertised if and only if its number was published last; with no bump under way, if and only if no number published is larger than the last |
| `Chapter4Race.OvertakenBump` | chapter-04/controlplane/src/main.rs:54-59 | two overlapping bumps after which the older route is advertised |
| `Chapter5Snapshot.XdstpIsInjective` | chapter-05/controlplane/src/snapshot.rs:65-71 | without `/` in authority and proto type, two names are equal if and only if all three parts are |
| `Chapter5Snapshot.CollectionsAreSeparated` | chapter-05/controlplane/src/snapshot.rs:124-135 | a collection selects a name if and only if authority and type are its own, whatever the id contains |
| `Chapter5Snapshot.BuiltCollections` | chapter-05/controlplane/src/snapshot.rs:99-115 | of the built snapshot the Listener and Route collections belong to `hardway` alone, the Cluster and Endpoint collections to `edge` alone |
| `Chapter5Snapshot.GraphIsClosed` | chapter-05/controlplane/src/snapshot.rs:178-279 | from the Listener a client finds route, cluster and endpoints by the xdstp names it meets |
| `Chapter5Snapshot.Build` | chapter-05/controlplane/src/snapshot.rs:99-115 | the inserts give a snapshot with one resource of each type under its xdstp name, that lead from the Listener to exactly the upstream address |
| `SotwPlane.StreamsNeverLag` | chapter-02/controlplane/src/main.rs:139-183 | in every run a stream without unseen change has sent each subscribed known type at the advertised version, and never one version twice in a row |
| `SotwPlane.RollbackTargetIsGood` | chapter-02/controlplane/src/main.rs:62-82 | in every interleaving `last_good` is not broken, and each version names one snapshot |
| `SotwPlane.SkipMeansSent` | chapter-02/controlplane/src/main.rs:209-227 | a skipped push means that exactly this content was the last response of the type |
| `SotwContents.ResponsesCarryIssued` | chapter-02/controlplane/src/snapshot.rs:99-111 | in every run each response carries exactly the one resource that a snapshot issued under its version has of its type, and its nonce names type and version |
| `SotwContents.AdvertisedIsUsable` | chapter-02/controlplane/src/snapshot.rs:84-97 | in every run the advertised snapshot and the rollback target have one resource of each type, that lead from the Listener over route and cluster to exactly the upstream address; the stat prefix is missing if and only if it was built broken |
| `SotwContents.HealedClientsReachUpstream` | chapter-02/controlplane/src/main.rs:141-183 | after healing, what each stream subscribed to all four types sent last leads its client from a Listener it accepts to the upstream address |
| `SotwPlane.RunInv` | chapter-02/controlplane/src/main.rs:124-185 | control state and streams keep their invariants over any sequence of atomic actions |
| `SotwNonces.NoncesNameContents` | chapter-02/controlplane/src/snapshot.rs:99-111 | in every run, two responses of a stream have one nonce if and only if they are of one type and version, and then they are equal |
| `SotwNonces.RollbackRepeatsNonce` | chapter-02/controlplane/src/snapshot.rs:106-108 | a broken push, its rejection and the rollback: the stream sends `lds-v1` twice |
| `SotwPlane.FreshSubscribeKeepsUp` | chapter-02/controlplane/src/main.rs:139-170 | of the requests for a type never sent, exactly a fresh subscribe keeps an up-to-date stream up to date |
| `SotwModel.OnlyListenersAreRejected` | chapter-02/controlplane/src/snapshot.rs:72-97 | a response of a known type is rejectable if and only if it is the Listener of a broken snapshot, and carries resources of its type only |
| `SotwRollback.RejectRun` | chapter-02/controlplane/src/main.rs:141-153 | in every run, while a broken snapshot that a stream has sent is advertised, a rejection by its strict client is on its way |
| `SotwHealing.InternalStepsRunDown` | chapter-02/controlplane/src/main.rs:124-185 | every step of a stream or a client decreases a well-founded measure, whatever the client rejects |
| `SotwHealing.NoEndlessExchange` | chapter-02/controlplane/src/main.rs:124-185 | from any reachable state there is no endless run of stream and client steps |
| `SotwHealing.HealedAtRest` | chapter-02/controlplane/src/main.rs:141-183 | when no step is left and one strict client is subscribed to Listeners, the advertised snapshot is good and every stream last sent each subscribed known type at its version |
| `SotwDiscipline.HealedToLastGood` | chapter-02/controlplane/src/main.rs:141-183 | if handlers do not overlap, that snapshot is `last_good` |
| `SotwDiscipline.HandlersAreDisciplined` | chapter-02/controlplane/src/main.rs:68-82 | handlers that do not overlap keep the advertised snapshot the last good one, or a broken one with a larger number |
| `SotwDiscipline.LastWriteDecides` | chapter-02/controlplane/src/main.rs:62-82 | at the end of every run with no push under way, under any interleaving, the advertised snapshot is the last good one or a newer broken one if and only if the last write was of the version stored last, of a newer broken one, or a rollback to the one stored last |
| `SotwDiscipline.PublishIsDisciplined` | chapter-02/controlplane/src/main.rs:68-82 | exactly when a publication leaves the advertised snapshot the last good one or a newer broken one |
| `SotwDiscipline.RollbackIsDisciplined` | chapter-02/controlplane/src/main.rs:149-151 | exactly when a re-advertisement leaves it so |
| `SotwDiscipline.StoreIsDisciplined` | chapter-02/controlplane/src/main.rs:71 | exactly when storing the rollback target leaves it so |
| `SotwDiscipline.OverlappingPushes` | chapter-02/controlplane/src/main.rs:68-74 | two overlapping good pushes that break it |
| `SotwServer.Control.PushGood` | chapter-02/controlplane/src/main.rs:68-74 | both slots take a snapshot of the next version that leads from an acceptable Listener to exactly the upstream address |
| `SotwServer.Control.PushBroken` | chapter-02/controlplane/src/main.rs:76-82 | only the advertised slot takes a snapshot of the next version, which is the same but for the missing stat prefix |
| `SotwServer.SotwStream.PushIfNew` | chapter-02/controlplane/src/main.rs:209-227 | one response goes out with what the snapshot has of the type, and its version is noted, if and only if the snapshot has the type and its version is not the one last sent; else nothing changes |
| `SotwModel.RequestSends` | chapter-02/controlplane/src/main.rs:139-170 | a request sends its type if and only if it is a fresh subscribe and the version is not the one last sent; an ACK or a NACK sends nothing |
| `SotwServer.SotwStream.OnRequest` | chapter-02/controlplane/src/main.rs:136-170 | the inbound arm, with the re-advertisement on a NACK |
| `SotwServer.SotwStream.OnChanged` | chapter-02/controlplane/src/main.rs:175-183 | the watch arm pushes each subscribed type once, in some order |
| `SotwServer.WatchArmPushes` | chapter-02/controlplane/src/main.rs:177-182 | it brings the visited types to the snapshot's version, each with at most one response that carries what the snapshot has of its type, and none that was there already |
| `SotwServer.WatchArmIsARun` | chapter-02/controlplane/src/main.rs:175-183 | that loop is a run of the system's atomic steps |
| `SotwServer.BuildSnapshot` | chapter-02/controlplane/src/snapshot.rs:84-97 | the inserts give a snapshot of the version with one resource of each type, that lead from the Listener to exactly the upstream address, and the stat prefix unless broken |
| `OrcaModel.WeightsFollowReports` | chapter-06/controlplane/src/main.rs:56-86 | over every sequence of reports the advertised weights are those of the stored readings, 500 for an unreported host, within 10..1000 and within 1 of the weight of the latest reading |
| `OrcaModel.VersionCountsPushes` | chapter-06/controlplane/src/main.rs:73-98 | over every sequence of reports the version is one more than the number of pushes, and each backend is advertised in order with its address and the weight of its stored reading |
| `OrcaModel.NoPushIsWasted` | chapter-06/controlplane/src/main.rs:56-71 | after any reports, one more changes the endpoints of its host, and no others, if and only if it is pushed and the readings are not both at one end of the range, or a first reading close to half; a report that is not pushed changes nothing |
| `OrcaModel.InRangePushesCount` | chapter-06/controlplane/src/main.rs:56-71 | for readings in [0, 0.99], after a host's first reading, a report is pushed if and only if it changes the host's weight |
| `OrcaModel.LighterBackendWeighsMore` | chapter-06/controlplane/src/main.rs:104-109 | over every sequence of reports, of two hosts whose latest readings are 0.002 apart the lighter never weighs less, and it weighs more from 0.003 on unless both are at one end |
| `OrcaModel.MovedReadings` | chapter-06/controlplane/src/main.rs:105-109 | readings 0.001 apart weigh the same if and only if both are at most 0.0005 or both above 0.9895 |
| `OrcaModel.CloseReadings` | chapter-06/controlplane/src/main.rs:105-109 | readings less than 0.001 apart have weights within 1 |
| `OrcaModel.WeightIsNearest` | chapter-06/controlplane/src/main.rs:105-109 | within [0, 0.99] the weight is the whole number nearest to 1000 times the headroom, below 1000 and above 10 |
| `OrcaModel.WeightRange` | chapter-06/controlplane/src/main.rs:105-109 | every weight lies in 10..1000 |
| `OrcaModel.ClampedPushIsWasted` | chapter-06/controlplane/src/main.rs:106-109 | an input for the other case: from 1.2 to 1.5 a push leaves all weights as they were |
| `OrcaRace.UndisturbedIsAtomic` | chapter-06/controlplane/src/main.rs:56-102 | the three atomic actions of `observe`, run without being overtaken, are the specified observation |
| `OrcaRace.MissedReportsDecide` | chapter-06/controlplane/src/main.rs:56-98 | over any run of those actions, the advertised weights are those of the stored readings if and only if, for each backend, the last report stored after the last publisher computed weighs as what it computed; so they are if there was none |
| `OrcaRace.OneMissedEach` | chapter-06/controlplane/src/main.rs:56-98 | with at most one report missed by the last publisher for each backend, the advertised weights are right if and only if each missed report stays at its end of the range or is a first one close to half |
| `OrcaRace.InRangeMissIsWrong` | chapter-06/controlplane/src/main.rs:56-98 | for readings in [0, 0.99], and at most one report missed by the last publisher for each backend, not its first, the advertised weights are right if and only if no report was missed |
| `OrcaRace.LastToDraftSettles` | chapter-06/controlplane/src/main.rs:56-98 | when all tasks are done, no report was missed if and only if the last publisher computed from as many reports as the last to compute, and then the weights are right |
| `OrcaRace.OvertakenReportIsLost` | chapter-06/controlplane/src/main.rs:56-98 | a run of two overlapping reports after which an idle backend keeps the weight of an unreported one |
| `OrcaControl.Control.Observe` | chapter-06/controlplane/src/main.rs:56-71 | the control state moves as the specified observation |
| `OrcaControl.Control.RecomputeAndPush` | chapter-06/controlplane/src/main.rs:73-102 | the weights of the stored readings are advertised under the next version |
| `Text.LeIsLexicographic` | chapter-05/controlplane/src/main.rs:237 | the order of names is the lexicographic one |
| `Text.SortDedup` | chapter-05/controlplane/src/main.rs:237-238 | sorting and deduplicating gives a strictly ordered list of the same names |
| `Text.DecimalRoundTrip` | chapter-04/controlplane/src/snapshot.rs:90 | a rendered counter reads back, so versions and nonces name their numbers |

## Left out

- gRPC, HTTP, tokio plumbing, admin routing, logging and configuration files: I/O without protocol state.
- The protobuf encoding: a body is the message it encodes, with the fields the builders vary or that name other resources.
- Chapters 1 and 3: a frozen snapshot, and chapter 2 without rollback plus certificate generation by a library.
- The stream loop of chapter 6: that of chapter 2 without the rollback.
- DNS retries, reconnection of the ORCA client, the choice between application and CPU utilization, and the upstream servers.
- The channel capacity of 16 and failed sends: queues are unbounded, and a failed send only ends its stream. Streams do not close while others go on, so `HealedAtRest` needs the rejecting client to stay.
- Floating point in chapter 6: readings and weights use real arithmetic, so NaN and rounding at exact boundaries are not covered.
- Counter wrap-around at 2^64.
- `Chapter4Snapshot.Control.Bump`: stated for one bump in one piece; `Chapter4Race.NewestIsAdvertised` says what overlapping ones end in, and the theorems about streams hold for any publications.
- `OrcaModel.WeightsFollowReports`: stated for observations that do not overlap; `OrcaRace.MissedReportsDecide` says what holds when they do.
- `OrcaRace.MissedReportsDecide`: numbering a version and sending it are one action there.
