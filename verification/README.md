# Signal Desktop: a verified model of its stateful core

This project models six components of Signal Desktop in Dafny and proves what their code relies on.
Operations that the program performs by changing fields or local tables step by step are methods and
classes here; each is proved against a function on values, and the theorems are about those functions,
over all inputs, all runs and all schedules.

**Zones and session transactions** (`Zones`, `Transactions`, `ZoneStore`, `ZoneMachine`, `ZoneRuns`,
`ZoneWrites`, `ZoneLate`).
`withZone` is a re-entrant lock with a queue; writes made in a zone wait in pending tables until its
outermost user leaves. `ZoneMachine` is the protocol as the event loop runs it: a step is what happens
between two awaits, so a commit is two steps and other calls may come in between. `ZoneRuns` proves the
transaction guarantees for runs in which the database answers at once, that such runs are runs of the
machine, what the two-step commit lets through, and that one rejected outermost commit is final; `ZoneWrites`
says which writes wait and which are in the database at once, and `ZoneLate` exactly what is pending in every
state of every run.

**Identity keys** (`Identities`, `IdentityLaws`). Saving, approving, verifying and syncing of identity
keys, with runs in any order, and what each step makes of a record and of the trust in a key.

**Groups** (`Dicts`, `GroupDetails`, `GroupApply`, `GroupAttributes`, `GroupEffects`, `GroupFates`, `GroupKeys`,
`GroupRecords`, `GroupRuns`, `GroupDiff`, `GroupDiffLaws`, `GroupDiffMessages`, `GroupTold`, `GroupLog`,
`GroupReplay`, `GroupStates`, `JoinRequests`, `Bounces`, `Bans`). Applying a decrypted group change in the source's
order of loops, in closed form, and for each single person and attribute; the details and messages that tell a
change of state, and that they are true; integrating a log of changes and states; folding of repeated join
requests; bans within a limit.

**Attachments** (`SizeBucket`, `Ciphers`, `Transforms`, `DecryptPipeline`, `EncryptPipeline`, `Tampering`). The stream
transforms with their buffers, the two pipelines made of them, and the one-shot forms they must agree with.
Ciphers and hashes are parameters; the laws asked of them are in `Ciphers.Lawful`.

**Contacts** (`Contacts`, `ContactMerge`, `ContactMergeLaws`, `ContactMergeOutcome`, `ContactMergeRuns`,
`ContactMergeExact`, `ConflictSweep`). The merge of contacts found by ACI, phone number and PNI, with the lookup tables, and the
sweep that leaves one conversation for each V2 group id.

**Challenges** (`Challenges`, `ChallengeHandlers`, `ChallengeLaws`, `ChallengeEffects`). Registrations, timers, pending queue
starts and solving, as a machine over the handler's events.

`Options`, `ServiceIds` and `Dicts` hold the values that several components share.

## Where the code does not do what it seems to promise

Each of these is proved, with the exact condition under which the code is right.

- A rejected outermost commit never leaves its zone: no waiter is ever woken again
  (`ZoneRuns.RejectedCommitIsFinal`, `ZoneRuns.ReleasableIff`).
- A body of the same zone that stores while the outermost commit is in flight leaves its write pending in a
  free zone, where the next user may discard it (`ZoneRuns.LateStoreIsLost`); a free zone is clean exactly when
  there was no such store (`ZoneLate.FreeZoneIsCleanIff`).
- While a commit is in flight its writes cannot be read (`ZoneRuns.CommitHidesWrites`).
- Two join request messages are merged when either of them, not both, has a single detail, and the other
  details are lost (`JoinRequests.MergeKeepsMeaningIff`, `JoinRequests.AppendKeepsMeaningIff`).
- A group change without a version is not compared with the revision and takes any group back to revision 0
  (`GroupReplay.LowersRevisionIff`, `GroupReplay.VersionlessChangeRewinds`).
- Promoting a PNI or a join request can leave a member on the list of invitations (`GroupRuns.ApartIff`).
- A full state records who added us only if no other member was known, because the test for a previous
  membership of ours compares with `!==` (`GroupReplay.RecordsAdderIff`, `GroupReplay.AdderCanBeMissed`).
- The first message about a group cannot be made when we were and are a member of a group without a revision
  (`GroupDiffMessages.ThrowsIff`).
- A contact whose service id is one PNI and whose PNI is another can lose the PNI it was found by
  (`ContactMergeOutcome.MergeContactsOutcome`, `ContactMergeOutcome.PniCanBeStranded`).
- A digest is compared only as far as the other side sent it (`Ciphers.VerifyDigest`); streaming and one-shot
  decryption agree only for digests of full length (`DecryptPipeline.DecryptAttachmentV2`).
- A ciphertext whose first chunk is shorter than the iv cannot be streamed (`EncryptPipeline.StreamRoundTrip`).
- Streaming encryption pads an empty or incomplete file differently (`EncryptPipeline.StreamEqualsOneShotIff`).
- When only expired challenges are stored, loading leaves them stored (`ChallengeLaws.LoadSyncsIff`); when
  a registration is interrupted while its challenge is stored, a timer or a start may be left for nobody
  (`ChallengeLaws.ResumedRegistrationIff`, `ChallengeLaws.ResumedStartIff`,
  `ChallengeLaws.InterruptedRegistration`).
- Saving attributes with a new key and no status keeps a verified mark, and nothing else carries it over to
  another key (`IdentityLaws.AttributesCarryTheMark`, `IdentityLaws.VerifiedIsVouched`).

## Model

| member | source | states |
|---|---|---|
| `Zones.LeaveHandsOver` | ts/SignalProtocolStore.ts:1249-1292 | when the last user leaves, exactly the longest run of waiters of one zone at the head of the queue enters, none of them queues again, and the next waiter is of another zone |
| `ZoneStore.SignalProtocolStore.constructor` | ts/SignalProtocolStore.ts:276-286 | a new store is free, has nothing pending, and its caches are the database's tables |
| `ZoneStore.SignalProtocolStore.WithZone` | ts/SignalProtocolStore.ts:1113-1144 | a call enters at once unless another zone is current; otherwise it goes to the end of the queue and nothing else changes |
| `ZoneStore.SignalProtocolStore.EnterZone` | ts/SignalProtocolStore.ts:1237-1247 | the depth counts users, and the first one makes its zone current |
| `ZoneStore.SignalProtocolStore.LeaveZone` | ts/SignalProtocolStore.ts:1249-1292 | the last user frees the zone and lets in the head run of the queue, in order, with the lock invariant kept |
| `ZoneStore.SignalProtocolStore.RunCallbacks` | ts/SignalProtocolStore.ts:1289-1291 | waking waiters one after the other enters all of them and queues none again |
| `ZoneStore.SignalProtocolStore.BeginCommit` | ts/SignalProtocolStore.ts:1165-1185 | the part of a commit before the database is asked takes all pending tables and leaves them empty, or does nothing when nothing is pending |
| `ZoneStore.SignalProtocolStore.FinishCommit` | ts/SignalProtocolStore.ts:1201-1217 | after the database took the snapshot, the caches are the old ones overlaid by it |
| `ZoneStore.SignalProtocolStore.RevertZoneChanges` | ts/SignalProtocolStore.ts:1220-1231 | drops what is pending and keeps the caches |
| `ZoneStore.SignalProtocolStore.StoreSession` | ts/SignalProtocolStore.ts:1411-1466 | a write waits in its zone, or commits everything pending at once if the zone cannot hold sessions back |
| `ZoneStore.SignalProtocolStore.SaveSenderKey` | ts/SignalProtocolStore.ts:885-926 | the same for a sender key, which waits exactly in a zone that holds sender keys back |
| `ZoneStore.SignalProtocolStore.AddMultipleUnprocessed` | ts/SignalProtocolStore.ts:2505-2518 | the same for unprocessed messages; with nothing pending no commit begins |
| `ZoneStore.SignalProtocolStore.LoadSession` | ts/SignalProtocolStore.ts:1294-1330 | reads the committed sessions overlaid by the pending ones |
| `ZoneStore.SignalProtocolStore.GetSenderKey` | ts/SignalProtocolStore.ts:928-975 | reads the committed sender keys overlaid by the pending ones |
| `ZoneStore.SignalProtocolStore.GetAllSessions` | ts/SignalProtocolStore.ts:2772-2783 | the same view of all sessions at once |
| `ZoneStore.SetAll` | ts/SignalProtocolStore.ts:1205-1217 | setting the entries of one map in another, in any order, overlays it |
| `ZoneMachine.LastLeaves` | ts/SignalProtocolStore.ts:1249-1292 | when the last body leaves, those inside are exactly the calls just woken, each running in the zone it waited for |
| `ZoneMachine.StepInv` | ts/SignalProtocolStore.ts:1113-1292 | every step, in any state with the invariant and in any order, keeps it |
| `ZoneMachine.MutualExclusion` | ts/SignalProtocolStore.ts:1113-1292 | in every reachable state all active bodies are in the one current zone, the depth is their number plus the rejected commits, and a free zone has an empty queue |
| `ZoneMachine.FirstComeFirstServed` | ts/SignalProtocolStore.ts:1113-1292 | in every reachable state the calls that ever queued are those woken followed by those waiting: in order, each once, none lost; and each call woken has entered its zone |
| `ZoneRuns.AtomicSafety` | ts/SignalProtocolStore.ts:1157-1231 | with an atomic commit, in every reachable state the caches match the database, and when the zone is free nothing is pending and readers see what the database holds |
| `ZoneRuns.CommitOrRevert` | ts/SignalProtocolStore.ts:1146-1160 | the outermost end commits, keeping the view and making it the cache, or reverts to the committed view; an inner end does neither |
| `ZoneRuns.EventsAreSteps` | ts/SignalProtocolStore.ts:1113-1231 | runs with an atomic commit are runs of the step machine |
| `ZoneRuns.AllOrNothing` | ts/SignalProtocolStore.ts:1099-1231 | over one tenure of a zone the database gets every write of every body inside, or none of them, depending on the last body out |
| `ZoneWrites.PendingIsHeldBack` | ts/SignalProtocolStore.ts:885-1231 | with an atomic commit, in every reachable state something pending in one of the three tables means that a zone is current and holds that table back |
| `ZoneWrites.WriteWaitsOrIsWritten` | ts/SignalProtocolStore.ts:885-1231 | a write of any kind in any reachable state leaves the database alone if the zone of its body holds that kind back, and otherwise is in the database right after it, on top of all that was pending; it can be read back either way |
| `ZoneWrites.GlobalZoneWritesThrough` | ts/SignalProtocolStore.ts:885-1231 | with calls for zones without flags alone nothing is ever pending, and the database is the initial one with all writes on top, whichever bodies fail |
| `ZoneWrites.DatabaseIsAcknowledged` | ts/SignalProtocolStore.ts:1162-1218 | in every state of every run, with the commit in two steps and whatever the database rejects, it holds the initial content with each accepted snapshot on top, in order, and the caches hold the same |
| `ZoneWrites.SnapshotStep` | ts/SignalProtocolStore.ts:1113-1185 | a snapshot is exactly what was pending when the outermost body succeeded, or when a write could not wait, and it stays as it is until the database answers |
| `ZoneRuns.OneEndOneLess` | ts/SignalProtocolStore.ts:1249-1292 | each end of a body lowers active plus waiting calls by one |
| `ZoneRuns.Drains` | ts/SignalProtocolStore.ts:1249-1292 | with no new calls and no rejected commit the queue never deadlocks and drains in exactly as many ends as there are calls |
| `ZoneRuns.RejectedCommitIsFinal` | ts/SignalProtocolStore.ts:1157-1160 | after one rejected outermost commit, in every continuation the zone stays taken, nobody is woken, and a zone that holds its writes back never writes again |
| `ZoneRuns.ReleasableIff` | ts/SignalProtocolStore.ts:1157-1160 | a held zone can still be released exactly when no outermost commit has rejected |
| `ZoneRuns.CommitHidesWrites` | ts/SignalProtocolStore.ts:1183-1217 | while the outermost commit is in flight an id reads as before exactly when it was not being committed or the cache had that value already; afterwards all reads are as before |
| `ZoneRuns.QuietRunsAreClean` | ts/SignalProtocolStore.ts:1157-1218 | with the two-step commit a free zone has nothing pending in every run in which no body stores while the outermost one is finishing |
| `ZoneLate.PendingIff` | ts/SignalProtocolStore.ts:1113-1231 | in every state of every run, what is pending is exactly what was stored since an outermost body was last done and held back |
| `ZoneLate.FreeZoneIsCleanIff` | ts/SignalProtocolStore.ts:1157-1218 | with the two-step commit a zone that is free or about to be freed has something pending exactly when, while a body that was done awaited its commit or leave, a write that is not empty was held back with only held back ones after it |
| `ZoneLate.NextUserFinds` | ts/SignalProtocolStore.ts:1249-1292 | leaving keeps what is pending, so the next user of any zone finds it |
| `ZoneRuns.LateStoreIsLost` | ts/SignalProtocolStore.ts:1157-1160 | a store that slips in during the outermost commit outlives its zone and is discarded by the next user of another zone that fails |
| `Identities.IdentityKeyStore.CheckPrevious` | ts/SignalProtocolStore.ts:2318-2347 | a key saved on the conversation is compared once and forgotten, and a different one is announced |
| `Identities.IdentityKeyStore.Save` | ts/SignalProtocolStore.ts:2048-2174 | saves a first key, replaces a different one unless it is ours, or notes an approval; tells whether a known key was replaced |
| `Identities.IdentityKeyStore.Approve` | ts/SignalProtocolStore.ts:2232-2259 | sets the approval of a record, and fails without one |
| `Identities.IdentityKeyStore.Verify` | ts/SignalProtocolStore.ts:2262-2294 | sets the verified status, and fails without a complete record |
| `Identities.IdentityKeyStore.SaveAttributes` | ts/SignalProtocolStore.ts:2201-2230 | replaces attributes only if the resulting record is complete |
| `Identities.IdentityKeyStore.Sync` | ts/SignalProtocolStore.ts:2350-2423 | after a sync the record has the given key and status, a change of key is announced, and the result tells whether the contact became verified or stopped being so |
| `Identities.IdentityKeyStore.Remove` | ts/SignalProtocolStore.ts:2449-2458 | removes one record |
| `IdentityLaws.ReplacedIsDistrusted` | ts/SignalProtocolStore.ts:1948-2174 | once the key of a verified contact who is not us is replaced, no key of theirs is trusted for sending at any time, through any run, until a step sets another status outright or removes the record |
| `IdentityLaws.DistrustLasts` | ts/SignalProtocolStore.ts:2107-2130 | an unverified status lasts through any run of steps that do not set another one |
| `IdentityLaws.ReplacedTrustIff` | ts/SignalProtocolStore.ts:1948-2184 | after a replacement exactly the new key is trusted, exactly when there was no status either way and the change is approved or five seconds old |
| `IdentityLaws.VerifiedIsVouched` | ts/SignalProtocolStore.ts:2048-2423 | in every run from an empty store a verified mark was set for the very key on record, which stayed there since, exactly unless attributes with another key and no status passed it on and no step vouched for a key since |
| `IdentityLaws.AttributesCarryTheMark` | ts/SignalProtocolStore.ts:2201-2230 | a step makes another key verified without vouching for it exactly when it saves attributes of that contact with a different key and no status |
| `IdentityLaws.SaveAnnouncesIff` | ts/SignalProtocolStore.ts:2084-2155 | a key change is announced exactly when the key takes the place of a different one on record or saved on the conversation |
| `IdentityLaws.FirstSight` | ts/SignalProtocolStore.ts:1948-2098 | without a record a key is trusted exactly when saving it announces no change, that is when no other key is saved on the conversation; once saved, exactly that key is trusted |
| `IdentityLaws.RecordStep` | ts/SignalProtocolStore.ts:2048-2458 | after any step the key is the one given or the old one, and the status is the one given, or falls to unverified with another key, or is the old one; only a removal ends a record |
| `IdentityLaws.TrustStep` | ts/SignalProtocolStore.ts:2048-2423 | after any step a replaced key is no first use and dates from then, and approval, first use and date are otherwise as given or as before |
| `IdentityLaws.NewRecord` | ts/SignalProtocolStore.ts:2048-2423 | a contact without a record gets one exactly by a saved or synced key or by complete attributes, with that key and status |
| `IdentityLaws.AttributesRejectedIff` | ts/SignalProtocolStore.ts:2201-2230 | attributes are rejected exactly when the record would have no key or a new one would be incomplete |
| `IdentityLaws.ApprovalTrusts` | ts/SignalProtocolStore.ts:1948-2259 | an approval, outright or with the same key saved again, makes exactly the key on record trusted unless it is unverified; withdrawn, a replaced key waits out its five seconds |
| `IdentityLaws.SyncTrusts` | ts/SignalProtocolStore.ts:2350-2423 | a sync that says something new makes exactly its key trusted unless it says unverified, and announces exactly a change of the known key |
| `GroupApply.ForEach` | ts/groups.ts:4864-5340 | a loop over the actions of one kind has the effect of the actions one after the other, up to the first that throws |
| `GroupApply.ApplyGroupChange` | ts/groups.ts:4818-5361 | the loops in the source's order compute the applied group, or throw and leave the caller's group alone |
| `GroupApply.AppliedIsTidy` | ts/groups.ts:5342-5361 | after any change, from any group: unique ids in each list, left exactly when we are no member, added by nobody once left, and the revision of the change |
| `GroupAttributes.AttributesEffect` | ts/groups.ts:5105-5314 | every change that applies sets each attribute for which it has an action, an access of 0 standing for the default, and keeps every other one |
| `GroupAttributes.RunAttributes` | ts/groups.ts:5105-5314 | after any run, failing changes included, each attribute is what the last applied change with an action on it set, and the first value if there is none |
| `GroupFates.AppliesIff` | ts/groups.ts:4818-5361 | a change applies exactly when every role it sets is a role and for somebody who is a member by then, and every promotion finds a member or an invitation that is still there |
| `GroupFates.EveryMember` | ts/groups.ts:4864-5286 | after any change that applies the record of every single person is the one its own actions make: the old record or the first addition, with the last role set, none if removed, else a promotion with the role of its invitation, else an approval |
| `GroupFates.EveryInvite` | ts/groups.ts:4971-5103 | the same for the invitation of every single id, with inviter, timestamp and role; and the PNI told with an ACI is the last one promoted to it |
| `GroupFates.EveryRequest` | ts/groups.ts:5179-5286 | the same for every single request to join, with its timestamp |
| `GroupFates.EveryBan` | ts/groups.ts:5309-5340 | the same for every single ban: the old timestamp or that of the first new ban, none once lifted |
| `GroupKeys.KeysLearnedIff` | ts/groups.ts:4899-5222 | a profile key is learned exactly with a first addition, a change of key by its owner or of an unknown one, a first promotion, or a first request that is taken up |
| `GroupEffects.MembersEffect` | ts/groups.ts:4864-5286 | the members after a change, as a set: the old and added ones, less those removed, with all that were promoted |
| `GroupEffects.PendingEffect` | ts/groups.ts:4864-5103 | the invitations after a change, as a set: direct joins and promotions take invitations up, members are not invited, withdrawals come last |
| `GroupEffects.ApprovalsEffect` | ts/groups.ts:5179-5286 | the requests after a change, as a set: those of members and invited people are ignored, answers come last |
| `GroupEffects.BannedEffect` | ts/groups.ts:5309-5340 | only bans and their lifting touch the banned list, in that order, and a ban that is there keeps its timestamp |
| `GroupEffects.AddedByEffect` | ts/groups.ts:4895-5347 | who added us: nobody once we are no member, the author of a direct addition, and otherwise whoever it was; promotions do not count |
| `GroupRecords.RecordsExplained` | ts/groups.ts:4864-5286 | every member's record is the old one, with at most a role set by the change, or was made at its version by an addition, a promotion with the role of its invitation, or an approval; every invitation left is an old one or came with the change |
| `GroupRuns.RunsStayTidy` | ts/groups.ts:4818-5361 | over every run of changes, failing ones included: unique ids, left exactly when no member, added by nobody once left |
| `GroupRuns.ApartIff` | ts/groups.ts:5021-5286 | members and invitations stay apart exactly when no ACI promoted from a PNI or a request is itself still invited |
| `GroupRuns.RunsStayApartIff` | ts/groups.ts:4818-5361 | over every run, failing changes included, members and invitations are apart in every state exactly when each change that applies meets that condition |
| `GroupRuns.PromotionCanOverlap` | ts/groups.ts:5061-5103 | in any group with an ACI and a PNI invited, a promotion of that PNI to that ACI leaves a member invited |
| `GroupDiff.CompareMembers` | ts/groups.ts:4418-4483 | the loop over the current members yields their details and what is left of the old lookups |
| `GroupDiff.CompareIds` | ts/groups.ts:4493-4518 | the loop over a current list yields what is new in it and what is gone from it |
| `GroupDiff.ExtractDiffs` | ts/groups.ts:4251-4794 | the passes in order yield the message and timer notice, or throw |
| `GroupDiffLaws.AfterMembersSpec` | ts/groups.ts:4418-4483 | the member pass leaves exactly the members who are gone, the requests not answered by joining, and the invitations not taken up |
| `GroupDiffLaws.AddedIds` | ts/groups.ts:4493-4518 | what is new in a list is exactly what the lookup lacks, each id once |
| `GroupDiffLaws.GoneIds` | ts/groups.ts:4493-4518 | what is gone is exactly what the list lacks |
| `GroupDiffLaws.MembersConserved` | ts/groups.ts:4389-4491 | current members are the old ones plus the joins told minus the leaves told |
| `GroupDiffLaws.InvitationsConserved` | ts/groups.ts:4389-4567 | current invitations are the old ones minus those told as withdrawn, minus those taken up, plus those told as new |
| `GroupDiffLaws.RequestsConserved` | ts/groups.ts:4571-4602 | current requests are the old ones minus the dismissals told, minus those whose author is a member, plus those told as new |
| `GroupDiffMessages.MembersTold` | ts/groups.ts:4418-4483 | a member is told as joined exactly when new, and a role exactly when it changed |
| `GroupDiffMessages.JoinsJustified` | ts/groups.ts:4418-4462 | every join is told as what it was: by an invitation of the ACI or its PNI and its inviter, or by what the member's record says |
| `GroupDiffMessages.SilentIff` | ts/groups.ts:4290-4613 | there are no details between two states exactly when they look the same to a reader |
| `GroupDiffMessages.SelfDiffIff` | ts/groups.ts:4389-4602 | a group has no details against itself exactly when no member is also invited by ACI or asking to join |
| `GroupDiffMessages.ThrowsIff` | ts/groups.ts:4633-4729 | the assertion of a single self-add fails in exactly one family of first updates, and never for a known group |
| `GroupDiffMessages.FirstMessageTellsOneThing` | ts/groups.ts:4633-4720 | a first message that concerns us, or a new group, tells exactly one thing, and it is true: invited under an id of ours, asked to join, created, or added |
| `GroupDiffMessages.KnownGroupMessage` | ts/groups.ts:4721-4759 | for a known group the message is absent exactly when the states look the same; it holds all details, or our addition and a summary if we just joined |
| `GroupTold.DetailsTold` | ts/groups.ts:4290-4613 | between two states with unique lists each detail of any kind is there exactly when it says what is the case: it tells a difference, and names the current value, the id, the number or the inviter |
| `GroupTold.DetailsOnce` | ts/groups.ts:4290-4613 | no detail is told twice |
| `GroupTold.AcceptedIff` | ts/groups.ts:4389-4483 | an old invitation counts as taken up exactly when its ACI is a member, or its PNI goes with a new member who was not invited by ACI and it does not stand any more |
| `GroupTold.JoinsTold` | ts/groups.ts:4418-4462 | a new member is told to have joined by the invitation of its ACI, else by that of its PNI if no earlier member used it up, and else as its record says |
| `GroupTold.TimerTold` | ts/groups.ts:4761-4786 | a timer notice is made exactly when the timers differ, none and 0 being alike, and holds the current one |
| `GroupTold.KnownGroupAuthor` | ts/groups.ts:4620-4759 | a message about a known group is from its source, or from the ACI that the source PNI goes with, and seen exactly when that is us |
| `GroupTold.FirstMessageIs` | ts/groups.ts:4633-4759 | which first message is made, from whom and whether seen: invited, asked to join, dropped, created, joined in the way we did, or all details, in this order |
| `GroupLog.IntegratePage` | ts/groups.ts:3952-3989 | the loop over a page advances item by item; items that throw or are empty are skipped |
| `GroupLog.IntegrateGroupChanges` | ts/groups.ts:3930-4024 | the loops over all pages compute the integrated group and messages |
| `GroupReplay.IntegratedRevision` | ts/groups.ts:4066-4240 | after an item the group is untouched if it was skipped, and otherwise at the version of the state or the change |
| `GroupReplay.LowersRevisionIff` | ts/groups.ts:4066-4240 | an item that takes effect lowers the revision exactly when it brings an older state or is a change without a version |
| `GroupReplay.NotNewerIsNoOp` | ts/groups.ts:4064-4140 | a change that is not newer than the group does nothing and tells nothing |
| `GroupReplay.ReplayIsHarmless` | ts/groups.ts:3930-4024 | integrating a log of changes in ascending nonzero versions a second time changes nothing and tells nothing, whatever was stale, gapped or failing |
| `GroupReplay.ReplayOfPages` | ts/groups.ts:3930-4024 | the same for the whole operation with its pages and messages |
| `GroupReplay.RevisionBounds` | ts/groups.ts:4026-4249 | when every item has a change with a version and any state at that version, the revision never goes down and never passes the one asked for |
| `GroupReplay.AppliedIsTold` | ts/groups.ts:4134-4171 | a change that applies to a known group can always be told about |
| `GroupReplay.InStepApplies` | ts/groups.ts:3930-4171 | a log without gaps has the effect of its changes one after the other and raises the revision by its length |
| `GroupReplay.InStepIntegrates` | ts/groups.ts:3930-4024 | the whole operation on a known group with a log without gaps gives the group with all changes applied and tells every change in turn, from its author |
| `GroupReplay.ChangeTakesEffectIff` | ts/groups.ts:4066-4171 | a change alone takes effect on a known group exactly when it can be read, is supported and applies, is not beyond the revision asked for, and is the next one, or any later one while we wait for approval |
| `GroupReplay.VersionlessChangeRewinds` | ts/groups.ts:4069-4140 | an empty change without a version takes any known group to revision 0 |
| `GroupReplay.StateLeftIff` | ts/groups.ts:5556-5742 | a full state tells rightly whether we left exactly when it lists members or we were not known as one |
| `GroupStates.StateApplies` | ts/groups.ts:5479-5760 | a full state is rejected exactly for a wrong role or an incomplete invitation; otherwise the group has every attribute and, by position, every list entry that the state carries |
| `GroupStates.StatesConverge` | ts/groups.ts:5479-5760 | once the same state with all its lists applies to any two groups, they agree in everything that a state carries |
| `GroupStates.StateTakesEffectIff` | ts/groups.ts:4026-4249 | a state takes effect exactly when the version of the change beside it does not stand in its way, that change can be read and applies first if it can, and the state applies and can be told about; what is told is what the change told and then the difference it makes, with an author on a first fetch only |
| `GroupStates.LogEndsAsStated` | ts/groups.ts:3930-4249 | after a log whose last item takes effect with a state, the group is what the state says |
| `GroupStates.LogsConverge` | ts/groups.ts:3930-4249 | two logs over any groups that end with the same complete state taking effect leave groups that agree |
| `GroupStates.FirstFetchTells` | ts/groups.ts:3991-4016 | a first fetch tells the first thing its first item told, a first message about the whole difference, which then can only be an invitation or a request, and the timer, and nothing else |
| `GroupStates.IntegrateFailsIff` | ts/groups.ts:3930-4024 | the whole operation fails exactly on a first fetch with us a member before and after it, not invited and not asking, when the first item told nothing |
| `GroupStates.PassedOver` | ts/groups.ts:4066-4111 | an item beyond the revision asked for, or older than the group, is passed over without failing, the former even if it cannot be read |
| `GroupReplay.RecordsAdderIff` | ts/groups.ts:5559-5581 | a state with which we joined records who added us rightly exactly when we were known as a member just if somebody else was, or the author is on record already |
| `GroupReplay.AdderStays` | ts/groups.ts:5559-5742 | without an author, or unless we joined with the state, who added us stays on record while we are listed and is cleared otherwise |
| `GroupReplay.AdderIsMissed` | ts/groups.ts:5559-5581 | in any group in which somebody else but not us was a member and nobody is on record, who added us is not recorded |
| `GroupReplay.AdderCanBeMissed` | ts/groups.ts:5559-5581 | a concrete group and state for which the author is missed |
| `JoinRequests.MergeKeepsMeaningIff` | ts/groups.ts:3202-3275 | merging two messages keeps what they tell exactly when each has a single detail |
| `JoinRequests.MergeLosesADetail` | ts/groups.ts:3214-3225 | two concrete messages whose merge loses a detail |
| `JoinRequests.AppendChangeMessages` | ts/groups.ts:3305-3362 | the fold over new messages with the stored last one, what is saved over it and what is added |
| `JoinRequests.FoldMeaning` | ts/groups.ts:3325-3345 | the fold never tells more than its input, tells the same if no merge is lossy, and less otherwise |
| `JoinRequests.AppendKeepsMeaningIff` | ts/groups.ts:3305-3362 | appending keeps the meaning of the conversation exactly when no merge involves a message with several details |
| `JoinRequests.SingleDetailsAreSafe` | ts/groups.ts:3305-3345 | with single-detail messages nothing is lost and nothing throws |
| `Bounces.FoldsIff` | ts/groups.ts:3202-3262 | two messages fold exactly when one has a single detail and the first detail of the second takes up that of the first; the exact inputs on which it throws |
| `Bounces.FoldedDetail` | ts/groups.ts:3235-3275 | the folded message is the first one with a bounce that counts one more for a withdrawal and tells whether a request came last |
| `Bounces.BackAndForthIsOneMessage` | ts/groups.ts:3305-3362 | any number of requests and withdrawals of one person in turn is saved as one message with the right count, going on from the stored one if that tells of them |
| `Bounces.FoldIsComplete` | ts/groups.ts:3325-3345 | no two neighbours of the result could be folded any further |
| `Bans.NewestSorts` | ts/groups.ts:1034-1039 | sorting by decreasing timestamp keeps exactly the same bans |
| `Bans.NewestIsStable` | ts/groups.ts:1034-1039 | of two bans with the same timestamp the one listed first comes first |
| `Bans.BanIsNeededIff` | ts/groups.ts:1025-1030 | a ban is built exactly for somebody who is not banned yet and is not us |
| `Bans.BanWithinLimit` | ts/groups.ts:1014-1073 | building a ban and applying it leaves the new ban beside exactly as many old ones as fit, none older than one lifted, within a limit of at least one |
| `SizeBucket.BucketFits` | ts/Crypto.ts:465-470 | a size fits its bucket, which is at most five percent larger or the smallest one |
| `SizeBucket.BucketMonotone` | ts/Crypto.ts:465-470 | larger sizes never get smaller buckets |
| `SizeBucket.BucketIdempotent` | ts/Crypto.ts:465-470 | a bucket's size is its own bucket |
| `SizeBucket.LeastBucket` | ts/Crypto.ts:465-470 | the bucket is the least of all buckets that fit |
| `Ciphers.VerifyDigest` | ts/Crypto.ts:378-388 | the comparison loop accepts exactly the digests that agree as far as the other side sent them |
| `Ciphers.VerifyHmacSha256` | ts/Crypto.ts:243-263 | the comparison loop accepts exactly prefixes of the right length of our mac |
| `Ciphers.FullDigestAccepted` | ts/Crypto.ts:378-388 | a digest of full length is accepted only if it is equal |
| `Ciphers.DecryptV1` | ts/Crypto.ts:390-420 | one-shot decryption through the two comparison loops |
| `Tampering.OpensIff` | ts/Crypto.ts:390-420 | one-shot decryption opens a file exactly when there are 64 bytes of keys, at least 48 of file, the last 32 are the mac of all before them, a given digest agrees as far as it goes, and the cipher accepts the middle |
| `Tampering.StreamOpensIff` | ts/AttachmentCrypto.ts:147-251 | streaming decryption opens it exactly when moreover the digest is the hash of the file and the first chunk holds the iv |
| `Tampering.ChangedMacIsRejected` | ts/AttachmentCrypto.ts:220-242 | a sealed file with any other mac at its end is rejected by both forms, in any chunks, with any digest or none |
| `Tampering.ChangedFileNeedsForgery` | ts/Crypto.ts:390-420 | a changed file that still opens has a mac made for other bytes with the same key, and with the digest sent along also the same hash |
| `Transforms.DigestTransform.Transform` | ts/AttachmentCrypto.ts:275-293 | the digest covers all that was read, and every chunk is passed on |
| `Transforms.MacTransform.Transform` | ts/AttachmentCrypto.ts:327-362 | for every chunking the mac covers all but the last 32 bytes read, which are held back |
| `Transforms.DecipherTransform.Transform` | ts/AttachmentCrypto.ts:497-524 | output so far is the deciphered prefix of what was read |
| `Transforms.CoreDecryptionTransform.Transform` | ts/AttachmentCrypto.ts:398-444 | iv, passed on and held back bytes together are what was read; it fails exactly on a first chunk shorter than the iv |
| `Transforms.CoreDecryptionTransform.Flush` | ts/AttachmentCrypto.ts:378-396 | the held back bytes are the mac of the other side, if there are enough |
| `Transforms.LimitLengthTransform.Transform` | ts/AttachmentCrypto.ts:536-563 | what was passed on is what was read, cut to the size |
| `Transforms.AddPaddingTransform.PushPaddingChunks` | ts/AttachmentCrypto.ts:591-610 | for every point at which the reader stalls, pushed and waiting padding add up to the same bytes, and the callback is called only when none waits |
| `Transforms.AddPaddingTransform.Read` | ts/AttachmentCrypto.ts:582-589 | a reader that comes back gets more of the waiting padding |
| `Transforms.AddPaddingTransform.Transform` | ts/AttachmentCrypto.ts:612-659 | content and padding pushed and waiting make up the first `size` bytes and one padding per chunk at the end of content; it fails exactly on a chunk that straddles the size |
| `Transforms.CipherTransform.Transform` | ts/AttachmentCrypto.ts:699-717 | output so far is the enciphered prefix of what was read |
| `Transforms.AddIvTransform.Transform` | ts/AttachmentCrypto.ts:734-756 | the iv comes once, before everything else |
| `Transforms.AddMacTransform.Flush` | ts/AttachmentCrypto.ts:776-786 | the mac over everything passed on comes last |
| `DecryptPipeline.RunStages` | ts/AttachmentCrypto.ts:181-205 | the stages take a file apart the same way for every chunking with a whole iv in the first chunk |
| `DecryptPipeline.DecryptAttachmentV2` | ts/AttachmentCrypto.ts:147-251 | for every chunking, streaming decryption succeeds exactly when the one-shot form does, the digest has full length and the first chunk holds the iv; it yields the same bytes cut to the size |
| `EncryptPipeline.RunPadding` | ts/AttachmentCrypto.ts:571-660 | for every chunking and every stalling of the reader the padded stream is the same, and the callback fires at most once |
| `EncryptPipeline.EncryptAttachmentV2` | ts/AttachmentCrypto.ts:54-145 | for every chunking and every stalling of the reader the same ciphertext, digest and hash |
| `EncryptPipeline.SealsIff` | ts/AttachmentCrypto.ts:54-145 | streaming encryption fails exactly for keys or an iv of the wrong length or a chunk that begins before the size and ends after it; otherwise it writes iv, enciphered padded content and their mac, and returns both hashes |
| `EncryptPipeline.PaddedFile` | ts/AttachmentCrypto.ts:612-659 | a complete file that is not empty is padded once to its bucket; a shorter or empty one is not padded |
| `EncryptPipeline.SamePaddingIff` | ts/AttachmentCrypto.ts:612-659 | the stream pads like the one-shot form exactly when the file is complete and not empty, or needs no padding |
| `EncryptPipeline.StreamEqualsOneShotIff` | ts/Crypto.ts:472-496 | streaming encryption gives the bytes and digest of the one-shot form exactly under that condition |
| `EncryptPipeline.OneShotRoundTrip` | ts/Crypto.ts:422-463 | one-shot decryption undoes one-shot encryption |
| `EncryptPipeline.StreamRoundTrip` | ts/AttachmentCrypto.ts:54-251 | what was encrypted in any chunks decrypts in any chunks to the same file, exactly when the first chunk of the ciphertext holds the iv |
| `Contacts.Applied` | ts/ConversationController.ts:55-99 | changing identifiers that nobody else holds keeps all lookup tables true and touches no other contact |
| `Contacts.Added` | ts/models/conversations.ts:5420-5509 | adding a contact with new identifiers keeps the tables true |
| `Contacts.TableUpdated` | ts/models/conversations.ts:5370-5408 | clearing the old entry and then listing the contact anew keeps a table exact |
| `ContactMerge.ConversationController.IdUpdated` | ts/models/conversations.ts:5370-5408 | the listener lists a contact under all that it has |
| `ContactMerge.ConversationController.ApplyChange` | ts/ConversationController.ts:55-99 | the three updates with what a change implies: a new number drops the PNI, and a PNI goes in and out of the service id slot |
| `ContactMerge.ConversationController.Add` | ts/ConversationController.ts:261-325 | a new contact gets the next id and is listed |
| `ContactMerge.ConversationController.UseUnused` | ts/ConversationController.ts:560-619 | the first unused value chooses the found contact or a new one, and all unused values go onto it |
| `ContactMerge.ConversationController.TakeItem` | ts/ConversationController.ts:536-705 | one turn of the loop: a value without a match waits or goes onto the target; a match gives its value up, first off the one and then onto the other |
| `ContactMerge.ConversationController.MaybeMergeContacts` | ts/ConversationController.ts:469-746 | the loop over the three matches, and a new contact when nothing is found; without a value it fails and changes nothing |
| `ContactMergeLaws.LookupFinds` | ts/models/conversations.ts:5517-5526 | the lookup finds the one who holds a value, if anybody does, with a PNI in either slot |
| `ContactMergeLaws.ValueMoved` | ts/ConversationController.ts:621-683 | moving a value leaves nothing of it behind, takes nothing else that it should not, keeps the tables true, and hands the old holder over exactly when it is empty |
| `ContactMergeLaws.MidAfterPhone` | ts/ConversationController.ts:536-705 | what holds of target, others and handed-over contacts after the ACI and the phone number, in all cases |
| `ContactMergeOutcome.MergeContactsOutcome` | ts/ConversationController.ts:469-746 | the result holds every identifier given, the PNI exactly unless it was stranded; nobody else holds any; others at most lost identifiers; exactly the found contacts with none left are handed over; the tables stay true |
| `ContactMergeOutcome.PniCanBeStranded` | ts/ConversationController.ts:560-693 | a concrete contact that loses the PNI by which it was found |
| `ContactMergeExact.AnyChange` | ts/ConversationController.ts:55-99 | what any suggested change makes of a contact, field by field: a number without a PNI drops the PNI, and a PNI goes in and out of a free service id slot unless the change puts something else there |
| `ContactMergeExact.MergeIsExactly` | ts/ConversationController.ts:469-746 | the outcome in full, without the loop: which contact is returned or that a new one is, what it holds, what every other contact has left, and who is handed over, in order |
| `ContactMergeRuns.MergeStaysTidy` | ts/ConversationController.ts:55-99 | merging keeps every PNI in a service id slot also in the PNI field |
| `ContactMergeRuns.AfterCalls` | ts/ConversationController.ts:469-746 | over every run of calls each identifier stays with at most one contact and listed under it |
| `ContactMergeRuns.NextCallHoldsAll` | ts/ConversationController.ts:469-746 | after any run from such contacts, the next call returns a contact with every identifier given, and nobody else has any |
| `ConflictSweep.SurvivorIsLastV2` | ts/ConversationController.ts:960-1003 | the survivor is a V2 group if any claimant is, and the last of those in the list, or of all claimants if there is none |
| `ConflictSweep.OneLeft` | ts/ConversationController.ts:960-1003 | exactly one conversation is left for each group id that anybody claims |
| `ConflictSweep.MigratedGroup` | ts/ConversationController.ts:960-1003 | a V1 group goes into the V2 group that its id derives to, with what belonged to it |
| `ConflictSweep.UnclaimedStay` | ts/ConversationController.ts:960-1003 | conversations without a group id stay, and so does a group whose id nobody else claims |
| `ConflictSweep.MessagesFollow` | ts/ConversationController.ts:1163-1181 | messages of a removed conversation belong to the survivor, which is there; all others stay |
| `ConflictSweep.SweepingTwice` | ts/ConversationController.ts:826-1007 | a second sweep changes nothing |
| `ConflictSweep.Conversations.DoCombineConversations` | ts/ConversationController.ts:1017-1181 | moves all messages and removes the obsolete conversation, unless it is gone already or of another kind |
| `ConflictSweep.Conversations.DoCheckForConflicts` | ts/ConversationController.ts:826-1007 | walking the array from its end while removing from it visits every conversation and leaves exactly the survivors, in order, with all messages at home |
| `ChallengeHandlers.ChallengeHandler.Load` | ts/challenge.ts:149-180 | registers what was stored and has not expired, once |
| `ChallengeHandlers.ChallengeHandler.OnOnline` | ts/challenge.ts:188-202 | starts what was pending, then what has matured |
| `ChallengeHandlers.ChallengeHandler.OnOffline` | ts/challenge.ts:182-186 | only the connection changes |
| `ChallengeHandlers.ChallengeHandler.MaybeSolve` | ts/challenge.ts:204-217 | begins solving unless one is under way |
| `ChallengeHandlers.ChallengeHandler.Register` | ts/challenge.ts:219-277 | stores a new challenge, then starts its queue, sets its timer or begins solving |
| `ChallengeHandlers.ChallengeHandler.OnTimer` | ts/challenge.ts:247-254 | a timer that fires is gone and starts its queue |
| `ChallengeHandlers.ChallengeHandler.OnResponse` | ts/challenge.ts:279-287 | the first answer since a token was set takes the token, later ones only end |
| `ChallengeHandlers.ChallengeHandler.Unregister` | ts/challenge.ts:289-304 | takes a conversation off registrations, pending starts and timers, and persists |
| `ChallengeHandlers.ChallengeHandler.StartAllQueues` | ts/challenge.ts:337-347 | starts the matured conversations, or all of them |
| `ChallengeHandlers.ChallengeHandler.StartQueue` | ts/challenge.ts:349-363 | offline the start is pending; online it uses up the registration |
| `ChallengeHandlers.ChallengeHandler.OnSent` | ts/challenge.ts:383-427 | the server's verdict ends a solving, and success starts all queues |
| `ChallengeLaws.NextInv` | ts/challenge.ts:149-427 | every event keeps the invariant, and keeps the stored list equal to the registered one |
| `ChallengeLaws.FreshRuns` | ts/challenge.ts:149-427 | in every run pending starts and timers name only registered conversations, a timer is set for the retry time, no registration with a retry time is forgotten, solvings are counted right, the stored list is the registered one after every register and unregister, and going online leaves nothing pending and nothing matured |
| `ChallengeLaws.OnlineDrains` | ts/challenge.ts:188-202 | going online leaves no pending start and no matured registration |
| `ChallengeEffects.OnlineStartsExactly` | ts/challenge.ts:188-202 | going online starts, once each, exactly what was pending and what has matured, and leaves every other registration as it is |
| `ChallengeEffects.SuccessStartsAll` | ts/challenge.ts:383-427 | success starts every registered conversation once, matured or not, or makes all of them pending while offline |
| `ChallengeEffects.FailureOnlyEnds` | ts/challenge.ts:383-427 | a failure ends the solving and changes nothing else |
| `ChallengeEffects.LoadRegistersValid` | ts/challenge.ts:149-180 | a first load registers exactly the conversations with a stored challenge younger than the limit, and a second one does nothing |
| `ChallengeEffects.StoredAreRegistered` | ts/challenge.ts:219-304 | in every run, while anything is registered and after every register and unregister, what is stored is exactly the registered challenges |
| `ChallengeEffects.RestartRestores` | ts/challenge.ts:149-180 | in every such state, loading what is stored into a fresh handler registers exactly what was registered and has not expired |
| `ChallengeEffects.RegisterBegins` | ts/challenge.ts:219-277 | a registration begins a solving exactly when it is new, has not matured, has a token and is not silent |
| `ChallengeEffects.SolveBegins` | ts/challenge.ts:204-217 | asked for, a solving begins exactly for a registration with a token while nothing else is being solved |
| `ChallengeEffects.AnswerTakesToken` | ts/challenge.ts:279-335 | the first answer takes the token to the server, others only end, and an answer to nothing does nothing |
| `ChallengeEffects.OneAnswerPerToken` | ts/challenge.ts:204-335 | over every run the tokens sent and held are no more than those held before and begun since: none is sent twice |
| `ChallengeLaws.RegisterKeeps` | ts/challenge.ts:219-277 | registering keeps the invariant; a new registration leaves the stored list equal to the registered one, and any registration keeps it so |
| `ChallengeLaws.RegisterSyncs` | ts/challenge.ts:219-277 | in every state that runs can reach, after a register the stored list is the registered one, whether or not the conversation was registered |
| `ChallengeLaws.NextStored` | ts/challenge.ts:149-427 | every event keeps the stored list equal to the registered one while anything is registered |
| `ChallengeLaws.OneStartEach` | ts/challenge.ts:219-363 | over every run each registration ends in one queue start or one withdrawal or is still there, so it triggers at most one start |
| `ChallengeLaws.LoadSyncsIff` | ts/challenge.ts:149-180 | loading leaves the stored list equal to the registered one exactly when something is not expired or nothing was stored |
| `ChallengeLaws.ResumedRegistrationIff` | ts/challenge.ts:231-254 | from any state that storing a challenge may return to, the rest of the registration keeps timers and pending starts to registered conversations exactly when it starts the queue at once, or the conversation is still registered, with the same retry time if a timer is set |
| `ChallengeLaws.ResumedStartIff` | ts/challenge.ts:231-239 | the rest of a registration starts a queue exactly when the challenge has matured and we are online, so for nobody exactly when the conversation was unregistered meanwhile |
| `ChallengeLaws.InterruptedRegistration` | ts/challenge.ts:231-254 | with persisting as a step of its own, unregistering in between leaves a timer, a pending start or a start for a conversation that is not registered |

## Left out

- Protobuf decoding, zkgroup and libsignal calls: the model starts from decrypted actions and states.
- Networking, database layout, logging, events shown in the interface: outcomes of such calls are parameters.
- Session migration and in-place mutation of libsignal session records: sessions are opaque values.
- ZoneStore.SignalProtocolStore.StoreSession: the contract is that of the body; entering and leaving the zone around it are steps of the machine.
- ZoneStore.SignalProtocolStore.LoadSession: the contract is that of the body, and old records are not migrated.
- `PQueue` and the queue timeouts around identity and session operations.
- A call for another zone from within a body waits for itself: the machine has such calls as separate callers, not as nested ones.
- Removals of sender keys, sessions and unprocessed messages, and single unprocessed messages apart from lists of them.
- ZoneStore.SignalProtocolStore.SaveSenderKey: as for sessions, the contract is that of the body.
- ZoneStore.SignalProtocolStore.GetSenderKey: as for sessions, and records are not deserialised.
- ZoneStore.SignalProtocolStore.constructor: filling the caches from the database is one step.
- Identities.IdentityKeyStore.Save: archiving the sibling sessions on a key change is not modelled.
- Identities.IdentityKeyStore.Remove: removing the sessions together with the key is not modelled.
- GroupKeys.KeysLearnedIff: which keys are learned, not the order in which they are listed.
- Profile keys learned while integrating a log: which keys are known is a parameter.
- The download of a group avatar: its outcome is a parameter, and an avatar is the hash of its content.
- The clearing of the temporary member count, and the flag for other changes of a full state.
- Paging through group logs and retrying of changes: their progress depends on the server.
- The text of group change messages, and the saving of messages beyond their order and content.
- GroupLog.IntegrateGroupChanges: profile keys and read status are not part of the result.
- Stages of a stream run one after the other here; how the runtime interleaves them, and a reader that calls back while a chunk is being pushed, are not modelled. Stalling of the reader is.
- Floating point in the size buckets: arithmetic is exact, so a rounding of the logarithm near a power is not modelled.
- The random iv of an attachment is a parameter; file access and temporary files are left out.
- The notification about a discovered phone number after a contact merge, and the merging of two conversations' other data, are not modelled.
- ContactMerge.ConversationController.MaybeMergeContacts: the contacts merged away stay in the collection, without identifiers; the asynchronous merge that removes them is left out.
- ConflictSweep.Conversations.DoCheckForConflicts: the branches for private contacts are left out; they go on using a conversation after it was combined away.
- ConflictSweep.Conversations.DoCombineConversations: pins, drafts, colours and activity times are not moved.
- The challenge status shown to the user, and the environment's clock: a timer fires as an event at any time.
- Retries and rate limits of challenge answers: being told to retry later counts as success, as in the code.
