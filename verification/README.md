# Verified model of the Cloud Browser scripts

This project models the state machines, the arithmetic and the codecs of the scripts under
`legacy/scripts/` and proves what they keep. `dafny verify dfyconfig.toml` checks all of it.

What is modelled, by file:

- `Bits.dfy`, `Gf128.dfy`, `Gcm.dfy`: AES-GCM over an abstract block cipher (`gcm.py`). Integers
  are unbounded, as in Python, and exclusive or is defined on their binary digits.
  `GcmStandard.dfy`: ciphertext and tag byte by byte, as SP 800-38D defines them.
- `Der.dfy`, `Oaep.dfy`: the DER reader, RSA key extraction, MGF1 and OAEP decoding
  (`vault_client.py`) against a reference encoder. SHA-1 is an abstract function to 20 bytes.
- `GrantStore.dfy`: the two-file encrypted grant store (`granthub.py`) against a plain map. Email
  grammar, base64 and UTF-8 are functions with the laws in `Sound`. `GrantAnswers.dfy`: every answer
  and refusal.
- `Frames.dfy`, `FrameStreams.dfy`: WebSocket frames over a buffered socket (`window-manager.py`),
  and streams of them. The socket is a list of events: a chunk, a pause longer than the timeout, or
  an empty chunk for the end. `FrameBytes.dfy`: frames byte by byte, as RFC 6455 lays them out.
- `Fleet.dfy`, `Eta.dfy`, `EtaAnswer.dfy`, `QueueIds.dfy`: queue entries, positions and waiting
  times, and the identity of entries across restarts (`router.py`).
- `RouterModel.dfy`: the router as one state and one step per locked section of its handlers, its
  sweep and its reaper; `RouterService.dfy`: the same steps as methods that update the tables in
  place, each proved equal to its step, and `Perform`, which carries the run and its invariants.
- `RouterInvariants.dfy`, `RouterHistory.dfy`, `RouterOffers.dfy`, `RouterFairness.dfy`,
  `RouterQueue.dfy`, `RouterAdmission.dfy`, `RouterBars.dfy`, `RouterLimits.dfy`: what steps and runs
  keep; `RouterClocks.dfy`, `RouterTakes.dfy`, `RouterReleases.dfy`: what single steps do.
- `Otp.dfy`, `OtpAnswers.dfy`: the one-time-code exchange of the router.
- `FileTree.dfy`, `Archive.dfy`, `Restore.dfy`, `ArchiveDisk.dfy`, `Ownership.dfy`, `Slot.dfy`:
  archive and restore as lists of file operations over owned entries, as loops over a disk, and
  a slot with its browser, its binding and its disk (`restart-api.py`). `Lifecycle.dfy`: what a
  suspend leaves, what a wake brings back, and the cycle of both.
- `Snapshots.dfy`, `SnapshotAnswers.dfy`: tab snapshots (`restart-api.py`).

Time, random values, replies of slots, directory orders and socket events are inputs of a step.
Every run below is over all their values. History (the log of expired offers, the epoch of a
profile, the enqueue time a candidate was collected with) is kept beside the
state where a statement needs it; the code does not keep it and no branch depends on it.

Where the code does less than one would expect, the code is modelled as it is, a lemma shows a
failing input, and another one gives the exact condition:

| behaviour | failing input | exact condition |
|---|---|---|
| The readiness rollback takes an assignment back without looking at pending expiries | `ExpiryOvertaken` | `UnreadyExact` |
| So does leaving the queue | `LeaveOvertaken` | `LeaveExact` |
| The sweep does not re-check a slot under the lock, and a failed wake removes the row of whoever owns it | `HintOvertakes` | `HintCommitExact` |
| A take probes its slot outside the lock and grants without a second look | `TakeOvertakes` | `TakeCommitExact` |
| The reaper offers the same head for every free slot of a tick, so a re-timed entry can be offered before an earlier one | `RetimedOfferUnfair` | `OffersFair` |
| A user who has a slot and takes an offer leaves the old slot row behind, even when the new slot does not wake | `RowLeftBehind` | `TakeRowsExact` |
| The waiting-time formula ignores that one slot can serve several entries before another frees | `LateSlotMisleads` | `ClosedFormRefinesSimulation` |
| The kill switch stops at the first folder whose name is no canonical identity | `KillSwitchMisses` | `RevokeAllExact` |
| A receive that stalls inside a frame loses the header it has read, and the caller goes on in the middle of the frame | `StallForges` | `StallLosesExact` |
| A wait looks at the socket and not at the buffer | `BufferedFrameWaits` | `DeliveredExact` |
| A ping with a payload is answered with bytes that are no frame | `PongBreaksStream` | `PongExact` |
| An archive run that follows one stopped after the old archive was removed deletes the only copy of the grant | `RetryLosesGrant` | `RetryKeepsGrantExact` |
| The search for the oldest one-time-code challenge does not look at its age | `StaleHidesLive` | `OldestFirst` |
| Naming a user on a slot that another one uses mixes their data | `IdentifyOverUser` | `IdentifyExact` |
| More than ten tabs that start with ten spellings of the homepage read back as none | `HomepagesHideOthers` | `SavedReadsBackExact` |

## Model

| member | source | states |
|---|---|---|
| Gf128.GfMul | legacy/scripts/gcm.py:20-31 | the shift-and-reduce loop returns `Mul(x, y)`, the function that the laws below are about |
| Gf128.MulDistributes | legacy/scripts/gcm.py:20-31 | multiplication distributes over exclusive or in both arguments, for all integers |
| Gf128.MulCommutes | legacy/scripts/gcm.py:20-31 | on 128-bit values multiplication is commutative although the loop treats its arguments differently |
| Gf128.MulAssociates | legacy/scripts/gcm.py:20-31 | on 128-bit values multiplication is associative |
| Gf128.MulIdentity | legacy/scripts/gcm.py:20-31 | `1 << 127` is the identity on both sides |
| Gf128.MulBound | legacy/scripts/gcm.py:20-31 | products of 128-bit values have 128 bits |
| Gf128.MulIsPolynomialProduct | legacy/scripts/gcm.py:20-31 | r is the product exactly when its polynomial is the remainder of the schoolbook product of the two polynomials modulo u^128 + u^7 + u^2 + u + 1 (section 6.3 of SP 800-38D); the reference uses neither shifts nor the reduction constant |
| Gcm.Ghash | legacy/scripts/gcm.py:38-48 | the two loops compute GHASH of padded AAD, padded ciphertext and length block, the function that GhashIsPolynomial and GcmStandard.GhashReads are about |
| Gcm.GhashIsPolynomial | legacy/scripts/gcm.py:38-48 | GHASH is the sum of block i times h^(m - i), a polynomial evaluated at h (section 6.4) |
| Gcm.CtrCrypt | legacy/scripts/gcm.py:55-62 | the counter-mode loop equals the specification function `Ctr` |
| Gcm.CtrPointwise | legacy/scripts/gcm.py:55-62 | byte r of block q is combined with byte r of the cipher of the q-th counter block |
| Gcm.CtrInvolution | legacy/scripts/gcm.py:55-62 | counter mode is its own inverse on every input |
| Gcm.CountersDistinctIff | legacy/scripts/gcm.py:34-35 | the counter blocks of n message blocks are pairwise distinct and differ from J0 exactly when n is at most 2^32 - 1 |
| Gcm.CountersNonzeroIff | legacy/scripts/gcm.py:65-75 | no counter block is the zero block that yields the hash key exactly when n is at most 2^32 - 2 or the IV is not zero |
| Gcm.GcmEncrypt | legacy/scripts/gcm.py:65-75 | encryption computes `Seal`, with its length assertions and the overflow of the tag as errors; GcmStandard says of `Seal` what the standard asks |
| Gcm.GcmDecrypt | legacy/scripts/gcm.py:78-87 | decryption computes `Open`; the tag is compared before anything is decrypted, and what it accepts are the results of `Seal` |
| Gcm.OpenInvertsSeal | legacy/scripts/gcm.py:65-87 | decryption accepts (ct, tag) with plaintext pt exactly when encryption of pt gives (ct, tag) |
| Gcm.RoundTrip | legacy/scripts/gcm.py:65-87 | for every key, 96-bit IV, AAD and plaintext that fits the length block, encryption succeeds and decryption gives the plaintext back |
| Gcm.ChangedCiphertextAccepted | legacy/scripts/gcm.py:78-87 | under an accepted tag, a changed ciphertext of the same length is accepted exactly when the polynomial of the block differences is zero at the hash key |
| GcmStandard.GhashReads | legacy/scripts/gcm.py:38-48 | what is hashed is, byte by byte, the AAD and the ciphertext each filled up with zeros, and then their bit lengths in 64 bits each, the AAD first |
| GcmStandard.CiphertextByte | legacy/scripts/gcm.py:51-62 | every ciphertext byte is the plaintext byte exclusive-or a cipher byte of the block IV and q + 2 in 32 bits |
| GcmStandard.SealMeetsStandard | legacy/scripts/gcm.py:65-75 | the tag is that hash under the cipher of sixteen zero bytes, exclusive-or the cipher of the IV followed by 0, 0, 0, 1 (section 7.1 of SP 800-38D); stated without the names of the program for key, counter and length block |
| Der.ReadChildren | legacy/scripts/vault_client.py:126-134 | the child loop terminates, equals the recursive reading, and its final boundary test never fails |
| Der.ReadInvertsEncode | legacy/scripts/vault_client.py:102-123 | an element written in any of the five length forms is read back, wherever it stands |
| Der.EncodeInvertsRead | legacy/scripts/vault_client.py:102-123 | whatever is read was written there in some length form |
| Der.ChildrenExact | legacy/scripts/vault_client.py:126-134 | the children read are exactly those of some encoding that makes up every byte of the value |
| Der.IntegerRoundTrip | legacy/scripts/vault_client.py:137-142 | a natural number written as a DER INTEGER is read back |
| Der.Pkcs1RoundTrip | legacy/scripts/vault_client.py:145-153 | (n, d) is read back from every document of nine or more fields whose second and fourth are n and d |
| Der.Pkcs8IsTransparent | legacy/scripts/vault_client.py:154-160 | the PKCS#8 wrapping of any document gives the same result as the document, errors included |
| Oaep.Mgf1Sha1 | legacy/scripts/vault_client.py:163-169 | the mask loop equals the specification and returns exactly the requested length, or overflows its four-byte counter |
| Oaep.MaskByte | legacy/scripts/vault_client.py:163-169 | byte 20 q + r of a mask is byte r of the digest of the seed and counter q |
| Oaep.DecodeExact | legacy/scripts/vault_client.py:193-208 | decoding accepts a block with a message exactly when the block is the EME-OAEP encoding of that message under some seed (section 7.1 of RFC 8017) |
| Oaep.DecodeInvertsEncode | legacy/scripts/vault_client.py:193-208 | for every message of at most k - 42 bytes and every seed, decoding inverts encoding |
| Oaep.DecryptInvertsEncrypt | legacy/scripts/vault_client.py:172-208 | a message encoded for a key and raised to its public exponent is returned by the whole decryption path |
| Oaep.EncodedBytes | legacy/scripts/vault_client.py:163-208 | the encodings meant here, byte by byte: a zero, the seed under the first digest of the rest, and label hash, zeros, one and message under the digests of the seed and a counter |
| Eta.SimulatedIsRoundRobin | legacy/scripts/router.py:932-962 | with remaining times at most a median apart, repeatedly serving from the slot that frees first and adding a median visits the slots round robin |
| Eta.ClosedFormRefinesSimulation | legacy/scripts/router.py:953-969 | the divmod formula gives every position the simulated waiting time exactly when the remaining times differ by at most the median |
| Eta.LateSlotMisleads | legacy/scripts/router.py:953-969 | one slot free now and one in ten medians: the second in the queue is told ten medians where the simulation serves it after one |
| Eta.IdleTier | legacy/scripts/router.py:964-969 | an idle tier drains like one slot that is free now |
| Eta.CollectRemaining | legacy/scripts/router.py:947-958 | the loop over the sessions collects the remaining times of the tier |
| Eta.ComputeEta | legacy/scripts/router.py:915-970 | the whole estimate equals `EtaFor`, with and without history and for entries out of play; EtaAnswer says what it answers |
| Eta.EtaNeverIncreases | legacy/scripts/router.py:944-970 | with queue, sessions and history fixed, the position stays and the reported wait never grows as time passes |
| Eta.PositionsAreRanks | legacy/scripts/router.py:925-931 | with distinct ids the n entries in play have the positions 1 to n, ordered by priority and then enqueue time |
| EtaAnswer.MedianIsMiddle | legacy/scripts/router.py:903-908 | of at most fifty values at least half are no greater and at least half no less than the median, which is one of them or the mean of two with none between; of more it is that of the fifty largest |
| EtaAnswer.CappedIsTypical | legacy/scripts/router.py:903-915 | the session length used is that middle, or half the maximum without history, and never more than the maximum |
| EtaAnswer.AllRemainingFree | legacy/scripts/router.py:947-958 | every session of the tier counts with the least time from now after which its maximum has passed, and its teardown too if it is being expired |
| EtaAnswer.EtaAnswers | legacy/scripts/router.py:915-970 | an entry in play is told its position and, in whole seconds and no less than one poll, when the simulation serves it, if the slots free within a median of each other; on an idle tier a median for every entry before it |
| QueueIds.HexRoundTrip | legacy/scripts/router.py:246-255 | hexadecimal printing and parsing invert each other |
| QueueIds.IdInjective | legacy/scripts/router.py:246-255 | different numbers have different ids |
| QueueIds.LoadHeals | legacy/scripts/router.py:865-879 | whatever was persisted, loading leaves distinct ids and a sequence number above all of them, and keeps ids that were distinct |
| QueueIds.NextIdFresh | legacy/scripts/router.py:246-255 | the next id belongs to no queued entry |
| QueueIds.PositionsAfterRuns | legacy/scripts/router.py:865-879 | through any mix of enqueues, updates, removals and restarts the entries in play keep the positions 1 to n |
| RouterService.Router.ResolveUser | legacy/scripts/router.py:1047-1113 | resolving a caller: sticky slot, idle wake, barred archives, the queue guard, then the first free slot |
| RouterService.Router.EnterUser | legacy/scripts/router.py:2114-2145 | an entry whose fresh slot does not wake is taken back and archived as idle |
| RouterService.Router.RollBack | legacy/scripts/router.py:1185-1195 | the readiness rollback of an assignment |
| RouterService.Router.EnqueueHumanUser | legacy/scripts/router.py:1403-1420 | one waiting or offered entry per human; admins get priority 1 |
| RouterService.Router.EnqueueAgentCaller | legacy/scripts/router.py:1576-1613 | an agent gets the first free agent slot at once, or waits |
| RouterService.Router.LeaveQueue | legacy/scripts/router.py:1642-1668 | leaving drops the hold, marks the entry and takes back an assignment |
| RouterService.Router.TimeOutAgent | legacy/scripts/router.py:2847-2867 | a waiting agent past its deadline leaves the queue |
| RouterService.Router.ReleaseUser | legacy/scripts/router.py:1236-1303 | a release performs `Release`, of which RouterReleases says what it takes, leaves alone and archives |
| RouterService.Router.Lapse | legacy/scripts/router.py:2803-2827 | what an expired offer makes of its entry: trimmed history, new enqueue time, back-off at the threshold |
| RouterService.Router.ExpireOfferOf | legacy/scripts/router.py:2803-2827 | an expired offer drops its hold and changes its entry and archive, nothing else |
| RouterService.Router.PurgeBackedOff | legacy/scripts/router.py:2830-2844 | entries whose cooldown is over leave the queue |
| RouterService.Router.SweepGrace | legacy/scripts/router.py:2952-2966 | the grace sweep expires the lapsed offers one by one and then purges |
| RouterService.Router.Open | legacy/scripts/router.py:2035-2112 | taking an offer: refused, expired, granted, or granted and rolled back |
| RouterService.Router.MarkOverdue | legacy/scripts/router.py:2884-2893 | overdue sessions become pending expiries once |
| RouterService.Router.ForceReleaseUser | legacy/scripts/router.py:2915-2945 | a pending expiry without a release is released after the grace |
| RouterService.Router.QuarantineUser | legacy/scripts/router.py:2624-2635 | a spent rescue budget makes the session a pending expiry |
| RouterService.Router.CollectOffers | legacy/scripts/router.py:2981-3000 | the collect phase lists the head of the tier for every free slot |
| RouterService.Router.CommitOffer | legacy/scripts/router.py:3001-3024 | the commit phase re-checks slot, entry and tier under the lock |
| RouterService.Router.WakeHinted | legacy/scripts/router.py:2740-2774 | the sweep assigns the owner hinted by an idle slot |
| RouterService.Router.Boot | legacy/scripts/router.py:3110-3162 | boot repair: pools, stale entries, surviving offers, purge |
| RouterService.Router.Perform | legacy/scripts/router.py:2015-2145 | any step, in any order: the object is in the state of the run of its steps, keeps the offer protocol, and keeps the occupancy tables exactly when the step is admissible |
| RouterInvariants.NextOccupancy | legacy/scripts/router.py:1047-1113 | a step keeps `users[e] = k` implying `slots[k] = e` and `sessions[e].slot = k`, and pending expiries owning their row, exactly when it does not take back an assignment whose expiry is pending |
| RouterInvariants.UnreadyExact | legacy/scripts/router.py:1185-1195 | the readiness rollback keeps these tables exactly when the user has no pending expiry of the slot |
| RouterInvariants.LeaveExact | legacy/scripts/router.py:1642-1668 | leaving the queue keeps them exactly under the same condition |
| RouterInvariants.OccupancyOverRuns | legacy/scripts/router.py:1047-1113 | over every such run no two users share a slot, rows and sessions agree with users, and a pending expiry owns its row |
| RouterInvariants.NextOffers | legacy/scripts/router.py:2981-3024 | every step, in any interleaving, keeps the offer protocol |
| RouterInvariants.OffersOverRuns | legacy/scripts/router.py:2981-3024 | over every run at most one queued entry of a tier is offered, its slot is held for its email, and no held human slot has a row |
| RouterInvariants.HintCommitExact | legacy/scripts/router.py:2751-2774 | the sweep tests a slot outside the lock and assigns without a second look: when the slot wakes that is safe exactly when it still has no user, no pending expiry of another user and no human hold; when it does not wake, exactly when it has no user and no pending expiry at all |
| RouterInvariants.TakeCommitExact | legacy/scripts/router.py:2073-2112 | the second locked section of a take grants without a second look: that is safe exactly when nobody else has the slot, is being expired on it or is offered it by then, and, when the slot does not wake, no expiry at all is pending on it |
| RouterInvariants.TakeUndisturbed | legacy/scripts/router.py:2073-2112 | so a take is safe when its entry is still offered the slot |
| RouterHistory.NextEvolves | legacy/scripts/router.py:2803-2827 | what any step can do to an entry: be offered by the commit alone, expire, be granted, leave; entries join the queue only when they are created |
| RouterOffers.BackoffBound | legacy/scripts/router.py:2803-2827 | over every run and restart with a monotone clock, between grants an entry lets at most THRESHOLD offers of one slot expire within any WINDOW |
| RouterOffers.BackedOffForever | legacy/scripts/router.py:2803-2827 | a backed-off or left entry is never waiting, offered or granted again and collects no further expiry |
| RouterOffers.CooldownExact | legacy/scripts/router.py:2830-2844 | a backed-off entry survives a sweep or a boot exactly while its cooldown, counted from its last expired offer, lasts |
| RouterOffers.GoneForever | legacy/scripts/router.py:2830-2844 | an entry that left the queue never comes back |
| RouterFairness.OffersFair | legacy/scripts/router.py:2981-3024 | whatever runs between collect and commit, an earlier waiting entry of equal tier and priority is passed over exactly when an offer of the candidate ran out since the collection and after the other was enqueued; never by the first candidate of its tier |
| RouterLimits.RetimedOfferUnfair | legacy/scripts/router.py:2981-3024 | a run in which the second free slot is offered to a re-timed entry while an earlier one waits |
| RouterLimits.ExpiryOvertaken | legacy/scripts/router.py:1185-1195 | a run in which a rollback lets a pending expiry point at another user's slot |
| RouterLimits.LeaveOvertaken | legacy/scripts/router.py:1642-1668 | a run in which leaving the queue lets a pending expiry point at another user's slot |
| RouterLimits.HintOvertakes | legacy/scripts/router.py:2751-2774 | a user enters between probe and assignment: then two users have slot 1, or its owner has no row |
| RouterLimits.TakeOvertakes | legacy/scripts/router.py:2042-2112 | a valid take whose user is released while the slot is probed: the grant puts two users on the slot, or removes the row of the other one |
| RouterLimits.TakeRowsExact | legacy/scripts/router.py:2073-2088 | taking an offer leaves no slot row behind exactly when its user had no slot before or the offered slot is refused as unclean, whether or not the slot wakes |
| RouterLimits.RowLeftBehind | legacy/scripts/router.py:2073-2088 | a run in which a resumed user takes an offer and the row of the old slot stays |
| RouterAdmission.Admission | legacy/scripts/router.py:1047-1113 | whoever gets a slot in a step entered (idle archive, or on demand with nobody queued and no bar, lowest free human slot), took a valid offer of that slot, was granted a free agent slot, or was woken by the sweep; no other step assigns anybody |
| RouterAdmission.NoQueueJump | legacy/scripts/router.py:1047-1113 | an expired or quarantined user, and anybody while a human waits, gets a slot only through an offer, the agent interface or the sweep, unless an idle archive is resumed |
| RouterAdmission.TickOffersHead | legacy/scripts/router.py:2981-3024 | progress: when a slot of a tier is free and somebody waits in it, a tick that finds the slots clean offers one to the head of the tier |
| RouterClocks.EnterExact | legacy/scripts/router.py:1047-1113 | a user without a slot gets one by entering exactly when it wakes, a human slot has neither row nor hold, and either an idle archive is to be resumed or sessions are created on demand, no human is queued and no archive bars the user |
| RouterClocks.SessionBegins | legacy/scripts/router.py:1047-1113 | whoever gets a slot in any step has its row and a session that begins now |
| RouterClocks.OfferLasts | legacy/scripts/router.py:3001-3024 | a committed offer can be taken until the grace after the tick has passed, and has lapsed from then on |
| RouterClocks.SweepExact | legacy/scripts/router.py:2952-2966 | a sweep leaves offers that last as they are, and puts whoever let one lapse back in the queue as of now |
| RouterClocks.AgentTimeoutExact | legacy/scripts/router.py:2847-2867 | an entry is dropped exactly when it is a waiting agent past its deadline |
| RouterClocks.RestartTables | legacy/scripts/router.py:3105-3162 | a restart keeps exactly the assignments to slots of the pools, forgets every pending expiry and quarantine, and holds no slot but for a queued offer that still lasts |
| RouterTakes.TakeAnswers | legacy/scripts/router.py:2035-2112 | a click is decided by the first queued entry of its human: ignored unless an offer, expired if it ran out, taken exactly when the slot is clean and wakes, taken back as idle when it does not wake |
| RouterTakes.ExpireExact | legacy/scripts/router.py:2803-2827 | an entry is backed off exactly when the offers of this slot that ran out within the window, counted as a set and this one among them, reach the threshold |
| RouterTakes.LeaveGivesBack | legacy/scripts/router.py:1642-1668 | leaving ends the hold, the assignment, the row and the session of the entry's email, and changes no other entry |
| RouterTakes.ResolveAnswers | legacy/scripts/router.py:1047-1113 | an assigned user is sent to that slot, unless quarantined, and a request that gets no slot changes nothing |
| RouterQueue.HumanJoins | legacy/scripts/router.py:1403-1420 | a human with an entry that waits or is offered is not queued again, any other is, at the end, and no other entry changes |
| RouterQueue.AgentJoins | legacy/scripts/router.py:1576-1613 | an agent is always queued: active, with the lowest agent slot without a row, exactly when there is one, and else waiting |
| RouterQueue.OneEntryPerHuman | legacy/scripts/router.py:1403-1420 | over every run a human has at most one entry that waits or is offered a slot |
| RouterQueue.AdminsFirst | legacy/scripts/router.py:1403-1420 | over every run a waiting admin is ahead of every other waiting human, and the head of the human tier is an admin while one waits |
| RouterReleases.ReleaseArchives | legacy/scripts/router.py:1236-1303 | a late release, without slot and offer and with an archive, leaves all archives alone; any other writes the user's: the reason of the quarantine, else the one given, else expired for a pending expiry, else idle |
| RouterReleases.ReleaseClears | legacy/scripts/router.py:1236-1303 | after a release the user has no slot, session, hold, queued entry, pending expiry or quarantine |
| RouterReleases.ReleaseSpares | legacy/scripts/router.py:1236-1303 | and nothing of anybody else changed |
| RouterReleases.ForceReleaseExact | legacy/scripts/router.py:2915-2945 | the reaper releases a user itself exactly when the pending expiry is older than the grace, and archives as expired or with the reason of the quarantine |
| RouterReleases.MarkedExact | legacy/scripts/router.py:2884-2893 | a session is marked exactly when it outlived the maximum of its tier |
| RouterReleases.ExpiryBars | legacy/scripts/router.py:2884-2945 | a session that outlived its maximum is archived as expired by the release that follows, which bars its user |
| RouterReleases.IdleResumes | legacy/scripts/router.py:1236-1303 | a session released within its time can be resumed |
| RouterReleases.QuarantineTells | legacy/scripts/router.py:2624-2635 | a quarantined session is archived with the reason of its quarantine whatever the release says |
| RouterReleases.QuarantineEnds | legacy/scripts/router.py:2624-2635 | a quarantined user is sent to no slot, and without a release the reaper ends the session after the grace with the reason of the quarantine |
| RouterReleases.RefusalRetries | legacy/scripts/router.py:2894-2912 | a refused suspend takes the mark away, and the next tick marks the session anew exactly when it has outlived its maximum |
| RouterReleases.RollbackResumes | legacy/scripts/router.py:1185-1195 | an assignment taken back because its slot is not usable can be resumed |
| RouterBars.BarStays | legacy/scripts/router.py:1047-1113 | the steps that may replace the archive of a barred user without a slot are a take, a release while offered, a lapsed offer, a dropped entry and a failed wake by the sweep; every other step keeps the bar |
| RouterBars.ExpiredWaitsInQueue | legacy/scripts/router.py:1084-1099 | a session runs past its maximum and is released: over every run that follows, without such a replacement, its user gets the next slot only by taking an offer, through the agent interface or by the sweep |
| Otp.OneCode | legacy/scripts/router.py:2549-2599 | over any trace with fresh ids and a monotone clock a challenge takes at most one code and hands out at most one, the one it took |
| Otp.FetchExact | legacy/scripts/router.py:2517-2547 | a fetch returns a code exactly when its slot and owner armed the challenge at most TTL ago, the code was accepted for it, it was not fetched before and nobody cancelled it |
| Otp.OldestFirst | legacy/scripts/router.py:2576-2599 | a code without a challenge id goes to the oldest open challenge of the email, and is accepted exactly when it is a code and that challenge is still live |
| Otp.StaleHidesLive | legacy/scripts/router.py:2576-2599 | with an older challenge past its time a code without an id is refused although a younger one is open and live |
| OtpAnswers.SubmitExact | legacy/scripts/router.py:2549-2599 | over any trace a code for a named challenge is refused with 400 unless it is one to ten digits, with 404 unless the challenge was armed within the TTL and not cancelled, with 409 when it took a code before, and accepted otherwise, whoever it is for |
| OtpAnswers.FetchAnswers | legacy/scripts/router.py:2517-2547 | over any trace a fetch is refused with 400, 404 or 403 or gives the accepted code, unless it was handed out before |
| OtpAnswers.CancelAnswers | legacy/scripts/router.py:2496-2515 | a cancel of a pending challenge is confirmed exactly to the slot and owner that armed it, and in any case the challenge is gone |
| Otp.Desk.ArmChallenge | legacy/scripts/router.py:2450-2494 | arming a challenge; the table stays that of the requests so far, over which codes are taken and handed out once |
| Otp.Desk.SubmitCode | legacy/scripts/router.py:2549-2599 | submitting a code, with every refusal and its effect on the table |
| Otp.Desk.FetchCode | legacy/scripts/router.py:2517-2547 | fetching a code once |
| Otp.Desk.CancelChallenge | legacy/scripts/router.py:2496-2515 | cancelling removes the challenge even for a foreign slot |
| GrantStore.RunRefines | legacy/scripts/granthub.py:133-167 | after any completed grants, upgrades and revokes the two files hold exactly what the plain map of keys and sessions holds |
| GrantStore.ReadersSeePlain | legacy/scripts/granthub.py:178-271 | unwrap and unwrap_session return the last stored values exactly when status reports shared and usable, and raise otherwise |
| GrantStore.GrantedKeyReturns | legacy/scripts/granthub.py:215-240 | the granted key string comes back exactly when it was canonical base64 |
| GrantStore.HalfGrant | legacy/scripts/granthub.py:150-152 | a grant stopped between its two writes is reported as shared; without an older key nothing is unwrapped, and with one the new payloads open exactly when the older key seals some bytes to the same ciphertext and tag |
| GrantStore.HalfRevoke | legacy/scripts/granthub.py:274-288 | a revoke stopped between its two writes already makes both readers raise, and running it again ends where the whole one ends |
| GrantStore.RevokeAllExact | legacy/scripts/granthub.py:291-299 | the kill switch completes exactly when every folder name is a canonical identity; it revokes the grants listed before the first other name and no more |
| GrantStore.KillSwitchMisses | legacy/scripts/granthub.py:291-299 | with another folder listed first the kill switch fails and the grant can still be unwrapped |
| GrantAnswers.ReadAnswers | legacy/scripts/granthub.py:200-271 | after any requests the two readers return the granted key and session or say why not: no identity, no grant, revoked, no session |
| GrantAnswers.WriteAnswers | legacy/scripts/router.py:2353-2370 | a grant is refused exactly for bad base64 or a name that is no identity, a session exactly when there is no grant to add it to, a revoke exactly for a bad name |
| GrantAnswers.GrantWritten | legacy/scripts/granthub.py:133-152 | a record carries the name, the scope and the key it was granted with, sealed under the fresh key that is stored beside it |
| GrantAnswers.OthersKeep | legacy/scripts/granthub.py:154-167 | no request but a new grant of the same identity changes name, scope or wrapped key, and none revives a revoked record |
| GrantStore.Store.Grant | legacy/scripts/router.py:2353-2362 | a grant request wraps both payloads and writes record and key |
| GrantStore.Store.Upgrade | legacy/scripts/router.py:2366-2370 | a session upgrade wraps under the stored key |
| GrantStore.Store.RevokeGrant | legacy/scripts/granthub.py:274-288 | a revoke marks the record and deletes the key |
| GrantStore.Store.RevokeEvery | legacy/scripts/granthub.py:291-299 | the loop of the kill switch, stopped by the first error |
| GrantStore.Store.UnwrapKey | legacy/scripts/granthub.py:215-240 | unwrapping runs the GCM decryption and reports each failure as the source does |
| Frames.FrameRoundTrip | legacy/scripts/window-manager.py:95-112 | a frame is read back, in all three length forms, masked or not, exactly when all of it arrives before the next pause, whatever pieces it arrives in |
| FrameStreams.ReceivedPrefix | legacy/scripts/window-manager.py:73-119 | however a stream is cut and however much of it arrives, a caller that stops at the first error other than an idle wait receives a prefix of the text payloads, unaltered and in order |
| FrameStreams.ReceivedAll | legacy/scripts/window-manager.py:73-119 | when no wait times out this caller receives every text payload up to a close frame, in order |
| FrameStreams.HeardPrefix | legacy/scripts/window-manager.py:138-186 | a caller that goes on after every error receives a prefix of the text payloads as long as no call gives up inside a frame |
| FrameStreams.HeardAll | legacy/scripts/window-manager.py:138-186 | and it receives all of them, in order, when the stream ends on a frame and there is a call for every frame and every pause |
| FrameStreams.StreamRoundTrip | legacy/scripts/window-manager.py:73-119 | any sequence of frames cut into any pieces without a pause is returned unaltered and in order |
| FrameStreams.StallForges | legacy/scripts/window-manager.py:138-186 | a frame that stalls after its header: the next call returns a message that nobody sent |
| FrameStreams.BufferedFrameWaits | legacy/scripts/window-manager.py:95-100 | two frames in one piece: the second is buffered and the wait for it times out |
| FrameStreams.PongBreaksStream | legacy/scripts/window-manager.py:113-115 | after a ping with a payload no sequence of frames has the bytes that were written |
| Frames.DeliveredExact | legacy/scripts/window-manager.py:95-119 | a pending text frame is returned exactly when the socket has something to read now, even if the frame is buffered, and the rest of it comes without a pause |
| Frames.StallLosesExact | legacy/scripts/window-manager.py:73-100 | when a started frame stalls, bytes of it are lost exactly when its two header bytes had arrived |
| Frames.PongExact | legacy/scripts/window-manager.py:113-115 | the answer to a ping is one well-formed frame exactly when the ping was empty |
| FrameBytes.SentBytes | legacy/scripts/window-manager.py:82-93 | what is written is, byte by byte, a final text frame: 0x81, the shortest of the three length forms with the mask bit, the key, and the data under the repeated key (section 5.2 of RFC 6455) |
| FrameBytes.ReadParses | legacy/scripts/window-manager.py:95-112 | whatever is read stands at the front of the bytes as that section lays a frame out, in any of the length forms, and what is left follows it |
| Frames.CDPWs.ReadBytes | legacy/scripts/window-manager.py:73-80 | the buffering loop equals `Read` |
| Frames.CDPWs.RecvJson | legacy/scripts/window-manager.py:95-119 | the receive loop equals `Recv`, pongs included |
| Frames.CDPWs.SendJson | legacy/scripts/window-manager.py:82-93 | what is written is the encoding of one masked text frame |
| Archive.CrashSafe | legacy/scripts/restart-api.py:529-583 | stopped after any file operation, the old archive is untouched, or the new one is complete beside it, or complete in its place |
| Archive.GrantSurvives | legacy/scripts/restart-api.py:567-575 | at every such point the whole grant is in the archive or beside it |
| Archive.GrantCarried | legacy/scripts/restart-api.py:567-583 | after a completed run the grant in the archive is exactly the one that was in the archive when the run began |
| Archive.RetryLosesGrant | legacy/scripts/restart-api.py:529-532 | a run stopped after the old archive was removed, followed by a complete run, loses the grant |
| Archive.RetryKeepsGrantExact | legacy/scripts/restart-api.py:529-583 | a run stopped after any operation and followed by a complete one keeps the grant exactly when the first one had removed nothing of it or had come to its end |
| Restore.ArchivePassesRestore | legacy/scripts/restart-api.py:645-679 | every archive that was made passes the completeness and owner tests of restore |
| Restore.RestoreInvertsArchive | legacy/scripts/restart-api.py:680-695 | restore gives back the profile without cache directories and SSO cookies, with the carried tab snapshot, and the downloads without the slot marker |
| Restore.SecondCycle | legacy/scripts/restart-api.py:495-709 | a second cycle of archive and restore changes neither archive nor slot, whether or not the second archive is skipped for its size |
| ArchiveDisk.Disk.ArchiveUser | legacy/scripts/restart-api.py:495-592 | the archive run as loops over the disk equals the list of operations the theorems are about, or nothing when the guards refuse |
| ArchiveDisk.Disk.RestoreUser | legacy/scripts/restart-api.py:645-709 | the restore run equals its list of operations |
| ArchiveDisk.Disk.WipeSlotDirs | legacy/scripts/restart-api.py:624-642 | the wipe of profile and downloads |
| Slot.IsolationOverRuns | legacy/scripts/restart-api.py:754-973 | over every run the browser sits on the profile it was started on, profile and downloads of a bound slot hold only its user's data, every archive only its own user's, and the binding survives a boot |
| Slot.NextIsolated | legacy/scripts/restart-api.py:754-973 | every step keeps this isolation |
| Slot.IdentifyExact | legacy/scripts/restart-api.py:1692-1717 | naming a user keeps the slot isolated exactly when it is not bound to somebody else or that user left nothing there |
| Slot.IdentifyVacant | legacy/scripts/restart-api.py:1692-1717 | a slot without a browser, with an empty profile and nothing but the owner file in the downloads, may be given any name |
| Slot.IdentifyOverUser | legacy/scripts/restart-api.py:1692-1717 | a user is woken and another one named: the browser of the first runs on the slot of the second |
| Slot.WakeHandsOver | legacy/scripts/restart-api.py:880-973 | whatever was on the slot, a wake that does not find its own user's browser running leaves an isolated slot with the woken user's data only |
| Lifecycle.SuspendLeaves | legacy/scripts/restart-api.py:754-858 | a suspend with a complete profile, and no empty shell over an older archive, leaves the new archive entry by entry, empty folders and no binding; any other leaves slot, archive and binding as they were; the browser is stopped in both |
| Lifecycle.SuspendOwnerless | legacy/scripts/restart-api.py:754-858 | without a user a running browser is stopped and the slot emptied; where there is nothing to suspend nothing changes |
| Lifecycle.TabsKept | legacy/scripts/restart-api.py:803-822 | before a suspend the tabs are written where the browser was started for the bound user, old ones removed where it was not, and nothing else changes |
| Lifecycle.TabsArchived | legacy/scripts/restart-api.py:785-858 | the tabs of a woken user are in the archive of the next suspend, as that user's |
| Lifecycle.WakeBrings | legacy/scripts/restart-api.py:880-973 | a wake that starts the browser finds the archived profile without caches and identities and the archived downloads when the archive is complete and not another user's, and empty folders otherwise; the owner file names the user and the archive stays |
| Lifecycle.WakeServes | legacy/scripts/restart-api.py:880-973 | the browser of a woken user serves that user on the profile that was just filled; a wake of the running user changes only the flag |
| Lifecycle.ArchiveHolds | legacy/scripts/restart-api.py:529-583 | an archive holds the profile without caches and identities, the older tabs when there are none, the downloads without the slot's own files, the older grant, and nothing else |
| Lifecycle.SuspendThenWake | legacy/scripts/restart-api.py:754-973 | a suspend and a wake that sees the archive as it was left bring profile and downloads back |
| Lifecycle.CycleOverSteps | legacy/scripts/restart-api.py:754-973 | and so do they when any fair steps for other users run on the slot in between |
| Slot.Api.DoWake | legacy/scripts/restart-api.py:880-973 | a wake performs `Wake`, of which Lifecycle says what it brings, and keeps an isolated slot isolated |
| Slot.Api.DoSuspend | legacy/scripts/restart-api.py:754-858 | a suspend performs `Suspend`, ownerless slots and stale flags included, of which Lifecycle says what it leaves, and keeps an isolated slot isolated |
| Slot.Api.SetSlotUser | legacy/scripts/restart-api.py:432-467 | binding a user; the same owner is not written again |
| Slot.Api.BootUp | legacy/scripts/restart-api.py:1813-1845 | a boot binds the slot to the user of its owner file |
| Snapshots.SavedReadsBackExact | legacy/scripts/restart-api.py:1246-1303 | a saved list, cut at SNAPSHOT_MAX, reads back unchanged exactly when a page other than the homepage is among its first SNAPSHOT_MAX, so always when it is no longer than that |
| Snapshots.HomepagesHideOthers | legacy/scripts/restart-api.py:1320-1353 | ten spellings of the homepage before another page read back as an empty list, with any filter of sign-in pages that lets these through |
| Snapshots.CountFallsExact | legacy/scripts/restart-api.py:1271-1295 | while the stored snapshot is young its count falls exactly when it was above SNAPSHOT_MAX and at least as many pages are open |
| Snapshots.CountNeverFalls | legacy/scripts/restart-api.py:1271-1295 | over every run of snapshots the count never falls while the stored one is young |
| Snapshots.CrashAtomic | legacy/scripts/restart-api.py:1223-1243 | stopping the two-file write at any operation leaves readers with the whole old list or the whole new one |
| SnapshotAnswers.LoadAnswers | legacy/scripts/restart-api.py:1340-1371 | loading gives the live file's pages in their order, none when all are the homepage, whenever that file can be read; only when it cannot those of the recovery copy; none when neither can |
| SnapshotAnswers.SnapshotAnswers | legacy/scripts/restart-api.py:1246-1303 | a snapshot keeps the pages of the first tabs that show them, in that order; it changes nothing when only the homepage is open, keeps a longer young list and repairs its copy, and writes at most ten to both files otherwise |
| SnapshotAnswers.HomeExact | legacy/scripts/restart-api.py:1306-1316 | a page counts as the homepage exactly when the two differ in slashes at the end only |
| Snapshots.Keeper.SnapshotTabs | legacy/scripts/restart-api.py:1246-1303 | the snapshot as the source takes it: filters, the richer one kept, two files |

## Left out

- Locks and threads: each step is one locked section. Taking an offer, and each assignment with its rollback, is one step (TakeCommitExact gives the condition for the second section of a take on its own); times are read inside it and do not go back where a statement says so.
- OccupancyOverRuns: is stated for runs without the rollbacks that NextOccupancy shows to break it, and with the sweep's probe and assignment in one step; HintCommitExact gives the condition for them apart.
- IsolationOverRuns: assumes that stops take effect, that the status probe is truthful, that no process dies inside a wake or suspend, and that the router names nobody on a slot bound to somebody else (IdentifyExact says what happens otherwise).
- Archive: symbolic links, file modes, ownership repair, copy errors and unreadable cookie databases; user names that end in `.tmp` are excluded because they collide with the build folder of another archive.
- Other slots that share the sessions volume are not part of a run; what a slot needs of them is that archives stay pure.
- Queue entries are records in a map named by number, not heap objects; their id strings are modelled in QueueIds.
- Agent slots in the claim that no held slot is assigned: the instant grant ignores holds.
- The router's session-clock refresh, history, pushed identities, rescue counters, terminal timeout index and the rebuild of an empty slots table at load, which the tables under Occupancy never need.
- `_offer_wake`: nothing calls it.
- The email grammar, base64, JSON, UTF-8, AES, SHA-1, HMAC and modular exponentiation: parameters with the laws that are needed.
- Emails with a `/` in the local part, which the docstring of `canonical_email` excludes and its grammar accepts: the source joins them into a path, so two of them can share a grant folder or nest, and the kill switch does not list it; here each canonical email is a folder of its own.
- Python's other spellings of hexadecimal numbers and Unicode digits in one-time codes.
- Idle detection, stream guard, watchdog restarts and tab limits: timing loops around external probes.
- HTTP, HTML pages, injected scripts, the TCP proxy, CDP, X11 and supervisor calls.
- `totp.py`, `janitor.py`, `downloads-api.py`, `credential_capability.py`, `edge_auth.py`, `identity_link_service.py`, `agent_control.py` and everything under `src/`: validation and short branches that would add only easy members.
