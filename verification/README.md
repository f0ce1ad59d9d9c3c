# Verified model of the SpotiFLAC Mobile backend

A Dafny model of the parts of the Go backend whose correctness depends on more than one function: binary
formats, file surgery, resumable downloads, and the protocols by which concurrent callers share script VMs, a
signed session, cancellations and caches. `dafny verify dfyconfig.toml` checks the whole project.

## What is modelled

Code that works step by step on a buffer, a record or a table is an imperative method or a class, proved against a
function of its inputs or old state; the properties are lemmas about these functions. Protocols between threads are
transition systems whose actions are the sections of code that run under a mutex; the theorems are about every run.

| files | component |
|---|---|
| `Mp4Boxes`, `Mp4Edits` | box headers, box walks, chunk-offset shift, size growth and the moov edits, in place on a buffer |
| `Mp4Tree`, `Mp4Shift`, `Mp4Splice`, `Mp4Surgery` | the box tree behind a buffer, and what walks, shifts and splices mean for it |
| `Mp4Normalize`, `Mp4Config`, `Mp4Metadata`, `Mp4Samples`, `Mp4Brands` | the theorems about the edits |
| `Mp4Append`, `Mp4Tiling` | metadata appended to a moov with size-0 boxes: chunk offsets, samples, and the tree that is left |
| `Mp4Cases` | every tree has bytes that parse as it; concrete moovs |
| `VmOwnership`, `VmSafety`, `VmProgress` | who may execute in an extension's VMs, and what becomes of them |
| `SignedSession`, `SignedSessionRuns`, `SignedSessionEffects` | the signed session shared by all runtimes of a scope |
| `Download`, `ChunkedDownload` | staged downloads with resume, and by chunks |
| `Ogg`, `ApeTags`, `ApeMerge`, `BlockCipher` | Ogg packet collection, APEv2 tags, PKCS#7 and segment-wise CTR |
| `EditDistance` | the edit-distance matrix and the similarity on top |
| `CancelRegistry`, `CoverCache`, `CoverFlights`, `IsrcIndex` | registries and caches |
| `Bytes` | bytes, big- and little-endian fields, slices |

How the MP4 results fit together. A buffer `Parses` as a tree when its headers, read one by one, give that tree and the
children tile their parents, for 8-byte, 16-byte and size-0 headers alike. The `…Parses` lemmas say which tree
the edited buffer parses as: the old one with its chunk-offset entries shifted and the one edited box replaced.
`AllShifted` and `AllMove` follow the chunk offsets, read from bytes before and after; `SamplesKept` says that in the
file `pre + moov + post` each of them addresses the same bytes as before, for any run of bytes outside the moov.

## Where the code does not do what it says

Each of these comes with the exact condition under which the claim holds, for all inputs, and with a lemma that gives a
concrete failing case or, where the condition itself says so, all of them.

- The comment at go_backend/extension_timeout.go:101-105 promises that a VM is never entered by two callers. The closures of
  `callExtension` and `EnrichTrackForItemID` read the wrapper's `vm` field when their goroutine runs. If that is after the
  grace period, and the wrapper has been locked again, the goroutine enters the new VM (`VmSafety.LateStartCollides`). A start
  keeps VMs to one goroutine each exactly if nobody executes in the VM entered (`VmSafety.StartIsExclusiveIff`). Whenever a
  caller takes up a wrapper through which an earlier call has not started yet, that start breaks it
  (`VmSafety.ReusedWrapperCollides`); callers that drop a wrapper once its VM was quarantined are safe whatever the timing
  (`VmSafety.CarefulCallersAreSafe`).
- A metadata box appended to a moov whose last child has size field 0 is taken in by that child, and written again by
  the next write (`Mp4Metadata.UdtaTwiceIff`, `Mp4Metadata.AppendParsesIff`; `Mp4Cases.SwallowedMetadata`). The moov then parses as
  the tree in which the last size-0 box holds the new one, exactly if only size-0 boxes stand above that
  (`Mp4Tiling.AppendedParsesIff`); where a box the walks look into ends in a size-0 box and has an end of its own, no tree
  tiles the moov (`Mp4Tiling.TiledIff`; `Mp4Cases.PhantomOffset`).
- An offset table of size field 0 that counts more entries than it holds gains entries from an appended metadata box. The
  samples survive exactly if each such table of a track holds what it counts, or there was a metadata box to replace
  (`Mp4Append.UdtaKeepsSamplesIff`; `Mp4Cases.PhantomOffset`).
- A configuration box of size field 0 takes in what follows it in the moov once copied: the box found is the source's, and
  the moov parses as the expected tree, exactly if that field is not 0 or the entry ends the moov with no child
  (`Mp4Config.EnsureResult`; `Mp4Cases.OpenEndedConfig`).
- The major brand is measured against the buffer and not against the ftyp box, so an ftyp box without one loses the size
  field of the next box (`Mp4Brands.BrandsFrame`; `Mp4Brands.EmptyFtypHitsNextBox`).
- The block at go_backend/extension_signed_session.go:865-868 is to keep requests of a generation that needs verification from
  the gateway. A retry does not look at it (`SignedSessionRuns.SignerBlockedIff`; `SignedSessionRuns.BlockedSessionSigns`).
- A download restarted by a 200 without a length waits for the length of the object it replaces
  (`Download.PromotedCompleteIff`; `Download.UnannouncedRestart`). A `range` header in other letter case is sent, but not seen:
  what is promoted is one part of one representation for every honest server exactly if resuming is off or there is no
  such header (`Download.OnePartIff`; `Download.OverlookedRange`).
- A chunked download appends a late 200 to what is staged (`ChunkedDownload.PromotedIsWholeIff`; `ChunkedDownload.LateFull`), fails
  when the total is unknown and the size a multiple of the chunk size (`ChunkedDownload.UnknownTotal`), and asks for ever when
  the server stalls on empty parts (`ChunkedDownload.RunsForeverIff`; `ChunkedDownload.EmptyChunksLoop`).
- An APE tag reads back exactly if its version is 0, 1000 or 2000, it has at most 1000 items, its size fits 32 bits and no key
  holds a NUL byte (`ApeTags.ReadAfterWrite`); any other tag is written all the same (`ApeTags.UnknownVersionIsLost`,
  `ApeTags.TooManyItems`). PKCS#7 padding wraps for block sizes above 255 (`BlockCipher.UnpadOfPad`).
- An `Add` for a path that is indexed under another ISRC leaves that ISRC pointing to it (`IsrcIndex.AddStaysExactIff`;
  `IsrcIndex.RetaggedFileKeepsOldIsrc`). An `Add` while a rebuild is under way goes to the index that is replaced
  (`IsrcIndex.AddedMeanwhileIff`; `IsrcIndex.AddedBehindWalkIsLost`).

## Model

| member | source | states |
|---|---|---|
| Mp4Boxes.FindChildMp4 | go_backend/ac4_config.go:45-58 | the box walk finds the first child of a type |
| Mp4Samples.EntryMoves | go_backend/ac4_config.go:183-205 | one entry: 64-bit ones are compared and moved as signed numbers, 32-bit ones as unsigned |
| Mp4Boxes.ShiftTableInPlace | go_backend/ac4_config.go:183-205 | the loop over one stco or co64 table shifts exactly its entries at or beyond the insert position, in the table's own width |
| Mp4Boxes.ShiftChunkOffsets | go_backend/ac4_config.go:165-209 | the in-place shift is the shift of the first stco and first co64 table of every track |
| Mp4Boxes.GrowChain | go_backend/ac4_config.go:154-160 | growing nested boxes rewrites their size fields, 32 or 64 bits wide, and nothing else |
| Mp4Edits.LocateAc4Entry | go_backend/ac4_config.go:119-152 | the search gives the first track's moov-to-entry chain |
| Mp4Edits.FindBoxBySignature | go_backend/ac4_config.go:77-89 | the scan finds a readable box of the type at the first position where one stands, however it is nested; if it finds none, none stands at any position |
| Mp4Edits.NormalizeAudioEntry | go_backend/ac4_config.go:237-271 | the in-place edit is the specified rewrite of the buffer |
| Mp4Edits.EnsureAc4ConfigBox | go_backend/ac4_config.go:289-392 | every outcome of the pass: left alone, malformed entry, no source box, or the rewritten moov |
| Mp4Edits.WriteITunesMetadata | go_backend/ac4_metadata.go:127-154 | the first udta is replaced, or one appended at the moov's end |
| Mp4Tree.Moved | go_backend/ac4_config.go:21-43 | bytes that read as a tree read as it wherever they are moved, if no size-0 box in it loses or gains bytes behind it |
| Mp4Tree.WalkFinds | go_backend/ac4_config.go:45-58 | the walk over bytes finds exactly the first child of the type in the tree |
| Mp4Shift.DescendFinds | go_backend/ac4_config.go:125-146 | the nested walks find exactly the path in the tree |
| Mp4Shift.ShiftMoovParses | go_backend/ac4_config.go:165-209 | after the shift the moov parses as the same tree with only chunk-offset tables rewritten |
| Mp4Shift.TraksShifted | go_backend/ac4_config.go:183-205 | every chunk offset of every track is shifted, none lost or added |
| Mp4Splice.GrowAllGrew | go_backend/ac4_config.go:154-160 | growing the boxes on a path changes their size fields only |
| Mp4Splice.CutAround | go_backend/ac4_config.go:260-270 | after growth and splice every ancestor's header carries the new size and its other children stand where they should |
| Mp4Surgery.LocateIs | go_backend/ac4_config.go:119-152 | the search over bytes finds the tree's AC-4 entry, if and only if there is one |
| Mp4Surgery.EntryIsFirst | go_backend/ac4_config.go:119-152 | no track in front of the one found has such an entry, and no track at all if none is found |
| Mp4Surgery.ShiftKeepsEntry | go_backend/ac4_config.go:165-209 | the shift leaves the whole AC-4 entry untouched and findable |
| Mp4Normalize.NormalizedParses | go_backend/ac4_config.go:237-271 | dropping the version-1 extension gives the same tree with version 0, 16 bytes less in the entry and all chunk offsets shifted |
| Mp4Config.SourceConfigParses | go_backend/ac4_config.go:367-375 | what is copied from the source is one whole configuration box, whatever its size field |
| Mp4Config.SourceConfigIff | go_backend/ac4_config.go:363-375 | the source lacks a moov exactly if none is readable, and the box exactly if no position in its moov holds a readable one; otherwise the first is copied |
| Mp4Config.OutcomeIff | go_backend/ac4_config.go:312-373 | which outcome the pass has: left alone without an entry; an error exactly if a box is needed and the source has none, saying which is missing |
| Mp4Config.MalformedIff | go_backend/ac4_config.go:94-112 | the entry is malformed exactly if the fields of its version are not all there |
| Mp4Config.InjectedParses | go_backend/ac4_config.go:377-389 | injecting gives the same tree with the box as the entry's first child and all chunk offsets shifted; a box of size field 0 must stand at the end |
| Mp4Config.InjectedSettled | go_backend/ac4_config.go:377-389 | whatever the size field of the box: moov tiled, all chunk offsets shifted, and the box found is the copied one or, with size field 0, all that follows |
| Mp4Config.ConfiguredParsesIff | go_backend/ac4_config.go:377-389 | the result is the expected tree exactly if the size field is not 0 or nothing stands behind the insert position |
| Mp4Config.EnsureResult | go_backend/ac4_config.go:289-392 | the whole pass: moov tiled, samples kept, a second pass with any source changes nothing; the expected tree and the source's box byte for byte exactly if that box has an explicit size or is put at the moov's end |
| Mp4Cases.OpenEndedConfig | go_backend/ac4_config.go:371-375 | a moov and a source for which the box found after the pass is not the one copied and the tree not the expected one |
| Mp4Cases.PrintParses | go_backend/ac4_config.go:21-43 | every tree, of 32-bit, 64-bit and size-0 headers, is written as bytes that parse as it |
| Mp4Cases.HeaderReads | go_backend/ac4_config.go:21-43 | each of the three header forms is read as the size and type it was written with |
| Mp4Metadata.AtomParses | go_backend/metadata_m4a.go:432-439 | a built box reads back as a box of its type and payload |
| Mp4Metadata.UdtaParses | go_backend/ac4_metadata.go:127-154 | replace or append gives the same tree with one new box and all chunk offsets shifted |
| Mp4Append.OffsetsShiftedIff | go_backend/ac4_metadata.go:134-153 | after replacing or appending, a player reads the old chunk offsets, each shifted, exactly if there was a udta or every size-0 offset table of a track holds the entries it counts |
| Mp4Append.UdtaKeepsSamplesIff | go_backend/ac4_metadata.go:134-153 | each chunk offset addresses the bytes it addressed before, and none is added, exactly under that condition |
| Mp4Metadata.UdtaTwiceIff | go_backend/ac4_metadata.go:127-154 | writing twice equals writing once exactly if there was a udta to replace or the last child has an explicit size |
| Mp4Metadata.AppendParsesIff | go_backend/ac4_metadata.go:144-153 | an appended box leaves the old tree with that box as last child exactly if no box in it has size field 0 |
| Mp4Tiling.AppendedParsesIff | go_backend/ac4_metadata.go:144-153 | an appended box leaves the tree in which the last size-0 box takes it in, or it is the last child, exactly if no box with an explicit size stands above that size-0 box |
| Mp4Tiling.TiledIff | go_backend/ac4_metadata.go:144-153 | some tree tiles the moov after an append exactly if no box the walks look into has both an explicit end and a last child that runs to the end |
| Mp4Cases.SwallowedMetadata | go_backend/ac4_metadata.go:144-153 | a moov whose size-0 child takes in the appended box, and which is given another by the next write |
| Mp4Cases.PhantomOffset | go_backend/ac4_metadata.go:144-153 | a moov without chunk offsets that has one after the append, and that no tree tiles then |
| Mp4Samples.MovedKeepsSamples | go_backend/ac4_config.go:162-164 | offsets that move with the bytes behind the moov address the same bytes in the new file |
| Mp4Brands.NormalizeQuickTimeBrands | go_backend/ac4_config.go:214-231 | the loop rewrites the brands and reports a change exactly if a byte changed |
| Mp4Brands.BrandsNormalized | go_backend/ac4_config.go:211-231 | mp42 as major brand, no QuickTime brand left, ftyp in place, rewriting again changes nothing |
| Mp4Brands.BrandsFrame | go_backend/ac4_config.go:220-223 | bytes outside the ftyp box stay exactly if a major brand fits it |
| Mp4Brands.EmptyFtypHitsNextBox | go_backend/ac4_config.go:220-223 | an ftyp box without a brand loses the size field of the next box |
| VmOwnership.LoadedExtension.InitializeVm | go_backend/extension_manager_runtime.go:13-36 | the fields are cleared and then hold the fresh VM |
| VmOwnership.LoadedExtension.DropVm | go_backend/extension_manager_runtime.go:373-387 | teardown clears the VM fields |
| VmOwnership.LoadedExtension.AcquireIdle | go_backend/extension_manager_runtime.go:153-161 | pops the last pooled VM |
| VmOwnership.LoadedExtension.PoolIfRoom | go_backend/extension_manager_runtime.go:178-185 | pools a VM if fewer than one is idle |
| VmOwnership.LoadedExtension.TakePool | go_backend/extension_manager_runtime.go:213-217 | empties the pool in one step |
| VmOwnership.LoadedExtension.Quarantine | go_backend/extension_manager_runtime.go:201-209 | detaches the VM only if it is still the extension's |
| VmProgress.EveryStepKeeps | go_backend/extension_timeout.go:60-132 | every action of every thread keeps each VM with one owner, each goroutine in its own VM, each script whose time is up interrupted, and shared calls in a VM with a runtime |
| VmSafety.RunsAreSafe | go_backend/extension_timeout.go:101-105 | in every interleaving in which goroutines enter the VMs their calls were made for: no VM is executed by two goroutines, lost VMs are out of reach, idle VMs have no interrupt pending |
| VmSafety.TimelyRunsAreSafe | go_backend/extension_timeout.go:101-105 | the same if closures start while their callers wait |
| VmSafety.CarefulCallersAreSafe | go_backend/extension_timeout.go:101-105 | the same, whatever the timing, if no wrapper is taken up again once a call through it was quarantined |
| VmSafety.LocalCallersAreSafe | go_backend/extension_timeout.go:101-105 | the same, with no condition, for calls that hold their VM in a local |
| VmSafety.LostForever | go_backend/extension_manager_runtime.go:198-200 | a VM whose goroutine outlived the grace period is never entered, cleaned up, pooled or given a goroutine again |
| VmProgress.ScriptsAreInterrupted | go_backend/extension_timeout.go:90-99 | in every such run a script whose time is up is interrupted until its goroutine ends or the grace period runs out, whichever way its caller holds the VM |
| VmProgress.InterruptedIff | go_backend/extension_timeout.go:89-99 | a VM is interrupted exactly by the timeout of its caller, and the interrupt cleared exactly by its return |
| VmProgress.LateCallFails | go_backend/extension_timeout.go:106-130 | once its time is up a call fails, however its script ends |
| VmProgress.NoDeadlock | go_backend/extension_manager_runtime.go:152-166 | in every state of such a run a thread in a call can act, or waits for VMMu while the thread that holds it can act |
| VmProgress.InUseUnless | go_backend/extension_manager_runtime.go:171-225 | conservation, at every step of such a run: a VM stays the extension's, pooled or some thread's exactly unless its cleanup ran, a grace period ran out on it, it was replaced for want of a runtime, or building it failed |
| VmProgress.SucceededVmIsPooled | go_backend/extension_manager_runtime.go:178-185 | the VM of a call that succeeds is pooled, not interrupted, if there is room and the extension is enabled |
| VmProgress.PooledVmIsReused | go_backend/extension_manager_runtime.go:153-160 | a call takes a pooled VM and builds none |
| VmProgress.FailedVmIsCleaned | go_backend/extension_manager_runtime.go:168-196 | the VM of a call that fails, in time or interrupted, is cleaned up and not pooled |
| VmProgress.OtherVmIsCleaned | go_backend/extension_manager_runtime.go:178-192 | a VM in which nothing ran, or of a disabled extension, is cleaned up and not pooled |
| VmSafety.StartIsExclusiveIff | go_backend/extension_provider_wrapper.go:103-105 | after a goroutine's start every VM is executed by one goroutine at most exactly if nobody executes in the VM it enters |
| VmSafety.ReusedWrapperCollides | go_backend/extension_provider_wrapper.go:103-105 | a caller that took up a wrapper with a late start pending loses its VM to it, from any reachable state |
| VmSafety.LateStartCollides | go_backend/extension_provider_wrapper.go:103-105 | a run in which a late start through a re-used wrapper puts two goroutines into one VM |
| SignedSession.Coordinator.StartVerificationLocked | go_backend/extension_signed_session.go:999-1142 | share the active challenge, take over a pending one, or bootstrap |
| SignedSessionEffects.VerificationEnds | go_backend/extension_signed_session.go:999-1142 | a URL means a challenge on offer that the extension waits for, silence a session in place and no block, an error neither; exactly one bootstrap is sent, exactly if no challenge can be shared or taken over |
| SignedSessionEffects.SharedForFiveMinutes | go_backend/extension_signed_session.go:145-149 | a challenge is shared for five minutes and replaced after that |
| SignedSession.Coordinator.ExchangeGrantLocked | go_backend/extension_signed_session.go:588-682 | the exchange with its retries, and the repeated grant that is not exchanged |
| SignedSessionEffects.GrantTakesEffect | go_backend/extension_signed_session.go:588-682 | when a grant succeeds, and that the session granted is then on disk with block, challenge and what waited for it gone; a failed one changes nothing |
| SignedSessionEffects.LastAnswerIs | go_backend/extension_signed_session.go:621-664 | the exchange ends with the first answer that is no rate limit, or the third |
| SignedSession.Coordinator.EnsureSessionLocked | go_backend/extension_signed_session.go:944-965 | an expired session is removed, one about to expire refreshed, any other kept |
| SignedSessionEffects.SessionEnsured | go_backend/extension_signed_session.go:944-997 | exactly the expired session goes, exactly the one that is due within the hour is refreshed, field by field |
| SignedSession.Coordinator.ClearSessionLocked | go_backend/extension_signed_session.go:527-549 | session, block and challenge are gone |
| SignedSessionEffects.ClearLeavesNothing | go_backend/extension_signed_session.go:527-549 | nothing to sign with is left for any extension, no block, no challenge, nothing pending for those that waited; other pending challenges stay |
| SignedSession.Coordinator.PreflightLocked | go_backend/extension_signed_session.go:470-496 | a usable session that is not blocked is left alone, otherwise a verification starts |
| SignedSessionEffects.PreflightPrepares | go_backend/extension_signed_session.go:470-496 | afterwards there is a session that can sign, a challenge on offer, a session a bootstrap brought, or a bootstrap was sent in vain |
| SignedSession.Coordinator.EnterFetch | go_backend/extension_signed_session.go:715-754 | the record the first request is signed with, or none |
| SignedSessionEffects.GoodSessionSigns | go_backend/extension_signed_session.go:715-754 | a session that is usable, not blocked and not due signs at once, and nothing changes |
| SignedSessionEffects.RefusedIsVerified | go_backend/extension_signed_session.go:716-753 | a fetch without a session to sign with has put a challenge on offer or sent a bootstrap |
| SignedSessionEffects.BlockedFetchGoesOn | go_backend/extension_signed_session.go:727-753 | a blocked fetch goes on when the bootstrap brings a usable session |
| SignedSession.Coordinator.HandleAnswer | go_backend/extension_signed_session.go:775-899 | each answer retries, is discarded as stale, or punishes the session that signed it: SESSION_INVALID removes it, VERIFY_REQUIRED blocks it, and no other session is touched unless a bootstrap brings one |
| SignedSessionEffects.InvalidSessionGoes | go_backend/extension_signed_session.go:854-864 | SESSION_INVALID for the session on disk leaves none there, or the one a bootstrap brought |
| SignedSessionEffects.VerifyBlocksSigner | go_backend/extension_signed_session.go:865-869 | VERIFY_REQUIRED for the session on disk blocks its generation, unless a bootstrap brings another |
| SignedSessionEffects.OthersAreNotPunished | go_backend/extension_signed_session.go:854-869 | what is said of another session neither removes nor blocks the one on disk |
| SignedSessionEffects.RetriedIff | go_backend/extension_signed_session.go:771-899 | which answers are followed by another request, how often, and who signs it |
| SignedSessionEffects.RotatedIsAnother | go_backend/extension_signed_session.go:383-388 | a session with a rotated secret is another one: answers for the old one are stale, and its block does not hold |
| SignedSessionEffects.RevokedFetchGoesOn | go_backend/extension_signed_session.go:883-897 | a fetch whose session is revoked goes on with the session the bootstrap brings |
| SignedSession.Coordinator.FetchFrom | go_backend/extension_signed_session.go:760-900 | the loop ends within five requests, whatever the server answers and other runtimes do between |
| SignedSessionEffects.LoopEndsOnReturn | go_backend/extension_signed_session.go:760-900 | the loop returns on the first answer that is not retried, one answer a request |
| SignedSessionRuns.AnswersThatMatter | go_backend/extension_signed_session.go:406-437 | an answer can change the shared state, for some session and challenge, exactly if the gateway sends one of two triples; no answer is in two classes |
| SignedSessionRuns.OtherAnswersOverRuns | go_backend/extension_signed_session.go:771-829 | over whole runs all other answers leave session, block, challenge and pending requests as they were |
| SignedSessionRuns.StaleAnswersChangeNothing | go_backend/extension_signed_session.go:837-853 | an answer to a request signed by another session changes nothing while a usable session is on disk |
| SignedSessionRuns.WhatReplaces | go_backend/extension_signed_session.go:831-869 | the only steps that replace or remove a usable session |
| SignedSessionRuns.WhatClears | go_backend/extension_signed_session.go:854-863 | a usable session is removed only by SessionClear or SESSION_INVALID for the very session that signed |
| SignedSessionRuns.SessionSurvives | go_backend/extension_signed_session.go:756-759 | over whole runs a usable session outlives every stale answer and every failed or repeated grant, in any interleaving |
| SignedSessionRuns.OneChallengeAtATime | go_backend/extension_signed_session.go:1004-1014 | over whole runs, failed and repeated grants included, no second bootstrap is sent while a challenge is active, and all callers share it |
| SignedSessionRuns.ChallengeStaysIff | go_backend/extension_signed_session.go:1004-1014 | an active challenge outlasts an action exactly if that is no clear and no grant that succeeds |
| SignedSessionRuns.ActiveChallengeIsShared | go_backend/extension_signed_session.go:1004-1014 | no single step sends a bootstrap while a challenge is active |
| SignedSessionRuns.GrantIsSentOnce | go_backend/extension_signed_session.go:602-607 | over whole runs a grant that succeeded is not sent again, while its session stays usable and no other grant completes |
| SignedSessionRuns.ExchangeIsBounded | go_backend/extension_signed_session.go:621-664 | at most three exchange requests, repeated only when rate-limited |
| SignedSessionRuns.FirstRequestIsNotBlocked | go_backend/extension_signed_session.go:715-754 | the first request is signed by the session on disk, whose generation is not blocked |
| SignedSessionRuns.SignerBlockedIff | go_backend/extension_signed_session.go:756-899 | a request is signed by a blocked session exactly if it repeats the operation for the provider with a signer blocked meanwhile, or turns from a stale session to a blocked one on disk |
| SignedSessionRuns.BlockedSessionSigns | go_backend/extension_signed_session.go:837-869 | a run in which the retry after a stale answer is signed by the blocked session |
| SignedSessionRuns.RetriesAreBounded | go_backend/extension_signed_session.go:29-35 | every further request uses up budget, and the fifth answer ends the fetch |
| SignedSessionRuns.RunsAreBounded | go_backend/extension_signed_session.go:29-35 | in every run at most five operation requests per fetch, and an offered URL always has its set of waiting extensions |
| Download.Target.FileDownload | go_backend/extension_runtime_file.go:227-472 | the loop with resumes and restarts; the final path changes only by the promoting rename; no request follows a cancel |
| Download.CancelStopsRequests | go_backend/extension_runtime_file.go:393-399 | a download cancelled after a body sends no further request; without resuming, or with a range of the caller, there is one request |
| Download.ResumedIsPromotedIff | go_backend/extension_runtime_file.go:368-472 | from a server that goes on where it is asked to, the object is promoted exactly if all of it arrived with the first answer or one of three resumes |
| Download.OneDrop | go_backend/extension_runtime_file.go:368-472 | for every object there is such a server, and a download broken off once that completes |
| Download.CleanEndIsPromoted | go_backend/extension_runtime_file.go:379-382 | a body that ends cleanly is promoted at once if its length was reached or not announced |
| Download.RestartIsFresh | go_backend/extension_runtime_file.go:425-445 | a restart that announces its length is a fresh start but for the resumes used up |
| Download.WeakTagsAreNotUsed | go_backend/extension_runtime_file.go:306-313 | a weak ETag is never used to resume |
| Download.StagedIsPart | go_backend/extension_runtime_file.go:322-361 | at every moment the staged bytes are a prefix of what the current validator names, or of the part the caller asked for |
| Download.OnePartIff | go_backend/extension_runtime_file.go:369-370 | the promoted content is one part of one representation, for every honest server, exactly if resuming is off or the caller sends no range in other letter case |
| Download.OneWholeIff | go_backend/extension_runtime_file.go:369-370 | with announced lengths it is one whole representation, for every honest server, exactly if the caller sends no range |
| Download.PromotedIsRequested | go_backend/extension_runtime_file.go:369-391 | of a caller's own range the one answer is promoted, complete if its length was announced |
| Download.PromotedIsComplete | go_backend/extension_runtime_file.go:368-472 | with announced lengths and no range of the caller the promoted file is one complete representation, after any drops, resumes and restarts |
| Download.PromotedCompleteIff | go_backend/extension_runtime_file.go:375-391 | the last answer that announces a length decides: the content is complete exactly if the object it announced is as long as the one that arrived; with none announced, the first clean end is promoted |
| Download.AtMostFourRequests | go_backend/extension_runtime_file.go:372-394 | at most four requests, whatever the server answers |
| Download.UnannouncedRestart | go_backend/extension_runtime_file.go:425-446 | a truncated object promoted after a restart without a length |
| Download.OverlookedRange | go_backend/extension_runtime_file.go:369-370 | bytes of two places joined when the caller's range header is spelt in other case |
| ChunkedDownload.FileDownloadChunked | go_backend/extension_runtime_file.go:572-690 | the chunk loop with its tries; offset, written count and staged length agree at each chunk boundary |
| ChunkedDownload.AsksInside | go_backend/extension_runtime_file.go:578-581 | each request asks for one chunk, or up to the last byte, and for nothing behind it |
| ChunkedDownload.RetriedIff | go_backend/extension_runtime_file.go:586-628 | network errors, 403 and 429 are tried three times in all, any other refusal ends the download |
| ChunkedDownload.RefusalsAreOvercome | go_backend/extension_runtime_file.go:572-690 | a server that answers each request by its third try gets exactly its object promoted, within three requests a byte |
| ChunkedDownload.StagedIsPrefix | go_backend/extension_runtime_file.go:572-690 | staged and promoted bytes are a prefix of the object, unless a 200 came late |
| ChunkedDownload.PromotedIsWholeIff | go_backend/extension_runtime_file.go:674-684 | with a known total the promoted file is the object exactly if no 200 came behind staged bytes |
| ChunkedDownload.LateFull | go_backend/extension_runtime_file.go:674-684 | a part and the whole object promoted one behind the other |
| ChunkedDownload.Terminates | go_backend/extension_runtime_file.go:572-690 | with a known total and no empty parts the download ends within three requests a byte |
| ChunkedDownload.RunsForeverIff | go_backend/extension_runtime_file.go:572-690 | with a known total it runs on for ever exactly if, from some request it reaches, every answer is an empty part or worth a retry, with an empty part among any three |
| ChunkedDownload.WholeIsPromoted | go_backend/extension_runtime_file.go:572-690 | if every request for bytes of the object is answered by some of them, however few, exactly the whole object is promoted |
| ChunkedDownload.ByteByByte | go_backend/extension_runtime_file.go:572-690 | for every object there is a server that answers so |
| ChunkedDownload.UnknownTotal | go_backend/extension_runtime_file.go:686-689 | without a total the object is promoted exactly if its size is no multiple of the chunk size |
| ChunkedDownload.EmptyChunksLoop | go_backend/extension_runtime_file.go:674-684 | with a known total empty parts keep the loop going for ever |
| Ogg.ReadOggPageWithHeader | go_backend/audio_metadata_ogg.go:64-97 | a page is read with its segment table and data, or refused |
| Ogg.CollectOggPackets | go_backend/audio_metadata_ogg.go:99-160 | the loops over pages and segments are the specified collection |
| Ogg.PagesReadBack | go_backend/audio_metadata_ogg.go:64-97 | a file laid out from pages reads back as those pages |
| Ogg.PageReadIff | go_backend/audio_metadata_ogg.go:64-97 | a page is read exactly if a well-formed one stands at this position, whole |
| Ogg.DecodeLacing | go_backend/audio_metadata_ogg.go:119-156 | lacing values decode to the packets they were made from, lengths divisible by 255 included |
| Ogg.CollectsLaidPackets | go_backend/audio_metadata_ogg.go:99-160 | for every layout of packets into pages, exactly the non-empty packets of at most 10 MiB that complete within the page limit, cut at the packet limit |
| Ogg.ResumesAfterLoss | go_backend/audio_metadata_ogg.go:110-117 | behind any pages whatsoever a stream laid out from its first page on gives its packets, none joined with what was left open, unless an oversized packet was being skipped |
| Ogg.FreshPageIff | go_backend/audio_metadata_ogg.go:114-117 | a page that continues nothing starts clean exactly if nothing was being skipped |
| Ogg.KeptMembers | go_backend/audio_metadata_ogg.go:100-147 | a packet is kept exactly if it has between one byte and 10 MiB |
| ApeTags.ParseApeItems | go_backend/ape_tags.go:138-182 | the item parser, with its errors and its out-of-range case |
| ApeTags.LongKeyIsOutOfRange | go_backend/ape_tags.go:138-182 | an item whose key pushes its value past the end, for which the slice is out of range |
| ApeTags.MarshalApeTag | go_backend/ape_tags.go:279-338 | header, items and footer as one block |
| ApeTags.ApeFile.FindExistingApeTagSize | go_backend/ape_tags.go:224-277 | the size of the tag at the file's end, also in front of an ID3v1 tag |
| ApeTags.ApeFile.WriteApeTags | go_backend/ape_tags.go:187-222 | the file becomes itself minus its detected tag plus the new one |
| ApeTags.WriteFailsIff | go_backend/ape_tags.go:187-222 | a write fails exactly without items, or if the tag found claims more than the file holds |
| ApeTags.ForeignIsStrippedIff | go_backend/ape_tags.go:224-277 | a rewrite cuts away exactly another program's tag, with or without a header, and the ID3v1 tag behind it, unless there is nothing else in the file |
| ApeTags.ForeignIsRead | go_backend/ape_tags.go:41-135 | items and read-only flag of another program's tag are read, with or without a header, also in front of an ID3v1 tag |
| ApeTags.HeaderIsNoFooter | go_backend/ape_tags.go:104-108 | a header at the end of a file is not taken for a footer |
| ApeTags.WrittenSize | go_backend/ape_tags.go:224-277 | a written tag is detected with exactly its size |
| ApeTags.WriteReplaces | go_backend/ape_tags.go:187-222 | writing t1 then t2 equals writing t2 |
| ApeTags.ReadAfterWrite | go_backend/ape_tags.go:41-182 | of every tag that is written: version and items are read back exactly if the version is known, the items fit and no key holds a NUL byte |
| ApeTags.UnknownVersionIsLost | go_backend/ape_tags.go:94-96 | version 3000 is written and not read |
| ApeTags.TooManyItems | go_backend/ape_tags.go:100-102 | more than 1000 items are never read back |
| ApeMerge.MergeApeItems | go_backend/ape_tags.go:536-557 | the merge keeps what is not overridden, then adds the new items |
| ApeMerge.MergedOnce | go_backend/ape_tags.go:536-557 | merging again changes nothing; other items stay, untouched and in order; the new ones come last |
| ApeMerge.KeysAreFolded | go_backend/ape_tags.go:536-550 | an old item stays exactly if its key, folded, is neither a new item's nor one to override |
| BlockCipher.ApplyPkcs7Padding | go_backend/extension_runtime_binary.go:242-253 | the padded payload |
| BlockCipher.RemovePkcs7Padding | go_backend/extension_runtime_binary.go:255-269 | padding is removed if and only if it is valid |
| BlockCipher.UnpadOfPad | go_backend/extension_runtime_binary.go:242-269 | removing after applying gives the payload exactly for block sizes up to 255 |
| BlockCipher.PadOfUnpad | go_backend/extension_runtime_binary.go:242-269 | applying after removing gives the padded payload |
| BlockCipher.DecryptCtrSegments | go_backend/extension_runtime_binary.go:446-483 | the in-place XOR over all segments, with its refusals |
| BlockCipher.GoodIff | go_backend/extension_runtime_binary.go:454-478 | which segments are applied, and that their counter block starts with the given IV and ends in zeros |
| BlockCipher.OutcomeIs | go_backend/extension_runtime_binary.go:446-483 | the count of segments applied, or the index of the first one refused |
| BlockCipher.OutsideUnchanged | go_backend/extension_runtime_binary.go:446-483 | a byte outside every segment applied keeps its value, also when a later segment is refused |
| BlockCipher.TwiceIsIdentity | go_backend/extension_runtime_binary.go:446-483 | the same segments twice are the identity, even when they overlap |
| BlockCipher.OrderIndependent | go_backend/extension_runtime_binary.go:446-483 | the order of the segments does not matter |
| EditDistance.LevenshteinDistance | go_backend/extension_runtime_matching.go:73-105 | the matrix program computes the recursive distance |
| EditDistance.ZeroIffEqual | go_backend/extension_runtime_matching.go:73-105 | distance 0 if and only if equal |
| EditDistance.Symmetric | go_backend/extension_runtime_matching.go:73-105 | the distance is symmetric |
| EditDistance.Triangle | go_backend/extension_runtime_matching.go:73-105 | the triangle inequality |
| EditDistance.NoShorterChain | go_backend/extension_runtime_matching.go:96-100 | no chain of single-byte edits is shorter than the distance |
| EditDistance.ShortestChain | go_backend/extension_runtime_matching.go:96-100 | some chain of single-byte edits is as long as the distance |
| EditDistance.CalculateStringSimilarity | go_backend/extension_runtime_matching.go:56-71 | the similarity is the share of the longer string that need not be edited; it lies in [0, 1] and is 1 exactly for equal strings |
| CancelRegistry.CancelTable.PruneLocked | go_backend/cancel.go:49-87 | expired tombstones go, live entries stay, eviction is oldest first and only above the cap |
| CancelRegistry.CancelTable.Init | go_backend/cancel.go:94-127 | work attaches to the entry the sweep left, or a new one |
| CancelRegistry.CancelTable.RequestCancel | go_backend/cancel.go:141-162 | running work is cancelled, its context with it, and keeps its entry; otherwise a tombstone is made, then the registry is swept |
| CancelRegistry.CancelTable.Release | go_backend/cancel.go:192-205 | one reference less, and the entry gone with the last |
| CancelRegistry.CancelTable.ResetIfIdle | go_backend/cancel.go:176-190 | an entry goes if no work is attached to it |
| CancelRegistry.LiveOrTombstone | go_backend/cancel.go:17-28 | in every balanced run each entry is live with refs equal to the work attached, or a cancelled tombstone |
| CancelRegistry.SizeAfterCancel | go_backend/cancel.go:68-86 | after a cancel at most 1024 entries, or none but live ones |
| CancelRegistry.CancelHolds | go_backend/cancel.go:164-205 | a cancel during work holds, on the same context, until the last release |
| CancelRegistry.CancelTakesEffect | go_backend/cancel.go:147-151 | a cancel of running work cancels the very context the work was given, and no other |
| CancelRegistry.IdleCancelIsRemembered | go_backend/cancel.go:152-160 | a cancel that finds no work leaves a tombstone with its first date, unless the sweep takes it by age or for the cap |
| CancelRegistry.SweptIsYoung | go_backend/cancel.go:49-67 | no tombstone of two minutes or more survives the sweep |
| CancelRegistry.LastReleaseForgets | go_backend/cancel.go:192-205 | the last release forgets the id, and work that attaches then is not cancelled |
| CancelRegistry.ReleaseKeepsOthers | go_backend/cancel.go:192-205 | a release leaves what other work has of it |
| CancelRegistry.RetryForgetsIff | go_backend/cancel.go:176-190 | a retry forgets exactly a cancel without work |
| CancelRegistry.AttachedContext | go_backend/cancel.go:104-117 | work gets a cancelled context exactly if a cancel is remembered |
| CancelRegistry.EarlierCancelSurvives | go_backend/cancel.go:30-36 | a cancel younger than its time to live survives the sweep below the cap |
| CoverCache.Covers.Lookup | go_backend/cover.go:80-88 | a fresh entry is a hit, an expired one dropped, the byte count kept |
| CoverCache.Covers.Put | go_backend/cover.go:118-141 | the entry is stored and the soonest to expire evicted until the bound holds |
| CoverCache.Covers.Clear | go_backend/cover.go:68-73 | empty cache, zero bytes |
| CoverFlights.CacheIsBounded | go_backend/cover.go:118-141 | in every interleaving the count is the sum of the lengths and at most 24 MiB |
| CoverFlights.OneFetchPerUrl | go_backend/cover.go:89-100 | at most one fetch per URL is in flight |
| CoverFlights.AllGetTheLeadersResult | go_backend/cover.go:89-115 | leader and waiters of one call return the same result |
| CoverFlights.HitsWereFetched | go_backend/cover.go:80-86 | a hit returns bytes some fetch of that URL brought |
| CoverFlights.HitIff | go_backend/cover.go:80-101 | a caller is served from the cache exactly if there is an entry that has not expired; otherwise it waits exactly if a fetch is under way |
| CoverFlights.StoredFor15Minutes | go_backend/cover.go:118-141 | what was fetched is cached for 15 minutes, at once if there is room, and the soonest to expire goes first |
| CoverFlights.NoHitAfterExpiry | go_backend/cover.go:80-88 | over whole runs nobody is served a cover after it expired |
| CoverFlights.FailuresAreNotCached | go_backend/cover.go:111-121 | failures, empty and oversized covers leave the cache as it was |
| CoverFlights.FetchedIsReturned | go_backend/cover.go:103-115 | over whole runs everyone who returns from a call is given what its fetch brought |
| CoverFlights.WaitersAreWoken | go_backend/cover.go:94-106 | a waiter's call is done or its leader still at work, also after a panic |
| IsrcIndex.Isrc.Build | go_backend/duplicate.go:70-176 | a rebuild adopts unchanged files and reads the others; the index is exact for the files |
| IsrcIndex.Isrc.Add | go_backend/duplicate.go:329-358 | a download is indexed, with a file entry if the file is there |
| IsrcIndex.Isrc.Remove | go_backend/duplicate.go:313-322 | only the index loses the ISRC |
| IsrcIndex.RebuiltIsScanIff | go_backend/duplicate.go:96-123 | a rebuild equals a full scan exactly if what it adopts is true |
| IsrcIndex.RebuildStartsFrom | go_backend/duplicate.go:82-94 | a rebuild works from the entries indexed when it copied, and after an invalidation reads every file |
| IsrcIndex.RebuildEqualsScan | go_backend/duplicate.go:70-176 | if size and time determine content and each Add was true, every rebuild installs a full scan of what its walk found, whatever was added before or meanwhile |
| IsrcIndex.AddedMeanwhileIff | go_backend/duplicate.go:83-171 | an Add between the copy and the install of a rebuild is in the new index exactly if the walk found a file with its ISRC |
| IsrcIndex.AddedBehindWalkIsLost | go_backend/duplicate.go:83-171 | a download that ends behind the walk is not in the new index |
| IsrcIndex.IndexedIff | go_backend/duplicate.go:301-311 | after a rebuild an ISRC is found exactly if some file carries it, with such a file |
| IsrcIndex.AddStaysExactIff | go_backend/duplicate.go:329-358 | when the index stays exact under an Add |
| IsrcIndex.RetaggedFileKeepsOldIsrc | go_backend/duplicate.go:329-358 | a file added under a second ISRC is still found by the first |

## Left out

- Mp4Boxes.ReadBox: sizes are unbounded; the 64-bit wrap of `pos + size` for a 64-bit size field near its limit is not modelled.
- Mp4Config.EnsureResult: the sizes on the path and the offsets behind the moov must fit their fields after the edit, and no
  offset may point into the moov; where a 32-bit offset overflows, the shift wraps as in the code, and nothing is claimed.
- Mp4Append.UdtaKeepsSamplesIff: the moov size and the offsets behind the moov must fit their fields after the edit, and no offset may
  point into the moov.
- Mp4Metadata.UdtaParses: the buffer is the moov alone, as all production callers pass it; the iTunes tag builders are an arbitrary payload.
- Mp4Normalize.NormalizedParses: the entry has the field layout of its version, and containers hold nothing but boxes; what the
  bytes become without this is said by the methods in `Mp4Edits`.
- VmOwnership.LoadedExtension.PoolIfRoom: errors of storage flushes and cleanup scripts are logged in the code and change nothing here.
- SignedSession.Coordinator.ExchangeGrantLocked: the grant hash and the generation hash stand for the text they hash; the request signature is not modelled.
- SignedSession.Coordinator.StartVerificationLocked: a failing file system, the change of a record's scope and the building of URLs are
  not modelled; the second try of a failed bootstrap request counts as the same bootstrap.
- Download.Target.FileDownload: write errors, the stall watchdog and progress callbacks are not modelled; a cancel is a condition read before each resume.
- Download.PromotedIsRequested: a caller's range is a single one; answers of several ranges in one body are not modelled.
- ApeTags.WriteReplaces: the first tag written is smaller than 4 GiB.
- ChunkedDownload.FileDownloadChunked: the probe is its result, the total; the loop is watched for a given number of requests, since it need not end.
- Ogg.CollectsLaidPackets: one logical stream; several multiplexed streams are not told apart by the code either.
- BlockCipher.DecryptCtrSegments: AES and Blowfish are an uninterpreted key stream per counter block; `offset + size` does not wrap.
- EditDistance.CalculateStringSimilarity: the ratio is a real number, not a float64.
- ApeTags.ParseApeItems: arbitrary bytes can make the original slice out of range; this is an outcome of its own here, and the claims are about marshalled tags.
- SignedSession.Coordinator.HandleAnswer: the wait before a provider retry is not modelled; in the code a wait that fails ends the fetch
  with an error instead of a retry.
- CoverFlights.AllGetTheLeadersResult: a leader whose fetch panics returns an aborted result here; in the code it panics on, after
  its waiters are woken with that result.
- VmProgress.NoDeadlock: that a thread that can act is scheduled, or a script ends, is not claimed.
- CoverFlights.WaitersAreWoken: that a woken or still running thread is scheduled at all is not claimed.
- IsrcIndex.Isrc.Build: the tag readers are a function from a path to an ISRC, and the parallel workers fill one slot each.
- IsrcIndex.RebuildEqualsScan: the walk of one rebuild and the reads behind it see one state of the folder; an Add through an index
  object that a rebuild has already replaced is not modelled.
- Real files, HTTP, clocks and goja itself: a path holds bytes, a rename is atomic, servers and times are arbitrary parameters.
- Deezer, MusicBrainz and lyrics look-ups, metadata overlays, filename templates, settings, cookies and the store registry: field copying
  and single checks that would only add easy members.
- The `backend/` in-memory stores: one-step map operations.
