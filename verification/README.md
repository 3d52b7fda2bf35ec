# Verified models of minidregg protocols

This project models eight self-contained protocols and algorithms of the minidregg repository in Dafny and
proves what they are relied on for. Each module follows one component: code that updates state step by step is
a class or a method with loops, proved against a specification function; code made of expressions is a
function. What holds over every run, every interleaving or every crash point is stated as lemmas and preserved
invariants. Hashes, clocks, randomness, other processes and the network are parameters, so every result holds
for all of their behaviours.

| file | component |
|---|---|
| `HostedLifecycle.dfy` | the channel state machine of a hosted conversation, and whole runs of it |
| `HostedSchema.dfy` | the fuelled schema validator, the descriptor parser, and the any-of reader emitted for Lean |
| `PayerRepair.dfy` | the payer successor repair, killed and restarted anywhere |
| `BootstrapEdit.dfy`, `BootstrapRepair.dfy` | the bootstrap rename, its undo-and-compare check, its three-file publication and the gate |
| `DeliveryPump.dfy`, `PumpFairness.dfy`, `PumpMemory.dfy` | the Hermes delivery pump: rotation, cursors, bounds; when a window of polls is fair; what its caches remember |
| `FileIdentity.dfy`, `TornReads.dfy` | the digest cache, with writers and concurrent callers; what a returned digest is a digest of |
| `Candidate.dfy`, `Packaging.dfy`, `OverlayStore.dfy`, `OverlayIsolation.dfy` | candidate records on file views; making a package; overlays on a file system with hard links; when they are isolated |
| `Framing.dfy`, `HybridTransit.dfy` | length-prefixed encodings, the hybrid key exchange, transit capsules |
| `SourceScanner.dfy`, `SourceLayout.dfy`, `SourceBrackets.dfy` | the offset-preserving source scanner; what it blanks, by a grammar of its own; the bracket matcher |
| `LawPrinter.dfy` | the law printer and a reader of what it prints |
| `Bridge.dfy` | the frame codec over short reads and the agreement bridge's routing |
| `Common.dfy` | options, results, bytes, and files a crash can tear |

`dafny verify dfyconfig.toml` checks the whole project.

## Main results

- **Hosted conversation.** The histories a channel can produce are exactly those a declarative rule permits
  (both directions). Over every run no id is emitted twice, the spent list is the claims reversed, claims and
  settlements balance, `open` comes first and once, one binding covers all claims, and nothing begins after
  the end.
- **Repairs.** At every crash point of any number of attempts each target holds its before or after bytes in
  publication order, a native command has started at most once, and only with a plan; a resumable repair
  converges to one result. The bootstrap gate never shows a mix of old and new files, and whatever is
  published differs from the original by the repair and nothing else and is a prepared stage again. An attempt
  completes only with every check passing, and a failed check keeps what comes after it from happening.
- **Pump.** From any memory every home of a list of n advances within ceil(n/32)+1 polls and every file of an
  m-file listing is read within (m+1)*ceil(n/32)+1; a window of ceil(n/32) polls is enough for the homes exactly
  from the fair offsets. Nothing readable, registered and undelivered is lost, and a delivery is remembered exactly
  while fewer than 65536 other paths have been delivered since.
- **Digest cache.** In every interleaving a stored digest is the hash of one whole snapshot and a hit equals
  hashing afresh; a returned digest, stored or not, is a snapshot's exactly when its reads took all of one version.
- **Overlay.** Any chain of overlays from a package leaves every candidate consistent and every earlier
  candidate untouched, and what each overlay makes passes its final check and lists in its sums everything the
  package listed. Two overlays have one id exactly when they differ in nothing but clocks, or the hash collides.
- **Transit.** `open` inverts `seal`; a capsule opens for one epoch, binding and recipient, or exhibits a
  collision.
- **Scanner and printer.** Masking blanks exactly the comments and literals of a text, as a grammar without the
  scanner finds them, and refuses exactly the texts with an unclosed one; it is idempotent. The matcher returns
  the one properly nested group, and the printed law can be read back.
- **Bridge.** Any cut of a written frame list reads as the whole frames before it; each request goes to exactly
  one place, once, and each answer is what its own client left or the reader's frame in its turn.

## Properties that hold only under a condition

- No path twice in a poll is false when two spellings in `memberHomes` (such as `/a` and `/a/`, which the
  configuration accepts: `DeliveryPump.ConfiguredHomesMayRepeat`) name one directory.
  `DeliveryPump.NoPathTwiceExactly` gives the exact condition.
- The base of an overlay is left alone when it has no file named `SHA256SUMS.overlay.tmp`
  (`OverlayStore.OverlaidIsolates`). When it has one and the run reaches step 5, on success and on any later
  refusal exactly the names of that inode read the new sums (`OverlayStore.OverlaidOverwrites`). So for a base
  that can serve a request from two commits it does not list (its records name only files it has, none of them a
  temporary the request removes), every overlay of it is isolated if and only if it has no file of that name
  (`OverlayIsolation.AlwaysIsolatedExactly`). `OverlayIsolation.PlainBaseIsOverwritten` is a base whose file
  is overwritten, whatever the hashes and the buffering of the list.
- The documentation of `overlay_id` calls it path-independent; the code hashes the absolute path of the base.
  The same overlay of the same bytes has one id from two base directories exactly when they are one directory or
  the hash collides (`Candidate.IdsAgreeExactly`).
- The forward bootstrap edit passes its own undo check exactly when the attachment's `files` lists the
  orchestrator (`BootstrapEdit.ForwardPassesExactly`); only the digest pin is verified before the edit.
  `BootstrapEdit.UnlistedOrchestratorFails` is an attachment on which it does not, and an undisturbed first attempt
  completes exactly when it does (`BootstrapRepair.Repair.Try`).
- A digest that is returned without being stored may belong to no snapshot: `TornReads.ReturnedDigestMayBeTorn`
  is a run from the empty system. `TornReads.ReturnedIsASnapshotExactly` gives the exact condition on the
  schedule of reads and changes. The documentation promises only what is kept.
- The dispatching parser and the any-of reader agree, whatever the schemas, if and only if no operation field
  is called `op` and no field of an operation with a name of 1 to 32 bytes is called like a base field
  (`HostedSchema.ReadersAgreeExactly`). The shipped vocabulary meets this.
- A window of ceil(n/32) polls of n homes advances every home, whatever the polls find, if and only if n <= 32,
  or the offset is at most n, or n - 32*(ceil(n/32)-1) <= (offset+32) mod n <= 32 (`PumpFairness.FairnessExactly`).
  The configuration is read again on every poll, so a list that shrinks can leave an offset past its end:
  `PumpFairness.ShrunkListMisses` is a run from the start in which a window at 33 homes and offset 34 misses one.
  One poll more always suffices (`DeliveryPump.AnyOffsetAdvances`).

## Model

| member | source | states |
|---|---|---|
| HostedLifecycle.Replay | native/hosted-conversation.rs:87-109 | the loop over primitives equals the recursive meaning, refusals included |
| HostedLifecycle.ReplayConcat | native/hosted-conversation.rs:87-109 | replaying a concatenation is replaying the parts one after the other |
| HostedLifecycle.DeriveRefusesExactlyAsLower | native/hosted-conversation.rs:67-113 | for every state, reachable or not, derive fails exactly when lower does and with its reason: replay never refuses what lower returned |
| HostedLifecycle.ReplayNeverRespends | native/hosted-conversation.rs:89-107 | arbitrary primitive lists never put an id in the spent list twice, never forget one, never clear the end |
| HostedLifecycle.ReplayKeepsTrack | native/hosted-conversation.rs:87-109 | what is pending or emitted is always the operation spent last, and until a pending one is settled nothing else is claimed |
| HostedLifecycle.RuleTable | native/hosted-conversation.rs:56-62 | the linear rule search finds exactly the five rules, each under its code |
| HostedLifecycle.LowerMeetsRule | native/hosted-conversation.rs:67-86 | lower admits a request exactly when the declarative rule permits its event, and returns that event's primitives |
| HostedLifecycle.EventMovesState | native/hosted-conversation.rs:87-109 | replaying a permitted event's primitives moves the state along the ledger of what happened |
| HostedLifecycle.RequestMeetsRule | native/hosted-conversation.rs:67-113 | derive accepts exactly the permitted events and yields the state of the extended ledger |
| HostedLifecycle.LowerRefusesByDemand | native/hosted-conversation.rs:67-86 | a refusal names the first demand, in order, that the history and the request do not meet |
| HostedLifecycle.RefusalIsTheFirstUnmetDemand | native/hosted-conversation.rs:67-113 | after every run a request is refused for the first unmet demand and otherwise accepted |
| HostedLifecycle.RunIsItsHistory | native/hosted-conversation.rs:111-113 | in every run the state is that of its legal history, and one replay of all its primitives gives it |
| HostedLifecycle.ScriptProduces | native/hosted-conversation.rs:67-113 | every legal history is produced by some requests |
| HostedLifecycle.HistoriesAreExactlyTheLegalOnes | native/hosted-conversation.rs:67-113 | a history can be produced if and only if it is legal |
| HostedLifecycle.RunConservesOperations | native/hosted-conversation.rs:67-113 | over every run: emissions are the claims with distinct ids, spent is the claims reversed, claims minus settlements is one exactly when something is pending, the n-th receipt settles the n-th claim |
| HostedLifecycle.RunOpensOnceOnOneBinding | native/hosted-conversation.rs:56-110 | over every run: open is the first claim and no other, all claims share the recorded binding, the socket is live exactly in status 1, status 2 is the end, a pending operation or a settled close |
| HostedLifecycle.NothingBeginsAfterTheEnd | native/hosted-conversation.rs:69-105 | after the end or a settled close every continuation claims and emits nothing and settles at most the outstanding operation, once |
| HostedLifecycle.OutstandingSettlesAfterTheEnd | native/hosted-conversation.rs:77-81 | an operation outstanding at the end can still be acknowledged, into status 2 |
| HostedSchema.ValidIsSound | native/hosted-conversation.rs:9-30 | whatever any fuel validates, the unfuelled meaning accepts (objects by exact key sets) |
| HostedSchema.ValidIsComplete | native/hosted-conversation.rs:9-30 | with fuel at least the schema's depth everything the meaning accepts is validated |
| HostedSchema.FuelIsEnough | native/hosted-conversation.rs:9-30 | from the schema's depth on, validation equals the meaning |
| HostedSchema.MoreFuelKeepsAcceptance | native/hosted-conversation.rs:9-30 | validation is monotone in the fuel |
| HostedSchema.SomeFuelIsEnough | native/hosted-conversation.rs:9-30 | every schema has a fuel from which validation equals the meaning |
| HostedSchema.ValidHexExactly | native/hosted-conversation.rs:9-30 | a hexadecimal field holds exactly the lowercase encodings of at most its limit of bytes |
| HostedSchema.ValidIdentifierExactly | native/hosted-conversation.rs:9-30 | an identifier is exactly a non-empty bounded word of letters, digits, hyphens and underscores |
| HostedSchema.Parse | native/hosted-conversation.rs:31-42 | the in-place field extension equals its specification; on disjoint vocabularies it accepts what some emitted schema accepts |
| HostedSchema.AcceptedNamesItsSchema | scripts/hosted-conversation.py:24-26 | a value validated by an emitted schema carries that schema's operation name |
| HostedSchema.DispatchIsAnySchema | scripts/hosted-conversation.py:24-43 | dispatching on the operation accepts exactly what the any-of-all-schemas reader accepts, when no operation field is called op and no nameable operation redefines a base field |
| HostedSchema.OverlapSeparatesTheReaders | scripts/hosted-conversation.py:25-25 | in any vocabulary, where an operation redefines base fields the dispatching reader goes by the base and the any-of reader by the operation, so a value the two read differently is accepted by one and refused by the other, either way round |
| HostedSchema.ReadersAgreeExactly | scripts/hosted-conversation.py:24-43 | for names of any number of operations and fields: the two readers agree on every value under every assignment of schemas if and only if the names are disjoint |
| HostedSchema.ShippedDepth | native/hosted-conversation.rs:8-8 | every shipped descriptor schema has depth at most five |
| HostedSchema.ShippedFieldsAreDisjoint | native/hosted-conversation.rs:8-8 | the shipped operations redefine neither a base field nor op |
| HostedSchema.ShippedParserMeansAnySchema | native/hosted-conversation.rs:31-42 | for the shipped vocabulary parse accepts exactly what some emitted schema means: fuel 16 is never felt |
| PayerRepair.WriteKeeps | scripts/application-payer-successor.py:200-208 | an orderly exclusive write, complete or torn, keeps the repair invariant |
| PayerRepair.PublishKeeps | scripts/application-payer-successor.py:140-150 | however a publication in turn ends, the invariant holds and a completed one has published |
| PayerRepair.PublishSucceeds | scripts/application-payer-successor.py:140-150 | with the invariant and no torn temporary an uninterrupted publication succeeds |
| PayerRepair.SendKeeps | scripts/application-payer-successor.py:268-271 | however the first sending of a command ends, the invariant holds and only that command's files changed |
| PayerRepair.PreparedIsResumable | scripts/application-payer-successor.py:214-260 | a freshly prepared repair with passing checks can be run to the end |
| PayerRepair.PublishedIsSuccessor | scripts/application-payer-successor.py:301-309 | a published file holds the successor bytes determined by the request and the registration response |
| PayerRepair.EveryCrashPoint | scripts/application-payer-successor.py:140-315 | at every crash point: each target is before or after, the after-set is a prefix of route, contract, attachment, completion means all, each command started at most once and only with a plan and all its evidence, registration only with the retained request and a successful rendering, a recorded success is that one invocation's |
| PayerRepair.CompletedRepairsAgree | scripts/application-payer-successor.py:275-315 | two completed repairs with the same registration response hold the same live files |
| PayerRepair.Repair.Publish | scripts/application-payer-successor.py:140-150 | exactly what compare, stage and replace can leave behind; bytes that are neither before nor after are never replaced |
| PayerRepair.Repair.Invoke | scripts/application-payer-successor.py:269-270 | exactly what one native invocation can leave behind, by how it ended |
| PayerRepair.Repair.Send | scripts/application-payer-successor.py:268-271 | marker, invocation, exit record, with every crash in between |
| PayerRepair.Repair.Command | scripts/application-payer-successor.py:262-273 | a retained marker is never resent; the command returns only on a recorded exit code 0 |
| PayerRepair.Repair.Prepare | scripts/application-payer-successor.py:214-260 | keeps the invariant and only adds files, the plan last and only with every check passing; undisturbed and with passing checks it ends with the plan |
| PayerRepair.Repair.First | scripts/application-payer-successor.py:200-208 | keeps the invariant at every crash and only adds files; done only with passing checks, without which there is never a plan; undisturbed with passing checks it ends with a plan and nothing torn |
| PayerRepair.Repair.Begin | scripts/application-payer-successor.py:200-212 | a retained directory is resumed exactly for the identical request, a whole plan and unchanged pins; an undisturbed new one becomes resumable |
| PayerRepair.Repair.RenderCustody | scripts/application-payer-successor.py:279-287 | an application that is not stopped is left entirely alone; otherwise only the render command's files change; done only with a recorded render success and matching custody |
| PayerRepair.Repair.RegisterRoute | scripts/application-payer-successor.py:293-305 | no live file changes; done only with a matching response and the successor route retained |
| PayerRepair.Repair.PublishAll | scripts/application-payer-successor.py:306-309 | publishes in order under the invariant; done means every chosen target is published |
| PayerRepair.Repair.Run | scripts/application-payer-successor.py:275-315 | keeps the invariant at every crash; done means stopped, matching custody and response, complete and published; not stopped changes nothing, other custody starts no registration, any failed check changes no live file; an undisturbed resumable run is done |
| PayerRepair.Repair.Try | scripts/application-payer-successor.py:174-315 | one attempt from any crash state: done only with every check passing; with a failed one no live file changes, with one before the commands none is started, and a first attempt that may not prepare leaves no plan; undisturbed it completes, from a resumable state and from an untouched disk |
| PayerRepair.Repair.Lifetime | scripts/application-payer-successor.py:174-315 | any number of attempts with any requests, each dying anywhere: invariant, each command started at most once and only with a plan; other requests are refused once the directory exists |
| PayerRepair.FreshIsUntouched | scripts/application-payer-successor.py:200-201 | until its directory exists the repair has left no trace |
| BootstrapEdit.NamesDiffer | scripts/application-attachment.py:937-940 | the two names as the suffix move makes them, and that they differ |
| BootstrapEdit.PassesExactly | scripts/application-attachment.py:985-1006 | an archive passes the undo-and-compare check if and only if it differs from the original by the one rename, the foreground allowance, the stage's name and digest and the orchestrator pin, and nothing else |
| BootstrapEdit.ForwardSucceedsExactly | scripts/application-attachment.py:937-950 | the forward edit is made exactly on a stage prepared for the old name, with no entry of the new name and the orchestrator's digest pinned |
| BootstrapEdit.ForwardIsTheRepair | scripts/application-attachment.py:937-967 | the forward edit differs from the original by the one rename, the foreground allowance, the stage's name and digest and the orchestrator pin, and nothing else |
| BootstrapEdit.ForwardPrepares | scripts/application-attachment.py:949-967 | its result is a stage prepared for the new name: one such entry, the stage names it and has the digest of the new controller, and the orchestrator is pinned to the given source |
| BootstrapEdit.ForwardPassesExactly | scripts/application-attachment.py:950-1006 | the forward edit passes its check if and only if the attachment's files list the orchestrator |
| BootstrapEdit.UnlistedOrchestratorFails | scripts/application-attachment.py:957-1006 | an attachment on which the forward edit succeeds and its own check refuses |
| BootstrapEdit.ForwardLeavesNoOldName | scripts/application-attachment.py:941-950 | after the forward edit no application has the old name |
| BootstrapRepair.GateSeesNoMix | scripts/application-attachment.py:225-227 | a phase that passes the gate sees three before-files or three after-files |
| BootstrapRepair.PublishedIsTheRepair | scripts/application-attachment.py:980-1024 | at every crash point, if any live file is not the original, the archive it comes from differs from the original documents by the repair and nothing else |
| BootstrapRepair.ForwardArchivePassesExactly | scripts/application-attachment.py:937-1006 | the archive of a forward edit passes the undo-and-compare check if and only if the original attachment lists the orchestrator |
| BootstrapRepair.PublishedIsPrepared | scripts/application-attachment.py:954-1024 | published from an archive made by a forward edit, the live documents are a prepared stage that differs from the original by the repair |
| BootstrapRepair.PublishSucceeds | scripts/application-attachment.py:1016-1024 | with the invariant and no torn temporary an uninterrupted publication succeeds |
| BootstrapRepair.WriteKeeps | scripts/application-attachment.py:974-979 | an archive write, complete or torn, keeps the invariant |
| BootstrapRepair.ReplaceKeeps | scripts/application-attachment.py:1024-1024 | replacing a target in its turn keeps the invariant |
| BootstrapRepair.PublishKeeps | scripts/application-attachment.py:1016-1024 | however the publication of a target ends, the invariant holds and published targets stay |
| BootstrapRepair.Repair.Save | scripts/application-attachment.py:974-978 | an item left by an interrupted attempt must hold the same bytes; nothing else changes |
| BootstrapRepair.Repair.SaveArchive | scripts/application-attachment.py:968-979 | the intent is written after every item, at every crash point; undisturbed it completes the archive of this edit |
| BootstrapRepair.Repair.Begin | scripts/application-attachment.py:869-1015 | nothing live is touched; done only for the retained request and script, or a valid request, with the checks of the other files and the undo-and-compare check passed |
| BootstrapRepair.Repair.Publish | scripts/application-attachment.py:1017-1024 | exactly what compare, stage and replace can leave behind |
| BootstrapRepair.Repair.PublishAll | scripts/application-attachment.py:1016-1024 | controller, stage, attachment in order under the invariant, only from an archive that passes; done means all three are after; undisturbed it is done |
| BootstrapRepair.Repair.Try | scripts/application-attachment.py:869-1032 | one attempt from any crash state keeps the invariant; done means the gate is open on the three archived successors under a completion record of this result, and with forward edits on a prepared stage; one that may not proceed touches no live file, and one for another request or script nothing; an undisturbed attempt that nothing torn or foreign blocks is done; an undisturbed first attempt with the forward edit is done if and only if its checks hold and the attachment lists the orchestrator |
| BootstrapRepair.Repair.Lifetime | scripts/application-attachment.py:869-1032 | any number of attempts, each dying anywhere: an open gate never shows a mix, and with forward edits shows the original or a prepared stage |
| DeliveryPump.PollVisits | deploy/hermes-dispatch/mini-hermes-dispatch.py:60-70 | a poll advances the first 32 homes of its rotation in order and none beyond the first 128 |
| DeliveryPump.PollLosesNothing | deploy/hermes-dispatch/mini-hermes-dispatch.py:60-93 | every readable, registered, undelivered hint taken from a cursor is in the batch and nothing else is; at most 128 visits and 32 jobs |
| DeliveryPump.PollSharesVisits | deploy/hermes-dispatch/mini-hermes-dispatch.py:62-67 | no member takes more than 16 visits of a poll |
| DeliveryPump.NoPathTwiceExactly | deploy/hermes-dispatch/mini-hermes-dispatch.py:60-76 | no path twice in a batch, for all file systems, if and only if the homes within reach name different directories |
| DeliveryPump.AliasedHomesRepeat | deploy/hermes-dispatch/mini-hermes-dispatch.py:45-76 | two spellings of one directory within reach make some poll deliver a path twice |
| DeliveryPump.ApartHomesNeverRepeat | deploy/hermes-dispatch/mini-hermes-dispatch.py:60-76 | homes that name different directories never repeat a path |
| DeliveryPump.RootCountsSlashes | deploy/hermes-dispatch/mini-hermes-dispatch.py:48-48 | the root of a home by its leading slashes: exactly two are kept apart from one or more |
| DeliveryPump.DirIsItsSpelling | deploy/hermes-dispatch/mini-hermes-dispatch.py:48-48 | a home's directory keeps only proper components, and its one normal spelling names it |
| DeliveryPump.SpellingsCoincide | deploy/hermes-dispatch/mini-hermes-dispatch.py:48-48 | two different spellings of one directory |
| DeliveryPump.ConfiguredHomesMayRepeat | deploy/hermes-dispatch/mini-hermes-dispatch.py:31-32 | a list of homes the configuration accepts whose polls can deliver a path twice |
| DeliveryPump.EveryHomeAdvances | deploy/hermes-dispatch/mini-hermes-dispatch.py:60-94 | with a fixed list of n homes every home's cursor advances in any ceil(n/32) consecutive polls that start at a fair offset |
| DeliveryPump.AnyOffsetAdvances | deploy/hermes-dispatch/mini-hermes-dispatch.py:60-94 | whatever the memory, every home's cursor advances in any ceil(n/32)+1 consecutive polls of one list |
| DeliveryPump.EveryFileIsRead | deploy/hermes-dispatch/mini-hermes-dispatch.py:45-94 | from a fair offset each of the m files of an unchanging listing is taken within (m+1)*ceil(n/32) polls |
| DeliveryPump.EveryFileIsReadFromAnyOffset | deploy/hermes-dispatch/mini-hermes-dispatch.py:45-94 | from any memory each of the m files is taken within (m+1)*ceil(n/32)+1 polls |
| PumpFairness.FairnessExactly | deploy/hermes-dispatch/mini-hermes-dispatch.py:60-94 | over all memories, file systems and dispatch results, a window of ceil(n/32) polls advances every home if and only if its first offset is fair |
| PumpFairness.UnfairWindowMisses | deploy/hermes-dispatch/mini-hermes-dispatch.py:60-94 | from an unfair offset, polls that always find work miss one home for the whole window |
| PumpFairness.BusyPoll | deploy/hermes-dispatch/mini-hermes-dispatch.py:61-70 | when every home has a hint left, a poll of 32 or more homes takes one from each of the first 32 of its rotation and stops |
| PumpFairness.ShrunkListMisses | deploy/hermes-dispatch/mini-hermes-dispatch.py:90-94 | a run from the start: after three polls of 62 homes the list shrinks to 33, the offset is 34, and the next two polls miss a home |
| DeliveryPump.PutTrimmedFacts | deploy/hermes-dispatch/mini-hermes-dispatch.py:100-101 | recording keeps the dictionary bounded by 65536, keeps the newest entry and invents none |
| DeliveryPump.DeliveredIsSound | deploy/hermes-dispatch/mini-hermes-dispatch.py:98-101 | after an update the delivered cache is bounded and records only real deliveries |
| DeliveryPump.CacheStaysSound | deploy/hermes-dispatch/mini-hermes-dispatch.py:90-105 | over every run the delivered cache is bounded and says delivered only of what some dispatch delivered |
| DeliveryPump.HintIsDispatchedOrWasDelivered | deploy/hermes-dispatch/mini-hermes-dispatch.py:89-105 | over every run a readable registered hint taken in a poll is dispatched in it or was delivered at that digest before |
| PumpMemory.RememberedExactly | deploy/hermes-dispatch/mini-hermes-dispatch.py:98-101 | the delivered cache has a path, at the digest of its latest delivery, exactly while fewer than 65536 other paths have been delivered since |
| PumpMemory.RunRemembers | deploy/hermes-dispatch/mini-hermes-dispatch.py:90-101 | over every run the cache is that of all outcomes so far |
| PumpMemory.DeliveredIsNotDispatchedAgain | deploy/hermes-dispatch/mini-hermes-dispatch.py:93-101 | over every run, while a delivery is remembered its path is in no batch at that digest |
| PumpMemory.ReportedIsLatest | deploy/hermes-dispatch/mini-hermes-dispatch.py:102-105 | the report kept of a path is its latest, and none is missing while there are at most 65536 paths |
| PumpMemory.NewsIsAnnounced | deploy/hermes-dispatch/mini-hermes-dispatch.py:102-105 | an outcome goes unannounced only if it repeats its path's latest report, and exactly then while there are at most 65536 paths |
| PumpMemory.FirstNewsIsAnnounced | deploy/hermes-dispatch/mini-hermes-dispatch.py:102-105 | the first outcome of a path is announced |
| DeliveryPump.Pump.constructor | deploy/hermes-dispatch/mini-hermes-dispatch.py:90-90 | empty caches and cursors, offset 0 |
| DeliveryPump.Pump.Jobs | deploy/hermes-dispatch/mini-hermes-dispatch.py:60-93 | the nested loop with its visit counter, exhausted set and early stop equals the flat sweep, cursors included |
| DeliveryPump.Pump.Settle | deploy/hermes-dispatch/mini-hermes-dispatch.py:98-105 | one finished dispatch updates both caches as specified, within bounds, and is announced exactly when it is news |
| DeliveryPump.Pump.PollOnce | deploy/hermes-dispatch/mini-hermes-dispatch.py:92-105 | one poll in any completion order is one step of the run, with one outcome per job and the specified announcements |
| DeliveryPump.EvictOldest | deploy/hermes-dispatch/mini-hermes-dispatch.py:101-101 | eviction keeps the newest 65536 entries |
| FileIdentity.FoundIsAnEntry | native/file_identity.rs:71-73 | the search finds a digest exactly when an entry has this path and identity |
| FileIdentity.KeptMeans | native/file_identity.rs:91-92 | retain and push replace the path's entry, keep the others and leave one entry per path |
| FileIdentity.DigestCache.Find | native/file_identity.rs:69-74 | the search loop |
| FileIdentity.DigestCache.Store | native/file_identity.rs:90-93 | the retain-and-push update and one entry per path |
| FileIdentity.HashFile | native/file_identity.rs:75-88 | any schedule of short and interrupted reads hashes the whole file |
| FileIdentity.EventKeepsCoherence | native/file_identity.rs:62-95 | every event of any caller or writer keeps the cache coherent |
| FileIdentity.EveryInterleavingIsCoherent | native/file_identity.rs:49-95 | every interleaving from the empty system is coherent |
| FileIdentity.CachedDigestsAreSnapshots | native/file_identity.rs:49-95 | one entry per path, each the hash of what the inode held, whole, at its identity |
| FileIdentity.HitEqualsHashingAfresh | native/file_identity.rs:63-74 | a hit is the hash of the opened file as stated, and as it stands if unchanged since |
| FileIdentity.StoredDigestIsNeverTorn | native/file_identity.rs:88-94 | a stored digest is that of one whole snapshot |
| FileIdentity.OnlyAdmittedFilesAreRead | native/file_identity.rs:62-68 | over every interleaving, whoever reads a file or gets a digest did so of one that was regular and no longer than allowed when it was opened |
| TornReads.EveryByteHasAVersion | native/file_identity.rs:75-88 | in every run each byte a caller holds is a byte of the version it was read from |
| TornReads.RunsAlike | native/file_identity.rs:62-95 | runs that differ only in file contents do the same things at the same times |
| TornReads.ReturnedIsASnapshotExactly | native/file_identity.rs:62-95 | the bytes behind a returned digest, stored or not, are a snapshot whatever the files contain if and only if the reads took all of one version of the inode and nothing else |
| TornReads.HashedIsReturned | native/file_identity.rs:88-94 | what a reader has hashed is what it returns, stored or not |
| TornReads.UnchangedReaderIsWhole | native/file_identity.rs:75-89 | with the ctime unchanged at the end of the reads they took the stated snapshot |
| TornReads.OvertakenReaderReturnsAMixture | native/file_identity.rs:77-94 | from the empty system, a reader overtaken by a writer returns the digest of the old beginning and the new rest and stores nothing |
| TornReads.ReturnedDigestMayBeTorn | native/file_identity.rs:77-94 | a run after which the bytes behind the returned digest equal no version of any file |
| Candidate.RustRolesAreListed | deploy/candidate/package.py:92-101 | the role table lists every crate-built role under its crate and nothing else |
| Candidate.GroupByCrate | deploy/candidate/package.py:445-447 | grouping keeps exactly the table's pairs |
| Candidate.Families | deploy/candidate/package.py:444-450 | each role gets exactly the roles of its crate; the two Lean roles are one family |
| Candidate.PackageIsConsistent | deploy/candidate/package.py:372-434 | the records of a package match its bytes: outputs, clients, bundle copies, sums with a line for every recorded file, a pinned path for every role and alias, on one commit |
| Packaging.CopyBinaries | deploy/candidate/package.py:354-363 | each chosen binary is copied or adopted in place; refused exactly when one takes another file's place or has another digest |
| Packaging.LinkBundle | deploy/candidate/package.py:390-396 | each missing bundle copy is linked; refused exactly when one that was there differs from its binary |
| Packaging.AssembledIsPackable | deploy/candidate/package.py:354-421 | the assembled files meet everything the records rely on |
| Packaging.ListedExactly | deploy/candidate/package.py:416-419 | the sums list the chosen binaries, the cross clients, the bundle, the provenance and the extracted files, and nothing else |
| Packaging.MakePackage | deploy/candidate/package.py:326-434 | a package is made exactly when it can be, is a consistent candidate, has the chosen binaries and the extracted files, leaves every file already below bin as it was, and has no other file |
| Candidate.IdIgnoresIdAndClock | deploy/candidate/package.py:467-476 | two provenances have one id exactly when they differ in nothing but the recorded id and clock readings, or the hash collides |
| Candidate.SameIdSameFiles | deploy/candidate/package.py:467-476 | overlays with one id have the same files below bin, up to a collision of either hash |
| Candidate.IdsAgreeExactly | deploy/candidate/package.py:467-476 | the same overlay from two base directories, at two times: one id exactly when the directories are one or two different provenances collide, because the base's path is recorded and hashed |
| Candidate.SwapsMeans | deploy/candidate/package.py:534-546 | after the swaps exactly the swapped binaries have their new bytes |
| Candidate.SwapsLeaveOthers | deploy/candidate/package.py:534-554 | no other file changes |
| Candidate.BundlesStayMatched | deploy/candidate/package.py:534-546 | a friend-bundle copy is its binary before and after an overlay |
| Candidate.FamiliesStayWhole | deploy/candidate/package.py:499-505 | swapping whole families keeps every present role of a family on one commit |
| Candidate.WholeFamiliesExactly | deploy/candidate/package.py:499-505 | the swaps are accepted exactly when each family is swapped as a whole or left alone |
| Candidate.FamiliesStayWholeExactly | deploy/candidate/package.py:499-505 | swapped to a new commit, the families stay whole exactly if the swaps are accepted |
| Candidate.IdIsRecorded | deploy/candidate/package.py:577-578 | recomputing the id on the final provenance gives the recorded one |
| Candidate.RecordFacts | deploy/candidate/package.py:555-563 | the record names the overlay and its base and extends the base's record by the archive and the swapped roles |
| Candidate.OverlayLists | deploy/candidate/package.py:580-588 | the sums list exactly what the base lists, in order, and then the archive unless the base lists it |
| Candidate.CoverageStays | deploy/candidate/package.py:580-588 | the provenance, every recorded binary and every copy clients use keep their line |
| Candidate.RecordStaysPinned | deploy/candidate/package.py:555-563 | every recorded archive has its digest, and every overlaid role is the recorded binary of a recorded commit |
| Candidate.FilesStayPinned | deploy/candidate/package.py:565-589 | binaries, outputs, clients and every line of the sums match the final bytes |
| Candidate.RecordsStayTrue | deploy/candidate/package.py:555-613 | families whole, id recorded, role and alias pins and relocated paths right |
| Candidate.OverlayIsConsistent | deploy/candidate/package.py:489-614 | an overlay of a consistent candidate by whole families is consistent |
| Candidate.UnchangedKeepsItsBuild | deploy/candidate/package.py:568-576 | an unchanged file keeps the base's build identity, and only such a file has another than this build's |
| OverlayStore.Packager.ReplaceFile | deploy/candidate/package.py:453-464 | freeing, writing and moving the temporary is one fresh write under the name |
| OverlayStore.FreshFacts | deploy/candidate/package.py:453-464 | a fresh write is a new inode under the name; no other directory changes inode or bytes |
| OverlayStore.Packager.ReplaceLink | deploy/candidate/package.py:453-464 | freeing, linking and moving the temporary is one relink |
| OverlayStore.RelinkedFacts | deploy/candidate/package.py:453-464 | the name reads as the file it is linked to; no other directory changes |
| OverlayStore.Packager.LinkBase | deploy/candidate/package.py:524-530 | in whatever order the walk finds them, exactly the base's files are linked |
| OverlayStore.BaseLinkedFacts | deploy/candidate/package.py:524-530 | the work directory then reads as the base, through the base's inodes, and nothing else changes |
| OverlayStore.Packager.SwapOne | deploy/candidate/package.py:534-546 | one binary, then its bundle link, as specified |
| OverlayStore.RoleSwappedFacts | deploy/candidate/package.py:534-546 | the binary and its bundle copy have the new bytes, everything outside the work directory is untouched |
| OverlayStore.Packager.SwapAll | deploy/candidate/package.py:534-546 | all swaps, in order, as specified |
| OverlayStore.RolesSwappedFacts | deploy/candidate/package.py:534-546 | the work directory reads as the swapped view, everything outside is untouched |
| OverlayStore.Packager.AddSource | deploy/candidate/package.py:550-554 | the source archive is added unless it is there |
| OverlayStore.Packager.Prepare | deploy/candidate/package.py:524-579 | steps 1 to 4: the provenance is written exactly when the files it records exist |
| OverlayStore.OpenedFacts | deploy/candidate/package.py:524-579 | step 5 finds the recorded stage, nothing outside changed, and the base's file of the temporary's name as the same inode |
| OverlayStore.Packager.HashListed | deploy/candidate/package.py:585-588 | the temporary is opened first, without freeing its name; each file is hashed as it is by then, whatever has been flushed of the list; the loop stops at the first missing file; closed, the list reads its lines |
| OverlayStore.HashingIsSumLines | deploy/candidate/package.py:585-588 | with the temporary's name free and not listed, the lines are the hashes of the listed files, or a listed file is missing |
| OverlayStore.Packager.RecordSums | deploy/candidate/package.py:580-589 | rehash every name of the list, close, and move into place unless a file is missing |
| OverlayStore.SumsRecordedFresh | deploy/candidate/package.py:580-589 | with the temporary's name free: isolation, and the exact sums or a missing file |
| OverlayStore.SumsRecordedThrough | deploy/candidate/package.py:580-589 | with the name taken: exactly the names of its inode read the new sums, however the loop ends |
| OverlayStore.Packager.Publish | deploy/candidate/package.py:594-613 | rename, then re-pin the manifest there |
| OverlayStore.PublishedFacts | deploy/candidate/package.py:594-613 | they change nothing outside the new directory, which reads as the work directory did with the new manifest |
| OverlayStore.Packager.Make | deploy/candidate/package.py:519-614 | after acceptance the run is the specified one, on success, on every refusal and on a failed final check |
| OverlayStore.Packager.Overlay | deploy/candidate/package.py:479-614 | the whole program is the specified run: initial role pins, provenance pin and families, steps 1 to 7, the final check, and the removal of the work directory however it ends |
| OverlayStore.OverlaidIsolates | deploy/candidate/package.py:479-614 | without the temporary in the base, everything but the new directory keeps its names, inodes and bytes, and the work directory is gone |
| OverlayStore.OverlaidOverwrites | deploy/candidate/package.py:479-614 | with it, once step 5 has begun and however the run ends, exactly the names of its inode read the new sums, which are also the new candidate's |
| OverlayStore.BeforeSumsFacts | deploy/candidate/package.py:489-579 | an accepted run reaches step 5 exactly when the base's records name only files that are there |
| OverlayStore.OverlaidIsStaged | deploy/candidate/package.py:489-613 | a clean base gives the candidate the stages describe under its id's name; it is refused only where a stage refuses or the name is taken |
| OverlayStore.OverwrittenIsIsolatedExactly | deploy/candidate/package.py:585-589 | an overwritten file system is isolated if and only if the temporary already read the new sums |
| OverlayStore.ReportsTheCheck | deploy/candidate/package.py:613-614 | when a directory is made, success is reported exactly when the role pins of its new manifest hold where it lies |
| OverlayStore.AcceptedBasesAgree | deploy/candidate/package.py:268-293 | two accepted bases with one manifest have the same provenance and the same bytes in every named role, up to collisions; every required role is named, and an alias pins what its role is |
| OverlayStore.ConsistentIsAccepted | deploy/candidate/package.py:268-293 | a consistent candidate passes every check of a base: it is refused only for a split family or a role it lacks |
| OverlayStore.MadeIsConsistent | deploy/candidate/package.py:489-614 | what an overlay makes of a consistent candidate is consistent on disk and passes the final check |
| OverlayStore.Packager.Chain | deploy/candidate/package.py:479-614 | after any number of overlays every candidate is consistent, every candidate, made before or during the chain, has read the same ever since, and whatever name the first ones list every one lists |
| OverlayStore.PackageStartsAChain | deploy/candidate/package.py:326-438 | a chain may start from any package |
| OverlayIsolation.IsolatedReadsItsSums | deploy/candidate/package.py:585-589 | with the temporary in the base and step 5 begun, the run is isolated if and only if the temporary already read exactly the new sums |
| OverlayIsolation.TwoCommitsIsolatedExactly | deploy/candidate/package.py:519-594 | one request for two commits a usable base does not list: both runs are isolated if and only if the base lacks the temporary, however the list is buffered |
| OverlayIsolation.AlwaysIsolatedExactly | deploy/candidate/package.py:519-594 | every overlay of a usable base is isolated if and only if the base lacks the temporary |
| OverlayIsolation.PlainBaseIsOverwritten | deploy/candidate/package.py:585-589 | a base, accepted by every check, whose file an overlay overwrites |
| Framing.FramedReads | native/hybrid_kem.rs:303-319 | framed parts are read back, their number included |
| Framing.OnlyFramedReads | native/hybrid_kem.rs:315-318 | whatever the reader accepts is a framing |
| Framing.Frame | native/hybrid_kem.rs:53-58 | the prefix-then-part loop computes the framing |
| Framing.LittlePrefixSplits | native/crypto_transit.rs:175-178 | equal little-endian-prefixed heads split the same way |
| HybridKem.LawsAreConsistent | native/hybrid_kem.rs:26-31 | the laws assumed of the primitives can hold together |
| HybridKem.PublicRoundTrip | native/hybrid_kem.rs:112-138 | reading inverts writing on accepted keys, both directions; the bare ML-KEM length is refused by name |
| HybridKem.SecretRoundTrip | native/hybrid_kem.rs:162-197 | a secret is read exactly from its own bytes; the bare decapsulation key is refused by name |
| HybridKem.CShakeXof | native/hybrid_kem.rs:49-62 | absorption by parts is the hash of the framing |
| HybridKem.TranscriptBinds | native/hybrid_kem.rs:303-320 | a transcript determines frame, context with its number of parts, both ciphertext components and both keys |
| HybridKem.KekBinds | native/hybrid_kem.rs:325-327 | equal keys come from equal suites, secrets and transcripts, or exhibit a hash collision |
| HybridKem.Encapsulate | native/hybrid_kem.rs:341-366 | the method with its filled array computes the encapsulation, with the source's refusals in order |
| HybridKem.EncapsulationRefusesExactly | native/hybrid_kem.rs:341-366 | a recipient key with an all-zero shared secret is refused as low-order, then a malformed key, then a failing primitive, and nothing else |
| HybridKem.DecapsulationRefusesExactly | native/hybrid_kem.rs:370-395 | a wrong length is refused, then an ephemeral key with an all-zero shared secret as low-order, then a failing primitive, and nothing else |
| HybridKem.DecapsulatedKeysBind | native/hybrid_kem.rs:370-395 | two decapsulations reach one key only over one suite, frame, context, ciphertext and recipient, or exhibit a hash collision |
| HybridKem.DecapsulationAgrees | native/hybrid_kem.rs:341-395 | the holder of the secret reaches the sender's key and transcript |
| Transit.BuildContext | native/crypto_transit.rs:169-180 | the extension loop computes the recipient context or refuses its bounds |
| Transit.ContextBinds | native/crypto_transit.rs:169-180 | a context determines epoch and binding |
| Transit.ContextIsInBound | native/crypto_transit.rs:169-180 | a valid recipient context has at most 69685 bytes and never trips the inner bound |
| Transit.SubkeysDiffer | native/crypto_transit.rs:90-95 | the two subkeys differ or exhibit a hash collision |
| Transit.OpenUnderInvertsExactly | native/crypto_transit.rs:96-168 | under one key and transcript, opening yields a plaintext exactly from what sealing makes of it |
| Transit.SealedIsInBounds | native/crypto_transit.rs:108-147 | sealed parts meet every size check of opening and have the declared overhead |
| Transit.PairIsValidExactly | native/crypto_transit.rs:80-88 | a retained pair is valid exactly when the secret regenerates the public key |
| Transit.OpenRawInvertsSealRaw | native/crypto_transit.rs:108-168 | a sealed layer opens to its plaintext for the matching secret |
| Transit.OpenedWasSealed | native/crypto_transit.rs:132-168 | whatever opens is what its key makes of the plaintext and has the sizes of a sealed layer |
| Transit.OpenedCouldBeSealed | native/crypto_transit.rs:72-168 | the bounds of sealing never refuse a plaintext and context that opened |
| Transit.OpenInvertsSeal | native/crypto_transit.rs:183-201 | open inverts seal for every plaintext, epoch, binding and valid pair |
| Transit.OpenRefusesInOrder | native/crypto_transit.rs:132-201 | the refusals before any key is used, in order, and past them a low-order ephemeral key refused as such |
| Transit.SealRefusesExactly | native/crypto_transit.rs:183-188 | for a valid pair seal refuses exactly on its bounds, a low-order exchange or a failing primitive |
| Transit.ExchangeCanSucceed | native/crypto_transit.rs:183-201 | the laws leave room for success: under some primitives every in-bound plaintext is sealed and opens again |
| Transit.OpenBinds | native/crypto_transit.rs:189-201 | a capsule that opens twice was opened for one epoch, binding and recipient key pair, or exhibits an HMAC collision |
| SourceScanner.StringEndsAtItsQuote | scripts/host-operations.py:164-169 | a string ends with its first quote that no unescaped backslash escapes, and is unclosed exactly when there is none |
| SourceScanner.BlockEndsItsComment | scripts/host-operations.py:143-151 | a block comment ends where the properly nested comment that starts there ends, and is unclosed exactly when there is none |
| SourceScanner.RawEnd | scripts/host-operations.py:155-160 | a raw string ends at the first quote followed by its hashes |
| SourceScanner.UncoveredIsPlain | scripts/host-operations.py:137-170 | a character that is not blanked starts no construct |
| SourceScanner.CoveredHasNeighbour | scripts/host-operations.py:137-170 | every blanked segment has at least two characters |
| SourceScanner.MaskingKeepsOffsets | scripts/host-operations.py:131-171 | length and newlines are kept and other characters become spaces or stay |
| SourceScanner.NothingIsLeft | scripts/host-operations.py:131-171 | no comment opener and no double quote is left |
| SourceScanner.MaskingIsIdempotent | scripts/host-operations.py:125-171 | masking twice is masking once, for Lean and for Rust |
| SourceScanner.SkipBlock | scripts/host-operations.py:144-150 | the nesting loop computes the comment's end |
| SourceScanner.SkipString | scripts/host-operations.py:165-169 | the escape loop computes the string's end |
| SourceScanner.Masked | scripts/host-operations.py:125-171 | the in-place scan with its moving index computes the masking or refuses an unclosed construct |
| SourceLayout.TokenMeans | scripts/host-operations.py:137-170 | what is found at an offset is a comment or literal exactly to its end, one that begins and never ends, or nothing, by a grammar stated without the scanner |
| SourceLayout.MaskingBlanksItsLayout | scripts/host-operations.py:125-171 | masking blanks the comments and literals of the text, whole, and nothing else |
| SourceLayout.MaskingRefusesExactly | scripts/host-operations.py:125-171 | it refuses exactly the texts that cannot be laid out |
| SourceLayout.LayoutIsUnique | scripts/host-operations.py:125-171 | a text has at most one layout |
| SourceBrackets.BracketsArePaired | scripts/host-operations.py:173-181 | the brackets are three pairs: no character opens and closes, each closer closes exactly one opener |
| SourceBrackets.NestedRuns | scripts/host-operations.py:174-181 | properly nested text leaves the stack as it was |
| SourceBrackets.RunsIsNested | scripts/host-operations.py:174-181 | text that leaves the stack empty is properly nested |
| SourceBrackets.GroupEndsOnce | scripts/host-operations.py:173-182 | at most one group starts at an offset, so the shortest is the only one |
| SourceBrackets.BalancedEnd | scripts/host-operations.py:173-182 | returns the end of the properly nested group at start, and refuses exactly when there is none, saying why |
| LawPrinter.SlotReads | scripts/gen-joblaw.py:67-75 | every well-formed slot is read back from its printed form |
| LawValues.PlaceholderExactly | scripts/gen-joblaw.py:24-24 | a placeholder is exactly a non-empty name of capitals, digits and underscores in braces |
| LawValues.VerbsAreNamed | scripts/gen-joblaw.py:65-80 | a verb number is printed by name exactly if it is one of the five |
| LawPrinter.ValueReads | scripts/gen-joblaw.py:77-80 | every canonical or placeholder value is read back, verb words included |
| LawPrinter.MembersRead | scripts/gen-joblaw.py:95-96 | a value list, empty or not, is read back |
| LawPrinter.PredReads | scripts/gen-joblaw.py:82-106 | every well-formed predicate is read back from its printed form, whatever follows it |
| LawPrinter.LawReads | scripts/gen-joblaw.py:108-112 | the clause list is read back from the printed law |
| LawPrinter.PrinterIsUnambiguous | scripts/gen-joblaw.py:82-112 | no two well-formed predicates or laws print alike |
| Bridge.EncodedReads | testing/generic-simplex-operator.py:37-52 | a written frame is read back |
| Bridge.CutReads | testing/generic-simplex-operator.py:25-52 | any cut of a written frame list reads as the whole frames before it, then a clean end exactly between frames and a truncation inside one |
| Bridge.WrittenFramesRead | testing/generic-simplex-operator.py:37-52 | a written frame list is read back, then a clean end |
| Bridge.Source.Exact | testing/generic-simplex-operator.py:25-34 | for every schedule of short reads: the bytes asked for, a permitted end, or a truncation |
| Bridge.Source.ReadFrame | testing/generic-simplex-operator.py:37-45 | what is found does not depend on how the bytes arrive |
| Bridge.Source.ReadAll | testing/generic-simplex-operator.py:147-147 | the reading loop yields the parsed frames and ending |
| Bridge.Sink.WriteFrame | testing/generic-simplex-operator.py:48-52 | writes the encoding exactly within the bounds |
| Bridge.RouteIsInOrder | testing/generic-simplex-operator.py:147-161 | each request before the stop is submitted once or forwarded once by its operation and answered in order; a request outside the profile is neither, and ends the run |
| Bridge.OutcomeExactly | testing/generic-simplex-operator.py:120-131 | a client's run becomes an answer exactly by exiting with 0 and leaving a bounded outcome, and fails for exactly one reason otherwise |
| Bridge.AnswersAreRelayed | testing/generic-simplex-operator.py:147-161 | every answer of a run is what the client of its ticket left or the reader's frame in its turn, and a run that stops at a request stops for that client's or that frame's reason |
| Bridge.Server.RunSubmission | testing/generic-simplex-operator.py:103-131 | the call is retained under a new ticket, one client is started on it and never a second, and only a bounded outcome of a client that exited with 0 is an answer |
| Bridge.Server.ServeOne | testing/generic-simplex-operator.py:149-161 | one request sends to exactly one place what it should |
| Bridge.Server.Serve | testing/generic-simplex-operator.py:146-161 | over streams with any short reads, the outputs are those of the routing, and each retained call has had one client |

## Left out

- The cryptographic primitives, seeded key generation and zeroizing (native/hybrid_kem.rs:239-297) are functions with stated laws; the ML-KEM law leaves out its negligible decapsulation failure.
- Permissions, ownership, symbolic links, locks and timeouts are environment facts; one process at a time is assumed for both repairs.
- JSON and UTF-8 parsing: the models start from parsed values, and a string stands for its UTF-8 bytes.
- `check_settled`, `check_stopped`, `adopt_mini` and the evidence checks of both repairs are opaque conditions of an attempt.
- BootstrapEdit.ForwardPassesExactly: covers the edit and the undo check; the refusals of the evidence checks before the edit are not modelled.
- PayerRepair.Repair.Lifetime: the three targets are distinct files that nothing else writes.
- DeliveryPump.Pump.PollOnce: the operator's log of skipped hints is not modelled, and a cursor's listing is the snapshot when it is first advanced.
- OverlayStore.Packager.Overlay: file modes, the ABI summary and the form of paths and digests are not modelled; for a base that has the sums' temporary, or lists it, only the sums and what is overwritten are specified, not the other records of the new candidate.
- Packaging.MakePackage: extraction from the archive is given as a map of files, file modes and the ABI summary are not modelled, and cross clients are ordinary files below bin.
- LawPrinter.ValueReads: Python's `int` also accepts signs, spaces and underscores; such spellings are not canonical and are outside the law the templates render.
- SourceScanner.Masked: the two regular expressions are written out as predicates.
- Bridge.Server.RunSubmission: tickets are numbers instead of random names, and the process group and the outcome file's ownership are environment facts.
- The Lean renderer of the law and the regex-driven parts of scripts/host-operations.py would mostly model string templates and a regex engine.
- Import closures, batching, the website generator, probes and deployment helpers are reachability or I/O plumbing.
