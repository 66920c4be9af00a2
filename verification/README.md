# Hel verification

A Dafny model of the parts of Hel, a controller for coding-agent sessions, whose
correctness spans whole runs. Each module follows one component:

- `Transcript`, `Pruning`, `Paging`, `Story`, `Compaction`, `Handoff`, `Snapshot`,
  `PromptWording`: cross-harness compaction. A transcript is pruned, paged, summarized by
  a model that may refuse prompts, reduced as a tree and handed over with an exact tail.
  The model is any function from the prompts sent so far to an answer.
- `AcpSession`, `AcpRuntime`, `RelayGate`: the session loop that answers commands over
  any sequence of stimuli, the loop that restarts bridges, and the gate that decides
  which updates a viewer sees.
- `ArchiveFormat`, `ArchiveReader`, `ArchiveWriter`, `ArchiveLaws`: checkpoint archives
  with sharded payloads and three ways of reading. Hashing, JSON, tar and path
  normalization are function parameters with the laws they are relied on for.
- `Staging`, `ScanCache`, `CwdKey`: prestage, refresh and pack against a source that
  changes under them, the cache of foreign rollouts, and directory keys.
- `ConfigRename`: renaming a configuration id with a journal, under crashes.
- `QueueView`: the optimistic prompt queue.
- `Framing`, `UsageClient`: bounded frames over a byte stream and the usage client.
- `Text`: UTF-8 text, concatenation and decimal numbers used by the rest.

Time, faults and the outside world are parameters: a history of source states, the
steps at which input or output fails, a script of stimuli. Properties are stated for
all of them.

## Where the code and its promises part

- The scan cache relies on negative verdicts being final. `ScanCache.NegativeFinalIff`
  says exactly when they are: when the probe opened the rollout and read what settles
  the question. Every other rejected rollout can be lost (`ScanCache.UndecidedRolloutLost`);
  `ScanCache.FourRolloutsLost` gives four.
- A rename of the profile named in the review section always fails, as
  `ConfigRename.RenameValidIff` says. If its journal is left behind, every later startup
  fails too; `ConfigRename.RenameThenStartups` says exactly after which faults, and
  `ConfigRename.StuckStartups` runs into it.
- A stage manifest over 8 MiB cannot be read back. `Staging.Target.Checkpoint` says what
  that costs: without faults a checkpoint succeeds exactly when a direct export does and
  the stage manifests of the source, at the barrier and as the prestage read it, are within
  the limit. At the barrier the limit adds nothing where archive manifests, which have the
  same limit, are the larger ones (`Staging.SealedFits`). A stale prestage does make a
  difference: `Staging.FullThenEmptied` is a target whose checkpoint fails while its export
  succeeds, one of those in `Staging.StalePrestageBlocks`.
- Reading an archive without keeping everything skips one check, the digest over all
  parts of a payload that is not put together: `ArchiveLaws.WrongDigestSlips`.
- Refreshing a stage does not ask again whether it may be empty. The controller's
  prestage never allows an empty one, which is what makes the two agree.
- Directory keys are unique for absolute directories up to digest collisions
  (`CwdKey.SameAbsoluteKeyIff`), but not for relative ones (`CwdKey.RelativeMayCollide`).

## Model

| member | source | states |
|---|---|---|
| `Transcript.ExactTailStart` | src/hel_compaction.rs:508-522 | The tail starts at the longest suffix of turns whose rendering fits the budget; if even the whole transcript fits, there is no tail. |
| `Transcript.JsonQuoted` | src/hel_compaction.rs:484-506 | The serialized form of an object holds every key and value, in order. |
| `Story.TurnsTold` | src/hel_compaction.rs:468-506 | For all turns and any first number, the rendering tells their story: every user text under the number of its turn, all assistant text without a gap, every serialized tool call and plan, each under its own tag, in order and apart. |
| `Pruning.PruneOldToolOutputs` | src/hel_compaction.rs:200-233 | Either nothing is cleared, or exactly the older completed outputs at which the newest-first running total passes 160,000 bytes, and that only when they total more than 80,000. |
| `Pruning.ClearCandidates` | src/hel_compaction.rs:226-231 | Exactly the listed outputs are cleared; every other event, every user text and all counts stay. |
| `Pruning.ClearedFacts` | src/hel_compaction.rs:226-241 | A cleared output is still a completed output, is marked cleared, keeps every other member, and clearing it again changes nothing. |
| `Pruning.RecentAndUnfinishedKept` | src/hel_compaction.rs:200-233 | No event of the last two turns and no unfinished tool call is ever changed. |
| `Pruning.RunningTotalMonotone` | src/hel_compaction.rs:207-220 | The running total never falls as the walk goes to older events. |
| `Pruning.TotalsBelowLimitKept` | src/hel_compaction.rs:207-220 | Pruning leaves every running total at or below the limit as it was. |
| `Pruning.OverLimitShrinks` | src/hel_compaction.rs:207-220 | Whatever is over the limit after pruning was over it before. |
| `Pruning.PruneIdempotent` | src/hel_compaction.rs:200-233 | Pruning a pruned transcript gives the same transcript. |
| `Pruning.KeptAtMost` | src/hel_compaction.rs:200-233 | Uncleared older output is at most the protected amount, plus what was not worth clearing when nothing was cleared. |
| `Pruning.UnclearedBound` | src/hel_compaction.rs:200-233 | The serialized content of finished tool calls left uncleared in all turns but the last two is at most 240,000 bytes in all. |
| `Story.PrunedFades` | src/hel_compaction.rs:200-241 | Pruning tells the same story, except that finished tool calls may have their content cleared, every other member as before. |
| `Story.TailUnpruned` | src/hel_compaction.rs:200-233 | The turns an exact tail can hold are not pruned. |
| `Paging.HeaderFitsReserve` | src/hel_compaction.rs:524-540 | A fragment header names both ends of its range, and the 96-byte reserve is enough for that of every 64-bit range. |
| `Paging.ProgressFrom` | src/hel_compaction.rs:528-532 | With 100 bytes or more a fragment ends past its start, whatever characters the text holds. |
| `Paging.ProgressIff` | src/hel_compaction.rs:524-540 | Splitting gets past every valid text exactly when the limit leaves room for a four-byte character. |
| `Paging.FragmentEnd` | src/hel_compaction.rs:528-532 | A fragment ends at the last character boundary that fits. |
| `Paging.SplitUtf8` | src/hel_compaction.rs:524-540 | The fragments are consecutive, end where the text ends, fit the limit with their headers, their bodies concatenate to the text, and each header gives the byte range of its body. |
| `Paging.RangeIsOffset` | src/hel_compaction.rs:524-540 | A fragment's byte range starts as many bytes after the first fragment of its piece as the pages between them carry. |
| `Paging.SplitAtUtf8Midpoint` | src/hel_compaction.rs:372-378 | Two valid halves that concatenate to the text, the first at most three bytes short of the middle. |
| `Paging.GroupEvents` | src/hel_compaction.rs:281-316 | Events are cut into consecutive groups, each a tool exchange up to the call that finishes it or one other event; the segments render the groups in order. |
| `Paging.PackSegments` | src/hel_compaction.rs:317-335 | The pages carry exactly the segments, in order, every page fits the limit, and the byte ranges of fragments follow on from each other. |
| `Paging.RenderOversizeTurn` | src/hel_compaction.rs:281-336 | The fragments of an oversize turn concatenate to its rendering, fit the limit, and their byte ranges follow on from each other. |
| `Compaction.Requests.Run` | src/hel_compaction.rs:115-132 | One request is logged with its outcome, and none may follow a fatal failure. |
| `Compaction.OutcomeIff` | src/hel_compaction.rs:115-132 | A prompt is answered, splittable or fatal exactly by what the backend replies and how it classifies the reason; an empty reply is a failure. |
| `Compaction.SplitPays` | src/hel_compaction.rs:348-378 | Halving a page over 4096 bytes gives halves of at least 2045 bytes and pays for itself out of the request budget. |
| `Compaction.BudgetInBytes` | src/hel_compaction.rs:348-378 | The request budget of pages is at most one request a page and two for every 2045 bytes of them. |
| `Compaction.Requests.SummarizePagesAdaptively` | src/hel_compaction.rs:348-370 | The accepted pieces concatenate to the pages, in order; every prompt, accepted or not, quotes a stretch of one page that is the whole page or at least 2045 bytes; the number of requests stays within twice the pages' size over 2045, less one, for each page. |
| `Compaction.Requests.SubmitPage` | src/hel_compaction.rs:243-273 | One page is covered by summaries of its pieces, within its request budget, and the requests so far stay within the budget of all pages sent. |
| `Compaction.Requests.SubmitFragments` | src/hel_compaction.rs:253-266 | The fragments of one oversize turn are covered in order, their byte ranges following on from each other. |
| `Compaction.Requests.SummarizeTurnPages` | src/hel_compaction.rs:243-279 | The pages sent carry the rendering of the turns from its start, all of it on success, under headers with the right byte ranges, and every prompt quotes one of them; every page fits and is covered by accepted pieces, and there is at least one summary; or the last request failed and its reason is returned. On every end the requests are within the budget of the pages sent. |
| `Handoff.MergePair` | src/hel_compaction.rs:571-591 | A merged summary is the model's answer to a prompt that quotes the two, in order; merging is refused exactly when that prompt is over the budget, and then nothing is sent. |
| `Handoff.ReducePass` | src/hel_compaction.rs:571-591 | One pass halves the number of summaries, keeps the leaves in order and sends one request per merge; when it is refused as too large it names the two neighbours whose prompt is over the budget. |
| `Handoff.ReduceSummaries` | src/hel_compaction.rs:566-593 | The result is the root of a merge tree whose leaves are the given summaries in order, of logarithmic height, made with one request per merge; when it is refused as too large it names two roots of neighbouring stretches of those leaves whose prompt is over the budget. |
| `Handoff.IndexQuotes` | src/hel_compaction.rs:455-466 | The index of user messages holds, for every turn in order, its number, its size and the user's words. |
| `Handoff.CompactPaged` | src/hel_compaction.rs:181-198 | The handoff traces back to the whole transcript: the leaves of its merge tree cover the rendering of the pruned turns before the tail, and the tail is the original turns verbatim. Every prompt is within the budget and quotes the transcript or merges two answers, and all requests together are at most twice the budget of the pages sent. It is refused for its user messages exactly when their index exceeds the budget, and a finished handoff exactly when it does. |
| `Handoff.CompactTurns` | src/hel_compaction.rs:156-198 | The same for any budget and with the one request a short transcript takes: all of the rendering went into that prompt, or into the pages and after them into the tail the handoff carries word for word behind the summary. The refusals for the budget, the user messages and the handoff happen exactly on their conditions; one for too large answers names pages that carry the pruned head, the answered pieces that make them up, and two answers for neighbouring stretches of those pieces whose merge prompt is over the budget; and a refusal by the model gives the reason of the last request. |
| `Snapshot.TurnsFromSnapshot` | src/hel_compaction.rs:385-453 | The turns tell the story of the items, in order, with adjacent assistant text merged and empty text kept; it fails exactly on agent or plan items before any user item, or without any user item. |
| `Snapshot.FoldedUnique` | src/hel_compaction.rs:385-453 | That story determines the turns: two foldings of the same items are equal. |
| `Snapshot.ItemsRetold` | src/hel_compaction.rs:385-506 | Every user text, agent text, tool call after the first user text and plan of the items stands in the rendering of the pruned turns, in order and apart; a user text under the number of its turn, a tool call as it was or with its finished output cleared. |
| `Snapshot.HandoffRecognized` | src/hel_compaction.rs:437-440 | Every handoff the pipeline writes is replaced by the placeholder when it comes back as a user turn, also after leading white space. |
| `Snapshot.TrimIs` | src/hel_compaction.rs:437-440 | Trimming takes away white space only, and all of it. |
| `PromptWording.SourceWordingFits` | src/hel_compaction.rs:542-564 | The prompts' fixed wording leaves room for a page even at the 32 KiB minimum. |
| `Snapshot.CompactSnapshot` | src/hel_compaction.rs:151-198 | For every transcript, budget and backend: every item stands, in order, in a text that was passed on whole, in the one prompt answered or in the pages and the tail of the handoff, and of which every page sent is a part; every prompt fits the budget and quotes a page or merges two answers, the requests are at most twice the budget of the pages sent, nothing follows a fatal failure, orphaned or missing user history is refused exactly when it is there, and otherwise the result is the one justified for the folded turns. |
| `AcpSession.Session.ApplyCancel` | src/hel_acp.rs:1684-1713 | A cancel is sent and the command that asked for it is answered once: applied if the notification went out, rejected if not. |
| `AcpSession.Session.StartSteer` | src/hel_acp.rs:1735-1755 | A steer starts only in a turn that was not cancelled, and its command stays the only one unanswered besides the prompt. |
| `AcpSession.Session.SettleSteer` | src/hel_acp.rs:1757-1807 | A steer's command is answered once; it falls back to a cancel exactly when the text was not injected and a turn is there to cancel; what is sent is what the outcome calls for. |
| `AcpSession.Session.FinishTurn` | src/hel_acp.rs:1995-2074 | The end of a prompt answers it and a pending steer; the bridge restarts exactly when a cancelled turn calls for it. |
| `AcpSession.Session.GiveUpTurn` | src/hel_acp.rs:2075-2097 | A cancel that is never acknowledged ends the turn with a restart, leaving at most the steer unanswered. |
| `AcpSession.Session.CloseDuringTurn` | src/hel_acp.rs:2157-2215 | Closing in a turn answers the close and the prompt and leaves at most the steer. |
| `AcpSession.Session.CommandDuringTurn` | src/hel_acp.rs:2125-2282 | A command taken in a turn is answered, or becomes the one pending steer; the cancel deadline is armed exactly when a cancel was sent. |
| `AcpSession.Session.ServeTurn` | src/hel_acp.rs:1986-2285 | Over any stimuli, a turn answers everything it received except the prompt and at most one steer, and a steer it still owes was asked for by a received cancel. |
| `AcpSession.Session.ServeCompaction` | src/hel_acp.rs:2392-2571 | Over any stimuli, a compaction answers everything it received except itself. |
| `AcpSession.Session.CommandWhileIdle` | src/hel_acp.rs:2286-2391 | A command taken while idle is answered before the session waits again. |
| `AcpSession.Session.ServeSession` | src/hel_acp.rs:1972-2622 | Over every script of stimuli: what is sent is exactly what the stimuli call for, in order, and the session ends where they lead; every answer was earned by a stimulus and, unless the session broke, every earned answer was sent. With distinct ids no command is answered twice, and the unanswered ones are exactly what is still owed and what earlier bridges abandoned. It breaks only when its event channel is cut off, when the answer to a model change is lost, or when the command channel ends and the cancel cannot be sent. |
| `AcpSession.EarnedIff` | src/hel_acp.rs:1684-2622 | In every phase and for every stimulus the answers sent are exactly the earned ones: a cancel is applied if it was delivered and rejected if not, at once or after a steer that was not taken; a steer taken is applied; a prompt is finished when it settles and interrupted when given up or closed; settings and close are applied if accepted; commands barred in a turn or compaction are rejected. |
| `AcpRuntime.StreakOne` | src/hel_acp.rs:502-514 | A running streak of at least one is a rapid exit with no longer-lived one after it. |
| `AcpRuntime.StreakTwo` | src/hel_acp.rs:502-514 | A running streak of at least two is two such exits. |
| `AcpRuntime.GiveUpIff` | src/hel_acp.rs:502-514 | The counter reaches its limit exactly at the third rapid exit with no longer-lived unexpected exit between. |
| `AcpRuntime.RunBridge` | src/hel_acp.rs:530-671 | A bridge that is given a native id loads that id and never creates one; it sends what the stimuli it heard call for; how it ends follows from where they led and what happened to it: finished exactly when closed, alive and cleaned up after, a planned restart exactly when the session asked for one; every command it took was answered by it or is left, at most a steer when it was closed or restarts by plan. |
| `AcpRuntime.RunInner` | src/hel_acp.rs:493-526 | Over any number of bridges no command is answered twice and the unanswered ones are what some bridge left; only the first bridge can create a session and every later one loads the id first opened; every exit and the end of the loop follow from what happened to the bridges; the loop gives up at the third rapid exit, at no other and never later. |
| `RelayGate.Gate.Connection` | src/hel_acp.rs:1028-1113 | Over a whole connection exactly the relayable messages are relayed, in order; of a resumed session nothing is relayed before the load response, and every relayed tool update follows a relayed creation of the same call. |
| `ArchiveFormat.ValidateParts` | src/hel_archive.rs:1659-1706 | Accepts exactly parts that can be reassembled: more than one, named by position, none empty, covering the payload, with names nobody else claims. |
| `ArchiveFormat.ValidatePayloads` | src/hel_archive.rs:1533-1580 | Accepts exactly payload lists that are well formed one by one, claim no name twice and hold one canonical session in its place. |
| `ArchiveFormat.ValidateRepositories` | src/hel_archive.rs:1582-1653 | Accepts exactly manifests whose repositories are distinct and have all four payloads, and whose payloads belong to known repositories. |
| `ArchiveFormat.ValidateManifest` | src/hel_archive.rs:1515-1653 | The manifest check accepts exactly the manifests described by `ManifestOk`. |
| `ArchiveReader.LeavesDistinct` | src/hel_archive.rs:1659-1706 | The entries a valid manifest promises have distinct names. |
| `ArchiveReader.LeavesNotManifest` | src/hel_archive.rs:1534-1539 | None of them is the manifest's own name. |
| `ArchiveReader.Scan` | src/hel_archive.rs:1169-1216 | The first pass accepts exactly files with safe distinct names, within the size limits, one of them the manifest. |
| `ArchiveReader.ReadManifest` | src/hel_archive.rs:1217-1233 | The manifest is found by its exact name, size-checked, decoded and validated. |
| `ArchiveReader.Expectations` | src/hel_archive.rs:1235-1253 | The expectation map lists exactly the promised entries. |
| `ArchiveReader.MatchEntries` | src/hel_archive.rs:1255-1274 | Finding every entry listed and the counts equal means that container and manifest name the same set of entries. |
| `ArchiveReader.VerifyEntry` | src/hel_archive.rs:1340-1410 | An entry passes exactly when declared size, mode, actual size and digest are the promised ones, and a streamed tar is valid. |
| `ArchiveReader.VerifyEntries` | src/hel_archive.rs:1279-1297 | All entries pass exactly when every promised entry does, and exactly the bodies to be kept are held. |
| `ArchiveReader.Reassemble` | src/hel_archive.rs:1414-1447 | A payload in parts is the concatenation of its parts and passes exactly when its digest is right. |
| `ArchiveReader.TakePayloads` | src/hel_archive.rs:1299-1336 | The last pass accepts exactly payloads that are good, and returns the session and the wanted bodies. |
| `ArchiveReader.ReadVerifiedZip` | src/hel_archive.rs:1169-1336 | For every container and retention: it is accepted exactly when it is `Acceptable`, and manifest, session and bodies are those of the container. |
| `ArchiveWriter.ChunksCover` | src/hel_archive.rs:985-1006 | The chunks of a payload are not empty, within the part size, and concatenate to it. |
| `ArchiveWriter.SliceIsChunk` | src/hel_archive.rs:1045-1062 | Cutting a body by the recorded part sizes gives the chunks whose digests were recorded. |
| `ArchiveWriter.PlanCovers` | src/hel_archive.rs:985-1006 | A planned payload is whole, or in more than one part with sizes adding up to it. |
| `ArchiveWriter.LayParts` | src/hel_archive.rs:1045-1067 | Parts are laid out as consecutive slices, exactly when their sizes add up to the body. |
| `ArchiveWriter.WriteZip` | src/hel_archive.rs:1016-1067 | The entries are the manifest followed by the payloads or their parts, in order; it fails exactly on an oversize manifest or parts that do not cover a body. |
| `ArchiveWriter.PathsAmongNames` | src/hel_archive.rs:911-918 | Distinct names in a manifest imply distinct payload paths. |
| `ArchiveWriter.Prepare` | src/hel_archive.rs:795-940 | Accepts exactly the preparable inputs. What is prepared is the input: header, repository records and native artifacts with their modes are recorded, the payloads carry the session, the artifacts and the four bodies of every repository under their own paths; nothing secret, blank or oversize gets in, and only bodies over the part size that are no bundles are cut. |
| `ArchiveLaws.PlannedCovered` | src/hel_archive.rs:1045-1067 | The errors for parts that do not fit or cover their body never happen for a prepared input. |
| `ArchiveLaws.WriteArchive` | src/hel_archive.rs:557-571 | An input is written exactly when it can be prepared and its manifest is within the limit. |
| `ArchiveLaws.PlannedPartsOk` | src/hel_archive.rs:985-1006 | However a payload is cut, its parts pass the manifest's check for parts and claim no name twice. |
| `ArchiveLaws.BareSessionPreparable` | src/hel_archive.rs:795-940 | A session with no artifacts and no repositories is always accepted by the writer once its header and transcript are. |
| `ArchiveLaws.BodyIs` | src/hel_archive.rs:1414-1447 | In a written archive every payload reads back as its own bytes, whole or from its parts. |
| `ArchiveLaws.PayloadsReadBack` | src/hel_archive.rs:795-1336 | The written archive is accepted with the planned manifest, and every planned payload reads back where it is kept and nowhere else. |
| `ArchiveLaws.RoundTrip` | src/hel_archive.rs:795-1336 | For every input, part size and retention: if it is written within the reader's total limit, reading gives back its session, its header, its repository records and, as far as they are kept, the data of every native artifact and the four bodies of every repository, each under its own path, and nothing else. |
| `ArchiveLaws.ReaderSound` | src/hel_archive.rs:1169-1336 | In an accepted container the entries are exactly the manifest and what it promises, once each, and every kept payload has its recorded size and digest. |
| `ArchiveLaws.AcceptedIsSafe` | src/hel_archive.rs:1169-1336 | In an accepted container every entry is a regular file with a safe name and the recorded mode; every payload has a safe path, size, mode and digest, hides no secret file and belongs to a recorded repository if it is Git's; repository ids are plain components without credentials; the session and every untracked tar are valid. |
| `ArchiveLaws.RetainingLess` | src/hel_archive.rs:1153-1167 | What is accepted when keeping everything is accepted when keeping less, with the same bytes for what is kept, and every bundle is kept where bundles are wanted. |
| `ArchiveLaws.WrittenAcceptableIff` | src/hel_archive.rs:1299-1336 | A written archive is accepted in a mode exactly when the recorded digests of the payloads that mode puts together are right. |
| `ArchiveLaws.WrongDigestSlips` | src/hel_archive.rs:1153-1167 | With a wrong digest recorded for one payload in parts, a mode that does not put it together accepts the archive and a full reading refuses it. |
| `ArchiveLaws.AnyDigestOk` | src/hel_archive.rs:1515-1580 | The manifest check accepts whatever digest a payload records. |
| `Staging.Target.CollectNative` | src/hel_checkpoint.rs:1645-1703 | Read file by file while the source may change, the result is the source's listing if it stood still. |
| `Staging.ExportedIff` | src/hel_checkpoint.rs:1280-1383 | A direct export gives an input exactly when the input holds the source, every listed file that is there with its mode and data and one snapshot for every repository asked for, each in its place, and is within the limits. |
| `Staging.Target.CollectRepositories` | src/hel_checkpoint.rs:1334-1383 | One snapshot is collected for every repository asked for, in order, each as it was when its turn came; it fails exactly at one that is missing. |
| `Staging.PathsDiffer` | src/hel_checkpoint.rs:914-925 | No two bodies of a stage share a path. |
| `Staging.Target.WriteBodies` | src/hel_checkpoint.rs:914-925 | After writing without a fault the stage holds every native artifact and repository under its recorded path. |
| `Staging.Target.WriteRepository` | src/hel_checkpoint.rs:1032-1078 | Writing one repository touches no native body and no other repository, even when it fails. |
| `Staging.Target.CopySource` | src/hel_checkpoint.rs:882-952 | What is copied is the source as it is read, step by step, from that moment on; the manifest is the one those readings give, and the fingerprint is kept only if it is the same at both ends. |
| `Staging.Target.CaptureAnew` | src/hel_checkpoint.rs:882-952 | A capture of a source that stands still holds that source; the fingerprint is kept only if the native state was that of one instant. |
| `Staging.Target.Refresh` | src/hel_checkpoint.rs:954-1014 | A refresh under a barrier reuses the native part exactly when it is the one asked for and the present one, and replaces the repositories; whatever fails, the native part stays whole and its fingerprint true. |
| `Staging.StillPrestaged` | src/hel_checkpoint.rs:882-952 | A prestage of a source that stands still leaves the manifest of that source. |
| `Staging.Target.Capture` | src/hel_checkpoint.rs:850-952 | Under a barrier a capture holds exactly the state at the barrier; it fails for the source only if a direct export would. |
| `Staging.Target.Pack` | src/hel_checkpoint.rs:1127-1219 | Packing a stage of a source gives the archive input of that source, whenever it is packed; it is refused for size only if the stage manifest is too large or the export would be refused; the stage is removed. |
| `Staging.Target.ExportDirect` | src/hel_checkpoint.rs:1280-1332 | The direct export under a barrier gives an input exactly when that input holds the source at the barrier, file by file and repository by repository, and is within the limits. |
| `Staging.Target.Checkpoint` | src/hel_controller/checkpoint.rs:672-935 | A whole checkpoint, with or without a prestage and whatever the session writes before the barrier and after its release, gives the archive input of a direct export at the barrier, which holds the source there: every listed file with its mode and data, every repository in its place. Without faults it succeeds exactly when that export does, the stage manifest of the source at the barrier is within its limit, and the manifest a prestage made of the source as it was read from the start is too. |
| `Staging.SealedFits` | src/hel_checkpoint.rs:959-967 | If a stage manifest with a 64-byte fingerprint is never larger than the archive manifest for the same input, a source that can be exported has a stage manifest within the limit. |
| `Staging.UnchangingTarget` | src/hel_controller/checkpoint.rs:672-935 | Then, for a target that never changes or fails, prestaged or not, the checkpoint succeeds exactly when the export does, with the same input. |
| `Staging.StalePrestageBlocks` | src/hel_checkpoint.rs:959-967 | A target prestaged while it has more artifacts than a stage manifest may have bytes cannot be checkpointed after they are gone, though the export succeeds. |
| `Staging.FullThenEmptied` | src/hel_checkpoint.rs:959-967 | One such target: prestaged full of empty files and emptied before the barrier, its export succeeds and its checkpoint is refused for size. |
| `ScanCache.HasSessionId` | src/hel_checkpoint.rs:2049-2076 | A rollout is the session's exactly when a header naming it is among its first eight lines with only other records before it. |
| `ScanCache.NegativeFinalIff` | src/hel_checkpoint.rs:1558-1566 | A negative verdict is final exactly when the probe opened the rollout and read a header, a line that is not JSON, or eight other records; later probes may open it, read further and find more. |
| `ScanCache.DecidedProbesStay` | src/hel_checkpoint.rs:1558-1566 | If every probe that rejected a rollout had decided, no rejected rollout turns out to be the session's over any run of exports. |
| `ScanCache.WalkedIff` | src/hel_checkpoint.rs:1924-2076 | An uncached walk succeeds exactly when every file met is regular and none collected is too large, and collects, in order, exactly the session's files that hold no secrets: by their name, or rollouts no older than the session whose header names it. |
| `ScanCache.SameWalkIff` | src/hel_checkpoint.rs:2019-2047 | A walk with a cache finds the same as one without exactly when no remembered rollout is the session's. |
| `ScanCache.CollectCached` | src/hel_checkpoint.rs:1924-1989 | The walk collects what the remembered paths allow and remembers exactly the rollouts it rejected. |
| `ScanCache.RelayRoot.Collect` | src/hel_checkpoint.rs:1394-1410 | One export collects what an uncached one would, the session's files, and afterwards every rollout opened in vain is remembered. |
| `ScanCache.RelayRoot.Exports` | src/hel_checkpoint.rs:1394-1410 | Every run of exports, for any sessions and with any save failures, collects what uncached exports would, the session's files in order, if no probed and rejected rollout later turns out to be the session's and the cache file hides nothing to begin with. |
| `ScanCache.UndecidedRolloutLost` | src/hel_checkpoint.rs:2019-2047 | Every rollout rejected undecided is remembered as foreign and may be the session's at a later walk, which hides it. |
| `ScanCache.FourRolloutsLost` | src/hel_checkpoint.rs:2049-2076 | That happens to a rollout that cannot be opened, cannot be read, is half written, or is still empty. |
| `CwdKey.EncodeRoundTrip` | src/hel_checkpoint.rs:738-750 | Decoding undoes percent-encoding for every text. |
| `CwdKey.DecodeRoundTrip` | src/hel_checkpoint.rs:738-750 | Encoding undoes decoding: the decoder takes exactly what the encoder writes. |
| `CwdKey.EncodedInjective` | src/hel_checkpoint.rs:738-750 | Different texts encode differently. |
| `CwdKey.UrlEncode` | src/hel_checkpoint.rs:738-750 | The loop computes an encoding that decodes to its input. |
| `CwdKey.SlugShape` | src/hel_checkpoint.rs:752-766 | A slug is at most the given length, has no two adjacent dashes and none in front, and keeps the letters and digits of its input in order. |
| `CwdKey.GrokSlug` | src/hel_checkpoint.rs:754-766 | The loop computes that slug. |
| `CwdKey.KeyFits` | src/hel_checkpoint.rs:716-734 | Every key is at most 255 bytes. |
| `CwdKey.SameKeyIff` | src/hel_checkpoint.rs:716-734 | Two directories share a key exactly when they are equal, both are too long and their slugs and digest prefixes agree, or one is too long and the other is its key. |
| `CwdKey.SameAbsoluteKeyIff` | src/hel_checkpoint.rs:716-734 | Two absolute directories share a key exactly when they are equal, or both are too long and their slugs and digest prefixes agree. |
| `CwdKey.RelativeMayCollide` | src/hel_checkpoint.rs:716-734 | The key of a too-long directory, taken as a relative directory, has the same key. |
| `Framing.ReadsAreLines` | src/codex_usage.rs:195-227 | Reading until the end is splitting the stream at newlines under the limit, and the last read says why there are no more frames. |
| `Framing.BufReader.ReadCodexFrame` | src/codex_usage.rs:195-227 | One read gives the first frame, newline kept, or the first error, from the bytes alone, however they are buffered. |
| `Framing.BufReader.ReadGrokFrame` | src/grok_usage.rs:240-275 | The same with the newline dropped and an unterminated tail returned. |
| `Framing.BufReader.ReadAll` | src/codex_usage.rs:195-227 | All reads together depend on the bytes alone. |
| `UsageClient.Client.SendRequest` | src/codex_usage.rs:143-163 | A request gets the next id. |
| `UsageClient.Client.ReadResult` | src/codex_usage.rs:165-177 | The message taken as the answer carries the id of the request just sent, which no earlier request had, and no error, and its result is handed out; messages for other ids are skipped; unsupported is reported exactly for that error code. |
| `UsageClient.Client.EnsureInitialized` | src/codex_usage.rs:106-127 | A client is initialized once and then owes no answer. |
| `UsageClient.Client.Query` | src/codex_usage.rs:129-141 | After a query that keeps the client, every request is answered. |
| `UsageClient.Refresh` | src/codex_usage.rs:249-283 | A retained client is initialized and has no unanswered request; a client that fails or hangs is dropped. |
| `UsageClient.Refreshes` | src/codex_usage.rs:249-283 | Between any two refreshes that holds, and every process ever used, kept or dropped, got initialize as its first request and never again. |
| `UsageClient.IdReusedIff` | src/codex_usage.rs:143-150 | Ids repeat exactly past the largest 64-bit number. |
| `QueueView.StepConsistent` | src/hel_chat.rs:626-646 | Every operation keeps the shown queue and the pending removals disjoint and ids unique. |
| `QueueView.HiddenStep` | src/hel_chat.rs:1917-1943 | A pending removal ends exactly at a releasing operation. |
| `QueueView.RunConsistent` | src/hel_chat.rs:1181-1192 | Every run keeps the view consistent. |
| `QueueView.HiddenUntilReleased` | src/hel_chat.rs:1231-1255 | From the moment an entry goes to the composer until something releases it, no view of the run shows it. |
| `QueueView.ShownIff` | src/hel_chat.rs:626-646 | Over every run a prompt is shown exactly when it was brought in, by a projection, an addition or a failed removal, and not dropped since. |
| `QueueView.ExceptUnique` | src/hel_chat.rs:626-646 | A projected queue without the pending ids keeps its order and exactly the other ids. |
| `QueueView.ChatState.ApplyMaterialized` | src/hel_chat.rs:626-646 | A projection shows its queue in order minus pending ids and forgets pending ids it omits. |
| `QueueView.ChatState.ApplyEvent` | src/hel_chat.rs:1917-1943 | Queue events add, remove, promote and clear as the view's step says, and stale ones change nothing. |
| `QueueView.ChatState.Play` | src/hel_chat.rs:1181-1255 | Any run of projections, edits, failed removals, events and resets with unique ids keeps the view consistent and shows exactly the prompts brought in and not dropped since; whatever was taken into the composer and not released since is not shown. |
| `ConfigRename.RenameMeaning` | src/hel_controller.rs:497-548 | The renamed config is the one in which the entry has its value under the new id and all else is as before, and the repointed sessions are the ones in which exactly the references of that kind to the old id are now to the new one; no reference dangles and none is old. |
| `ConfigRename.RepointTwice` | src/hel_database.rs:1306-1320 | Repointing session references twice is repointing once. |
| `ConfigRename.FinishConfigMapRename` | src/hel_controller.rs:711-730 | The map is brought to its renamed form from either side, and refused exactly when both ids or neither are there. |
| `ConfigRename.Store.RecoverConfigIdRename` | src/hel_controller.rs:600-634 | Recovery keeps every crash state safe, ends with everything new when it succeeds, and without faults succeeds exactly when the new config is valid. |
| `ConfigRename.Store.Startups` | src/hel_controller.rs:600-634 | Any number of startups, crashing anywhere, keep the state safe; one that succeeds ends with everything new; a forbidden rename left in the journal is never got rid of. |
| `ConfigRename.Controller.RenameId` | src/hel_controller.rs:497-598 | A rename that fails or crashes at any step leaves a safe state, one that succeeds leaves everything new, a process that lives on agrees with the disk, and the journal is left behind after exactly the listed fault patterns. |
| `ConfigRename.RenameThenStartups` | src/hel_controller.rs:497-634 | After one rename and any startups, whenever no journal is left, nothing changed at all, or the entry has its value under the new id and exactly the references of that kind to the old id follow, all other entries, sessions and references as before, and no reference dangles; the latter if the rename or a recovery succeeded. After a forbidden rename every startup fails exactly when its journal was left behind. |
| `ConfigRename.StuckStartups` | src/hel_controller.rs:600-634 | One crash while the reviewer's profile is renamed, and no number of undisturbed startups succeeds. |
| `ConfigRename.RenameValidIff` | src/hel_config.rs:976-990 | The renamed config is valid exactly unless the review section names the profile being renamed. |

## Left out

- AcpSession.Session.ServeSession: models which commands are answered and when; the text of replies, mode and option updates and permission prompts are not part of it, since they add no unanswered command.
- Compaction.Requests.Run: trimming a reply, refusing an empty one and sorting failures into oversize and fatal by their text are part of the backend parameter.
- Handoff.CompactTurns: assumes a 64-bit machine can hold the prompt that quotes the whole transcript.
- Snapshot.CompactSnapshot: makes the same assumption, and takes items whose content is already rendered to text.
- Staging.Target.Capture: takes a fingerprint as the reading of one instant, assumes that equal fingerprints mean an unchanged native source in between, and leaves out the validation of paths and ids in the request.
- Staging.Target.Checkpoint: the sizes of the stage manifest and of the archive manifest are parameters, since JSON is not modelled; that the first is at most the second is a hypothesis of SealedFits and UnchangingTarget only.
- Staging.Target.CollectNative: visits the native paths in archive order instead of walking and then sorting, and does not model how each harness selects its files.
- ScanCache.RelayRoot.Collect: models the Codex walk as the list of files it meets; project memory artifacts added afterwards and the computation of the time floor from the session id are parameters.
- ScanCache.NegativeFinalIff: takes what each line says as given; how a line is parsed is not modelled.
- ArchiveReader.ReadVerifiedZip: reads entries one after the other; the parallel readers, the check that the file was not replaced meanwhile, and checksums inside the container are not modelled.
- ArchiveReader.Reassemble: looks bodies up without removing them, since no name occurs twice.
- ConfigRename.Controller.RenameId: saving the config is one atomic step with a validity check; only the part of validity a rename can change is modelled.
- RelayGate.Gate.OnInput: failures to serialize an update for the relay are not modelled.
- UsageClient.Refresh: the contents of usage reports and the time limit are not modelled; running into the limit is one of the outcomes.
- Process spawning, pipes, SSH, containers and file permissions: only their success or failure appears, as a parameter.
- ZIP and DEFLATE encoding, SHA-256, BLAKE3, JSON, tar and Git: parameters with stated laws.
- Restoring and importing archives, transcript splicing and the per-harness rewriting of path keys: would add mostly one-step facts.
- The terminal user interface, key handling, autocomplete and history search: not part of the protocols modelled.
- Claude usage scraping and quota percentages: heuristics over text.
- Configuration validators and lookup tables other than those a rename meets: one-branch facts.
