# Verified models of gasworks' hard core

gasworks captures transcripts and usage on a developer's machine and uploads them under a consent
policy that can change at any moment. This project models the parts of it whose correctness spans
retries, failed disk writes, crashes and restarts, and proves what those parts promise. The models
are Dafny 4.11 programs: `dafny verify dfyconfig.toml` checks everything.

What is modelled, and where:

- **The consent fence** (`internal/observer/daemon/consent_fence.go`): it decides for every sequence
  number of a gap-free upload lane whether the original observation or a content-free placeholder is
  sent. `Intervals` holds its two in-place interval lists as classes refining a set and a map;
  `FenceSpec` says what each operation does to the fence and its ledger, as values; `ConsentFence`
  is the fence as a class, method by method, proved against `FenceSpec`; `FenceSystem` puts the
  operations into a daemon with a log, a lane, policy publications, half-failing ledger writes,
  crashes and both kinds of start; `FenceInvariant`, `FenceSafety`, `FenceTheorems`,
  `FenceConsent`, `FenceReload`, `FenceRestart` and `FenceBacklog` prove what holds over every run of it.
- **The live consent policy** (`internal/observer/consent/consent.go`): `ConsentPolicy`, `ConsentSource`.
- **The glob matcher** (`internal/observer/contentguard/fnmatch.go`): `Glob`, and `GlobLaws` (what patterns mean, byte by byte).
- **The one-shot secret** (`cmd/gasworks/secretout.go`, `cmd/gasworks/sp.go`): `SecretOut`,
  `SecretMint`, `SecretCeremony`.
- **The usage tailer** (`internal/usageaxis`): `UsageTail`, `UsageRunner`, `UsageDrain` (its progress).
- **The credential store** (`internal/store`): `CredStore`, `CredHistory`.
- **The content uploader** (`internal/observer/daemon/content.go`, `content_pending.go`):
  `ContentConsent` (its interleavings with consent changes), `ContentTheorems`, `ContentLaws`, `ContentPlan`, `ContentUploader`
  (the sections it runs under its locks, as methods that refine those steps) and `ContentMarkers`.
- **The re-upload tool** (`internal/observer/daemon/reupload.go`): `Reupload`, `ReuploadRun`,
  `ReuploadTheorems`, `ReuploadLaws`.

A failing write, flush, read-back, truncate, rename or unlink is a parameter of the method that
performs it, and so is everything else the outside world decides: answers of a server, the clock,
cancellation, the bytes of a file. Loops and fields follow the source; concurrency is a transition
system whose steps are the sections the source runs under one lock.

## Assumptions

- Frames of the log are immutable, its durable ceiling never falls, and sequences and generations are
  at least 1; the fence is told a sequence was acknowledged only when it is never read again.
- Codecs, quoting and hashes are reversible or injective where a statement says so, and the placeholder is a function of its frame.
- A rename is atomic. Where the source flushes nothing, a crash may leave any earlier version (usage
  cursors) or, after a reported failure, either version (the consent ledger).
- The re-upload journal grows by whole lines; a failed append may have landed or not.
- A credential generation that is drawn anew was never seen before.
- A mint server that says a redeem minted nothing is believed, and it mints nothing it was not sent.

## Where the code does not keep a promise

Each of these is a theorem with a concrete run or an exact condition; the code is modelled as it is.

- **One payload per sequence.** `spool.WriteFileAtomic` (`internal/observer/spool/segment.go:432-467`)
  can report failure after its rename, when flushing the directory fails. A *first* shutdown record
  whose write fails that way is on disk while the fence has forgotten it, and `beforeSend` then finds
  nothing to write (`consent_fence.go:497-498`) and sends past it. After a crash, a withdrawal and a
  restart the record makes the fence send a placeholder for a frame it already sent as captured.
  `FenceExample.HalfFailedRecordSendsTwoPayloads` is such a run; `FenceTheorems.ConsistentIffNoHazard`
  says exactly which step breaks the promise; `FenceTheorems.KnownRecordsAreSafe` that nothing else does.
- **A refresh records its decisions before it returns** (`consent_fence.go:367-373`). One that withholds nothing more
  writes nothing, also when an earlier decision is still unwritten because its write failed: then it reports success
  and a ledger on disk does not withhold that frame (`FenceBacklog.RefreshLeavesUnwritten`).
  `FenceBacklog.WithdrawalsAreRecorded` says exactly when something is left unwritten; no batch is sent over it
  (`FenceConsent.ConsentBeforeSend`), and once nothing is, the withdrawal stands over every later run
  (`FenceBacklog.WithdrawalStands`).
- **No late save recreates a withdrawn pending record.** `savePendingRecord` checks that the state it
  saves for is still consented, not that the consent *its record names* is
  (`content_pending.go:166-168`). A transcript renamed from one consent root into another between the
  plan and the save is written under the first one even after that was withdrawn and swept for.
  `ContentTheorems.LateSaveRecreatesARecord` is such a run; `ContentTheorems.LateSaveExactly` is the
  exact condition; without such a move the promise holds (`SettledRunsDoNotStray`,
  `SweptRecordsAreCovered`).
- **A re-uploaded marker names its bytes.** The tool records the size the file had when it was opened
  with the hash of the bytes it read (`reupload.go:363`); if the file shrank in between, the marker never
  recognises any transcript again (`ReuploadTheorems.NewMarkerRecognises`, and `ShortReadLosesTheMarker` for a visit that
  leaves one).
- **An unusable policy file closes the policy.** `Current` does not read a file whose identity is that of the
  document in force (`consent.go:136`), and the loader also judges what the document names: when an active root's
  directory is deleted, the untouched file is unusable and content upload stays on
  (`ConsentSource.MissingRootGoesUnnoticed`), which `consent_test.go:258-284` asks for.
  `ConsentSource.FailsClosed` says exactly when an unusable file closes the policy, and
  `ConsentSource.PolicyFollowsHistory` what it answers in any case.
- **A shutdown record attributes what it covers.** A stop waits for the watcher only until its context ends
  (`internal/observer/daemon/service.go:657-660`). A record written past a frame whose append still waits to be
  attributed does not name its origin, and a start from it sends that frame as captured under a policy that denies it:
  `FenceRestart.EarlyRecordSendsWithdrawn` is such a run. `FenceReload.ReloadableIffNotEarly` is the exact condition;
  without such a step every record reads back in agreement (`FenceReload.EveryRecordReloads`) and consent crosses the
  restart (`FenceRestart.ConsentCrossesRestart`).
- **Out-of-order runs.** The comment on `addRun` says an out-of-order run is still placed correctly; one
  that overlaps a known run anywhere is dropped whole (`consent_fence.go:119-122`), which is what
  `Intervals.OriginIndex.AddRun` states; `Intervals.OverlapLosesTheRest` says exactly when a run is not known whole after it.
- **Removing an edge session** signs it out in every state a crash can leave only when a new generation
  is committed along with it (`CredHistory.RemovalSignsOut`); every caller does so.

## Model

| member | source | states |
|---|---|---|
| Common.Search | internal/observer/daemon/consent_fence.go:129-134 | the library binary search under lookup, contains and add: the first index from which a monotone test holds |
| Intervals.SeqSet.Add | internal/observer/daemon/consent_fence.go:152-176 | the set becomes its union with first..last, its ranges stay ascending, disjoint and non-adjacent, and the result is exactly how many members were missing |
| Intervals.SeqSet.Contains | internal/observer/daemon/consent_fence.go:179-182 | the binary search answers membership |
| Intervals.SeqSet.Prune | internal/observer/daemon/consent_fence.go:185-191 | exactly the members at or below the bound go |
| Intervals.LackingIsSize | internal/observer/daemon/consent_fence.go:146-176 | the count Add returns is the size of the span minus the set |
| Intervals.OverlapLacking | internal/observer/daemon/consent_fence.go:157-172 | adding up what each range the new span meets already held gives that count |
| Intervals.MergeEnd | internal/observer/daemon/consent_fence.go:157-176 | the single pass over the ranges denotes the union, whatever ranges the new one swallows or touches |
| Intervals.OriginIndex.Record | internal/observer/daemon/consent_fence.go:99-101 | the map gains the sequence unless it has it, and then nothing changes |
| Intervals.OriginIndex.AddRun | internal/observer/daemon/consent_fence.go:106-126 | a run that meets no known sequence is added whole, one that meets any is dropped whole; runs stay ascending and disjoint, and coalescing never changes the map |
| Intervals.OverlapLosesTheRest | internal/observer/daemon/consent_fence.go:119-122 | a run becomes known whole if and only if none or all of it was known; one that overlaps in part leaves its other sequences unknown |
| Intervals.OriginIndex.Lookup | internal/observer/daemon/consent_fence.go:129-135 | the binary search answers the map |
| Intervals.OriginIndex.Prune | internal/observer/daemon/consent_fence.go:138-144 | exactly the sequences at or below the bound go, a run across it keeping its rest |
| Intervals.StretchedRuns | internal/observer/daemon/consent_fence.go:109-114 | extending the last run of the same origin is adding the sequences |
| ConsentPolicy.AllowsIsGranted | internal/observer/consent/consent.go:74-81 | over unique paths, first-record-decides means some active record grants exactly that generation |
| ConsentPolicy.NarrowRoots | internal/observer/consent/consent.go:217-234 | keeps, in order, every tombstone and exactly the active records the document still lists as active at the same generation |
| ConsentPolicy.NarrowedUnique | internal/observer/consent/consent.go:217-234 | narrowing keeps paths unique |
| ConsentPolicy.NarrowedJoin | internal/observer/consent/consent.go:217-234 | narrowing goes record by record, in order |
| ConsentPolicy.NarrowedOne | internal/observer/consent/consent.go:217-234 | a tombstone stays; an active record stays exactly while the last active record of its path in the document names its generation |
| ConsentPolicy.SamePolicy | internal/observer/consent/consent.go:320-334 | the keyed comparison decides Same |
| ConsentPolicy.SameIsSameRecords | internal/observer/consent/consent.go:320-334 | over unique paths, what it compares is the set of records whatever their order |
| ConsentPolicy.SameAnswers | internal/observer/consent/consent.go:74-81 | policies that compare the same answer every query the same |
| ConsentSource.Source.Current | internal/observer/consent/consent.go:132-166 | one check moves the source as Check says; it reports a change exactly when the version moved |
| ConsentSource.Source.Refused | internal/observer/consent/consent.go:207-213 | an unusable file yields content off and the last roots, narrowed when the document still decodes |
| ConsentSource.CheckAnswers | internal/observer/consent/consent.go:132-166 | a check whose file identity is that of the document in force moves nothing; any other moves validity, the reported problem, content upload and every answer exactly as the fields of the document it reads say |
| ConsentSource.PolicyFollowsHistory | internal/observer/consent/consent.go:127-166 | along every run of checks the published policy answers exactly what the observations it read grant, and which it reads follows from the file's identities alone |
| ConsentSource.SkippingNeverShows | internal/observer/consent/consent.go:132-139 | where no skipped check hides a change, the reads alone say what reading every time would |
| ConsentSource.FailsClosed | internal/observer/consent/consent.go:132-166 | over checks that find no usable file, content upload stays on if and only if it was on and no check found the file's identity moved or unreadable; then nothing moves, otherwise the policy is closed; consent only shrinks |
| ConsentSource.MissingRootGoesUnnoticed | internal/observer/consent/consent.go:132-139 | the concrete file that became unusable and leaves content upload on, until its identity moves |
| ConsentSource.VersionNamesPolicy | internal/observer/consent/consent.go:154-158 | versions never fall, and equal versions are the same policy |
| FenceReload.HandoverRestores | internal/observer/daemon/consent_fence.go:520-547 | reading back the record a shutdown writes, over the log as it is, restores the mark, the withheld set and every origin above the mark, also if the write is reported failed and landed |
| FenceReload.SendRecordRestores | internal/observer/daemon/consent_fence.go:487-505 | the same of the record a send of the final drain rewrites, with the mark it moves |
| FenceReload.WrittenRecordRestores | internal/observer/daemon/consent_fence.go:271-313 | over every run, right after either write reading back whatever is on disk restores the fence as it then is |
| FenceReload.ReloadableIffNotEarly | internal/observer/daemon/consent_fence.go:520-547 | after any run that forgot no record and wrote none early, a step that forgets none leaves every later such run reading back in agreement, at every record on disk, if and only if it writes no record past a frame still waiting to be attributed |
| FenceReload.RunKeepsUnattempted | internal/observer/daemon/consent_fence.go:432-438 | over every run a frame that still waits to be attributed was never attempted |
| FenceReload.EveryRecordReloads | internal/observer/daemon/consent_fence.go:271-313 | over every run that forgets no record and writes none early, a start from any record on disk agrees with the fence on every frame still to be asked for: mark, origins up to the record's end, and withheld set |
| FenceRestart.ConsentCrossesRestart | internal/observer/daemon/consent_fence.go:271-313 | a frame of a stopped run that its record covers and that is still unattempted when the next run decides it is a placeholder whenever the deciding policy denies the consent it was captured under |
| FenceRestart.EarlyRecordSendsWithdrawn | internal/observer/daemon/service.go:657-680 | a concrete run whose stop writes its record while an append waits to be attributed, and whose next start sends that frame as captured under a policy that consents to nothing |
| FenceSpec.DecidedAllMeans | internal/observer/daemon/consent_fence.go:449-482 | deciding frame after frame withholds exactly the unattempted frames the policy denies, and answers a placeholder exactly for the withheld ones |
| FenceSpec.EndsOnBadFrame | internal/observer/daemon/consent_fence.go:474-478 | a read ends with no batch exactly if one of its frames cannot be decoded and is withheld, or not granted by the policy it is decided under |
| ConsentFence.CheckDocument | internal/observer/daemon/consent_fence.go:596-646 | the reader accepts exactly the readable documents |
| ConsentFence.LedgerFile.WriteAtomic | internal/observer/spool/segment.go:432-467 | a write that succeeds leaves the new ledger only; one that fails leaves the old or the new, and only readable ones are ever written |
| ConsentFence.ClipRuns | internal/observer/daemon/consent_fence.go:536-547 | the runs of a shutdown record denote the origins above the mark and their highest sequence |
| ConsentFence.Fence.Persist | internal/observer/daemon/consent_fence.go:552-566 | dirty is cleared only when the ledger is on disk |
| ConsentFence.Fence.WithholdDenied | internal/observer/daemon/consent_fence.go:385-399 | withholds the unattempted part of every denied run and counts something exactly when the set grew |
| ConsentFence.Fence.ApplyLocked | internal/observer/daemon/consent_fence.go:381-402 | unless the policy's version was applied last, exactly the recorded frames above the mark that the policy does not grant are withheld on top of what was; dirty is set exactly when the withheld set grew |
| ConsentFence.Fence.Refresh | internal/observer/daemon/consent_fence.go:369-373 | applies the newest policy to the whole backlog, a passive fence's being one that grants nothing, and records what it newly withholds |
| ConsentFence.Fence.RecordAppend | internal/observer/daemon/consent_fence.go:352-365 | attributes the frame, withholding it at once if its consent is gone |
| ConsentFence.Fence.Decide | internal/observer/daemon/consent_fence.go:449-482 | decides a batch under the newest policy, applied to the backlog first; refuses the batch when a withheld frame cannot be decoded |
| ConsentFence.Fence.ShutdownRecordLocked | internal/observer/daemon/consent_fence.go:536-547 | the record denotes the handover of the fence and passes the reader |
| ConsentFence.Fence.BeforeSend | internal/observer/daemon/consent_fence.go:487-505 | records whatever is unrecorded and moves the attempted mark, or fails and changes neither mark nor record |
| ConsentFence.Fence.Acknowledged | internal/observer/daemon/consent_fence.go:509-514 | forgets exactly what is acknowledged |
| ConsentFence.Fence.RecordShutdown | internal/observer/daemon/consent_fence.go:520-532 | writes the record, or reports failure and forgets it again |
| ConsentFence.Fence.Load | internal/observer/daemon/consent_fence.go:271-313 | brings a blank fence to what the ledger says, discarding a record that does not fit the log |
| ConsentFence.Open | internal/observer/daemon/consent_fence.go:271-313 | a start succeeds exactly when the ledger is readable and the write it may need works, and yields the started fence |
| ConsentFence.DeliverOne | internal/observer/daemon/consent_fence.go:750-773 | a candidate is appended exactly when its root is consented at the sink's generation, and an append is attributed at once |
| FenceInvariant.StepKeeps | internal/observer/daemon/consent_fence.go:207-213 | every step keeps the fence, every ledger the disk may hold, the gate's holders and the lane in step with one another |
| FenceSafety.StepSafe | internal/observer/daemon/consent_fence.go:487-505 | every step that is no hazard keeps sent payloads unchangeable by anything the fence or a ledger knows |
| FenceTheorems.OnePayloadPerSequence | internal/observer/daemon/consent_fence.go:449-505 | over every hazard-free run of appends, policy changes, retries, acknowledgements, failed and half-failed writes, crashes and starts, all sends of a sequence carry one payload |
| FenceTheorems.HazardIsFatal | internal/observer/daemon/consent_fence.go:494-499 | right after a hazard there is a run that sends one frame with both payloads |
| FenceTheorems.ConsistentIffNoHazard | internal/observer/daemon/consent_fence.go:487-505 | after any hazard-free run a step leaves every later hazard-free run consistent if and only if it is no hazard |
| FenceTheorems.KnownRecordsAreSafe | internal/observer/daemon/consent_fence.go:520-532 | a run in which no first shutdown record half-fails is hazard-free, whatever else fails, and sends one payload per sequence |
| FenceExample.HalfFailedRecordSendsTwoPayloads | internal/observer/daemon/consent_fence.go:520-532 | a concrete run from a fresh state directory that sends one frame with two payloads |
| FenceConsent.GateAttributes | internal/observer/daemon/consent_fence.go:336-365 | on every run, an acknowledged watcher append at or below the lane's ceiling has its origin recorded |
| FenceConsent.DecisionStands | internal/observer/daemon/consent_fence.go:432-438 | between a decision and its send no frame of the batch is newly withheld and none released |
| FenceConsent.ConsentBeforeSend | internal/observer/daemon/consent_fence.go:449-505 | a cleared batch was decided under the policy newest at its decision, has a placeholder for every unattempted frame that policy does not cover, and every ledger the disk may hold withholds exactly its placeholders |
| FenceConsent.NeverReleased | internal/observer/daemon/consent_fence.go:352-416 | no step of a running daemon takes a readable sequence out of the withheld set |
| FenceConsent.SurvivesRestart | internal/observer/daemon/consent_fence.go:271-313 | a recorded withheld sequence survives a crash and any start |
| FenceConsent.MarkedIffNotOvertaken | internal/observer/daemon/consent_fence.go:487-505 | a step keeps the mark of every record on disk at or above what is cleared to be sent if and only if it does not send past one unwritten |
| FenceConsent.ShutdownRecordsExact | internal/observer/daemon/consent_fence.go:520-566 | over every run that forgets no half-failed record, every record on disk marks at least every sequence sent |
| FenceConsent.FreshRunKeepsPromises | internal/observer/daemon/consent_fence.go:271-313 | both promises for every such run from a fresh state directory |
| FenceBacklog.StepWithholds | internal/observer/daemon/consent_fence.go:352-402 | over every run a refresh or decision withholds exactly the recorded, unattempted frames the newest policy does not grant, an attribution its own frame if so, and no other step withholds or releases anything but what is forgotten |
| FenceBacklog.WithdrawalsAreRecorded | internal/observer/daemon/consent_fence.go:352-416 | over every run a refresh, decision or attribution whose write works leaves a decision unwritten exactly when one was and it withheld nothing more; otherwise every ledger on disk withholds every withheld frame still to be read |
| FenceBacklog.RefreshLeavesUnwritten | internal/observer/daemon/consent_fence.go:367-373 | a concrete run in which a refresh reports success over an uncovered frame that a ledger on disk does not withhold |
| FenceBacklog.WithdrawalStands | internal/observer/daemon/consent_fence.go:352-416 | once such a step leaves nothing unwritten, an uncovered frame is never again sent as captured, over every later run of crashes, failed writes, grants and starts, until it is acknowledged |
| FenceBacklog.StepMoves | internal/observer/daemon/consent_fence.go:487-514 | the mark moves only to clear a batch, an origin is learned only from its own append and forgotten only when told to |
| FenceBacklog.StartReads | internal/observer/daemon/consent_fence.go:271-313 | what a start takes over of the ledger it reads, and that a passive one withholds every origin it starts with, on disk as well |
| Glob.MatchClass | internal/observer/contentguard/fnmatch.go:92-128 | an opening bracket is a class exactly when it is closed; then the byte matches exactly when the listed members, ranges and negation say so |
| Glob.GlobMatch | internal/observer/contentguard/fnmatch.go:30-87 | true exactly when the name matches the tokens of the pattern, any run of bytes for each star; ends by a measure over star, star position and position |
| Glob.NewStarSuffices | internal/observer/contentguard/fnmatch.go:39-44 | at a new star, whatever an earlier star could still take the new one can take: backtracking to the last star loses nothing |
| Glob.Backtracks | internal/observer/contentguard/fnmatch.go:73-79 | when the segment after the last star fails, the star must take at least one byte more |
| Glob.UsedUp | internal/observer/contentguard/fnmatch.go:82-87 | with the name used up, the pattern means it exactly when only stars are left |
| GlobLaws.PlainPattern | internal/observer/contentguard/fnmatch.go:30-87 | without star or bracket a pattern means the names of its length that agree with it but for question marks |
| GlobLaws.StarBetween | internal/observer/contentguard/fnmatch.go:39-79 | a star between two such patterns means the names that begin with the one and end with the other, not overlapping |
| GlobLaws.ClassOfMembers | internal/observer/contentguard/fnmatch.go:92-128 | a class of bytes matches exactly its members, or exactly the others after an exclamation mark or a caret |
| GlobLaws.ClassOfRange | internal/observer/contentguard/fnmatch.go:106-116 | a range matches the bytes between its ends, both included |
| SecretOut.SecretFile.Reserve | cmd/gasworks/secretout.go:315-327 | reserved bytes never shrink or change under a later reservation; it succeeds exactly when the write is whole and flushed |
| SecretOut.SecretFile.Discard | cmd/gasworks/secretout.go:331-346 | the file is removed only while armed, so only if no secret byte was written |
| SecretOut.SecretFile.Persist | cmd/gasworks/secretout.go:389-431 | the response is saved exactly when it reads back from reserved bytes, and from its write on the file can no longer be removed |
| SecretOut.SecretFile.KeepResponse | cmd/gasworks/secretout.go:436-446 | cuts the file to the response or leaves it whole; the response stays |
| SecretOut.SecretFile.RestoreResponse | cmd/gasworks/secretout.go:466-488 | says the response was kept only when the file starts with it, and lost only when nothing was saved, it cannot be read, or it is not there |
| SecretOut.SecretFile.Rewrite | cmd/gasworks/secretout.go:523-547 | ends as the exact rendering, as the kept response, or as an error for the rescue, each under exactly the failures that lead there; every secret write stays inside reserved bytes |
| SecretMint.SourcedIsSecret | cmd/gasworks/secretout.go:92-97 | a shell that reads the env rendering assigns the secret itself, whatever bytes it holds |
| SecretMint.RecoverableBytes | cmd/gasworks/secretout.go:884-892 | prints the answer as it arrived exactly when a terminal shows every line of it, quoted otherwise |
| SecretMint.ShowsEveryLine | cmd/gasworks/secretout.go:884-892 | that is asked of every stretch between two line ends and of nothing else |
| SecretMint.PrintRecovers | cmd/gasworks/secretout.go:819-870 | what the operator recovers from the print is the content but for newlines at its end; a printed credential is the rendering without its newline, and sourcing it assigns the secret |
| SecretMint.Rescue | cmd/gasworks/secretout.go:632-702 | what is rescued is in the fallback file, or its printed form is handed to the last-resort print |
| SecretMint.RenderMinted | cmd/gasworks/sp.go:261-286 | the reserved file ends rendered, as the answer, or in an error, and Saved exactly when every step works |
| SecretMint.FinishMint | cmd/gasworks/sp.go:177-220 | no silent loss once an answer is in hand: its bytes or rendering are in the reserved file, the fallback or the print; success only over a whole, parsed answer with a secret free of control characters, and then the file is that secret or assigns it when sourced; the file is still one to throw away exactly when there was no room for the answer |
| SecretCeremony.Wait | internal/climint/client.go:691-700 | the interval asked for when it is 1 to 60 seconds, 60 when it asks for more, 5 otherwise |
| SecretCeremony.Poll | cmd/gasworks/sp.go:600-704 | it redeems again only after a 425; it says nothing was minted exactly when every redeem never left, or was answered 425 or another 4xx that names no consumed code and, at 409 or 410, names a refusal; so a lost answer, a bare 2xx and a 5xx end as one that may exist; over an honest server a minted key is in hand or reported as possible; it redeems again while that would begin before the deadline, and never at or past it |
| SecretCeremony.MintKey | cmd/gasworks/sp.go:159-220 | the whole command, deferred discard included: a minted key is in the file, the fallback, the print or the report; the named file is removed exactly when no answer came or there was no room for it, and never once a secret byte was written to it |
| UsageTail.LinesSplit | internal/usageaxis/source.go:68-101 | lines read the same in one piece or cut at a line start |
| UsageTail.ScanWindow | internal/usageaxis/source.go:68-109 | the facts of the complete lines up to the stop, numbered from the cursor, until the limit or the last line; an over-long line is skipped window by window |
| UsageTail.Tail | internal/usageaxis/source.go:31-110 | missing, unreadable, rotated, truncated and grown ledgers each give exactly the facts and the candidate cursor they should |
| UsageTail.ScanNumbers | internal/usageaxis/source.go:48-109 | from a cursor that counts the model lines before it, every fact gets its line's own position and the new cursor counts again |
| UsageTail.GrowthKeepsPositions | internal/usageaxis/source.go:79-88 | growth, also of an unfinished last line, moves no complete line |
| UsageDrain.ModelLinesAre | internal/usageaxis/source.go:79-98 | the model lines of a ledger are its newline-terminated lines that are model facts, each once and in order |
| UsageDrain.TailMoves | internal/usageaxis/source.go:48-109 | a renamed or truncated ledger is read from the top with the numbers going on; the cursor moves exactly if the window holds a newline or is full |
| UsageRunner.Runner.Step | internal/usageaxis/runner.go:121-156 | one turn posts what a tail gives and moves the cursor, and saves it, once that is accepted or when there was nothing to post |
| UsageRunner.Runner.Drain | internal/usageaxis/runner.go:121-156 | turns go on until caught up, refused, cancelled or out of turns |
| UsageRunner.TurnKeepsBound | internal/usageaxis/runner.go:121-163 | a turn keeps every posted number bound to its line and the confirmed ones a prefix |
| UsageRunner.RestartKeepsBound | internal/usageaxis/runner.go:86-90 | so does a restart from any cursor ever saved, or from none |
| UsageRunner.NumbersAreBound | internal/usageaxis/runner.go:86-163 | over every run of turns, growth, lost saves, crashes and restarts a number names one fact across all posts, and the confirmed facts are the first n model lines |
| UsageDrain.TurnConfirms | internal/usageaxis/runner.go:121-163 | a turn that goes on moved the cursor's number by the facts accepted and confirmed exactly those numbers; any other turn confirms nothing; a cursor that moved is saved when saving works |
| UsageDrain.DrainCatchesUp | internal/usageaxis/runner.go:119-156 | over a readable ledger whose lines fit and an accepting server a drain confirms exactly what its cursor passes and moves if and only if a complete line is left; of a rest that fits one scan it takes every model line or fifty batches, and short of that leaves no complete line behind |
| UsageDrain.DrainsConfirmAll | internal/usageaxis/runner.go:119-156 | however long the ledger, drains one after another confirm every model line of it |
| UsageRunner.ChunkIndependent | internal/usageaxis/source.go:48-109 | however a growing ledger is cut into scans and whatever their limits, their facts together are one reading of it |
| CredStore.Store.Transact | internal/store/edge.go:130-168 | success exactly when the lock, the reads, the change asked for and the writes it needs work, and then credentials.json is the new document and the edge file as it was, the new session, or gone unless unlinking failed; failure leaves credentials.json alone, and the edge file unless putting it back failed; in between exactly the states the ordering around the commit point allows |
| CredStore.Store.Update | internal/store/store.go:292-306 | success exactly when the lock, the read, the change and the write work, and then credentials.json is the new document; otherwise nothing moved |
| CredStore.Store.Clear | internal/store/store.go:312-326 | credentials.json goes first; success exactly when both are gone |
| CredHistory.LeftCases | internal/store/edge.go:130-168 | wherever a crash cuts an operation, the files are as before, committed, cleared in part, or old credentials beside the new edge session |
| CredHistory.FencedForGood | cmd/gasworks/edge.go:48-60 | over every history a generation once seen and no longer in credentials.json never gets back there |
| CredHistory.NoResurrection | cmd/gasworks/edge.go:48-60 | once a different generation commits, no edge session in force before is ever in force again, whatever is cut or fails |
| CredHistory.ReplaceIsAtomic | internal/store/edge.go:114-128 | wherever a replacement is cut, either credentials.json is untouched and what was in force is, or nothing; or both files are the new ones |
| CredHistory.UncommittedReplaceStaysOut | internal/store/edge.go:151-158 | a replacement that did not commit leaves credentials.json alone and its root is never in force |
| CredHistory.FailureChangesNothing | internal/store/edge.go:150-168 | a reported failure changed no credentials, and the edge file only if putting it back failed too, in which case nothing is in force |
| CredHistory.SuccessCommits | internal/store/edge.go:130-168 | an operation run to its end reports success exactly when everything it needs worked, and then both files hold what it was asked to commit |
| CredHistory.InForceMeans | cmd/gasworks/edge.go:48-60 | the session in force is the edge file's, exactly if it is usable and carries a well-formed generation that credentials.json carries too |
| CredHistory.RemovalSignsOut | internal/store/edge.go:124-128 | a removal signs the session out in every state a crash or a failed unlink leaves if and only if it commits another generation |
| CredHistory.ClearSignsOut | internal/store/store.go:308-326 | as soon as anything is gone nothing is in force; success means both files are gone |
| ContentConsent.FlightKept | internal/observer/daemon/content.go:603-622 | every step keeps an upload in flight covered by whatever the uploader was told of, or withdrawn |
| ContentConsent.RecordsKept | internal/observer/daemon/content_pending.go:163-285 | every step but a stray save keeps what finished and running sweeps promise of the records on disk and of the one being written |
| ContentTheorems.InFlightIsCovered | internal/observer/daemon/content.go:768-801 | in every interleaving an upload that is not withdrawn is covered by a policy no older than any the uploader was told of, and by the newest once all tellings ran |
| ContentTheorems.SweptRecordsAreCovered | internal/observer/daemon/content_pending.go:163-191 | once the sweep for a policy is through, every record on disk, then and later, is covered by a policy no older than it |
| ContentTheorems.SettledRunsDoNotStray | internal/observer/daemon/content.go:372-398 | no save goes astray while no transcript is observed under another consent than the one it is tracked under |
| ContentTheorems.LateSaveExactly | internal/observer/daemon/content_pending.go:163-191 | with everything published swept for, a save that still finds its state owed leaves every record covered if and only if the newest policy covers the consent the saved record names |
| ContentTheorems.LateSaveRecreatesARecord | internal/observer/daemon/content_pending.go:163-191 | a concrete run that ends with a record under withdrawn consent after its sweep |
| ContentLaws.ConsentedStays | internal/observer/daemon/content.go:603-622 | over every run whose policies all grant a consent, a transcript under it stays tracked, its upload is never withdrawn and its record stays on disk, unless the run is told to forget it |
| ContentLaws.TrackedAfter | internal/observer/daemon/content.go:372-398 | after each step exactly these transcripts are tracked, and under which consent |
| ContentLaws.InFlightAfter | internal/observer/daemon/content.go:768-801 | an upload goes out exactly under consent and is withdrawn exactly when the uploader is told of a policy that does not grant it |
| ContentLaws.OwedAfter | internal/observer/daemon/content_pending.go:163-191 | a plan asks for exactly the covered transcripts' records and uploads, and a record is written exactly if its transcript is still tracked as planned and covered |
| ContentLaws.RecordedAfter | internal/observer/daemon/content_pending.go:256-285 | a record leaves the disk only when told to or swept uncovered; a sweep that could not delete one does not claim to be through |
| ContentUploader.Uploader.DropUncovered | internal/observer/daemon/content.go:607-612 | the loop leaves exactly the states the policy covers |
| ContentPlan.RestartKeysAlike | internal/observer/daemon/content_pending.go:103-143 | with a plan's records written, a restart keys what was to be sent by the same session however the transcript grew, if and only if no record on disk that loads names another session while the marker names it |
| ContentPlan.ReusedFileIsNotKeyed | internal/observer/daemon/content_pending.go:103-113 | a smaller or older file under the same identity and name is not keyed by the record of the one before |
| ContentPlan.RestartLoads | internal/observer/daemon/content_pending.go:103-143 | a restart keys by the record on disk exactly if it was written under the same consent for the same name of a file no larger and no newer |
| ContentUploader.Uploader.Sort | internal/observer/daemon/content.go:491-534 | one transcript: observed, unhandled, keyed, valid and unrefused is owed unless a restart could key it, and ready once stable; keyed but invalid or refused is settled unsent |
| ContentUploader.Uploader.Plan | internal/observer/daemon/content.go:480-534 | is the PlanUploads step over exactly the owed and the ready of the covered transcripts, and settles exactly the unsendable ones |
| ContentUploader.Uploader.Sweep | internal/observer/daemon/content_pending.go:256-285 | the loop leaves exactly the records to keep and those it could not delete, reports a failure if any, and counts what it removed |
| ContentMarkers.MarkersMeanAcceptance | internal/observer/daemon/content.go:1012-1032 | over every interleaving and restart the bytes a marker on disk names were answered 200, 201, or a 409 that is no binding conflict |
| ContentMarkers.StepKeepsMarkersTrue | internal/observer/daemon/content.go:822-942 | every step keeps every marker on disk, being written, or taken from memory true |
| ContentMarkers.RestartRemembers | internal/observer/daemon/content.go:714-738 | after a restart exactly the bytes and binding the marker on disk names need no upload, and a refused binding stays refused |
| ContentMarkers.Uploader.PostSnapshot | internal/observer/daemon/content.go:754-942 | at most two POSTs, the second without the binding exactly when the first was refused it and consent still covers; a marker is written only for bytes the collector took |
| ContentMarkers.Uploader.Settle | internal/observer/daemon/content.go:822-942 | what each kind of answer leaves of the state, the disk and the conflict count, by its code: only 200, 201 and a 409 that is no binding conflict reach the disk or count as uploaded; 400, 413, 422 and an unoffered binding conflict settle in memory; nothing else does unless it gives up |
| ContentMarkers.Uploader.Repeat | internal/observer/daemon/content.go:714-738 | unchanged bytes send nothing and refresh the marker only when they were accepted |
| ContentMarkers.Uploader.Process | internal/observer/daemon/content.go:655-748 | the bytes and binding handled last, or a forgotten transcript: no POST; otherwise one under the binding unless that was refused before |
| Reupload.PostReupload | internal/observer/daemon/reupload.go:461-513 | at most five POSTs, a fifth only if the fourth dropped the binding; every earlier answer was retryable, the outcome is what the last one says, and each wait is the doubling back-off or what a 429 asked for, capped at five minutes |
| Reupload.BindingDroppedOnce | internal/observer/daemon/reupload.go:487-489 | once refused the binding is never offered or refused again |
| Reupload.OutcomeByCode | internal/observer/daemon/reupload.go:461-513 | the outcome by the last answer's code, and which codes are retried |
| Reupload.PausesAre | internal/observer/daemon/reupload.go:461-513 | the waits in seconds: 5, 10, 20, 40, none when the binding is dropped, or what a 429 asks for up to five minutes |
| ReuploadRun.PendingStands | internal/observer/daemon/reupload.go:243-254 | what is left to locate is unsettled and distinct |
| ReuploadRun.ReadyItemsPlan | internal/observer/daemon/reupload.go:259-290 | every item stands for one such marker's record, no two for the same |
| ReuploadRun.Pass.Select | internal/observer/daemon/reupload.go:243-254 | Selected is AlreadyDone plus what is left, and AlreadyDone counts exactly the selected markers the journal holds |
| ReuploadRun.Pass.Locate | internal/observer/daemon/reupload.go:259-290 | each counter counts exactly the markers of its fate, and the items are the rest in order |
| ReuploadRun.Pass.VisitItem | internal/observer/daemon/reupload.go:311-400 | one transcript is read, checked, paced, posted, counted, marked and journaled as its answers say, and stops the pass for exactly the listed reasons |
| ReuploadRun.Pass.Run | internal/observer/daemon/reupload.go:230-405 | a pass visits its items in order until a visit, the context, the limit or the end stops it |
| ReuploadTheorems.PassConserves | internal/observer/daemon/reupload.go:140-159 | whatever ended the pass, Located is what was counted plus what was not reached, nothing is unreached when it ran to its end short of its limit, and Sent is the sum of its outcomes |
| ReuploadTheorems.GivesUpExactly | internal/observer/daemon/reupload.go:377-397 | it gives up on failures exactly when that many posts in a row failed, and on conflicts at that many since the last acceptance |
| ReuploadTheorems.PostsExtendTheRecord | internal/observer/daemon/reupload.go:326-334 | every body posted is the recorded upload's bytes, or those and more |
| ReuploadTheorems.NewMarkerRecognises | internal/observer/daemon/reupload.go:360-376 | the new marker recognises every growth of its bytes if the size recorded is the length read, and otherwise nothing at all |
| ReuploadTheorems.ShortReadLosesTheMarker | internal/observer/daemon/reupload.go:360-376 | a visit that leaves such a marker: the file was a byte longer when it was opened than when it was read |
| ReuploadTheorems.JournalHoldsTheSettled | internal/observer/daemon/reupload.go:297-303 | the journal gains exactly what was accepted with its marker written, rejected for good, or oversize, save an append that failed |
| ReuploadTheorems.NeverPostedAgain | internal/observer/daemon/reupload.go:571-592 | over any passes on one journal, what it holds is not even an item of a later pass, so it is neither opened nor posted again |
| ReuploadTheorems.PostedOnceInAPass | internal/observer/daemon/reupload.go:305-312 | no pass posts a transcript twice |
| ReuploadLaws.PendingExactly | internal/observer/daemon/reupload.go:243-254 | a marker is left to locate exactly if the journal does not hold it and its provider fits and its session was asked for or it was uploaded before the cutoff |
| ReuploadLaws.DoneExactly | internal/observer/daemon/reupload.go:243-254 | AlreadyDone counts the selected markers the journal holds, each once |
| ReuploadLaws.FateExactly | internal/observer/daemon/reupload.go:259-290 | what becomes of a marker by its file, its name and what it would be sent under |
| ReuploadLaws.VisitExactly | internal/observer/daemon/reupload.go:311-350 | what a visit comes to by what was read; refused content is never posted |
| ReuploadLaws.ReportTallies | internal/observer/daemon/reupload.go:311-400 | every visit is counted, and exactly where it belongs |
| ReuploadLaws.FailStreakIs | internal/observer/daemon/reupload.go:377-397 | the failures counted are those since the last judged answer |
| ReuploadLaws.ConflictStreakIs | internal/observer/daemon/reupload.go:377-397 | the conflicts counted are the conflicts and rejections since the last acceptance |
| ReuploadLaws.StopsExactly | internal/observer/daemon/reupload.go:297-400 | a pass ends on a refusal or on a journal that could not be written exactly when its last visit met one |
| ReuploadLaws.MarkerRemembers | internal/observer/daemon/reupload.go:360-376 | a refused binding is never offered again by a later pass, and a cutoff no later than the pass does not select the marker again |

## Left out

- Numbers are unbounded: the source's int64 and uint64 wrap-around is not modelled.
- Log text, per-origin counts, help messages and the shape of a placeholder.
- JSON, CRC and the on-disk encodings; a file that cannot be decoded is a case of its own where the source tells it apart.
- The upload lane, the spool and the transcript watcher: only the calls the fence and the uploader make of them.
- A passive start with no ledger at all is the passive fence over an empty ledger.
- Log segments an operator moved aside appear only as a record that no longer fits the log, and crashed runs' frames as frames without an origin.
- The sink's re-delivery of candidates after a failed append.
- Creating the secret's file, its permission checks, its final renaming, signals' exit codes, and leg A of the ceremony.
- The state file's lock and the HTTP post of the usage runner; usage ledgers rotated between an accepted post and its lost answer, and lines longer than one scan, outside the sequence binding.
- `internal/recallaxis/fnmatch.go`: the same matcher again.
- Power loss that reorders unflushed renames of the two credential files; edge and STS sessions beyond their generation; revocation at the server.
- The content uploader's ordering, pacing, back-off and token-file logic; how the sink threads sessions, and what a name says of one.
- ContentMarkers.Uploader.PostSnapshot: the give-up count after failed POSTs is a parameter, because it is promised only while the transcript's binding stays the same.
- The uploader's guards on names and contents, oversize and unreadable transcripts.
- The re-upload tool's NativeDiffersName and per-provider counts, its temporary-file sweep and its marker directory scan; a journal line torn in the middle.
- Configuration parsing, registry folding, clamps and the denylist tables.
