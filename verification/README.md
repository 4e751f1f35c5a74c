# Verified cores of the home-operations repository

This project models the stateful programs that the GitOps repository carries besides its manifests, and
proves what each of them is relied on for. It needs no library besides Dafny itself; `dafny verify
dfyconfig.toml` checks all of it.

| modules | program |
|---|---|
| `LibraryTree`, `LibraryScripts`, `LibraryUndo`, `LibrarySession`, `LibraryConservation`, `LibraryNested`, `LibraryIdentity`, `LibraryLeads`, `LibraryCap`, `LibraryCache`, `LibraryAssess`, `LibraryVerdict`, `LibraryServer` | the music-library tools `apply`, `relocate`, `revert`, `evaluate`: a tree of files and stamped directories, a backup volume, an append-only ledger, a memo of album identities |
| `IngestChunks`, `IngestProtocol`, `IngestStored`, `IngestRuns`, `CappedCursor`, `IngestProgress`, `IngestCatchUp`, `IngestStall`, `IngestIndexer` | the Paperless to Qdrant fan-out and the tombstone sweep: an index whose newest `last_modified` is the watermark, capped runs, delete-then-upsert, a crash between any two calls |
| `YamlLines`, `YamlPatterns`, `LimitEditor`, `ClauseEditors` | the deterministic YAML line editors |
| `AgentCall`, `AgentTiming` | agent polling, requeue backoff and their common time budget |
| `NetBoxSync`, `NetBoxFixpoint`, `NetBoxWriter` | drift comparators, the gated upsert, repeated auto-write passes |
| `FlashQueue`, `FlashReconciler` | the capped ESPHome flash queue |
| `Dose`, `DoseSync` | dose periods and their sync into treatment records |
| `WriteCap` | the sliding-window cap on calendar writes |
| `MailData`, `MailDelivery` | the SMTP DATA payload and a receiver after section 4.5.2 of RFC 5321 |
| `Basics`, `Text` | shared vocabulary |

How to read the models:

- A library tool is a *script* of single file steps computed from the world it starts in; `Exec` runs a script
  until a step raises. A call killed half-way is a prefix of its script. The class `LibraryServer.Server` is the
  code with its loops, proved to run exactly those scripts.
- An ingest run is a list of index calls computed from the documents and the index; a crash is a prefix of it.
  The class `IngestIndexer.Collection` holds the loops, proved to perform exactly those calls.
- The line editors work on the lines of a file; regular expressions are line predicates, each shown to match exactly
  the lines that can be put together from its parts (`YamlPatterns`).
- Remote services are abstract state or a parameter that answers; time is a real number that passes only in
  posts and sleeps.

Results that differ from what the code's own comments or intentions suggest:

- `AgentTiming.TwoAttemptsOverrunBudget`: two adherence attempts can take longer together than the budget they
  split; what holds is the bound of `AgentTiming.TriageRun`, the requeue window plus two calls of
  `max(60, BUDGET/2) + 15` seconds.
- `IngestStall.GenuineStall`, `IngestStall.OneHollowDelays`: a document whose first 200,000 characters are blank
  takes a place in the run without entering the index; one of them delays the twentieth document behind it by a
  run, twenty in a row stop all progress. `IngestCatchUp.EverIndexedIff` says exactly which documents still get in.
- `NetBoxFixpoint.OnePassSettlesIff`: one pass is not always enough, and exactly when it is.
- `LibraryCap.AgreesExactlyUpToTwo`: the six-sample scan tolerates two exceptions, and no larger number of them.
- `LibraryNested.NestedAudioCanBeLost`: a relocation backs up only the tracks directly in the album, so four calls on
  a fresh library can lose a track in a sub-folder. `LibraryConservation.RelocateBacksUpIff` says exactly which bytes a
  relocation leaves in a backup, and `LibraryConservation.NothingIsLost` asks for no more than that.
- `LibraryAssess.RetagSettles`: for a folder name without a normal form the same retag is recommended again and
  again, although it is performed only once.
- `DoseSync.CorrectionIsMissed`: a corrected amount with unchanged end and status does not reach the record, however
  often the sheet is synced.
- `MailDelivery.ArrivesAsWrittenIff`: a dot after a bare CR, U+2028 or U+2029 arrives doubled.

## Model

| member | source | states |
|---|---|---|
| `LibrarySession.UndoEverything` | kubernetes/apps/media/rick-library-mcp/app/resources/server.py:490-647 | after any session of successful changes and last-in-first-out reverts, reverting what is still open always succeeds and puts every library file back at its path with its bytes; only empty artist folders are left over |
| `LibrarySession.RevertRestores` | kubernetes/apps/media/rick-library-mcp/app/resources/server.py:606-647 | at any point of any session, reverting the latest open change completes and restores exactly the files there were before that change |
| `LibraryUndo.ApplyUndoable` | kubernetes/apps/media/rick-library-mcp/app/resources/server.py:517-532 | a completed `apply` leaves everything its revert needs: the ledger entry, untouched backups, the files it names |
| `LibraryUndo.RelocateUndoable` | kubernetes/apps/media/rick-library-mcp/app/resources/server.py:576-598 | the same for `relocate` of an album at least two levels deep: the tree can be moved back and every retagged file restored |
| `LibraryUndo.UndoOne` | kubernetes/apps/media/rick-library-mcp/app/resources/server.py:606-647 | reverting an undoable change completes and gives back the files and directories of the world before it |
| `LibraryScripts.Lookup` | kubernetes/apps/media/rick-library-mcp/app/resources/server.py:606-614 | the entry a revert works on is the latest change recorded under that id, whatever reversals follow it, and there is none exactly when no change has that id |
| `LibraryScripts.SafeArtistIsPlain` | kubernetes/apps/media/rick-library-mcp/app/resources/server.py:557-565 | the destination folder of `relocate` is a plain name for every artist exactly except "." and ".." |
| `LibraryScripts.SafeArtistIs` | kubernetes/apps/media/rick-library-mcp/app/resources/server.py:558-558 | and it is the artist with slashes replaced, blanks and then dots at the ends taken off, or the artist as given when nothing is left |
| `LibraryTree.ExecKeepsTree` | kubernetes/apps/media/rick-library-mcp/app/resources/server.py:517-647 | any script of file steps, stopped anywhere, leaves a well-formed tree: every file and directory hangs below an existing directory and no path is both |
| `LibraryConservation.NothingIsLost` | kubernetes/apps/media/rick-library-mcp/app/resources/server.py:517-647 | for any calls in any order, each stopped after any file step, the starting bytes of every audio file are still in the library or in a backup directory, provided each starting file inside an album that is relocated is already in a backup or has the bytes of a track directly in it (flat albums always qualify), and no file that is not backed up starts out where a recorded revert could overwrite it |
| `LibraryNested.NestedAudioCanBeLost` | kubernetes/apps/media/rick-library-mcp/app/resources/server.py:490-647 | from an empty ledger, for any folder and track names: `apply` one album, relocate it, relocate another with the same sub-folder to where it was, revert the first change, and the bytes of the second album's track are neither in the library nor in a backup |
| `LibraryNested.OnlyTheThirdCallIsUnsafe` | kubernetes/apps/media/rick-library-mcp/app/resources/server.py:576-598 | in that run every call but the second relocation meets the condition of `NothingIsLost`, and that one fails it only because its backup does not save the track in the sub-folder |
| `LibraryConservation.RelocateBacksUpIff` | kubernetes/apps/media/rick-library-mcp/app/resources/server.py:576-598 | after a completed relocation the old bytes of a file are in a backup exactly when they were before or are those of a track directly in the album |
| `LibraryConservation.ApplyIsCareful` | kubernetes/apps/media/rick-library-mcp/app/resources/server.py:517-532 | `apply` cut at any step: backups only grow, each audio file is unchanged in place or backed up, and a ledger entry appears only when what its revert could overwrite is backed up |
| `LibraryConservation.RelocateIsCareful` | kubernetes/apps/media/rick-library-mcp/app/resources/server.py:576-598 | the same for `relocate` cut at any step, about the files outside the album and those in it that its backup saves |
| `LibraryConservation.RevertKeeps` | kubernetes/apps/media/rick-library-mcp/app/resources/server.py:614-647 | a revert of any recorded change, stale or not, cut anywhere, keeps every starting file's bytes |
| `LibraryIdentity.DominantByCounting` | kubernetes/apps/media/rick-library-mcp/app/resources/server.py:183-190 | the counting dictionary and its first maximum compute the dominant identifier |
| `LibraryIdentity.DominantIsMostCommon` | kubernetes/apps/media/rick-library-mcp/app/resources/server.py:183-190 | there is a dominant identifier exactly when one is present; it is one of them and none is more common |
| `LibraryLeads.IdentityLeads` | kubernetes/apps/media/rick-library-mcp/app/resources/server.py:216-232 | the identity of an album stands in one of its tracks, no identifier is more common among them and none as common comes first; album-artist identifiers count only when no track has an artist identifier, and there is no identity exactly when none has either |
| `LibraryLeads.SiblingIdIs` | kubernetes/apps/media/rick-library-mcp/app/resources/server.py:247-260 | a sibling counts with its own identity, or with that of its first identified sub-directory; the album in question never counts |
| `LibraryLeads.FolderLeads` | kubernetes/apps/media/rick-library-mcp/app/resources/server.py:235-264 | the folder's identity leads in the same sense among its first six identified siblings in name order |
| `LibraryIdentity.CappedScanAgrees` | kubernetes/apps/media/rick-library-mcp/app/resources/server.py:235-264 | if all but at most two identified siblings share one id, the six-sample scan with its multi-disc peek answers what a scan of every sibling would, for any folder size and order |
| `LibraryCap.MoreExceptionsCanMislead` | kubernetes/apps/media/rick-library-mcp/app/resources/server.py:235-264 | for any two ids and any number of exceptions from three on there is a well-formed library with a folder in which the six-sample scan answers one id and the full scan the other |
| `LibraryCap.AgreesExactlyUpToTwo` | kubernetes/apps/media/rick-library-mcp/app/resources/server.py:213-264 | the two scans agree in every folder with e identified siblings besides those of one id exactly when e is at most two |
| `LibraryCache.MemoEqualsFreshScan` | kubernetes/apps/media/rick-library-mcp/app/resources/server.py:202-232 | after any run of evaluations, changes and last-in-first-out reverts, the memoised identity of any directory is what a fresh scan of its tags gives, when no two directories start with the same modification time |
| `LibraryCache.RememberIsFresh` | kubernetes/apps/media/rick-library-mcp/app/resources/server.py:216-232 | a memo that is right about every directory it could be asked for answers like a fresh scan and stays right |
| `LibraryCache.ScriptTracks` | kubernetes/apps/media/rick-library-mcp/app/resources/server.py:517-598 | file steps other than restores, run to the end or stopped by one that raises, leave every directory with an old modification time the identity it had |
| `LibraryVerdict.DecideIsVerdict` | kubernetes/apps/media/rick-library-mcp/app/resources/server.py:418-464 | what the rules say once the tags are read is the answer the evidence calls for (see the next two rows) |
| `LibraryVerdict.AssessIsVerdict` | kubernetes/apps/media/rick-library-mcp/app/resources/server.py:407-464 | the assessment recommends a retag to the folder exactly when both identifiers are known and agree and the single album artist, if there is one, is not the folder's, or when one is unknown, every artist tag is the folder's and the single album artist is not; a relocation to t exactly when the identifiers differ and t, the MusicBrainz name or else the only artist tag, is not the folder's; it is sure exactly then; it skips exactly what has no tracks, and suppresses exactly compilations and albums that agree |
| `LibraryVerdict.VerdictIsUnique` | kubernetes/apps/media/rick-library-mcp/app/resources/server.py:407-464 | no other answer meets these conditions |
| `LibraryVerdict.EvidenceIsOfTracks` | kubernetes/apps/media/rick-library-mcp/app/resources/server.py:415-417 | the evidence is what the album's own tracks carry in their two artist tags, empty values apart |
| `LibraryVerdict.RelatedIff` | kubernetes/apps/media/rick-library-mcp/app/resources/server.py:86-91 | two names are related exactly when they agree but for case and blanks, or one non-empty normal form occurs in the other |
| `LibraryAssess.RetagSettles` | kubernetes/apps/media/rick-library-mcp/app/resources/server.py:407-536 | after a recommended retag is applied, the next assessment is "leave" exactly when the folder name has a non-empty normal form, else the same retag, never a relocation; a second apply changes nothing in either case |
| `LibraryServer.Server.AlbumIdentity` | kubernetes/apps/media/rick-library-mcp/app/resources/server.py:216-232 | the memoised lookup returns the album's identity and keeps the memo right; an entry with the directory's modification time less than 3600 s old answers without a scan, else the scan is remembered |
| `LibraryServer.Server.PeekDiscs` | kubernetes/apps/media/rick-library-mcp/app/resources/server.py:247-260 | the one-level-deeper loop returns the first identified sub-directory, skipping the excluded one |
| `LibraryServer.Server.ScanFolder` | kubernetes/apps/media/rick-library-mcp/app/resources/server.py:235-264 | the sampling loop answers the capped folder identity |
| `LibraryServer.Server.Evaluate` | kubernetes/apps/media/rick-library-mcp/app/resources/server.py:471-480 | nothing for what is not a directory, else the assessment that the album's evidence calls for, however much of it comes from the memo |
| `LibraryServer.Server.Apply` | kubernetes/apps/media/rick-library-mcp/app/resources/server.py:490-536 | every refusal exactly when it is due: not a directory, nothing asked for or recommended, all tracks already tagged so, neither sure nor confirmed, a track not writable; otherwise it tags with the stripped argument or, without one, the recommendation, runs its script until a step raises, and is done exactly when none does, with every track tagged, backed up and in the ledger; a refusal changes nothing and the memo stays right |
| `LibraryServer.Server.Relocate` | kubernetes/apps/media/rick-library-mcp/app/resources/server.py:540-602 | the same for `relocate` of any directory, the library root included: not a directory, no target, neither recommended nor confirmed, already there, target taken, not writable; when done the tree is at its new place, tagged where possible, backed up and in the ledger |
| `LibraryServer.Server.Revert` | kubernetes/apps/media/rick-library-mcp/app/resources/server.py:606-647 | an unknown change id changes nothing; else the revert script runs until a step raises and success is reported exactly when none does; a change that can be undone, as the latest open one can, is undone and leaves the memo right |
| `IngestRuns.IndexIsExactBelowWatermark` | kubernetes/apps/home/windmill/workflows/paperless-rag-fanout.ts:80-162 | in every state reachable by edits, removals, ingest runs and sweeps, each run or sweep dying after any index call, a live eligible document no newer than some indexed point is stored: its points, numbered from 0, hold its kept text in chunks of 1500 characters, all full but the last, each sharing 200 with the next, with its own data and the right total, and there is no other point of it |
| `IngestStored.ExactIffStored` | kubernetes/apps/home/windmill/workflows/paperless-rag-fanout.ts:265-290 | being exactly indexed, as the other statements put it, is nothing but being stored in that sense |
| `IngestStored.CutIs` | kubernetes/apps/home/windmill/workflows/paperless-rag-fanout.ts:364-375 | there is only one way to cut the kept text like that, and the chunk list is it |
| `IngestStored.EligibleIff` | kubernetes/apps/home/windmill/workflows/paperless-rag-fanout.ts:118-124 | a document is taken up and indexed exactly when its text and the first 200,000 characters of it each have at least 50 characters between the blanks at their ends |
| `IngestRuns.RunSettles` | kubernetes/apps/home/windmill/workflows/paperless-rag-fanout.ts:116-154 | a run cut after any call leaves the index exact up to a bound that only grows, and no point newer than it |
| `IngestRuns.StepKeeps` | kubernetes/apps/home/windmill/workflows/paperless-rag-tombstone.ts:15-45 | every step of either actor, or of Paperless, keeps the invariant |
| `IngestCatchUp.CatchesUp` | kubernetes/apps/home/windmill/workflows/paperless-rag-fanout.ts:88-154 | with k eligible documents pending and no hollow one among the pending, ⌈k/20⌉ unfailing runs index them all, and after n runs the 20n oldest are indexed, however many short documents are mixed in |
| `IngestCatchUp.IndexedAfterIff` | kubernetes/apps/home/windmill/workflows/paperless-rag-fanout.ts:116-154 | with hollow documents too: after n unfailing runs a pending document is indexed exactly when the cursor, which each run moves past the last eligible one of the next twenty considered, has passed it |
| `IngestCatchUp.EverIndexedIff` | kubernetes/apps/home/windmill/workflows/paperless-rag-fanout.ts:116-154 | a pending eligible document is ever indexed exactly when no twenty considered documents in a row between the watermark and it are hollow, and then within one run more than there are considered documents before it |
| `CappedCursor.PassedIff` | kubernetes/apps/home/windmill/workflows/paperless-rag-fanout.ts:116-154 | the same law for any queue worked off by capped runs that restart after the last item they took |
| `IngestStall.GenuineStall` | kubernetes/apps/home/windmill/workflows/paperless-rag-fanout.ts:265-268 | twenty hollow documents in front of an ordinary one: nothing is ever taken although one is wanted |
| `IngestStall.OneHollowDelays` | kubernetes/apps/home/windmill/workflows/paperless-rag-fanout.ts:265-268 | one hollow document in front of twenty ordinary ones: ⌈20/20⌉ runs do not index them all |
| `IngestCatchUp.TakesTheOldest` | kubernetes/apps/home/windmill/workflows/paperless-rag-fanout.ts:116-154 | with no hollow document pending, a run takes the twenty oldest eligible documents past the watermark |
| `IngestProgress.FullRunWatermark` | kubernetes/apps/home/windmill/workflows/paperless-rag-fanout.ts:316-344 | the next watermark is the newest document the run took; a run that takes none changes nothing |
| `IngestCatchUp.StallsExactlyOnHollowDocs` | kubernetes/apps/home/windmill/workflows/paperless-rag-fanout.ts:265-268 | no later run ever changes the index exactly when none of the first twenty considered documents is eligible; otherwise the next run moves the watermark |
| `IngestChunks.Chunk` | kubernetes/apps/home/windmill/workflows/paperless-rag-fanout.ts:364-375 | the slicing loop ends and computes the chunks |
| `IngestChunks.ChunksAreWellChunked` | kubernetes/apps/home/windmill/workflows/paperless-rag-fanout.ts:364-375 | every chunk fits the size, all but the last fill it, neighbours share exactly the overlap |
| `IngestChunks.JoinedIsTheText` | kubernetes/apps/home/windmill/workflows/paperless-rag-fanout.ts:364-375 | joining the chunks without the overlaps gives back the text |
| `IngestChunks.ChunkCount` | kubernetes/apps/home/windmill/workflows/paperless-rag-fanout.ts:364-375 | how many chunks a text of any length yields |
| `IngestChunks.AtMost154Chunks` | kubernetes/apps/home/windmill/workflows/paperless-rag-fanout.ts:51-56 | any text the ingest keeps yields at most 154 chunks |
| `IngestChunks.PointIdsDistinct` | kubernetes/apps/home/windmill/workflows/paperless-rag-fanout.ts:360-362 | two stored points have the same id exactly when document and chunk agree |
| `IngestIndexer.Collection.ReadWatermark` | kubernetes/apps/home/windmill/workflows/paperless-rag-fanout.ts:316-344 | the paging scroll, which gives up after 101 pages of 10,000 points, finds the newest `last_modified` of the points it reaches, and of the whole index up to 1,010,000 points |
| `IngestIndexer.Collection.BuildPoints` | kubernetes/apps/home/windmill/workflows/paperless-rag-fanout.ts:271-287 | the point list holds exactly the document's kept text, cut and numbered as above |
| `IngestIndexer.Collection.IngestDoc` | kubernetes/apps/home/windmill/workflows/paperless-rag-fanout.ts:265-290 | one document is its delete and its upsert, in that order, as far as the successful calls last; after both it is stored, whatever was there before |
| `IngestIndexer.Collection.IngestRun` | kubernetes/apps/home/windmill/workflows/paperless-rag-fanout.ts:80-162 | the paging loops perform exactly the calls of the run above the watermark the scroll finds, up to the one that fails, and at most twenty documents; up to 1,010,000 points the run keeps the invariant, so what is eligible and not newer than the watermark stays stored |
| `IngestIndexer.Collection.Sweep` | kubernetes/apps/home/windmill/workflows/paperless-rag-tombstone.ts:15-45 | deletes the points of exactly the documents that are indexed and no longer live, none of which is left once all calls succeed; the points of live documents are untouched |
| `LimitEditor.ApplyLimit` | kubernetes/apps/ai/local-cron/app/resources/doer_pipeline.py:268-316 | nothing is found exactly when the target's document has no single candidate line; with one, a quantity that does not parse or is smaller is refused, an equal one is a no-op, a larger one is written, each exactly then, and only in the last case is the text changed |
| `LimitEditor.CollectMatches` | kubernetes/apps/ai/local-cron/app/resources/doer_pipeline.py:286-303 | the matches are exactly the lines directly under a `limits:` block of the document, each once |
| `LimitEditor.OneBlockPerLine` | kubernetes/apps/ai/local-cron/app/resources/doer_pipeline.py:286-303 | nested or repeated `limits:` blocks never claim one line twice |
| `LimitEditor.LimitEditIsMinimal` | kubernetes/apps/ai/local-cron/app/resources/doer_pipeline.py:268-316 | a success changes exactly one line, inside a `limits:` block of the target's own document, to a strictly larger quantity |
| `LimitEditor.LimitEditIdempotent` | kubernetes/apps/ai/local-cron/app/resources/doer_pipeline.py:304-316 | the same edit again is a no-op |
| `ClauseEditors.ApplyFor` | kubernetes/apps/ai/local-cron/app/resources/doer_pipeline.py:192-219 | nothing is found exactly without the alert; a rule without a `for:` line gets one right below the alert; with one it is a no-op exactly when the unquoted value is the wanted one, else the first such line is rewritten |
| `ClauseEditors.ForEditIsLocal` | kubernetes/apps/ai/local-cron/app/resources/doer_pipeline.py:192-219 | a success replaces the first `for:` line of the rule of the first alert with that name, or, exactly when that rule has none, inserts one right below the alert; the new line is in the rule and every other line is as before |
| `ClauseEditors.ForEditIdempotent` | kubernetes/apps/ai/local-cron/app/resources/doer_pipeline.py:192-219 | a second application leaves the text alone, and says so exactly when the value has no blanks or quotes at its ends |
| `ClauseEditors.ApplyScalar` | kubernetes/apps/ai/local-cron/app/resources/doer_pipeline.py:167-189 | nothing is found exactly when no field line follows the first name line in its document; else it is a no-op exactly when the unquoted value is the wanted one, else the value of the first such line is replaced |
| `ClauseEditors.ScalarEditIsLocal` | kubernetes/apps/ai/local-cron/app/resources/doer_pipeline.py:167-189 | a success changes the first field line below the first line naming the target, in the same document, and there only the value; every other line is as before |
| `ClauseEditors.ScalarEditIdempotent` | kubernetes/apps/ai/local-cron/app/resources/doer_pipeline.py:167-189 | a second application leaves the text alone, and says so exactly when the value has no quotes at its ends |
| `YamlPatterns.NameLineIff` | kubernetes/apps/ai/local-cron/app/resources/doer_pipeline.py:171-171 | a name line is exactly blanks, `name:`, blanks, the target and blanks |
| `YamlPatterns.AnchoredNameLineIff` | kubernetes/apps/ai/local-cron/app/resources/doer_pipeline.py:276-276 | or the same with an anchor and blanks before the target |
| `YamlPatterns.AlertLineIff` | kubernetes/apps/ai/local-cron/app/resources/doer_pipeline.py:197-197 | an alert line is exactly blanks, a dash, at least one blank, `alert:`, blanks, the target and blanks |
| `AgentCall.CallAgent` | kubernetes/apps/ai/local-cron/app/resources/a2a_client.py:82-136 | polling ends, overruns its budget by less than 15 s, and leaves a record: when each post was sent and with which timeout; the state is that of the last reply delivered in its own time, the text the last non-empty one; no earlier poll was terminal and the first reply neither concluded nor lacked a task if there was a poll; and it returned only for a transport error of the first post, such a first reply, a terminal poll, or the deadline |
| `AgentCall.TranscriptIsUnique` | kubernetes/apps/ai/local-cron/app/resources/a2a_client.py:82-136 | on a given network only one record, and so only one answer, is possible |
| `AgentTiming.TriageRun` | kubernetes/apps/ai/local-cron/app/resources/triage_run.py:213-304 | every run leaves a record of its calls, each begun when the one before it ended or a backoff of 20, 40, 80, 120, 120 ... s (or what is left of the window) later; it goes on only while the backend is down and a second of the window is left, or once after an unproductive reply; the result is that of the last reply; the run ends within the requeue window plus two calls, within two calls when nothing was requeued, and `error` means the backend was still down at the end of the window |
| `AgentTiming.UnavailableIff` | kubernetes/apps/ai/local-cron/app/resources/a2a_client.py:152-168 | the backend counts as down exactly for a transport error, or a failed task whose text is blank or has one of the markers in it, whatever the case |
| `AgentTiming.TwoAttemptsOverrunBudget` | kubernetes/apps/ai/local-cron/app/resources/triage_run.py:213-215 | for every budget there is an agent whose two answered, unproductive attempts take longer together than the budget |
| `AgentTiming.AskAgent` | kubernetes/apps/ai/local-cron/app/resources/doer_pipeline.py:67-96 | the doer's question ends within the window plus one call, gives up only at the end of the window, and leaves the same record without a second question |
| `NetBoxSync.CompareDnsNames` | kubernetes/apps/ai/network-drift/app/resources/gh_sources.py:163-194 | the dictionary and the loop report, once each and in order, exactly the records whose host's first NetBox record has another name, aimed at the address as stored |
| `NetBoxSync.BuildIndex` | kubernetes/apps/ai/network-drift/app/resources/gh_sources.py:166-170 | the dictionary maps each recorded host to the first record that has it |
| `NetBoxSync.CompareLbIps` | kubernetes/apps/ai/network-drift/app/resources/k8s_api.py:114-129 | the loop reports, once each and in order, exactly the LoadBalancer addresses whose host has no record |
| `NetBoxFixpoint.ReportedIff` | kubernetes/apps/ai/network-drift/app/resources/gh_sources.py:163-194 | over all zones: a safe drift is reported exactly for a stale name of a recorded host or an unrecorded LoadBalancer host |
| `NetBoxFixpoint.OnePassSettlesIff` | kubernetes/apps/ai/network-drift/app/resources/autowrite.py:85-135 | one pass leaves no eligible drift exactly when no newly recorded LoadBalancer host also has an unacknowledged zone name |
| `NetBoxFixpoint.TwoPassesSettle` | kubernetes/apps/ai/network-drift/app/resources/autowrite.py:85-135 | two passes leave no unacknowledged safe drift outside the protected ranges, and a third writes nothing, whatever order each pass works in |
| `NetBoxFixpoint.ProtectedNeverChange` | kubernetes/apps/ai/network-drift/app/resources/autowrite.py:52-69 | whatever drifts a pass is handed, on whatever records, no protected record changes and none is created |
| `NetBoxFixpoint.WriteAtHost` | kubernetes/apps/ai/network-drift/app/resources/netbox_writeback.py:142-162 | host by host what one gated write changes: which hosts become known, which names change and to what |
| `NetBoxWriter.NetBox.UpsertIp` | kubernetes/apps/ai/network-drift/app/resources/netbox_writeback.py:125-162 | without a match it appends the stored address with the name, or without a name the description, and the tag; the first match gets the name or the description, and the tag only if that changed something; a dry run changes nothing |
| `NetBoxWriter.NetBox.RunPass` | kubernetes/apps/ai/network-drift/app/resources/autowrite.py:77-135 | handles every drift that is neither acknowledged nor in a protected range exactly once, in (category, key) order, and keeps the protected ranges |
| `NetBoxWriter.SortByKeySorts` | kubernetes/apps/ai/network-drift/app/resources/autowrite.py:129-129 | the work list is ordered by category, then key |
| `FlashReconciler.Classify` | kubernetes/apps/home/esphome/reconciler/app/resources/esphome_reconcile.py:239-274 | the loop lists in name order exactly the reported, hashable, not excluded devices that are forced, changed or on an old version, and records the untracked rest |
| `FlashReconciler.FleetDrains` | kubernetes/apps/home/esphome/reconciler/app/resources/esphome_reconcile.py:277-365 | with o < MAX_PER_RUN offline candidates, after ⌈r/(MAX_PER_RUN − o)⌉ or more runs all r reachable ones are up to date, only the offline ones are queued, and the next run flashes nothing |
| `FlashReconciler.FlashedIff` | kubernetes/apps/home/esphome/reconciler/app/resources/esphome_reconcile.py:340-365 | a reachable candidate is ever flashed exactly when fewer than MAX_PER_RUN offline candidates sort before it |
| `FlashQueue.ServedInTime` | kubernetes/apps/home/esphome/reconciler/app/resources/esphome_reconcile.py:340-365 | and then within the number of runs its own place in the queue calls for, whatever is behind it |
| `FlashReconciler.RunTouchesOnly` | kubernetes/apps/home/esphome/reconciler/app/resources/esphome_reconcile.py:277-310 | whatever fails, a run changes only reachable candidates whose flash was verified, apart from recording the hash of devices without one; excluded devices are untouched and offline ones are not flashed |
| `FlashReconciler.CandidateAfter` | kubernetes/apps/home/esphome/reconciler/app/resources/esphome_reconcile.py:239-310 | after a run without failures exactly the flashed devices have stopped being candidates and every other watched device is up to date |
| `FlashReconciler.Reconciler.FlashOne` | kubernetes/apps/home/esphome/reconciler/app/resources/esphome_reconcile.py:277-310 | compile, upload and verification are sent in that order, each only after the one before succeeded, and the hash is recorded only after all three; a dry run only compiles |
| `FlashReconciler.BatchIsGated` | kubernetes/apps/home/esphome/reconciler/app/resources/esphome_reconcile.py:340-365 | in every batch an upload follows directly on a green compile of the same device, a dry run uploads nothing, nothing follows a failure, and only reachable members are touched |
| `FlashReconciler.Reconciler.Run` | kubernetes/apps/home/esphome/reconciler/app/resources/esphome_reconcile.py:313-365 | a run flashes at most MAX_PER_RUN devices in order, stops at the first failure, keeps the compile gate, and changes nothing about a device, recording apart, that was not compiled, uploaded and seen again, one right after the other |
| `Dose.DeriveDosePeriods` | kubernetes/apps/collab/medikeep-ingest/app/resources/ingest.py:193-208 | the last row of each date counts, and the periods are a run-length encoding of the dates: starts strictly increase, ends are the next starts, neighbours differ, only the last is open, and looking up a recorded date gives its dose |
| `Dose.EncodingIsUnique` | kubernetes/apps/collab/medikeep-ingest/app/resources/ingest.py:193-208 | there is only one such encoding, so the derivation is fixed by the dated doses |
| `Dose.DoseOf` | kubernetes/apps/collab/medikeep-ingest/app/resources/ingest.py:197-199 | exactly the dates of the rows have a dose, and it is the one of the last row given for that date |
| `Dose.DoseMapIsUnique` | kubernetes/apps/collab/medikeep-ingest/app/resources/ingest.py:197-199 | and the dated doses are fixed by the rows |
| `Dose.CoverUnique` | kubernetes/apps/collab/medikeep-ingest/app/resources/ingest.py:200-208 | a date falls in at most one period |
| `DoseSync.SyncDose` | kubernetes/apps/collab/medikeep-ingest/app/resources/ingest.py:356-397 | posts new starts, updates known ones whose end or status changed, leaves every other record alone |
| `DoseSync.SyncHoldsIff` | kubernetes/apps/collab/medikeep-ingest/app/resources/ingest.py:381-397 | after a sync the records hold every period exactly when no record with the right end and status has an outdated amount |
| `DoseSync.AmountStaysUntilSpanChanges` | kubernetes/apps/collab/medikeep-ingest/app/resources/ingest.py:356-397 | over any number of syncs, whatever amounts they bring, a record stays as it is as long as the end and status derived for it stay the same |
| `DoseSync.AmountFollowsSpan` | kubernetes/apps/collab/medikeep-ingest/app/resources/ingest.py:356-397 | and takes on the derived amount at the first sync where one of them differs |
| `DoseSync.CorrectionIsMissed` | kubernetes/apps/collab/medikeep-ingest/app/resources/ingest.py:193-397 | a one-row sheet is synced, its amount corrected, and synced again any number of times: the record keeps the old amount |
| `DoseSync.StartIff` | kubernetes/apps/collab/medikeep-ingest/app/resources/ingest.py:200-208 | a recorded date starts a period exactly when it is the first or its dose differs from the date before |
| `DoseSync.GrowingSheetStaysMirrored` | kubernetes/apps/collab/medikeep-ingest/app/resources/ingest.py:356-397 | records that mirror the sheet mirror it again after later rows are added and synced |
| `WriteCap.NoHourIsOverfull` | kubernetes/apps/ai/calendar-mcp/app/resources/calendar_mcp.py:69-76 | over any serial run with a clock that does not go back, no half-open 3600 s window holds more accepted writes than the cap |
| `WriteCap.AcceptedIff` | kubernetes/apps/ai/calendar-mcp/app/resources/calendar_mcp.py:69-76 | a call is accepted exactly when fewer than the cap of all writes ever accepted lie less than 3600 s back, although the list is pruned in place |
| `WriteCap.Limiter.RateOk` | kubernetes/apps/ai/calendar-mcp/app/resources/calendar_mcp.py:69-76 | the in-place list answers like the full history |
| `MailDelivery.DeliveredAtFinalDot` | kubernetes/apps/home/windmill/workflows/windmill-failure-watcher.ts:228-236 | for every body the message ends at its final dot line only, and what is sent next is left alone, exactly when no header value has a line end followed by a dot |
| `MailDelivery.ArrivesAsWrittenIff` | kubernetes/apps/home/windmill/workflows/windmill-failure-watcher.ts:228-236 | un-stuffing gives back each header line with its own value and the CRLF-normalised body exactly when no dot directly follows a bare CR, U+2028 or U+2029 in the body or a line end in a header value |
| `MailDelivery.NormaliseReplacesEnds` | kubernetes/apps/home/windmill/workflows/windmill-failure-watcher.ts:234-234 | normalising puts CRLF for every line feed with or without a carriage return before it, and changes nothing else |
| `MailDelivery.BareCrDoublesDot` | kubernetes/apps/home/windmill/workflows/windmill-failure-watcher.ts:234-234 | a concrete body that arrives changed, whatever the headers |

## Left out

- Music library: symbolic links and path confinement, file permissions and ownership, tag formats (a file is
  tags plus payload, writable or not), ledger fields that no tool reads back; `shutil.move` is a rename.
- Music library: a directory's modification time is a fresh number at each change, so two directories never
  share one; the fallback for a directory that cannot be stat-ed is not modelled.
- Music library: MusicBrainz and the name normalisers are fixed functions; its disk cache is not modelled.
- Music library: undo of albums directly below the library root, where the move back meets its own artist folder.
- LibraryConservation.NothingIsLost: asks of each relocation that the starting files still in the album are saved by
  its backup, because nothing else in sub-folders is backed up (see `LibraryNested.NestedAudioCanBeLost`).
- Music library: relocation to an artist named "." or "..", whose folder is not a plain name (see
  `LibraryScripts.SafeArtistIsPlain`).
- Music library: the root directory is named "media", as MEDIA_ROOT defaults to.
- LibraryAssess.RetagSettles: about an album below a named artist folder, retagged to the recommended name.
- Ingest: the LightRAG side, embedding vectors, runs with a `since` override or a failed watermark read; the
  code gives no guarantee there. Timestamps are distinct integers; runs, sweeps and edits do not overlap.
- IngestRuns.IndexIsExactBelowWatermark: takes the watermark of the whole index, which the scroll finds as long as
  there are at most 1,010,000 points.
- Ingest: a document edited down below 50 characters keeps its old points, since it is no longer eligible; the
  statements are about eligible documents.
- Line editors: quantity parsing is a parameter, `find_and_apply`, `validate`, the retain guard, git and
  capacity checks are not modelled.
- LimitEditor.LimitEditIdempotent: for values without surrounding blanks, as the pipeline hands them over.
- ClauseEditors.ScalarEditIdempotent: for values without surrounding blanks and the fields `cron` and `retain`.
- Triage: tag classification and the empty-finding gate are one parameter, and so is the agent's backend, as the
  network that answers each post; time spent sending mail is not counted.
- NetBox: acknowledgements are a set of fingerprints; parsers, the other comparators, the seen file, the digest
  and failing writes are not modelled; NetBox matches a bare address by host and stores it with a host mask.
- NetBoxFixpoint.TwoPassesSettle: asks for one canonical name per host across zones, one record per host and
  LoadBalancer addresses without a mask.
- ESPHome: what a failed upload leaves on a device, and timeouts; a verified device is taken to report the current
  version.
- FlashReconciler.FleetDrains: with nothing forced, unchanged configurations and no failing flash.
- Dose sheets: parsing of rows, the readings import, weights; one treatment record per start date.
- DoseSync.SyncDose: asks for chained periods, as the derivation always gives.
- Mail: the SMTP dialogue around DATA, the failure grouping and cooldown.
- Case folding is ASCII only.
- Web hooks, authentication, prompts, digests, metrics, shell scripts and manifests: glue without an invariant.
