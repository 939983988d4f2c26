# Fulgur: session persistence and its protocols, verified

Fulgur is a text editor that keeps its whole session (open windows, tabs and
unsaved text) in a small database, and runs a few concurrent protocols beside
it. This project models that logic in Dafny and proves what the code relies on.

## What is modelled

- **Session rows** (`SessionModel`, `StateRows`, `RowFacts`, `LoopFacts`,
  `RowOrder`, `Ordering`, `StateDb`). A database is a map from window ids to a
  window row with its tab rows. `StateDatabase.StateDb` is the handle as the code
  has it: it changes the rows of an open transaction in loops, skips rows that do
  not differ, deletes only windows it owns, and commits at the end. Any statement
  on a faulty connection may fail. Each method is proved against a function of the
  rows it found, and the theorems are about that function: `StateTheorems`
  (refinement of "replace my windows with this snapshot", minimal writes),
  `StateRepeats` (a window id listed more than once),
  `StateCounts` (exact write counts), `StateRoundTrip` (load after apply),
  `StateSettled` (apply after load), `StateFiles` (whole-database save and the
  load that starts a session) and `StateIsolation` (several handles over one
  database). The hash that identifies a text is an arbitrary function, so every
  collision is accounted for.
- **Background writer** (`WriterModel`, `WriterSafety`, `WriterOrder`,
  `WriterProgress`, `WriterExact`, `WriterThread`). A one-slot mailbox, a bounded channel, any
  number of submitting threads and one writer thread, as interleaved steps; the
  writer's own methods are a class tied to those steps and to the database handle.
- **Saving and restoring tabs** (`SessionTabs`, `PreviewTabs`, `FulgurWindow`,
  `SessionFacts`, `SessionRoundTrip`). What a snapshot keeps of each tab, what a restored session
  makes of it, and both composed with the database.
- **Share queue** (`ShareModel`, `ShareSafety`, `ShareRetries`, `ShareStale`, `ShareFacts`, `ShareSync`).
  Delivery, decryption passes, backoff and quarantine.
- **Token refresh** (`TokenModel`, `TokenSafety`, `TokenClear`, `TokenManager`). A mutex and a
  condition variable over any number of threads.
- **Remote requests** (`RemoteModel`, `RemoteSafety`, `RemoteCancel`,
  `RemoteFacts`, `RemoteWindow`). Workers, monitors, cancel buttons and the window's steps; the
  swap of the completion flag and the store of the outcome are separate steps.
- **Window names and identities** (`WindowNames`, `WindowRegistry`,
  `WindowIdentity`).
- **Text rewriting** (`TextRanges`, `TextSearch`, `Sorting`, `InlineRewrite`,
  `ImageRewrite`).
- **File watching** (`RenamePairing`, `WatchDebounce`, `WatchHistory`).

A protocol is a function `Step(state, event)` that is `None` when the event
cannot happen; a run is a sequence of events, and a theorem about every reachable
state is a theorem about every interleaving. Where the source has an object whose
methods change it, there is a class with those methods, each tied to the step or
the function it performs.

## Where the code differs from what it promises

- **A blocking save can discard a newer snapshot.** `save_blocking` says the
  asynchronous save it supersedes is "by construction older".
  `WriterProgress.TwoThreadsCanLose` is a run of two threads that ends with the older
  snapshot stored. `WriterExact.LastAsyncStored` is the exact condition, for any
  number of threads: a snapshot handed over last ends in the database exactly when no
  blocking save was queued or taken up at that moment. Calls that do not overlap
  (`WriterExact.NoOverlapNoLoss`), and so a single thread, always meet it.
- **Unsaved text of an existing file survives one restart, not two.** A restored
  file or remote tab takes its restored text as its baseline, so it no longer
  differs from the original, and the next snapshot stores no text for it unless it
  is edited again. `SessionRoundTrip.SecondSaveKeeps` says exactly which texts are in
  the second snapshot, and `SessionRoundTrip.SecondRestartLoses` what the third
  session opens instead. Among untitled tabs only those too large, or blank under an
  untitled name, are left out.
- **The active tab shifts when tabs are left out.** The stored index counts every
  editor tab while blank or unsavable ones are skipped.
  `SessionRoundTrip.ActiveTabRoundTrip` gives the exact condition and
  `SessionRoundTrip.BlankTabShiftsActive` a case in which it fails.
- **Clearing the token does not stop a refresh in flight.** `clear_token` promises a
  refresh on next access. `TokenClear.ClearForcesRefresh` says that no call is served
  from the cache before a new refresh exactly when, at the clear, no thread is requesting
  a token or was answered with one that is still valid, and `TokenClear.OldTokenServed`
  is a run that serves the token requested before.
- **Cancelling an older reload drops a newer one.** A cancelled save forgets only
  its own token; a cancelled reload forgets the tab's token whichever request it
  belongs to. `RemoteCancel.OpenCancelKeepsOthers` gives the exact condition and
  `RemoteCancel.CancelDropsNewerReload` a run in which it happens.
- **A `<br>` tag left open in an HTML block takes the text behind the block with it.**
  The rewriter looks for the closing `>` in all of the source. `InlineRewrite.KeptExactly`
  says, for every offset and in terms of the source and its ranges, what is kept, and
  `InlineRewrite.OutsideKeptExactly` when everything outside the ranges is.
  `InlineRewrite.OpenTagTakesText` is a source whose next paragraph is removed.
- **An oversize share can leave its retry entry behind.**
  `ShareStale.StaleEntryReachable` is a run that ends so. With unique ids,
  `ShareStale.NoStaleAfter` says that after a run every entry belongs to a queued or taken
  share exactly when no step of it skipped an oversize share that had an entry.

## Model

| member | source | states |
|---|---|---|
| StateDatabase.StateDb.Apply | src/fulgur/state/db/write.rs:58-82 | Whatever the snapshot and the rows found: a failed apply changes neither the committed rows nor the owned set; a successful one commits the windows visited in order less the owned ones that are gone, with exact counts, and owns the snapshot's windows; on a sound connection it succeeds exactly when ids, lengths and positions fit their columns |
| StateDatabase.StateDb.ApplyWindows | src/fulgur/state/db/write.rs:58-70 | The windows are visited in order, each reconciled with what the ones before it left, repeated ids included |
| StateDatabase.StateDb.ApplyWindowAndTabs | src/fulgur/state/db/write.rs:67-69 | One window is replaced by its reconciliation; the counts grow by exactly what was written |
| StateDatabase.StateDb.DeleteWindows | src/fulgur/state/db/write.rs:71-77 | Exactly the given windows disappear with their tabs, and each one that existed is counted once |
| StateDatabase.StateDb.ApplyWindow | src/fulgur/state/db/write.rs:121-197 | The window row becomes the snapshot's and its tab rows stay; an equal row is not written |
| StateDatabase.StateDb.ApplyTabs | src/fulgur/state/db/write.rs:212-255 | The tab rows become the reconciled ones, and the call succeeds exactly when the tabs fit their columns |
| StateDatabase.StateDb.ApplyTabsLoop | src/fulgur/state/db/write.rs:217-242 | After the loop the stored tabs still listed are exactly the closed ones, also when a tab id repeats |
| StateDatabase.StateDb.ApplyTab | src/fulgur/state/db/write.rs:225-241 | One tab is inserted, rewritten, updated or left, and counted accordingly |
| StateDatabase.StateDb.DeleteTabs | src/fulgur/state/db/write.rs:243-254 | Exactly the closed tabs are deleted and counted |
| StateDatabase.StateDb.ReadStoredTabs | src/fulgur/state/db/write.rs:269-318 | The comparable state of every row with a usable id, fingerprints decoded |
| StateDatabase.StateDb.InsertTab | src/fulgur/state/db/write.rs:382-434 | The row holds the tab with its text and fingerprint; on a sound connection it fails exactly when the id or the length does not fit |
| StateDatabase.StateDb.UpdateTab | src/fulgur/state/db/write.rs:451-487 | The existing row takes the tab's text, fingerprint and metadata |
| StateDatabase.StateDb.UpdateTabMetadata | src/fulgur/state/db/write.rs:503-532 | Everything about the row changes except its text and fingerprint |
| StateDatabase.StateDb.FingerprintColumns | src/fulgur/state/db/write.rs:354-365 | The columns encode the fingerprint; it fails exactly when the length does not fit |
| RowFacts.ColumnsMean | src/fulgur/state/db/write.rs:354-365 | No text, no columns; otherwise the length itself and the hash as the signed integer of the same 64 bits |
| RowFacts.EncodableMeans | src/fulgur/state/db/write.rs:64-66 | What a snapshot must fit into: positions, tab ids and text lengths below 2^63 |
| StateDatabase.StateDb.ClaimPersistedWindows | src/fulgur/state/db/write.rs:92-104 | The handle owns every stored window, or is unchanged |
| StateDatabase.StateDb.Load | src/fulgur/state/db/read.rs:20-55 | The windows in restore order with their tabs and resolved active index; on a sound connection it fails exactly when some row cannot be decoded |
| StateDatabase.StateDb.LoadTabs | src/fulgur/state/db/read.rs:68-85 | The tabs of a window in display order; on a sound connection it fails exactly when a remote host has no port |
| RowOrder.RowMeans | src/fulgur/state/db/read.rs:121-146 | How one row reads: its columns as they are, an id below zero as zero, a missing user or path as empty, no remote spec without a host |
| RowFacts.CastRoundTrip | src/fulgur/state/db/write.rs:354-365 | Storing a 64-bit hash in a signed column and reading it back is the identity |
| RowFacts.StoredFingerprintValid | src/fulgur/state/db/write.rs:295-305 | The fingerprint read from a valid row is that of its text |
| StateTheorems.ApplyRefinesReplace | src/fulgur/state/db/write.rs:58-82 | Apply is "replace my windows with this snapshot" exactly when no stored text collides with a new one |
| StateTheorems.ApplyRows | src/fulgur/state/db/write.rs:71-81 | Owned windows absent from the snapshot are gone with their tabs, the snapshot's are there, all others are untouched |
| StateTheorems.ReconcileTabsRows | src/fulgur/state/db/write.rs:212-255 | A window ends up with exactly the snapshot's tabs, each reconciled with its own stored row |
| StateTheorems.ReconcileIsFresh | src/fulgur/state/db/write.rs:226-241 | A reconciled row is the fresh row, holding the old text only when the fingerprints agree |
| StateTheorems.WritesAreExact | src/fulgur/state/db/write.rs:166-168 | The write counts are all zero exactly when the database does not change |
| StateTheorems.ReapplyWritesNothing | src/fulgur/state/db/write.rs:226-241 | Applying the same snapshot again writes nothing, whatever was stored before and whatever collides |
| StateTheorems.ApplyValid | src/fulgur/state/db/write.rs:354-365 | Stored hash and length stay the fingerprint of the stored text |
| StateRepeats.InOrderIsApply | src/fulgur/state/db/write.rs:58-82 | With distinct window ids the visits do not see each other: rows and counts are those read off the starting rows |
| StateRepeats.LastListingDecides | src/fulgur/state/db/write.rs:64-77 | The last listing of a window decides its row and tabs; owned windows not listed are gone, others untouched |
| StateRepeats.InOrderValid | src/fulgur/state/db/write.rs:354-365 | Stored hash and length stay the fingerprint of the stored text, for every snapshot |
| StateCounts.CountsAreExact | src/fulgur/state/db/write.rs:226-254 | Text is written exactly for new tabs and changed fingerprints, metadata for the others that differ, deletions for closed tabs |
| StateCounts.WindowCountsAreExact | src/fulgur/state/db/write.rs:166-197 | Exactly the new and changed window rows are counted as written, exactly the stored windows no longer listed as deleted |
| StateRoundTrip.LoadAfterApply | src/fulgur/state/db/read.rs:20-85 | What was stored reads back in order with all metadata, bounds and resolved active tabs; each text verbatim or the stored text of the same fingerprint |
| StateRoundTrip.LoadsVerbatim | src/fulgur/state/db/read.rs:20-85 | It reads back verbatim exactly when no stored text collides |
| StateRoundTrip.WindowReadsBack | src/fulgur/state/db/read.rs:37-52 | An active index past the tabs reads back as none, any other as itself |
| StateRoundTrip.TabRoundTrip | src/fulgur/state/db/read.rs:121-144 | Title, path, timestamps, colour and remote spec of a tab survive their columns |
| StateSettled.LoadedWritesNothing | src/fulgur/state/db/write.rs:166-168 | Storing what was just read writes nothing exactly when positions count up from zero and every active tab exists |
| StateSettled.ReloadWritesNothing | src/fulgur/state/db/write.rs:226-241 | Apply, load, apply again writes nothing for a handle that owns everything stored |
| StateFiles.SaveToPath | src/fulgur/state/persistence/windows.rs:93-98 | Afterwards the database holds the snapshot's windows and nothing else; it is exactly the snapshot if and only if no stored text collides |
| StateFiles.LoadWithDb | src/fulgur/state/persistence/windows.rs:139-166 | The session read and a handle owning all of it; storing it unchanged writes nothing exactly for settled rows |
| StateIsolation.NonInterference | src/fulgur/state/db/mod.rs:57-59 | Whatever handles with disjoint windows commit in between, a handle's windows follow from its own commits alone |
| StateIsolation.EachHandleKeepsItsSession | src/fulgur/state/db/write.rs:64-81 | In every interleaving a handle's windows read back as its last commit |
| StateIsolation.LoadRestricted | src/fulgur/state/db/read.rs:20-55 | Reading some windows depends on their rows alone |
| Ordering.OrderedUnique | src/fulgur/state/db/read.rs:68-85 | Order by position and id leaves no freedom |
| Ordering.OrderBy | src/fulgur/state/db/read.rs:20-35 | Every key once, by position and then by id |
| WriterSafety.NoLostWakeup | src/fulgur/state/writer.rs:324-333 | A writer waiting without a deadline while a snapshot waits has a message queued or a submitter about to signal |
| WriterSafety.FlushesThrottled | src/fulgur/state/writer.rs:157-165 | A flush before shutdown starts at least a throttle period after the previous write ended, failed writes included |
| WriterSafety.HeldBackExactly | src/fulgur/state/writer.rs:157-165 | A waiting snapshot is held back until a throttle period after the last write, and the first one not at all |
| WriterSafety.OneWriteAtATime | src/fulgur/state/writer.rs:111-115 | Each write begins behind the end of the one before and ends no earlier than it began |
| WriterSafety.QueueBounded | src/fulgur/state/writer.rs:307-333 | At most sixteen messages are queued: a blocking call waits for room, a wakeup never does |
| WriterSafety.WriterOutlivesCallers | src/fulgur/state/writer.rs:256-281 | The writer never exits while a call is running |
| WriterSafety.AlwaysSafe | src/fulgur/state/writer.rs:111-115 | In every reachable state the database holds the last snapshot written successfully |
| WriterOrder.WrittenInOrder | src/fulgur/state/writer.rs:168-189 | With one submitting thread, written snapshots are a strictly increasing subsequence of those submitted |
| WriterOrder.NothingLost | src/fulgur/state/writer.rs:256-281 | The newest snapshot is in the database, the writer's hands, the mailbox or the queue |
| WriterOrder.ShutdownPersists | src/fulgur/state/writer.rs:193-198 | After shutdown the database equals the newest snapshot |
| WriterOrder.BlockingOkMeansStored | src/fulgur/state/writer.rs:307-318 | When a blocking save returns Ok the database equals its argument |
| WriterProgress.Progress | src/fulgur/state/writer.rs:256-281 | Unless it rests, the writer has a next step that leaves less to do |
| WriterProgress.Drain | src/fulgur/state/writer.rs:256-281 | From any reachable state the writer reaches rest with no further call begun, calls already past their hand-over included |
| WriterProgress.EventuallyStored | src/fulgur/state/writer.rs:256-281 | With one submitting thread the newest snapshot is then stored |
| WriterProgress.TwoThreadsCanLose | src/fulgur/state/writer.rs:289-291 | With two submitting threads a shutdown can leave the older snapshot |
| WriterExact.LastAsyncStored | src/fulgur/state/writer.rs:289-291 | For any number of threads, the snapshot handed over last ends in the database exactly when no blocking save was queued or taken up at that moment |
| WriterExact.LastBlockingStored | src/fulgur/state/writer.rs:307-318 | A blocking save issued last always ends in the database |
| WriterExact.NoOverlapNoLoss | src/fulgur/state/writer.rs:324-333 | A snapshot handed over while no blocking call is running is never lost |
| WriterExact.ReplyTellsOwnWrite | src/fulgur/state/writer.rs:181-190 | With any number of threads, a blocking call returns the result of writing its own snapshot |
| WriterThread.WriterState.Write | src/fulgur/state/writer.rs:111-115 | Whatever its result a write is timed; a successful one leaves the database reconciled with the snapshot, a failed one changes nothing |
| WriterThread.WriterState.MailboxDeadline | src/fulgur/state/writer.rs:157-165 | The deadline is the one the writer's loop waits for |
| WriterThread.WriterState.FlushMailbox | src/fulgur/state/writer.rs:168-174 | The take and write steps of the protocol; a successful write leaves the database reconciled with the snapshot taken |
| WriterThread.WriterState.HandleBlocking | src/fulgur/state/writer.rs:181-190 | The waiting asynchronous snapshot is dropped, the blocking one written, and its result is the reply |
| FulgurWindow.Fulgur.BuildTabStates | src/fulgur/state/operations/save.rs:83-175 | The persisted form of every tab that is persisted, in order |
| SessionFacts.SnapshotHolds | src/fulgur/state/operations/save.rs:83-175 | The snapshot lists exactly the editors that are persisted, in display order, each with its id, title, path, remote spec, colour, log flag and recorded time, and with its text exactly when unsaved text is kept, it fits, and the editor is untitled or its text is not the one it was opened with |
| SessionFacts.SavedAs | src/fulgur/ui/tabs/editor_tab/operations.rs:133-160 | The same for one editor: when it is left out, and what is persisted of it |
| FulgurWindow.Fulgur.ActiveEditorIndexForState | src/fulgur/state/operations/save.rs:187-205 | The position of the active editor, or of a preview's source, among all editor tabs |
| SessionFacts.ActiveIndexMeans | src/fulgur/state/operations/save.rs:187-205 | The index counts the editor tabs before the active editor, or before the source of an active preview; none for settings, for no active tab or without the editor |
| FulgurWindow.Fulgur.BuildWindowState | src/fulgur/state/operations/save.rs:232-246 | Tabs, active index and bounds under the window's persistent identity |
| FulgurWindow.Fulgur.LoadState | src/fulgur/state/operations/load.rs:26-105 | The restored tabs with a preview behind each Markdown editor, the active tab chosen among the restored ones and tailed if it is a log with a file, the next id, and the tabs awaiting a reload |
| SessionFacts.SessionHolds | src/fulgur/state/operations/load.rs:49-56 | The restored tabs are exactly the persisted ones that come back, in order, each with its attributes |
| SessionFacts.RestoredAs | src/fulgur/state/operations/load.rs:121-276 | One persisted tab: it comes back exactly when it is remote, its file is to be read and can be, or text was saved; its location, title, text, modified mark, baseline, size flag, log flag and colour follow from the persisted tab and the disk |
| SessionFacts.AwaitingReload | src/fulgur/state/operations/load.rs:147-166 | The tabs awaiting a reload are those persisted with a remote spec |
| SessionFacts.LogsToTailMeans | src/fulgur/state/operations/load.rs:67-74 | A log is tailed at once exactly when the active tab is one shown from a file |
| SessionFacts.InitialTabMeans | src/fulgur/state/operations/load.rs:80-92 | A window without tabs starts with one empty untitled tab, which is never persisted |
| FulgurWindow.NextIdIsLeast | src/fulgur/state/operations/load.rs:62 | The next id is the least one above all restored ids |
| FulgurWindow.Fulgur.RefillTabs | src/fulgur/state/operations/load.rs:41-56 | Tabs keep their stored identities |
| FulgurWindow.Fulgur.InsertPreviewTabsForMarkdown | src/fulgur/ui/tabs/tab_manager/markdown_preview.rs:112-132 | Inserting while walking the growing list puts one preview behind each eligible editor |
| PreviewTabs.PreviewsStand | src/fulgur/ui/tabs/tab_manager/markdown_preview.rs:112-132 | Every tab stays, shifted by the previews before it; a preview stands right behind each Markdown editor that is not large, numbered in order |
| FulgurWindow.LoadedIdsFresh | src/fulgur/state/operations/load.rs:62-63 | With distinct stored ids every tab of the loaded window, previews included, has an id of its own below the next one |
| PreviewTabs.PreviewsNotSaved | src/fulgur/state/operations/save.rs:83-205 | Previews change neither the saved tabs nor any editor's position |
| SessionRoundTrip.SavedTextRestored | src/fulgur/state/operations/decision.rs:35-84 | Saved text comes back verbatim unless its file can be opened and is strictly newer |
| SessionRoundTrip.ContentSurvives | src/fulgur/state/operations/decision.rs:35-84 | End to end through snapshot, database and restore, an unsaved text comes back under its identity |
| SessionRoundTrip.SecondSaveKeeps | src/fulgur/ui/tabs/editor_tab/operations.rs:150-160 | Saved again untouched, a restored text is in the snapshot exactly for tabs restored as untitled that are not too large and not blank under an untitled name |
| SessionRoundTrip.SecondRestartLoses | src/fulgur/ui/tabs/editor_tab/constructors.rs:150-215 | A file's unsaved edit is not in the second snapshot, and the third session opens what the file then holds, or nothing |
| SessionRoundTrip.RestoredAreSurvivors | src/fulgur/state/operations/load.rs:49-56 | The next session holds exactly the surviving editors, in order |
| SessionRoundTrip.SurvivesWhen | src/fulgur/state/operations/decision.rs:35-84 | In terms of the tab and the two disks: a persisted tab is still there unless it is a file that cannot be read and has no saved text that stands |
| SessionRoundTrip.ActiveTabRoundTrip | src/fulgur/state/operations/load.rs:57-65 | The active tab comes back exactly when it survives and every editor before it survives, or none does and there are too few survivors for the index |
| SessionRoundTrip.ActiveThroughDatabase | src/fulgur/state/db/read.rs:37-45 | Storing the active tab by identity and resolving it again changes nothing, whatever texts collide |
| SessionRoundTrip.BlankTabShiftsActive | src/fulgur/state/operations/save.rs:156-158 | One blank untitled tab in front activates the wrong tab |
| ShareSafety.AlwaysConserved | src/fulgur/sync/share/decrypt.rs:84-97 | In every interleaving at most one pass runs, and arrived shares are pending, taken, decrypted, quarantined or oversize |
| ShareSafety.IdleConserved | src/fulgur/sync/share/decrypt.rs:157-254 | Between passes nothing is missing |
| ShareSafety.SplitAll | src/fulgur/sync/share/decrypt.rs:134-146 | Splitting the queue by deadline loses and duplicates nothing |
| ShareSafety.RequeuedComeFirst | src/fulgur/sync/share/decrypt.rs:240-249 | Shares to retry stand before the deferred ones, and those before all that arrived during the pass |
| ShareRetries.BoundedRetries | src/fulgur/sync/share/decrypt.rs:191-220 | With unique ids, attempts are numbered one to five, each an exponential delay after the one before, stored counts stay below five, and quarantine comes exactly with the fifth failure |
| ShareRetries.RetryBudget | src/fulgur/sync/share/decrypt.rs:191-220 | All failed decryptions of a run are at most five per share |
| ShareRetries.BackoffDoubles | src/fulgur/sync/share/decrypt.rs:43-45 | Two seconds after the first failure, doubling with each further one, capped at sixteen doublings |
| ShareRetries.KeyFailureBacksOff | src/fulgur/sync/share/decrypt.rs:267-281 | A keychain failure counts no attempt and never shortens a backoff |
| ShareStale.EntriesHaveShares | src/fulgur/sync/share/decrypt.rs:157-238 | In every interleaving each retry entry carries the id of a queued, taken or oversize share |
| ShareStale.NoStaleEntries | src/fulgur/sync/share/decrypt.rs:158-168 | With unique ids, every entry belongs to a queued or taken share exactly when no oversize share has an entry: what joins the queue to the steps that drop shares |
| ShareStale.NoStaleAfter | src/fulgur/sync/share/decrypt.rs:158-168 | With unique ids, after any run every entry belongs to a queued or taken share exactly when no step of the run skipped an oversize share that had an entry |
| ShareStale.OversizeEntryStep | src/fulgur/sync/share/decrypt.rs:158-222 | A step leaves some oversize share with an entry exactly when there was one or it skips one |
| ShareStale.StaleEntryReachable | src/fulgur/sync/share/decrypt.rs:158-168 | A share fails once, the size limit drops, and the share is dropped with its entry left behind |
| ShareSync.SyncState.AnyShareDue | src/fulgur/sync/share/decrypt.rs:109-119 | True exactly when some queued share is outside its backoff window |
| ShareSync.SyncState.StartDecryptionIfIdle | src/fulgur/sync/share/decrypt.rs:76-97 | A pass starts exactly when a share is due and none is running |
| ShareSync.SyncState.TakeDue | src/fulgur/sync/share/decrypt.rs:134-146 | Due shares are taken and the others stay, both in queue order |
| ShareFacts.SplitPicks | src/fulgur/sync/share/decrypt.rs:134-146 | The shares taken, and those left, are picked from the queue in order by whether they never failed or their next attempt has come |
| ShareFacts.AnyDueMeans | src/fulgur/sync/share/decrypt.rs:109-119 | A pass is worth starting exactly when some queued share never failed or its next attempt has come |
| ShareSync.SyncState.DeferBatchForKeyRetry | src/fulgur/sync/share/decrypt.rs:267-281 | Every share of the batch waits five seconds, attempts unchanged |
| ShareSync.SyncState.NoteFailure | src/fulgur/sync/share/decrypt.rs:191-207 | One more attempt is counted with its exponential delay; an exhausted share is forgotten |
| ShareSync.SyncState.DecodeShare | src/fulgur/sync/share/decrypt.rs:159-222 | One share is dropped, decrypted, requeued or quarantined as the protocol says |
| ShareFacts.DecodeSettles | src/fulgur/sync/share/decrypt.rs:157-222 | One share: dropped when over twice the limit, decrypted with its entry removed, given up at the fifth failure, or queued to wait 2, 4, 8 or 16 seconds |
| ShareFacts.KeyDefers | src/fulgur/sync/share/decrypt.rs:225-281 | Without the key the whole batch is queued to wait five seconds with its attempts unchanged; no other entry changes |
| ShareSync.SyncState.DecodeBatch | src/fulgur/sync/share/decrypt.rs:157-224 | The loop over the batch is the run of decode steps its results call for; the decrypted ids are those neither oversize nor failing, in order |
| ShareSync.DecodedPicks | src/fulgur/sync/share/decrypt.rs:157-189 | The decrypted ids are those of the shares that decrypt and are at most twice the limit, in order |
| ShareSync.SyncState.RunDecryptionPass | src/fulgur/sync/share/decrypt.rs:129-252 | A pass is the run of the protocol that the taken batch, the keychain and the results call for, with the decrypted ids to acknowledge; requeued shares stand in front of deferred ones |
| ShareSync.SyncState.AcknowledgeDownloadedShares | src/fulgur/sync/share/decrypt.rs:291-319 | Exactly the ids whose acknowledgement succeeds leave the set, whichever calls fail in between |
| ShareFacts.KeepPicks | src/fulgur/sync/share/decrypt.rs:300-307 | The ids acknowledged are the decrypted ones still awaiting it, in order |
| TokenSafety.RefreshIsSingleFlight | src/fulgur/sync/access_token.rs:182-269 | The flag is set exactly while one thread, and no more, is in the request section |
| TokenSafety.NoNeedlessRefresh | src/fulgur/sync/access_token.rs:199-229 | No refresh starts while the last stored, uncleared token has more than five minutes left |
| TokenSafety.StartsWhenInvalid | src/fulgur/sync/access_token.rs:207-229 | A refresh starts only in a section that just found no valid token and no refresher |
| TokenSafety.ServedAlive | src/fulgur/sync/access_token.rs:158-162 | In every reachable state each token served from the cache had more than 300 seconds to live, and each call that gave up had waited 30 |
| TokenSafety.ServedExactly | src/fulgur/sync/access_token.rs:185-220 | A section of a call serves the cached token exactly when that has more than 300 seconds to live |
| TokenSafety.MissedMeans | src/fulgur/sync/access_token.rs:196-231 | Otherwise it waits from now on while another thread refreshes, gives up on a timeout meanwhile, and else refreshes itself |
| TokenSafety.TimesOutExactly | src/fulgur/sync/access_token.rs:208-226 | A waiting call can give up exactly once it has waited 30 seconds unnotified |
| TokenSafety.WaiterHasRefresher | src/fulgur/sync/access_token.rs:208-226 | A waiting thread that was not notified has another thread refreshing for it |
| TokenSafety.NeverStuck | src/fulgur/sync/access_token.rs:208-269 | Each unfinished call, or the refresher it waits for, can always move |
| TokenClear.ClearForcesRefresh | src/fulgur/sync/access_token.rs:49-60 | After a clear no call is served from the cache before a new refresh began, in any continuation, exactly when no thread was requesting a token or had been answered with one still valid |
| TokenClear.OldTokenServed | src/fulgur/sync/access_token.rs:252-268 | A run in which the token requested before a clear is served from the cache after it |
| TokenManager.TokenStateManager.ValidToken | src/fulgur/sync/access_token.rs:185-195 | The cached token exactly when there is one with more than 300 seconds to live |
| TokenManager.TokenStateManager.EnterSlowPath | src/fulgur/sync/access_token.rs:196-231 | Return the cached token, wait, or become the refresher, as the protocol says |
| TokenManager.TokenStateManager.AfterWait | src/fulgur/sync/access_token.rs:208-226 | Give up only on a timeout while a refresh is still running |
| TokenManager.TokenStateManager.Publish | src/fulgur/sync/access_token.rs:233-269 | Every way out clears the flag; only a fresh token replaces the cached one |
| TokenManager.TokenStateManager.ClearToken | src/fulgur/sync/access_token.rs:55-60 | The clear step of the protocol: no token is valid at any time, a running refresh goes on |
| RemoteSafety.AtMostOneOutcome | src/fulgur/files/file_operations/remote_save.rs:223-234 | Each request publishes, and delivers, at most one outcome |
| RemoteSafety.OnlyLatestAccepted | src/fulgur/files/file_operations/remote_processing.rs:27-44 | A result is accepted at most once, never after its cancellation and never after a newer request for its tab |
| RemoteSafety.AwaitedIs | src/fulgur/files/file_operations/remote_save.rs:253-256 | A tab's token stands for its latest, uncancelled, unaccepted request |
| RemoteCancel.SaveCancelKeepsOthers | src/fulgur/files/file_operations/remote_save.rs:166-178 | Cancelling a save leaves every other awaited save awaited |
| RemoteCancel.OpenCancelKeepsOthers | src/fulgur/files/file_operations/remote_open.rs:275-284 | Cancelling a reload leaves another awaited reload awaited exactly when it is for another tab |
| RemoteCancel.ForgottenForever | src/fulgur/files/file_operations/remote_processing.rs:27-44 | A request whose token was forgotten is never accepted, whatever happens next |
| RemoteCancel.CancelDropsNewerReload | src/fulgur/files/file_operations/remote_open.rs:275-284 | Two reloads waiting for a password: cancelling the older drops the newer for good |
| RemoteWindow.SaveCompletion.Publish | src/fulgur/files/file_operations/remote_save.rs:223-234 | Undisturbed, swap and store together: the first outcome is stored, later ones are refused |
| RemoteWindow.SaveCompletion.Swap | src/fulgur/files/file_operations/remote_save.rs:228-229 | The swap step of worker or timed-out monitor: the first to come wins |
| RemoteWindow.SaveCompletion.StoreOutcome | src/fulgur/files/file_operations/remote_save.rs:230-232 | The store step of the winner, whatever came between |
| RemoteWindow.SaveCompletion.Poll | src/fulgur/files/file_operations/remote_save.rs:199 | The poll step, in the loop and after the timeout: the monitor takes the outcome once and completes exactly when there was one |
| RemoteWindow.Requests.DispatchSave | src/fulgur/files/file_operations/remote_save.rs:51-54 | A fresh token becomes the tab's latest |
| RemoteWindow.Requests.DispatchReload | src/fulgur/files/file_operations/remote_open.rs:64-70 | A fresh token becomes the tab's latest reload |
| RemoteWindow.Requests.CancelSave | src/fulgur/files/file_operations/remote_save.rs:166-178 | Only the request's own token is forgotten |
| RemoteWindow.Requests.CancelReload | src/fulgur/files/file_operations/remote_open.rs:275-284 | The tab's token is forgotten whichever request it belongs to |
| RemoteWindow.Requests.HandleRemoteSaveResult | src/fulgur/files/file_operations/remote_save.rs:244-275 | Applied exactly when the token is the tab's latest, which is then forgotten |
| RemoteWindow.Requests.ProcessPendingRemoteFiles | src/fulgur/files/file_operations/remote_processing.rs:18-112 | The queue is emptied and exactly the accepted results are applied, in order |
| RemoteFacts.DeliverMeans | src/fulgur/files/file_operations/remote_processing.rs:27-111 | A current result takes its token and in-flight mark; a file ends the wait for a reload, a listing or an error renews it; any other result changes none of these |
| RemoteFacts.AllConsumed | src/fulgur/files/file_operations/remote_processing.rs:23-26 | Every queued result is taken, once and in order |
| RemoteFacts.SaveMeans | src/fulgur/files/file_operations/remote_save.rs:253-284 | A save result counts exactly while its token is the latest of its tab; a success also ends the wait for a reload |
| RemoteWindow.Requests.CloseTab | src/fulgur/ui/tabs/tab_manager/lifecycle/closing.rs:287-290 | Everything kept for the tab is forgotten |
| RemoteFacts.CloseMeans | src/fulgur/ui/tabs/tab_manager/lifecycle/closing.rs:287-290 | Closing a tab leaves nothing kept for it and everything kept for the others |
| RemoteFacts.DispatchSaveMeans | src/fulgur/files/file_operations/remote_save.rs:51-54 | A save starts unpublished and uncancelled under a token no request had before, which becomes the latest of its tab |
| RemoteFacts.DispatchOpenMeans | src/fulgur/files/file_operations/remote_open.rs:64-70 | A reload is dispatched only for a tab that awaits one with none in flight; its token becomes the latest |
| RemoteFacts.SpawnMeans | src/fulgur/files/file_operations/remote_open.rs:262-290 | Once the password is known worker and monitor start, and a reload is marked in flight |
| RemoteFacts.CancelMeans | src/fulgur/files/file_operations/remote_open.rs:275-284 | A running request is cancelled once; a save gives up only its own token, a reload whatever token and mark its tab has; no other tab is concerned |
| RemoteFacts.WorkerMeans | src/fulgur/files/file_operations/remote_ssh_task.rs:137-142 | A finished worker discards a cancelled outcome and still releases the monitor, and publishes any other unless the monitor was first |
| RemoteFacts.StoreMeans | src/fulgur/files/file_operations/remote_save.rs:228-233 | The winner of the flag stores its outcome: a save for its monitor, an open in the queue of the window |
| RemoteFacts.PollMeans | src/fulgur/files/file_operations/remote_ssh_task.rs:146-180 | The monitor takes a finished outcome first, then heeds the cancel flag, then the clock; behind its timeout it looks once more |
| WindowNames.IndexToName | src/fulgur/window_manager/mod.rs:39-52 | The loop builds the spreadsheet-style name of its index |
| WindowNames.IndexOfName | src/fulgur/window_manager/mod.rs:39-52 | Names determine their index |
| WindowNames.NameOfIndex | src/fulgur/window_manager/mod.rs:39-52 | Every word of capital letters is the name of exactly its index |
| WindowNames.NameOrder | src/fulgur/window_manager/mod.rs:220-231 | Comparing names by length and then text is comparing indices |
| WindowRegistry.WindowManager.Register | src/fulgur/window_manager/mod.rs:77-84 | The window gets an unused name and moves to the end of the registration order |
| WindowRegistry.WindowManager.Unregister | src/fulgur/window_manager/mod.rs:90-100 | The window, its name and its menu are gone; the others keep names and order; focus stays on an open window |
| WindowRegistry.WindowManager.PublishWindowMenuTabs | src/fulgur/window_manager/mod.rs:187-200 | Only registered windows publish; true exactly when something changed |
| WindowRegistry.WindowManager.SetFocused | src/fulgur/window_manager/mod.rs:106-110 | Focus moves only to an open window |
| WindowRegistry.WindowManager.GetWindowName | src/fulgur/window_manager/mod.rs:139-146 | A name is shown exactly while several windows are open |
| WindowRegistry.WindowManager.OrderedWindowMenuTabs | src/fulgur/window_manager/mod.rs:220-231 | The published menus of the open windows in registration order, whatever order the maps list them in |
| WindowRegistry.PublishedAre | src/fulgur/window_manager/mod.rs:220-231 | The listed menus are those of all windows of the order that published one, each once and in that order |
| WindowIdentity.IdentitiesAreFresh | src/fulgur/state/persistence/windows.rs:30-36 | Under any clock and interleaving without overflow, identities are distinct, above the caller's reading and above all returned before the call |
| WindowIdentity.WindowIdCounter.AllocateId | src/fulgur/state/persistence/windows.rs:30-36 | Undisturbed, both atomic steps return an identity above the clock and the counter |
| TextRanges.MergeRanges | src/fulgur/utils/sanitize.rs:128-141 | Sorted, disjoint, non-touching ranges covering exactly the same offsets |
| TextRanges.OffsetInRanges | src/fulgur/utils/sanitize.rs:227-239 | The binary search finds an offset exactly when some range holds it |
| TextRanges.SeparateIsCanonical | src/fulgur/utils/sanitize.rs:128-141 | The merged list of nonempty ranges depends on nothing but what is covered |
| InlineRewrite.RewriteInline | src/fulgur/utils/sanitize.rs:152-194 | One output character for each piece of the source |
| InlineRewrite.BrMeans | src/fulgur/utils/sanitize.rs:205-217 | A tag is `<br` in whatever case with `>`, `/` or white space behind it, up to the first `>` of the source |
| InlineRewrite.SanitizeRanges | src/fulgur/utils/sanitize.rs:72-85 | Merging first gives the rewrite of the original ranges; no ranges, no change |
| InlineRewrite.NewlinesAreOutside | src/fulgur/utils/sanitize.rs:178-190 | Every newline left was outside the text ranges |
| InlineRewrite.KeptExactly | src/fulgur/utils/sanitize.rs:161-193 | Every offset is kept exactly when no tag opened in raw HTML runs over it and it is neither a covered newline nor among the covered blanks behind one |
| InlineRewrite.OutsideTextKept | src/fulgur/utils/sanitize.rs:161-176 | Outside the text ranges an offset is kept exactly when no tag opened in raw HTML runs over it |
| InlineRewrite.OutsideKeptExactly | src/fulgur/utils/sanitize.rs:161-193 | Everything outside both kinds of ranges is kept exactly when no tag opened in raw HTML runs over text outside both |
| InlineRewrite.KeptInOrder | src/fulgur/utils/sanitize.rs:152-194 | What is kept stays in order |
| InlineRewrite.PiecesTile | src/fulgur/utils/sanitize.rs:152-194 | The pieces tile the source without gap or overlap |
| InlineRewrite.OpenTagTakesText | src/fulgur/utils/sanitize.rs:205-217 | A `<br` left open in an HTML block removes the blank line and the paragraph behind the block |
| ImageRewrite.ApplyReplacements | src/fulgur/utils/markdown_images.rs:224-240 | The source with the greedy choice of the edits, sorted by start, spliced in |
| ImageRewrite.PickIsGreedy | src/fulgur/utils/markdown_images.rs:229-237 | An edit is applied exactly when no applied edit before it ends behind its start |
| ImageRewrite.SpliceShape | src/fulgur/utils/markdown_images.rs:229-238 | Each applied text and the stretch before it stand at their computed places |
| ImageRewrite.SpliceTail | src/fulgur/utils/markdown_images.rs:238-239 | Behind the last edit the source runs on to its end |
| ImageRewrite.FindImgSrc | src/fulgur/utils/markdown_images.rs:145-168 | The value position of the first `src =`, if there is one |
| ImageRewrite.AttributeMeans | src/fulgur/utils/markdown_images.rs:145-168 | An attribute is `src` in whatever case, blanks, `=`, blanks; its value begins behind the last of them |
| ImageRewrite.RewriteHtmlImgSrc | src/fulgur/utils/markdown_images.rs:85-130 | The scan terminates; None exactly when no quoted value resolves, else every resolving value replaced inside its quotes |
| ImageRewrite.ChunksAreLossless | src/fulgur/utils/markdown_images.rs:85-130 | With nothing resolved the output is the input |
| ImageRewrite.UnresolvedUnchanged | src/fulgur/utils/markdown_images.rs:129 | None loses nothing |
| ImageRewrite.ValuesAreSrc | src/fulgur/utils/markdown_images.rs:90-118 | Only values between equal quotes directly behind a `src =` are touched |
| ImageRewrite.ValueTaken | src/fulgur/utils/markdown_images.rs:90-125 | Every `src` value in equal quotes is taken at its place, unless an attribute before it is still open there |
| RenamePairing.EachHalfUsedOnce | src/fulgur/files/file_watcher/watcher.rs:140-208 | Whatever idle flushes come between the two sections of a handler, a stored first half is used by at most one event, which names its path; a pairing is younger than the timeout when checked |
| RenamePairing.StoredBalance | src/fulgur/files/file_watcher/watcher.rs:99-112 | Stored halves are paired, expired, flushed, overwritten or still pending, and the counts add up |
| RenamePairing.FileWatcher.HandleNotifyEvent | src/fulgur/files/file_watcher/watcher.rs:140-222 | Undisturbed, both sections: events emitted as the transducer says |
| RenamePairing.FileWatcher.DispatchEvent | src/fulgur/files/file_watcher/watcher.rs:143-222 | The second section, whatever became of the pending half since the check |
| RenamePairing.DispatchSends | src/fulgur/files/file_watcher/watcher.rs:143-222 | For each kind of event exactly which events are sent: first path to second, the pending half completed or deleted, a lone second half as a change, a single name of mode Any as a deletion, lists path by path in order |
| RenamePairing.ExpireSends | src/fulgur/files/file_watcher/watcher.rs:99-112 | The expiry check reports exactly a half that waited 500 ms, as deleted |
| RenamePairing.SectionsAlternate | src/fulgur/files/file_watcher/watcher.rs:140-150 | Events are handled one at a time; a flush may come between the two sections of each |
| RenamePairing.FileWatcher.ExpirePendingRenameFrom | src/fulgur/files/file_watcher/watcher.rs:99-112 | A half that waited the timeout becomes one deletion |
| WatchDebounce.AcceptedAreSpaced | src/fulgur/files/file_watcher/suppression.rs:37-63 | Accepted events of a path not forgotten in between lie 500 ms apart and 500 ms behind each recorded save, never during one |
| WatchDebounce.SaveEndsMeans | src/fulgur/files/file_operations/save_ops/save_local.rs:132-150 | A finished save is recorded at its time; the last event of its path is forgotten only when the file is watched anew; other paths stay |
| WatchDebounce.TouchMeans | src/fulgur/files/file_watcher/event_handling.rs:94-105 | An accepted deletion of a file still there becomes its last event and forgets its last save; other paths stay |
| WatchDebounce.PossibleExactly | src/fulgur/files/file_watcher/suppression.rs:37-63 | Events follow a clock that never goes back, and each needs no more than what it speaks of |
| WatchHistory.AcceptedExactly | src/fulgur/files/file_watcher/suppression.rs:37-63 | At any moment of any run a change is taken exactly when no save to its path is under way and a debounce period has passed since every earlier accepted change, accepted deletion and finished save of it, unless it was forgotten in between |
| WatchHistory.AlwaysKept | src/fulgur/files/file_watcher/suppression.rs:37-63 | The two bookkeeping maps together always hold the latest of these times, whichever map holds it |
| WatchDebounce.FileWatchState.ShouldSuppressFileWatchEvent | src/fulgur/files/file_watcher/suppression.rs:37-63 | Suppressed exactly as the transducer says; an accepted event is recorded |
| WatchDebounce.FileWatchState.PruneForPath | src/fulgur/files/file_watcher/suppression.rs:14-18 | Everything about the path is forgotten, nothing else |
| WatchDebounce.FileWatchState.ClearAll | src/fulgur/files/file_watcher/suppression.rs:21-25 | Everything is forgotten |

## Left out

- SQLite, its pragmas, write-ahead log, schema migration, backup and the legacy JSON import: a transaction is one commit over maps, and a statement on a faulty connection may fail.
- The theorems about refinement, minimal writes and reading back assume rows this code writes: fingerprint columns that describe their text, remote columns all set or all empty. The handle's own methods assume neither; a stored port outside 16 bits is not modelled.
- Window geometry as floating point: bounds are compared for equality only, as reals without NaN.
- WriterThread.WriterState.FlushMailbox: the checkpoint that follows the shutdown flush is not modelled.
- The writer's receive loop is the transition system of `WriterModel`, not a method; thread start, join timeouts and panics are left out.
- Tab restoring leaves out encoding detection, CSV state, cursor and the contents of a log view; which editors are Markdown is an arbitrary function of the tab; a remote spec is the persisted one, without the runtime password and the trimming of a blank user.
- Tab ids are unbounded here; the application's stay below 2^64.
- Assembling the snapshot of all windows reads other windows through the window manager, in the order of its map; each window's own part is modelled.
- Share decryption, decompression, keychain access and HTTP acknowledgement are outcomes given to the methods; the notifications of a pass are left out.
- ShareSync.SyncState.RunDecryptionPass: runs undisturbed up to its requeue; interleaved deliveries are in `ShareModel`, where recording a failure and forgetting an exhausted share are one step.
- Retry bounds assume unique share ids; a share that arrives again under an old id starts a new count.
- The token request is an outcome given to the refresher; the wait loop is the steps of `TokenModel`, not one method.
- SSH sessions, password dialogs, host-key prompts and progress notices are events; delivery of a published outcome is not guaranteed and not claimed.
- RemoteWindow.Requests.DispatchSave: assumes fewer than 2^64 requests, so the wrapping token counter never repeats.
- WindowIdentity.IdentitiesAreFresh: assumes clock readings and calls that together stay below the largest 64-bit integer.
- Offsets count characters, not UTF-8 bytes; Markdown parsing supplies the ranges and edits, and path-to-URL conversion is an arbitrary resolver.
- RenamePairing.EachHalfUsedOnce: counts emitted events before the bounded channel, which drops them when full; an event is emitted in the locked section that decides it, so the order of two events emitted at once by handler and flush is not modelled; the age of a pairing is measured at the expiry check of its event.
- Watching and unwatching paths, errors the watcher reports, reloading, conflict dialogs and all other user interface.
- Email and filename checks, language tables, settings and the recent-files list: they would add only easy members.
