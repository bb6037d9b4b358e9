# precizer: a verified model

precizer records the SHA-512 digest and the metadata of every file below a root in an SQLite database,
survives interruption at any moment, and resumes a half-hashed file where it stopped. This project models the
parts of it that are hard to get right and proves what they promise.

* `Store`, `Soundness`, `FileScan`, `History`: the crash-recovery protocol. A connection has a durable table and a
  view; any statement may fail, SQLite may roll back on its own, and every pair of tables that was ever current
  is logged, so that the death of the process between any two statements is a choice of one of them. The
  traversal, the per-file decision, the block loop with its checkpoints, the save point and the shared batch
  are methods over that connection. `History` is any number of runs, traversal and cleanup, over changing files.
* `Journal`: the record of what a traversal meets. It only grows: entries taken up, blocks read, looks at the
  deadlines and, beside it, the readings of the clock. What is said of every block, of the bytes read of a file or
  of the files taken up is said of this record.
* `Sha512`: the streaming interface, proved equal to the padded one-shot hash of FIPS 180-4, sections 5.1.2 and
  6.4, over an arbitrary compression function.
* `Cleanup`: removal of rows whose files are gone. `Traversal`: which files the directory walk reaches.
  `Compare`: the verdicts of comparing two databases. `RelativePath`: the path builder.
* `Ini`, `IniLaws`, `ConfigFile`: the line parser of the configuration file and the handler behind it.
* `SplitArguments`, `HelpOrder`, `ParserStorage`: the argument splitter, the help order and the storage of argp.
* `Deviations`: where processing a file does less than the documentation says.
* `Common`, `Status`, `CString`, `Lexicographic`: shared vocabulary.

Row truth is stated against a `World` that fixes the content of a path for every size and modification time;
paths in its `exempt` set (content that changes behind unchanged metadata, files that cannot be seeked) are
left out of that promise. A row is sealed when its path is locked and its digest final; `Env.seals` lists the
seals a run finds, and every table it ever shows keeps them or has the row unfinished. Whether signals
may arrive and whether anything outside may fail is an input (`Fate`), and so is the point at which a process dies;
within what they permit, signals, failures and SQLite's own rollbacks strike at arbitrary moments. Clock readings and
block sizes are arbitrary choices, access and content of the files are inputs. The PCRE2 patterns are functions
from a path to hit, miss or error.

Where the code and its documentation differ the model follows the code:

* A verifying `--rehash-locked` pass can lose a sealed digest: an interruption writes partial progress over it, and a
  file that can no longer be seeked gets NULL when its metadata has changed (`Deviations.SealSurvivesExactly`,
  `FileScan.Scan.ProcessFile`). Line 248 of precizer's own README says that a sealed digest is not overwritten.
* A digest that is NULL because the file could not be seeked turns into zeros after a change of ctime or of the
  allocated blocks alone (`Deviations.ReusedDigestExactly`).
* A plain dry run computes no digest and still compares a sealed one, with zeros (`Deviations.DryRunFlagsExactly`,
  `FileScan.Scan.ProcessFile`).
* A sealed row without a digest never gets one: a verification that can read the file compares with zeros and
  reports it (`Deviations.NullDigestFlaggedExactly`).
* An interruption noticed right after the last byte of a file drops the finished digest, because the offset is zero
  again; only an earlier checkpoint remains (`FileScan.Scan.NoticeInterruption`).
* The help order puts entries with a short option after those without; the comment at
  libs/argp/src/argp-help.c:876 says before (`HelpOrder.ShortOptionComesAfter`).
* With ARGP_NO_ARGS one byte too few is counted for the short options (`ParserStorage.ParserInit`).
* A blank line counts as a comment line for inih, because the terminator is found in every set of characters;
  a line that exactly fills the buffer at the end of a file is not an error (`Ini.Parser.ReadLine`).

## Model

| member | source | states |
|---|---|---|
| History.AnyHistory | src/precizer.c:115-125 | For any number of runs with any options, traversal and cleanup, with the files changing between runs and the process dying after any statement: every durable table ever left behind holds only true rows (a digest is that of the whole content, a partial row has the context of exactly the bytes before its offset); in runs that do not verify it, a row of a path met with unchanged metadata, and with no reason to be dropped, never covers less of the file than before; no single run, verifying or not, makes an unfinished row cover less of the file as met; a sealed row that every run locks and none verifies is never changed or dropped; no run that locks a sealed row, verifying or not, drops it or finishes it with another digest; and no row appears for a path that neither the first table had nor a run met; a run that nothing comes in the way of (no death, signal or fault, patterns that compile, files within the range of the hash and none exempt) leaves a complete row with the one-shot digest for every readable, visible file that it met, did not find sealed and does not drop, and no row that its cleanup condemns, whatever the runs before left; a dry run leaves the table as it was |
| History.OneRun | src/precizer.c:115-125 | One run cut off after any statement leaves unique paths and true rows; each row was changed as allowed by the traversal, new rows belong to files that the run met, sealed digests were kept or left unfinished, and a row was then dropped only if the cleanup condemned it; with no death, signal or fault the whole work is done (Finished), and a dry run changes nothing. The cleanup is left out after a warning about a locked file and where the root does not open |
| History.ScanFiles | src/precizer.c:115-120 | The traversal leaves only tables that are true and reached by allowed changes; undisturbed it covers every ordinary file, and the cleanup follows unless a locked file called for a warning |
| History.ResumeEqualsOneShot | src/file_list.c:532-554 | After an undisturbed run the digest of an ordinary file is the one-shot digest of its content, whatever was stored before |
| History.CoveredSwept | src/db_delete_missing_metadata.c:353-543 | A covering row outlives a cleanup that does not condemn its path |
| History.CleanUp | src/db_delete_missing_metadata.c:180-646 | Wherever the process dies during the cleanup, the durable table lacks only rows that the cleanup condemns; without signal or fault, and where the root opens, no condemned row is left |
| History.LockedStays | src/db_delete_missing_metadata.c:70-133 | A path that every run locks is never dropped, in any mode |
| History.HeldByRun | src/file_list.c:629-698 | One run, verifying or not, neither drops a sealed row that it locks nor finishes it with another digest |
| History.SealUntilBroken | src/file_list.c:629-698 | Over any number of runs that lock the path, a sealed digest stays until a run is seen to leave the row unfinished |
| History.AdvancedByRun | src/file_list.c:532-554 | Progress and seals carry over one run, through the traversal and the cleanup |
| History.ProgressByRun | src/file_list.c:532-554 | One run in any mode, verifying ones included: an unfinished row never covers less of the file as met, and the row of a file not met stays |
| History.ProgressOverRuns | src/file_list.c:532-554 | Over any number of runs, verifying ones included, an unfinished row that stays never loses what was hashed of a file with the same metadata |
| History.AccountedByRun | src/file_list.c:704-725 | After each run every row belongs to a path that was there at first or that some run met |
| FileScan.Scan.FileList | src/file_list.c:235-860 | With failures and automatic rollbacks possible at any statement: the durable table is always the last committed one; without a failure, interruption included, no rollback happened and every table ever seen in the view leads to the durable one by allowed changes alone, so every save is durable; in every mode every readable, visible file finished before an interruption, locked or not, has a true and complete row there unless a seal was found for it, at most one more file was taken up, and if reading stopped inside that one its durable row ends exactly at the last byte read; the files taken up are on record, in order, and so is the reason for every read error and for a failure; every block and every entry met by an active batch was followed at once by a new reading of the clock that leaves the batch younger than the interval, and whatever had been hashed of a file an interval before a later block of it was durable at that block; an undisturbed pass ends in a warning exactly when a known locked file, readable without error, cannot be accessed or is finished and no longer what it was; no row is written outside a batch |
| FileScan.Scan.Pass | src/file_list.c:235-808 | The loop of the traversal: the same claims about the view and the journal, before the final commit; a violation is noted exactly when some file calls for it |
| FileScan.Scan.Verdict | src/file_list.c:865-875 | The warning about locked files replaces success alone |
| FileScan.Scan.ProcessFile | src/file_list.c:359-725 | One file: a readable, visible file without a sealed row, locked or not, ends covered by a true complete row unless an interruption came before its save; then whatever was hashed beyond its row is saved up to the byte reached, and the file is marked interrupted exactly at a positive offset; a verified row keeps its digest and is flagged exactly when the content differs, loses the digest when the file cannot be seeked and its metadata changed, holds the byte reached after an interruption inside the file, and is untouched after one at byte zero; in every other case (read error, changed size, failure) all seals are complete with their digests; a file is flagged exactly when the row found calls for it; whatever is committed or rolled back, only the row of this path changes, and not even that of a path that is ignored or cannot be read; if reading stopped inside an ordinary file its row ends exactly at the last byte read; an insertion is reported exactly when the path was absent before, and what is reported is stored; an include pattern overrides every ignore pattern, and a path that is only ignored is left alone |
| FileScan.Scan.Begin | src/file_list.c:359-467 | The file is loaded and classified and its turn begins; whether it must be reported follows from the database |
| FileScan.Scan.AlarmLoaded | src/file_list.c:439-467 | Whether a file must be reported is decided by the one row of its path |
| FileScan.Scan.AlarmUntaken | src/file_list.c:439-467 | Until a file is taken up its row is the one that the run found, so the flags refer to that one |
| FileScan.Scan.Open | src/file_list.c:369-413 | The file starts untouched, with its row loaded and its lock and filter decisions made |
| FileScan.Scan.Classify | src/file_list.c:403-467 | A lock pattern keeps a file visible whatever the filters say; an unavailable locked file that has a row is reported and skipped |
| FileScan.IsIgnored | src/match_include_ignore.c:31-57 | An include pattern keeps a path visible whatever the ignore patterns say; an ignore pattern counts only without one; nothing hit means visible |
| FileScan.IncludedIsOrdinary | src/match_include_ignore.c:31-57 | An included, accessible path is processed whatever the ignore patterns say |
| FileScan.IgnoredIsInvisible | src/match_include_ignore.c:31-57 | A path that is only ignored, and not locked, is not processed |
| FileScan.Scan.Load | src/db_read_file_data_from.c:14-116 | What is loaded decodes the one row of the path in the view, NULL columns as zeros; no row means the path is absent |
| FileScan.Scan.Decide | src/file_list.c:473-580 | The skip, reuse, resume, restart and reject decision; a resumed file continues from the saved offset with the saved context, and a skipped one is untouched |
| FileScan.Scan.UpToDateIsCovered | src/file_list.c:492-501 | A skipped file already has a complete row for its present content |
| FileScan.Scan.OrdinaryPlan | src/file_list.c:503-560 | A file without a sealed row, locked or not, is always saved, from byte zero when it is not rehashed, and its stored digest is then that of its content |
| FileScan.Scan.SealedPlan | src/file_list.c:486-530 | A sealed file under --rehash-locked with unchanged, positive size is hashed from its first byte |
| FileScan.Scan.SealedIsDecided | src/file_list.c:497-580 | Such a file is neither skipped as up to date nor dropped as timestamp drift |
| FileScan.Scan.Dispatch | src/file_list.c:473-725 | The outcome for an ordinary, a sealed and a new path through every branch after classification |
| FileScan.Scan.Rehash | src/file_list.c:593-622 | What hashing leaves: nothing, and then only after an interruption with offset zero, a partial state at the position of the last block read, or the digest |
| FileScan.Scan.HashUnlessHalted | src/file_list.c:593-602 | Hashing is left out exactly when an interruption has been noticed before, and then nothing has been read |
| FileScan.Scan.CaughtUp | src/file_list.c:532-554 | A file whose reading stopped inside is further than its row knew, at the position read |
| FileScan.Scan.NoticeInterruption | src/file_list.c:605-617 | A file interrupted at byte zero is dropped, one interrupted later is saved partially |
| FileScan.Scan.Reuse | src/file_list.c:624-627 | Without rehashing the stored digest is taken, and there is no offset to resume from |
| FileScan.Scan.HashStage | src/file_list.c:591-645 | Hash or reuse, then flag a mismatch exactly when a verified digest differs; a sealed row is not written meanwhile |
| FileScan.Scan.OrdinaryDone | src/file_list.c:676-698 | Such a file, when not interrupted, is saved with a row that covers it |
| FileScan.Scan.FurtherDone | src/file_list.c:685-698 | Whatever has been hashed of such a file beyond its row is to be saved |
| FileScan.Scan.MarkedDone | src/file_list.c:605-644 | After hashing, the interruption mark stands exactly at a positive offset, and a mismatch exactly where the saved row calls for it |
| FileScan.Scan.SavedSafely | src/file_list.c:629-698 | Whatever passes the comparison and the save decision has the sealed digest, unless an interruption left it unfinished |
| FileScan.Scan.SealedDone | src/file_list.c:629-644 | For a sealed file the recomputed digest is that of the whole content unless it cannot be seeked, and it is saved exactly when it was interrupted, or not flagged with changed metadata |
| FileScan.Scan.SealedSaved | src/file_list.c:685-702 | From that verdict: the seal, the digest and the refreshed metadata of the row afterwards |
| FileScan.Scan.Judge | src/file_list.c:591-645 | All conclusions of the hashing stage that the final save relies on |
| FileScan.Scan.SaveStage | src/file_list.c:647-725 | The save happens exactly for readable, visible, unflagged files whose row may be replaced |
| FileScan.Scan.Conclude | src/file_list.c:647-725 | What the row of the path says after the final save: a covering row, the byte reached by an interruption, or the verdict on a sealed file; whatever is reported as saved is in the view |
| FileScan.Scan.Finish | src/file_list.c:582-725 | Everything after the decision: coverage, the row of an interrupted file, seal, flags and report for all statuses |
| FileScan.Scan.Examine | src/file_list.c:582-645 | Files that are not processed pass hashing untouched; the others meet the conclusions of the hashing stage |
| FileScan.Scan.DroppedResult | src/file_list.c:605-613 | A file dropped at byte zero leaves row, report and flags as they were |
| FileScan.Scan.HalfwayAt | src/file_list.c:685-698 | What is saved and marked so has a row that ends where reading stopped |
| FileScan.Scan.Visiting | src/file_list.c:235-256 | One loop turn keeps every earlier file covered, across commits, reporting and an interruption of this file, whose row ends where reading stopped; its flags follow from the row that the run found |
| FileScan.Scan.EnterNext | src/file_list.c:235-256 | Taking up an entry, with its check, is on record and keeps every earlier file covered |
| FileScan.Scan.AllCoveredStep | src/file_list.c:235-256 | Rows written later in a traversal never uncover an earlier file while no rollback happened |
| FileScan.Scan.Settle | src/file_list.c:828-837 | The final commit publishes everything unless something failed, without a rollback, and no batch survives |
| FileScan.Scan.NothingLost | src/file_list.c:823-837 | Without a rollback every table ever seen in the view leads to the last one |
| FileScan.Scan.CheckBatch | src/file_list.c:244-256 | An entry met by an active batch is answered with a new reading of the clock, by which the batch is younger than the interval afterwards |
| FileScan.Scan.Sha512Sum | src/sha512sum.c:77-502 | For any block sizes, read errors, checkpoints and interruptions the state left is the absorbed prefix or the one-shot digest; a file that was opened is flagged exactly when it cannot be seeked; a dry run computes nothing |
| FileScan.Scan.HashOpened | src/sha512sum.c:120-502 | The same from the opened file |
| FileScan.Scan.AcceptedUnlessLarge | src/sha512sum.c:365-375 | The hash refuses only files beyond its bit counter or a context that is not to be relied on |
| FileScan.Scan.HashContent | src/sha512sum.c:161-499 | Starting fresh or from a saved context, the digest is that of the whole content |
| FileScan.Scan.HashLoop | src/sha512sum.c:247-253 | The loop with its checkpoint clock keeps offset, context and position read in step with the content, has looked at the deadlines after every block, and leaves the row of the path either as loaded or at an earlier offset |
| FileScan.Scan.ReadLoop | src/sha512sum.c:257-469 | The same for the loop itself, from any point of a pass |
| FileScan.Scan.HashStep | src/sha512sum.c:311-469 | One turn: interruption, one block of any positive length, the look at the deadlines |
| FileScan.Scan.ReadBlock | src/sha512sum.c:351-375 | One block is read at the current offset and absorbed, or the end, a read error or a refusal of the hash is told apart |
| FileScan.Scan.AbsorbBlock | src/sha512sum.c:365-375 | The context becomes that of the longer prefix |
| FileScan.Scan.CheckDeadline | src/sha512sum.c:396-467 | A processed block is answered with a new reading of the clock, by which an active batch is younger than the interval, and everything hashed an interval earlier is durable |
| FileScan.Scan.MeetDeadline | src/sha512sum.c:409-465 | A checkpoint is taken when the pass or the batch has reached its deadline, and only then may the resume point stay behind |
| Journal.PacedLook | src/sha512sum.c:402-407 | Within the interval of the last safe point nothing older than the interval is unsaved |
| Journal.PacedCheckpoint | src/sha512sum.c:424-465 | After a checkpoint nothing hashed before it is unsaved |
| Journal.NotedEvent | src/file_list.c:235-256 | Nothing is read or taken up while a look at the deadlines is outstanding |
| Journal.NotedLook | src/sha512sum.c:396-407 | A look with the first reading after its block or entry keeps the record complete and in time |
| Journal.NothingRead | src/sha512sum.c:351-375 | A file without a block on record has been read nowhere |
| FileScan.Scan.Checkpoint | src/sha512sum.c:424-441 | A checkpoint saves a true partial row and commits it; never over a sealed row |
| FileScan.Scan.FinishDigest | src/sha512sum.c:488-499 | The finished digest is that of the whole content, with offset zero |
| FileScan.Scan.TransactionBegin | src/db_file_transaction.c:13-54 | A save joins the active batch without moving its start, or begins one; a batch that SQLite ended is a failure |
| FileScan.Scan.TransactionCommit | src/db_file_transaction.c:60-80 | Success means that everything pending is durable and the flag is clear |
| FileScan.Scan.TransactionCheck | src/db_file_transaction.c:87-100 | After a successful check an active batch is younger than the interval |
| FileScan.Scan.TransactionRollback | src/db_file_transaction.c:112-142 | Success means no flag and no open transaction, also when SQLite had already rolled back |
| FileScan.Scan.Disturb | src/db_file_transaction.c:24-39 | An automatic rollback falls back to the durable table and is visible as an unhealthy batch |
| FileScan.Scan.Save | src/db_save_file_record.c:33-113 | A successful save is one row in the open batch, at the known ID or at a fresh one that is then known; the report distinguishes insertion from update by the state before processing |
| FileScan.Scan.SaveRow | src/db_save_file_record.c:58-93 | Joining or beginning the batch and writing the row succeed together, or the row stays as it was |
| FileScan.Scan.WriteAllowed | src/db_save_file_record.c:72-93 | The table with the new row is true, an allowed change of the view, and keeps every seal |
| FileScan.Scan.Store | src/db_save_file_record.c:78-93 | Insert or update inside the batch; the ID becomes known only when a row was really inserted |
| FileScan.Scan.UpdateRecord | src/db_update_the_record_by_id.c:19-141 | The row of that ID, and no other, becomes the encoded state of the file |
| FileScan.Scan.InsertRecord | src/db_insert_the_record.c:23-166 | One new row with a fresh ID holds the encoded state of the file |
| Store.Database.Begin | src/db_file_transaction.c:41-51 | A transaction is opened only when none is open |
| Store.Database.Commit | src/db_file_transaction.c:60-80 | Publishes the view, or changes nothing durable |
| Store.Database.Rollback | src/db_file_transaction.c:112-142 | Returns to the durable table or leaves the transaction open |
| Store.Database.AutoRollback | src/db_delete_missing_metadata.c:529-536 | SQLite may drop the pending view between any two statements |
| Store.Database.Insert | src/db_insert_the_record.c:23-166 | Unique paths; success adds exactly one row; a write outside a transaction is counted |
| Store.Database.Update | src/db_update_the_record_by_id.c:19-141 | Success replaces exactly one row |
| Store.Database.Delete | src/db_delete_the_record_by_id.c:26-86 | Success removes exactly one row |
| Store.Database.Find | src/db_read_file_data_from.c:14-116 | The row of a path in the view, if there is one |
| Soundness.TableStepTransitive | src/file_list.c:532-554 | Allowed row changes compose |
| Soundness.IntactWrite | src/file_list.c:685-698 | A write that respects the sealed digests leaves every seal complete |
| Soundness.TurnWrite | src/db_save_file_record.c:72-100 | A write of the file whose turn it is changes no other row, neither since the run began nor since the turn did |
| Soundness.LogGrow | src/db_file_transaction.c:60-142 | Every pair of tables that was ever current stays true and reachable by allowed changes |
| Deviations.SealSurvivesExactly | src/file_list.c:527-702 | A sealed digest is lost exactly when --rehash-locked verifies a file of the same size that could be read and either stopped inside it, or could not seek it while its metadata had changed; it is never replaced by another digest. Line 248 of the repository's README says that it is never overwritten |
| Deviations.ReusedDigestExactly | src/file_list.c:510-525 | Without hashing, the digest column of a finished row changes exactly when it is NULL, the path is not locked, and nothing but ctime or the allocated blocks has changed; it then becomes a digest of zeros |
| Deviations.DryRunFlagsExactly | src/file_list.c:629-644 | A plain dry run reports a sealed file exactly when its stored digest is not all zeros |
| Deviations.NullDigestFlaggedExactly | src/file_list.c:629-644 | A sealed row whose digest is NULL is reported by every verification that can read the file, unless the digest found is all zeros, and then keeps NULL |
| Deviations.DecidesAlike | src/file_list.c:629-698 | The decisions stated here are those of the traversal |
| Deviations.SealBrokenExample | src/file_list.c:605-617 | An interrupted verification of an unchanged file: partial progress replaces the digest |
| Deviations.SealNulledExample | src/sha512sum.c:128-137 | A file that cannot be seeked any more, with a new ctime: the digest becomes NULL |
| Deviations.ZerosExample | src/file_list.c:510-525 | More allocated blocks: a NULL digest becomes zeros |
| Deviations.DryRunExample | src/file_list.c:629-644 | A plain dry run over an unchanged file reports a mismatch |
| Deviations.NullDigestExample | src/file_list.c:629-644 | A file that can be seeked again is reported, and its row keeps NULL |
| Sha512.Init | libs/sha512/src/sha512.c:209-228 | The context of the empty message |
| Sha512.Update | libs/sha512/src/sha512.c:241-295 | Refused exactly for a damaged buffer or a bit counter overflow; otherwise the context of a message becomes that of the longer message, for every split into pieces |
| Sha512.Final | libs/sha512/src/sha512.c:307-371 | The digest is the one of FIPS 180-4: blocks of the padded message folded from the initial value |
| Sha512.PaddedShape | libs/sha512/src/sha512.c:326-371 | The padding is a one bit, as few zeros as fill whole blocks, and the number of bits in the last sixteen bytes, most significant first |
| Sha512.NumberOfBigEndian | libs/sha512/src/sha512.c:361-362 | Big-endian bytes read back as the number |
| Sha512.AcceptsContextOf | libs/sha512/src/sha512.c:173-199 | More input is accepted exactly while the whole message fits the 64-bit bit counter |
| Sha512.FoldAppend | libs/sha512/src/sha512.c:266-293 | Absorbing in two parts is absorbing at once |
| Sha512.BlockCompletes | libs/sha512/src/sha512.c:286-291 | Completing the pending block compresses it |
| Sha512.PaddedFold | libs/sha512/src/sha512.c:326-371 | The one or two blocks made by the finaliser are the tail of the padded message |
| Cleanup.Cleaner.DeleteMissing | src/db_delete_missing_metadata.c:180-646 | No DELETE outside the transaction; a failure leaves the durable table as it was; the rows are looked at whenever an update without comparison can open its root and nothing fails or interrupts, and without signals, faults and broken patterns nothing does; then a run without failure removes exactly the doomed rows among those scanned, all of them when not interrupted; a dry run decides the same and changes nothing; a changed table implies the modified flag |
| Cleanup.Cleaner.Transact | src/db_delete_missing_metadata.c:250-646 | The scan inside its transaction: without failure the rows were looked at and exactly the doomed ones among those scanned are gone; with one nothing changed |
| Cleanup.Cleaner.Sweep | src/db_delete_missing_metadata.c:298-573 | The cursor loop applies the decision to a prefix of the rows, in scan order; until it ends the durable table is the old one |
| Cleanup.Cleaner.SweepRow | src/db_delete_missing_metadata.c:353-543 | One row is kept, deleted inside the transaction, or ends the scan; there is no DELETE once the transaction is gone |
| Cleanup.Cleaner.Decide | src/db_delete_missing_metadata.c:353-503 | The five-way decision with interruptions between its checks; a lock is asked only where it matters |
| Cleanup.Cleaner.DeleteRecord | src/db_delete_the_record_by_id.c:14-97 | A DELETE sets the flag and removes one row; a dry run only probes |
| Cleanup.Cleaner.Finish | src/db_delete_missing_metadata.c:598-625 | Commit or roll back: all or nothing |
| Cleanup.JudgeKeepsSurvivors | src/db_delete_missing_metadata.c:353-503 | A row is kept exactly for one of the documented reasons |
| Cleanup.JudgeByPatterns | src/db_delete_missing_metadata.c:353-503 | The decision in terms of the include, ignore and lock patterns, the access and the two drop options |
| Cleanup.SurvivorsExactly | src/db_delete_missing_metadata.c:298-573 | After a complete scan exactly the locked, the ignored without drop-ignored, and the visible rows that are readable, or inaccessible without drop-inaccessible, are left, unchanged |
| Cleanup.UnscannedUntouched | src/db_delete_missing_metadata.c:300-305 | After an interruption the rows not reached are untouched |
| Traversal.Traverse | src/file_list.c:235-432 | The files handed over are those of the pruned walk, in its order; only an interruption, which needs a signal, or a directory of the tree on which the patterns break, cuts the sequence short |
| Traversal.EntriesWithin | src/file_list.c:286-358 | What a directory contains lies in the tree |
| Traversal.EnterDirectory | src/file_list.c:286-358 | A directory is descended into unless it is ignored with neither include nor lock patterns given, or inaccessible without include patterns |
| Traversal.WalkIsSelection | src/file_list.c:274-358 | The walk reaches exactly the files not too deep and below only directories it descends into |
| Traversal.MaxdepthCountsDirectories | src/file_list.c:274-283 | --maxdepth=N admits the files at most N directories below the root, 0 those of the root itself; without it nothing is too deep |
| Traversal.ReachedExactly | src/file_list.c:274-358 | A file is reached exactly when it is within the depth and all directories above it are descended into: all of them with include patterns, the visible accessible ones with neither include nor lock patterns |
| Traversal.EachPathOnce | src/file_list.c:235-360 | The traversal hands over no path twice |
| Traversal.LockedFilesAreReached | src/file_list.c:323-432 | With lock patterns, every locked file within the depth limit below accessible directories is reached and not skipped, for every ignore and include set |
| Traversal.PruningIsFiltering | src/file_list.c:323-337 | With neither include nor lock patterns and a downward-closed ignore set, pruning processes exactly the files of the per-file filter, in the same order |
| RelativePath.PathBuildRelative | src/path_build_relative.c:19-142 | Succeeds exactly when a chain of non-empty names reaches the root and the path fits in memory; the result is the names from the root joined by '/', terminated; the size mismatch branch is never taken, for any levels |
| RelativePath.Measure | src/path_build_relative.c:45-78 | The length pass computes the length of the joined names, or fails exactly when a name is empty or it overflows |
| RelativePath.WriteBackwards | src/path_build_relative.c:114-131 | The write pass stays inside the buffer, fills it exactly and lands on its first byte |
| RelativePath.JoinIsInjective | src/path_build_relative.c:12-14 | Slash-free, non-empty names are determined by the joined path |
| RelativePath.DistinctPaths | src/path_build_relative.c:12-14 | Entries with different chains of names have different paths; the root shares its path only with an entry named "." |
| Ini.ParseStream | libs/inih/src/ini.c:95-267 | Parsing in place, line by line, makes exactly the calls, and returns exactly the error line, of the line-by-line reference run, for every stream and every handler |
| Ini.Parser.ReadLine | libs/inih/src/ini.c:142-174 | One chunk becomes one line; a full buffer without a newline is an error exactly when more follows |
| Ini.Parser.Discard | libs/inih/src/ini.c:165-174 | The rest of a line that is too long is dropped in pieces |
| Ini.Parser.TrimLine | libs/inih/src/ini.c:176-184 | Byte order mark and outer blanks are removed in place |
| Ini.Parser.Dispatch | libs/inih/src/ini.c:186-254 | The cases of a trimmed line in their order: comment or blank, continuation, section, pair, error |
| Ini.Parser.ContinueValue | libs/inih/src/ini.c:190-200 | An indented line is given to the handler under the previous name |
| Ini.Parser.EnterSection | libs/inih/src/ini.c:202-220 | A closed header stores the clipped section and forgets the previous name; an unclosed one is an error |
| Ini.Parser.SetValue | libs/inih/src/ini.c:221-253 | Name and value around the first '=' or ':' that no comment precedes |
| Ini.Parser.SplitPair | libs/inih/src/ini.c:224-233 | The cuts and trims made in one buffer yield the trimmed name and the trimmed, uncommented value |
| Ini.Parser.Handle | libs/inih/src/ini.c:135-139 | The handler sees section, name, value and line; its refusal is the first error |
| Ini.RStrip | libs/inih/src/ini.c:47-52 | Removes exactly the trailing blanks and writes nothing outside the string |
| Ini.LSkip | libs/inih/src/ini.c:55-60 | Finds the first byte that is not blank |
| Ini.FindCharsOrComment | libs/inih/src/ini.c:65-80 | Finds the first of the characters or a '#' behind a blank, else the end |
| Ini.StrNCpy0 | libs/inih/src/ini.c:84-92 | Copies what fits and terminates it |
| Ini.Fgets | libs/inih/src/ini.c:291-314 | Takes bytes through the newline or until the buffer is full |
| IniLaws.FindAll | libs/inih/src/ini.c:62-80 | The search runs to the end exactly of text without hits |
| IniLaws.RunAppend | libs/inih/src/ini.c:141-260 | Whole lines are read the same whatever follows them |
| IniLaws.CommentLine | libs/inih/src/ini.c:184-186 | A comment line, indented or not, behind a byte order mark or not, only counts as a line |
| IniLaws.EmptyLine | libs/inih/src/ini.c:182-186 | A line of blanks only counts as a line |
| IniLaws.LineWithoutSign | libs/inih/src/ini.c:243-257 | A line without separator that is no comment, header or continuation is an error on its line and ends the parsing |
| IniLaws.UnclosedHeader | libs/inih/src/ini.c:201-219 | A header that is never closed is an error on its line |
| IniLaws.OverlongLine | libs/inih/src/ini.c:162-172 | A line that does not fit the buffer is an error on its line |
| IniLaws.AssignmentLine | libs/inih/src/ini.c:221-241 | A name and a value around '=' or ':', with or without blanks: the value is trimmed and ends where a comment begins |
| IniLaws.AssignmentRuns | libs/inih/src/ini.c:221-241 | Such a line causes one call with section, name, value and line, and is what may be continued |
| IniLaws.InlineComment | libs/inih/src/ini.c:227-233 | A value ends where blanks and a '#' begin a comment |
| IniLaws.StoredNames | libs/inih/src/ini.c:235-237 | In every reachable state the stored name is empty, filled its buffer, or can be written again as it is |
| IniLaws.AssignmentShape | libs/inih/src/ini.c:221-241 | `name = text` is read as the name and the trimmed, uncommented text |
| IniLaws.ContinuationIsRepetition | libs/inih/src/ini.c:184-200 | From any state, an indented line is the same as repeating `name = ` before its text |
| IniLaws.ContinuationInFile | libs/inih/src/ini.c:184-241 | The same anywhere in a file, for names shorter than their buffer: calls, line numbers and everything that follows agree |
| IniLaws.HeaderEndsContinuation | src/parse_configfile.c:45-49 | A section header changes none of the applied settings; it only ends a continuation |
| IniLaws.RunAlike | src/parse_configfile.c:45-49 | Runs from states that differ only in their section apply the same settings |
| IniLaws.ValuesFit | src/parse_configfile.c:130-138 | Every value handed over, for every file, fits the copy buffer |
| ConfigFile.RoundTrip | src/parse_configfile.c:98-142 | Settings printed as `name = "value"` lines come back in order with their names and line numbers, and a value comes back after quote stripping exactly when no '#' in it follows a blank |
| ConfigFile.QuotedValue | libs/inih/src/ini.c:227-233 | A quoted value survives comment cutting exactly when nothing in it looks like a comment |
| ConfigFile.PrintedRuns | libs/inih/src/ini.c:141-267 | A printed list causes exactly the expected calls and no error |
| ConfigFile.ReadConfigEntry | src/parse_configfile.c:36-216 | The handler call made for a name and a value, through aliases, quotes and truth values, or a rejection |
| ConfigFile.CopyUnquoted | src/parse_configfile.c:98-138 | The buffer holds the value without one outer pair of quotes; an unclosed quote is an error |
| ConfigFile.ApplyValue | src/parse_configfile.c:147-192 | Truth values, the compare option and the handler key |
| ConfigFile.FlagsInFile | src/parse_configfile.c:147-165 | For a flag, true, yes, on, y and 1 in any case mean the flag as on the command line, false, no, off, n and 0 pass "false", anything else is refused |
| ConfigFile.ValuesInFile | src/parse_configfile.c:144-192 | Other options take their value as it is; dry-run also takes the truth words; compare switches the comparison on and names a database |
| ConfigFile.CommandLineOnly | src/parse_configfile.c:53-62 | help, usage, version and config are refused |
| ConfigFile.EitherQuote | src/parse_configfile.c:98-128 | Either kind of quotes is taken off, and an unclosed one refused |
| ConfigFile.QuotingIsNeutral | src/parse_configfile.c:140-142 | Quoted and unquoted spellings of a value reach the same outcome |
| ConfigFile.CaseIsNeutral | src/parse_configfile.c:149-160 | The case of a truth value does not matter, for dry-run included |
| SplitArguments.SplitArguments | libs/argp/configure.c:65-132 | Splitting in place succeeds exactly when no quote or escape is unfinished, packs the words at the start of the buffer and records where each begins; at most (length + 1) / 2 arguments are written for every input, failing ones included; nothing beyond the terminator is touched |
| SplitArguments.TakeWord | libs/argp/configure.c:84-123 | One word is copied down without its quotes and escapes; the write cursor never passes the read cursor and unread input stays as it was |
| SplitArguments.TakeStep | libs/argp/configure.c:89-117 | One byte or one escape |
| SplitArguments.TakeArgument | libs/argp/configure.c:84-129 | A word, the blanks after it and its terminator |
| SplitArguments.WordFacts | libs/argp/configure.c:87-118 | A word ends at a blank or the end, is no longer than its source, and holds no NUL |
| SplitArguments.ArgumentsReadBack | libs/argp/configure.c:57-63 | The C string at each recorded start is the argument, whatever follows in the buffer |
| SplitArguments.SplitReadsQuoted | libs/argp/configure.c:54-63 | Arguments written in single quotes with any blanks between them split into themselves, empty ones included |
| SplitArguments.SplitReads | libs/argp/configure.c:65-132 | Arguments written with any mixture of plain bytes, escapes, single and double quotes, separated by blanks, split into what they mean |
| SplitArguments.WordReads | libs/argp/configure.c:84-123 | A word means its stretches one after the other |
| SplitArguments.PlainReads | libs/argp/configure.c:115-117 | An unquoted argument reads as itself |
| SplitArguments.DoubleReads | libs/argp/configure.c:92-105 | Between double quotes a backslash counts only before backslash, quote, dollar, backtick and newline |
| SplitArguments.UnfinishedWord | libs/argp/configure.c:94-97 | An unclosed quote or a backslash at the end is an error |
| HelpOrder.EntryCmp | libs/argp/src/argp-help.c:800-899 | The sign of the comparison is the lexicographic order of the sort keys; the documented order is kept (MustPrecede): groups 0, 1, ... then ..., -2, -1, entries outside clusters before clusters of their group, a cluster before what lies in it, siblings by group and the last created first, options before documentation, and the first character without regard to case |
| HelpOrder.PlaceCmp | libs/argp/src/argp-help.c:807-838 | Group of the base cluster, cluster membership, cluster, own group |
| HelpOrder.NameCmp | libs/argp/src/argp-help.c:876-899 | Short option last, then long names without regard to case |
| HelpOrder.OrderIsTransitive | libs/argp/src/argp-help.c:789-799 | The four laws of the comment, ties included, for any entries over any cluster forest |
| HelpOrder.OrderIsAntisymmetric | libs/argp/src/argp-help.c:789-799 | Swapping the entries flips the sign; a tie means equal keys |
| HelpOrder.ShortOptionComesAfter | libs/argp/src/argp-help.c:876-879 | An entry with a short option comes after one without, against the comment in these lines |
| HelpOrder.ShortOptionExample | libs/argp/src/argp-help.c:876-879 | `-a` comes after `--a` |
| HelpOrder.ClusterCmp | libs/argp/src/argp-help.c:728-759 | Cluster order is the lexicographic order of the root-to-node keys, a prefix first |
| HelpOrder.CousinCmpByKey | libs/argp/src/argp-help.c:701-726 | At equal depth, parents first, then group, then reversed index |
| HelpOrder.SiblingCmpByKey | libs/argp/src/argp-help.c:687-699 | Group, then reversed index |
| HelpOrder.GroupCmpByKey | libs/argp/src/argp-help.c:675-685 | Groups come in the order 0, 1, ..., n, -m, ..., -1 |
| HelpOrder.GroupCmpDocumented | libs/argp/src/argp-help.c:675-685 | Groups from 0 upwards, then the negative ones up to -1 |
| HelpOrder.OrderIsDocumented | libs/argp/src/argp-help.c:800-874 | The order by key keeps the documented order of groups, clusters, documentation and first characters |
| HelpOrder.AboveFirst | libs/argp/src/argp-help.c:728-759 | A cluster comes before everything that lies in it |
| HelpOrder.SiblingFirst | libs/argp/src/argp-help.c:687-699 | Clusters of one parent come by group, then the last created first |
| HelpOrder.GroupCmpFits | libs/argp/src/argp-help.c:675-685 | The subtraction stays within int exactly for groups of one sign or less than 2^31 apart |
| HelpOrder.ClusterBase | libs/argp/src/argp-help.c:763-769 | The ancestor without a parent |
| HelpOrder.FirstShort | libs/argp/src/argp-help.c:557-623 | The first visible short option among the letters that the entry owns, or 0 |
| HelpOrder.FirstLong | libs/argp/src/argp-help.c:625-635 | The name of the first visible option that has one |
| HelpOrder.CanonDocOption | libs/argp/src/argp-help.c:774-787 | Whether a documentation name looks like an option, and its sortable tail |
| ParserStorage.ParserInit | libs/argp/src/argp-parse.c:483-518 | For every argp tree all groups, child inputs and long options fit what was counted; the short options run over their storage exactly when ARGP_NO_ARGS is set and every option takes three characters; the long options are terminated, without duplicates, and name exactly the real options of the tree; every long option has the name, the key and the kind of argument of an option of the tree, and the short options are those of the tree with one colon for an argument and two for an optional one |
| ParserStorage.OverrunExample | libs/argp/src/argp-parse.c:491-491 | A concrete tree for which the short options do not fit |
| ParserStorage.CalcSizes | libs/argp/src/argp-parse.c:454-479 | The counts of the whole tree |
| ParserStorage.Parser.ConvertOptions | libs/argp/src/argp-parse.c:313-412 | The arrays hold the tables of the whole tree, in preorder, and every write but those of the short options is within bounds |
| ParserStorage.Parser.AddGroupOptions | libs/argp/src/argp-parse.c:326-375 | The entries of one group, aliases sharing the argument of their primary option |
| ParserStorage.Parser.AddGroupOf | libs/argp/src/argp-parse.c:322-399 | One group with its parent, its end of short options and its child inputs |
| ParserStorage.Parser.AddLong | libs/argp/src/argp-parse.c:349-373 | A long option is added exactly when its name is new, and the list stays terminated |
| ParserStorage.Parser.FindLongOption | libs/argp/src/argp-parse.c:200-213 | Finds a name exactly when the table has it |
| ParserStorage.ConvertFits | libs/argp/src/argp-parse.c:450-479 | What is written is within the counts; the short options reach theirs exactly when every option takes three characters |
| ParserStorage.ConvertNames | libs/argp/src/argp-parse.c:349-373 | Names stay distinct, and a name is present exactly when a real option has it |
| ParserStorage.ConvertGives | libs/argp/src/argp-parse.c:326-373 | Every long option comes from an option of the tree with its name, key and kind of argument; the short options are those of the tree in order |
| ParserStorage.RealAtIsLatest | libs/argp/src/argp-parse.c:326-330 | An alias shares with the latest option that is none |
| ParserStorage.ValReadsBack | libs/argp/src/argp-parse.c:732-761 | The packed value is an int exactly for the first 127 groups; it gives back the group, and the key exactly when it fits 24 bits |
| Compare.DbCompare | src/db_compare.c:294-521 | For any two tables with unique paths: on success the report is faithful for the categories in scope; after a failure or a noticed interruption there is no verdict; without signals, faults and broken patterns it succeeds |
| Compare.CompareRows | src/db_compare.c:410-516 | The same from the rows of the three queries |
| Compare.Select | src/db_compare.c:371-382 | Scanning a table lists the paths of the wanted rows once each, in the order of their bytes |
| Compare.UnmatchedRows | src/db_compare.c:371-382 | The rows without a partner are the paths of one map that the other lacks |
| Compare.DifferingRows | src/db_compare.c:447-451 | The joined rows with different digests are the common paths on which the maps differ, NULL being a value |
| Compare.ReportCategory | src/db_compare.c:172-276 | What is reported is always the start of the visible rows, and all of them on success |
| Compare.ListingUnique | src/db_compare.c:371-382 | An ordered query over unique paths has one result |
| Compare.CategoriesPartition | src/db_compare.c:371-451 | The three categories are disjoint and together are the paths on which the maps from path to digest differ |
| Compare.ListedExactly | src/db_compare.c:384-407 | Which paths each category lists: without a filter all visible ones that differ in its way, with one only the categories it names |
| Compare.EqualMeansAgreement | src/db_compare.c:478-515 | With all categories enabled "absolutely equal" is printed exactly when the maps agree on the filtered scope |
| Compare.SwapSwaps | src/db_compare.c:371-451 | Swapping the databases swaps first and second source and nothing else |
| Compare.TrueRowsAreEqual | src/db_compare.c:478-515 | Two finished databases whose rows are true of the same files are reported equal, whatever their row numbers and metadata |

## Left out

- The compression function of SHA-512 is a parameter; so is its word size, and the bytes of a context's buffer beyond the pending ones, which the code leaves stale, are not kept.
- PCRE2 matching, SQLite and fts are not modelled beyond what they answer; fts post-order events, symbolic links and special files are the `Other` entries of the tree.
- Traversal.Traverse: hands over paths only; FileScan.Scan.FileList takes the same files with their metadata, access and content.
- Traversal.EnterDirectory: the failure of building the path of a directory is not modelled.
- FileScan.Scan.Open: building the relative path is a step that may fail; the construction itself is RelativePath.PathBuildRelative.
- FileScan.Scan.FileList: one root, without the counting pass, so no path is visited twice (Traversal.EachPathOnce); several roots share one table keyed by relative path alone in the source.
- FileScan.Scan.FileList: reports, banners and statistics are only the interruptions and rollbacks they allow between statements.
- History.AnyHistory: migrations and other writers between two runs are not part of a history.
- Cleanup.Cleaner.DeleteMissing: the WARNING for unavailable locked paths and the messages are not modelled.
- RelativePath.PathBuildRelative: failure of the allocation is not modelled.
- Ini.ParseStream: read errors of the stream end it like its end; the heap-allocated line buffer is not compiled in this program and not modelled.
- ConfigFile.ReadConfigEntry: ends at the call of the option handler, whose own validation is not modelled.
- HelpOrder.FirstShort: which letters an entry owns is given with the entry; building and merging the table of short options is not modelled.
- HelpOrder.EntryCmp: the C locale, and exact integers; HelpOrder.GroupCmpFits says when the group subtraction stays within int.
- ParserStorage.ParserInit: option and child vectors are their entries before the terminator; sizes are exact integers; running the parsers is not modelled.
- SplitArguments.SplitArguments: the C locale.
- Compare.DbCompare: attaching and checking the files are steps that may fail; the queries run before the first category is reported.
- Test hooks, the console, database opening and maintenance, migrations, help wrapping and the programs under tools/ would only add easy members.
