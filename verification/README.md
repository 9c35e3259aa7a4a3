# Verification of abapsmith's algorithms and protocols

abapsmith is an MCP server for ABAP systems. Around its HTTP plumbing stand a few self-contained
algorithms and protocols whose documentation makes strong promises: a line diff that must be
minimal and must patch exactly, a write journal shared by several processes, a lock file, a store
of snapshots that expire, a row diff that must lose no row, a response budget, a batched activation,
a scanner for CDS text and a process-wide shutdown hook. This project models that code in Dafny and
proves those promises, or says exactly when they hold.

`dafny verify dfyconfig.toml` checks everything.

## How the model is laid out

| file | what it models |
|---|---|
| `Options.dfy`, `Sequences.dfy`, `Text.dfy`, `Decimals.dfy` | absent values, plain sequence facts, splitting and joining lines, numbers as digits |
| `Alignment.dfy` | edit scripts and longest common subsequences, independent of any algorithm |
| `LineDiff.dfy` | the rolling score rows, Hirschberg's recursion, trimming and the coarse fallback |
| `Hunks.dfy` | unified-diff hunks and a patch program that applies them |
| `DiffSources.dfy` | grouping edits into hunks and the entry point of the diff |
| `FileLock.dfy` | the cross-process lock file, one file operation a step |
| `JournalLog.dfy` | the append-only index, merging by id, compaction |
| `Undoability.dfy`, `JournalWrites.dfy` | the undo policy; the records and blobs each call writes |
| `Retention.dfy` | which entries a prune keeps |
| `JournalSoundness.dfy`, `Journal.dfy` | the journal as one process sees it, one call a step |
| `JournalProtocol.dfy` | the journal as N crashing processes see it, one file operation a step |
| `JournalSolo.dfy` | that an undisturbed call of that machine does what the one-process journal does |
| `JournalInvariant.dfy`, `JournalQuietSteps.dfy`, `JournalDiskSteps.dfy` | what every reachable state of that machine keeps, step by step |
| `JournalSafety.dfy`, `JournalEvidence.dfy`, `JournalUnmarked.dfy` | the theorems about every run, and why they need the in-flight marker |
| `BlobNames.dfy` | blob file names and the sweep's pattern |
| `SnapshotDiff.dfy`, `SnapshotStore.dfy` | the multiset row diff; the store as a map whose entries expire |
| `Canonical.dfy`, `Compact.dfy`, `CompactLimits.dfy`, `CompactContents.dfy` | the source normal form; the response budget; responses it does not hold; what a response shows and says |
| `ActivationTargets.dfy`, `Attribution.dfy`, `ActivationBatch.dfy` | chunking, message attribution, the batch run |
| `CdsScan.dfy` | the comment and string scanner and the brace matcher |
| `ShutdownHook.dfy` | the shared shutdown hook |

Code that changes state keeps its form: `Journal`, `Store`, `Hook` and `EditList` are classes,
loops stay loops, the score rows are arrays of 32-bit numbers. Protocols between processes are step
machines, and a theorem about them speaks about every sequence of steps.

## Reading notes

- Journal ids are fixed-width texts that sort by time; the model uses the number such a text spells.
  Timestamps carry their text order and what a date parser makes of them. Blocker texts are a
  datatype, one constructor per text.
- Case mappings, hashing, the type table and the answers of the ABAP system are parameters, so every
  theorem holds whatever they are; the snapshot store's theorems ask that no two systems hash alike, and
  the theorem on messages inside an object that lower-casing goes path segment by path segment.
- The journal protocol takes three things for granted: the index lock excludes, a live process's pid
  tests alive, and no id is minted twice by any two processes. Writing the temporary index file is
  no step of its own, since no other call looks at it before the rename.
- A character of the model is a UTF-16 unit wherever a length counts.
- Where code and comments disagree the model follows the code. The sweep's comment says that part
  blobs reduce to the entry id, but the pattern keeps `.partN` in the stem, so part blobs are never
  swept (`BlobNames.UnlinksWholeBlobsOnly`). The snapshot diff's comment says a pair matched on all columns is never reported
  as changed: true exactly if no match column is named twice and both sides have the same columns
  (`SnapshotDiff.FullRowPairsNeverChangeIff`), and a table that repeats its key column breaks it
  (`SnapshotDiff.RepeatedKeyColumn`). The shutdown hook's deadline is said to be
  set by the first signal; it is set by the first promise a cleanup returns (`Hook.RemainingBudgetMs`).
- Promises that fail are stated with the exact condition: the normal form is idempotent except on a
  bare carriage return that ends up before a line break (`Canonical.IdempotentIff`); a patch is exact
  except when a shown line was cut for display or a context-free hunk prints line 0
  (`Hunks.PatchExact`); a truncated response fits before the clamp exactly when the digits of its line
  numbers and its omission marker leave room (`Compact.NoticeFitsIff`, `Compact.TruncatedFitsIff`):
  always below line 10^12 with the marker in use or none (`Compact.UsualResponseFits`), not always
  beyond (`CompactLimits.TwelveDigitsAreTheLimit`) or with another marker (`CompactLimits.MarkersMustBeWithinEnds`);
  a caller inside the lock is safe from a newcomer exactly until its file is past the newcomer's
  limits (`FileLock.HolderIsJoinedIff`), so sections may overlap, one more for each stale break
  (`FileLock.BoundIsMet`); blobs are safe as long as marker writes succeed
  (`JournalUnmarked.UnmarkedImageCanBeLost`).

## Model

| member | source | states |
|---|---|---|
| Alignment.LcsIsLongest | src/diff.ts:101-105 | the recursive score is the length of a longest common subsequence: one attains it, none exceeds it |
| Alignment.MostKeptIsFewestChanged | src/diff.ts:132-139 | a script that keeps as many lines as a longest common subsequence changes no more lines than any other script |
| Alignment.LcsSplit | src/diff.ts:163-174 | wherever the old lines are cut, some cut of the new lines loses nothing, which is what dividing relies on |
| Alignment.LcsTrim | src/diff.ts:184-198 | cutting off a common prefix and suffix costs exactly their length, so trimming keeps optimality |
| LineDiff.EditList.Push | src/diff.ts:140-160 | pushing appends one edit to the shared output and changes nothing else |
| LineDiff.LcsRow | src/diff.ts:106-120 | the rolling 32-bit row ends up holding the longest-common-subsequence length for every prefix of the new lines, and cannot wrap |
| LineDiff.FillRow | src/diff.ts:109-118 | one round computes the row for one more old line from the row before it |
| LineDiff.LcsRowReversed | src/diff.ts:123-130 | the reversed row, turned around, holds the same for every suffix |
| LineDiff.FindSplit | src/diff.ts:163-174 | the scan over both rows finds the first split of the new lines that reaches the optimum |
| LineDiff.LeftHalfEndsKept | src/diff.ts:136-138 | because the first best split is taken, a left half never ends in an insertion, so deletions stay before insertions across the seam |
| LineDiff.AlignOne | src/diff.ts:149-161 | a single old line is aligned with its first occurrence, optimally, or deleted before the insertions |
| LineDiff.Hirschberg | src/diff.ts:140-177 | the recursion pushes a correct script that keeps as many lines as any can, deletions first |
| LineDiff.TrimStart | src/diff.ts:184-186 | the whole common prefix is found and no more |
| LineDiff.TrimEnd | src/diff.ts:188-195 | the whole common suffix behind the prefix is found and no more |
| LineDiff.TrimsUnique | src/diff.ts:184-195 | there is only one trimming, so the coarse test is a property of the inputs |
| LineDiff.DiffMiddle | src/diff.ts:203-211 | coarse exactly when the score matrix is too large; the script is correct either way and optimal unless coarse |
| LineDiff.ComputeEditScript | src/diff.ts:180-217 | always a correct script with deletions first; unless coarse it keeps a longest common subsequence and no script changes fewer lines |
| Hunks.LosslessIff | src/diff.ts:219-222 | a rendered line shows its text exactly when the text is within the display limit |
| Hunks.ReplayIsExact | src/diff.ts:267-288 | the body of a hunk, replayed on the lines it was made from, consumes its old side and yields its new side |
| Hunks.WrongHeader | src/diff.ts:288-292 | a hunk whose header is not at its true place is refused by the patch program |
| Hunks.PatchExact | src/diff.ts:229-296 | applying all hunks to the old lines gives exactly the new lines if and only if every shown line is uncut and every empty side is at the top of the file |
| Hunks.PatchWithContext | src/diff.ts:229-296 | with context of at least one line, the patch is exact if and only if no shown line was cut for display, coarse or not |
| Hunks.HunkShowsContext | src/diff.ts:267-296 | around its changes each hunk shows exactly the asked-for number of unchanged lines, fewer only at the ends of the file |
| Hunks.NoContextFails | src/diff.ts:288-291 | with context 0 an insertion below the top prints line 0 and the patch is refused |
| DiffSources.CollectChanges | src/diff.ts:230-234 | the positions of all changes, in order, each once |
| DiffSources.MergeChanges | src/diff.ts:240-253 | the ranges are ordered, far enough apart, end in changes, hold no gap wider than two contexts, and cover every change |
| DiffSources.NumberLines | src/diff.ts:256-265 | the number before each edit is one more than the old or new lines before it |
| DiffSources.RenderBody | src/diff.ts:270-286 | a hunk body is the rendered edits of its range with the counts of both sides |
| DiffSources.ToHunks | src/diff.ts:229-296 | the hunks are those of ordered, disjoint ranges around all changes, with true 1-based starts and counts |
| DiffSources.SourceLinesAre | src/diff.ts:93-99 | splitting a source and terminating every line gives its normalised text with exactly one final newline: nothing else is lost |
| DiffSources.LinesOfFile | src/diff.ts:87-99 | a source written as lines with any mixture of the three line endings reads as exactly those lines, and as one more for text behind the last ending |
| DiffSources.EndingsDoNotShow | src/diff.ts:87-99 | files that differ in nothing but line endings read as the same lines, so the diff finds them identical |
| DiffSources.LastEndingDoesNotShow | src/diff.ts:87-99 | nor does it matter whether the last line is ended |
| DiffSources.CountChanges | src/diff.ts:309-314 | the loop's counts are the numbers of insertions and deletions in the script |
| DiffSources.KeepHunks | src/diff.ts:317-326 | the kept hunks are the first ones up to the caller's ceiling, a negative ceiling counting as none |
| DiffSources.IdenticalIff | src/diff.ts:332-332 | a script has no changes exactly when the line lists are equal, coarse or not |
| DiffSources.DiffSources | src/diff.ts:299-337 | sources are identical, with nothing added or removed, exactly when they read as the same lines; an exact result adds and removes as few lines as possible; dropped hunks are counted; with context and nothing dropped the hunks patch old into new exactly when nothing shown was cut, so always if no line of either source is too long to show |
| FileLock.Ledger | src/state-dir.ts:434-503 | a step can only add a holder by creating the file, and only take the file away by ending a holder or counting a break |
| FileLock.StepKeepsPaid | src/state-dir.ts:366-503 | every step keeps: holders are at most the breaks so far plus one while the file exists |
| FileLock.InsideAtMostOnePlusBreaks | src/state-dir.ts:434-503 | in every run, crashes included, at most one caller more than there were stale breaks is inside |
| FileLock.MutualExclusion | src/state-dir.ts:434-503 | a run without a break never has two callers inside |
| FileLock.YoungLocksAreNotBroken | src/state-dir.ts:385-413 | while the file is younger than every caller's limits nobody breaks it or is about to |
| FileLock.DefaultHardLimitIsLonger | src/state-dir.ts:216-218 | the default hard limit is the longer of ten waits and a minute, so it never undercuts the soft one |
| FileLock.ShortSectionsExclude | src/state-dir.ts:385-503 | sections shorter than the limits exclude each other in every run |
| FileLock.InsiderHoldsTheFileOrLostIt | src/state-dir.ts:366-381 | with releases taken as one step, a caller inside is the one whose nonce is in the file, or its file was removed by a break or a failed writer's clean-up |
| FileLock.TheftNeedsABreak | src/state-dir.ts:366-381 | before any break every holder owns the file and nobody ever removed somebody else's |
| FileLock.ForeignFileStays | src/state-dir.ts:366-381 | a caller whose nonce is not in the file when it starts to leave never changes the file by any steps of its own |
| FileLock.ReleaseRobsOnlyInARace | src/state-dir.ts:366-381 | in every run a release takes somebody else's file only if it was the caller's own at the read back and was replaced before the unlink |
| FileLock.ReleaseFrees | src/state-dir.ts:366-381 | a caller that still has its file frees the lock when it leaves |
| FileLock.FailedWriterFrees | src/state-dir.ts:459-472 | a caller that cannot write its record takes its file away again |
| FileLock.WaiterEnters | src/state-dir.ts:391-403 | once the file is gone a waiting caller can get in, wherever in its retry it stands |
| FileLock.JoinPastHardLimit | src/state-dir.ts:401-404 | from any state, a newcomer that meets a file past its hard limit is inside after six steps of its own, with one more break |
| FileLock.HolderIsJoinedIff | src/state-dir.ts:385-413 | in every run and for all settings, a newcomer can join a caller inside, before time passes or anybody else moves, exactly when the file is gone, past the newcomer's hard limit, or past its soft limit with a record that names a seemingly dead process of its host |
| FileLock.BoundIsMet | src/state-dir.ts:401-404 | for every number of breaks and all settings some run has exactly one caller more than that inside |
| JournalLog.ReadAll | src/journal.ts:895-930 | the reading loop yields, for every id, the shallow merge of its lines in file order if that is an entry, with provenance normalised |
| JournalLog.EveryFieldIsLastSaid | src/journal.ts:909-918 | each field of an entry is, by itself, what the last line about that id that carries the field says |
| JournalLog.MergeAssociative | src/journal.ts:917-917 | merging records shallowly is associative |
| JournalLog.LatestConcat | src/journal.ts:909-918 | reading two stretches of the index is merging what each says |
| JournalLog.CompactionIsInvisible | src/journal.ts:1687-1713 | whatever is appended later, a kept id reads the same from the rewritten index as from the original, and a dropped id as if only the later lines existed |
| JournalLog.DroppedStaysDropped | src/journal.ts:920-928 | patches that land after a prune never bring a dropped entry back |
| Undoability.UndoableIsBacked | src/undoability.ts:324-356 | an ordinary entry is called undoable only with confirmed absence for a delete, or captured bytes in a blob for a restore, and never if irreversible |
| Undoability.OrdinaryUndoableIff | src/undoability.ts:265-356 | an ordinary write is undoable if and only if it is reversible, is no package delete, needs no verb class includes lack, and has confirmed absence to delete or captured bytes in a blob to restore |
| Undoability.EnhancementUndoableIff | src/undoability.ts:273-296 | exactly which enhancement writes are undoable |
| Undoability.BopfUndoableIff | src/undoability.ts:298-311 | exactly which business object writes are undoable |
| Undoability.TextPoolUndoableIff | src/undoability.ts:313-322 | exactly which text pool writes are undoable |
| Undoability.ActivationUndoableIff | src/undoability.ts:231-263 | an activation is undoable exactly if its preceding write exists, is not undone or refused, and is itself undoable |
| Undoability.NeverUndoable | src/undoability.ts:211-229 | transports, service bindings and whatever a caller blocks never are, and an empty blocker blocks nothing |
| Undoability.CallerOnlyNarrows | src/undoability.ts:211-214 | a caller's blocker never widens a verdict, and a verdict is negative exactly when it gives a reason |
| Undoability.PrecedingWriteEntry | src/undoability.ts:159-195 | the latest earlier successful write of the same object on the same system, by timestamp and then position; nothing exactly when there is none |
| JournalWrites.BeginNamesItsBlobs | src/journal.ts:1251-1307 | begin's index line names exactly the blobs begin wrote, all under its own id |
| JournalWrites.BeginSaysWhatItWasTold | src/journal.ts:1185-1233 | the entry carries what begin was told, irreversibility included, and nothing that comes later |
| JournalWrites.BeginPartSays | src/journal.ts:1272-1304 | each part says what begin was told of it, under its own number |
| JournalWrites.ProvenanceIff | src/journal.ts:1191-1204 | provenance is as stated; unstated it is positive about what was read and never about what was absent |
| JournalWrites.BeginUndoableIff | src/journal.ts:1309-1322 | on begin's own input, exactly which ordinary writes are journalled as undoable |
| JournalWrites.SettleNamesItsBlobs | src/journal.ts:1454-1476 | a settle line names only what the entry named before and what settle itself wrote |
| JournalWrites.SettleUpgradesIff | src/journal.ts:1425-1436 | only a 201 with a Location, for a create that succeeded and had no provenance, proves absence afterwards |
| JournalWrites.SettleRejudgesIff | src/journal.ts:1437-1446 | the verdict is drawn up anew exactly if it was refused for that missing evidence |
| JournalWrites.SettleSays | src/journal.ts:1420-1476 | a settled entry carries the new outcome, error and image and is otherwise as it was |
| JournalWrites.SettlePartsSay | src/journal.ts:1459-1472 | of the parts only after-images change, and only those with a new source |
| Retention.Retain | src/journal.ts:1666-1685 | the retention loop splits the entries into the kept and the dropped ones |
| Retention.KeptPlusDropped | src/journal.ts:1670-1685 | no entry is lost or doubled by the split |
| Retention.KeptIff | src/journal.ts:1672-1684 | an entry is kept exactly when it is in flight, or its timestamp is unreadable or not before the cutoff and the newer kept ones leave room |
| Retention.DroppedForAge | src/journal.ts:1671-1684 | for its age an entry goes exactly when its timestamp parses to before the cutoff and it is not in flight |
| Retention.KeptCount | src/journal.ts:1679-1684 | at most maxEntries survive beside those in flight |
| Retention.NothingInFlightDropped | src/journal.ts:1680-1684 | no entry in flight is dropped, and none that is neither old nor in excess |
| Retention.DroppedForCountEndsTheList | src/journal.ts:1679-1684 | once an entry goes for the count, every older one not in flight goes too |
| Retention.SortNewestFirst | src/journal.ts:932-934 | every entry once, newest first |
| JournalSoundness.SoundAfterBegin | src/journal.ts:1185-1322 | a begin leaves every entry sound: as begun, images on disk with the given bytes, undo verdict backed |
| JournalSoundness.SettleStaysBacked | src/journal.ts:1417-1447 | the provenance upgrade of settle can only turn a refused delete into a proven one |
| JournalSoundness.SoundAfterPatch | src/journal.ts:1412-1485 | settle, reconcile and markUndone leave every entry sound |
| JournalSoundness.SoundAfterSweep | src/journal.ts:1753-1784 | removing unsafe whole-entry blobs leaves every entry sound |
| BlobNames.StemOfFileName | src/journal.ts:1766-1772 | of all stems the sweep's pattern could take from a blob's name it takes the longest, which keeps a part number |
| BlobNames.LooksLikeIdIff | src/journal.ts:679-690 | exactly which stems look like an id |
| BlobNames.UnlinksWholeBlobsOnly | src/journal.ts:1766-1776 | of the names a journal writes the sweep unlinks exactly the whole-entry blobs of ids that are not safe |
| BlobNames.SweepableIff | src/journal.ts:1753-1784 | the sweep on blobs used throughout is the sweep on file names, however ids are spelled |
| JournalSoundness.SoundAfterRewrite | src/journal.ts:1687-1713 | rewriting the index with kept entries leaves every entry sound |
| JournalSoundness.UndoableCanBeUndone | src/undoability.ts:207-356 | in a sound journal an undoable ordinary entry either deletes on confirmed absence or restores from a blob with exactly the bytes given to begin |
| Journals.ListEntries | src/journal.ts:895-930 | the entries in the order their ids first appear |
| Journals.Journal.Append | src/journal.ts:1124-1139 | one line more, counted if counting has begun |
| Journals.Journal.WriteImages | src/journal.ts:1148-1165 | all images on disk, later ones over earlier ones |
| Journals.Journal.Begin | src/journal.ts:1185-1357 | blobs first, then one line with the verdict for the actual preceding write; the journal stays sound and loses entries only to pruning |
| Journals.Journal.Settle | src/journal.ts:1398-1485 | refused exactly when disabled, not terminal or unknown, changing nothing; otherwise the entry reads as the returned merge with the asserted outcome |
| Journals.Journal.Reconcile | src/journal.ts:1501-1564 | closes exactly the pending entries for a reason that is not blank, records the trimmed reason with time and actor, never overwrites an observed outcome, and leaves the undo verdict alone |
| Journals.Journal.MarkUndone | src/journal.ts:1596-1612 | sets one field of one known entry and touches no other |
| Journals.Journal.MaybePrune | src/journal.ts:1617-1637 | nothing up to a quarter past the cap, a whole prune beyond it |
| Journals.Journal.Compact | src/journal.ts:1662-1713 | afterwards exactly the kept entries read as before and the others are gone |
| Journals.Journal.Prune | src/journal.ts:1650-1715 | retention on the newest-first order, the counts it reports, and the sweep of everything neither kept, in flight nor registered; on the timestamps, entries older than the days allowed go, and without a count limit no others |
| Journals.Journal.Sweep | src/journal.ts:1753-1784 | exactly the sweepable blobs go, and are counted |
| JournalQuietSteps.PublishKeeps | src/journal.ts:1106-1113 | a marker published before the first blob keeps the protocol invariant |
| JournalDiskSteps.WriteBlobKeeps | src/journal.ts:1148-1165 | writing a blob, by a begin or a settle, keeps it |
| JournalDiskSteps.AppendKeeps | src/journal.ts:1124-1139 | landing a line under the lock keeps it: a late patch brings nothing back |
| JournalDiskSteps.RenameKeeps | src/journal.ts:1687-1713 | replacing the index under the lock keeps it while other calls are in the middle of theirs |
| JournalQuietSteps.ListBlobsKeeps | src/journal.ts:1753-1763 | every begin whose blob a sweep lists has its marker on disk already |
| JournalQuietSteps.StatKeeps | src/journal.ts:1827-1839 | reading a marker keeps the protocol invariant: only an old one of another process falls under suspicion |
| JournalQuietSteps.ProbeKeeps | src/journal.ts:1841-1844 | probing its process keeps every live begin heeded: only a dead process's marker is doomed |
| JournalQuietSteps.ReapKeeps | src/journal.ts:1846-1851 | unlinking a doomed marker endangers no begin, even if the pid is in use again by then |
| JournalDiskSteps.UnlinkKeeps | src/journal.ts:1764-1782 | an unlink takes no blob of an entry or of a begin under way |
| JournalQuietSteps.RetractKeeps | src/journal.ts:1335-1345 | retracting a marker endangers no other call |
| JournalSafety.StepKeeps | src/journal.ts:1185-1852 | every step of every call, crash and broken lock keeps the protocol invariant |
| JournalSolo.SoloBegin | src/journal.ts:1185-1357 | an undisturbed begin of the protocol leaves exactly the blobs and the line of the one-process begin, and no claim or marker |
| JournalSolo.SoloSettle | src/journal.ts:1398-1485 | an undisturbed settle leaves exactly its blobs and its line |
| JournalSolo.SoloNote | src/journal.ts:1501-1612 | an undisturbed reconcile or markUndone leaves exactly its line |
| JournalSolo.SoloPrune | src/journal.ts:1650-1852 | an undisturbed prune applies retention, sweeps what neither survives nor is claimed or registered, and reaps the markers of the dead |
| JournalSolo.SoloPruneIsPrune | src/journal.ts:1650-1715 | what it leaves is what the one-process prune leaves |
| JournalSolo.FailedBeginRetracts | src/journal.ts:1335-1345 | a begin that fails before the lock takes back its claim and marker |
| JournalSolo.FailedAppendReleases | src/journal.ts:1124-1139 | a line that cannot be appended is not there and the lock is free again |
| JournalSolo.FailedPatchIsGone | src/journal.ts:1398-1485 | a settle, note or prune that fails before the lock leaves nothing but blobs |
| JournalSolo.CrashForgets | src/journal.ts:1234-1240 | a crash ends the calls and in-memory claims of its process and nothing else |
| JournalSafety.EveryEntryHasItsImages | src/journal.ts:1185-1852 | in every reachable state of any number of crashing processes, each entry the index yields has all its recorded images on disk, and its before-images hold the bytes begin was given, provided marker writes succeed |
| JournalSafety.LiveWritesSurvive | src/journal.ts:1716-1752 | until a begin's line has landed, every blob it has written is on disk with the bytes it was given, whatever is swept meanwhile |
| JournalEvidence.SettleIsHonest | src/journal.ts:1417-1447 | a settle drafted from an entry as it was at any earlier time leaves what begin said alone, and declares an entry undoable only together with proven absence of what was created |
| JournalEvidence.PatchedStaysFaithful | src/journal.ts:909-918 | such a patch keeps the verdict backed whatever entry it meets by the time it lands |
| JournalEvidence.UndoableStaysBacked | src/journal.ts:1185-1852 | in every reachable state of any number of crashing processes, an undoable ordinary entry deletes on confirmed absence or has on disk exactly the bytes begin was given, provided marker writes succeed |
| JournalUnmarked.UnmarkedImageCanBeLost | src/journal.ts:1093-1113 | the proviso is needed: from any state with an entry, an idle lock and no markers, one failed marker write can cost a landed entry its before-image |
| SnapshotDiff.IndexByName | src/snapshot-store.ts:435-439 | every name maps to its last position |
| SnapshotDiff.GroupByKey | src/snapshot-store.ts:441-450 | each key holds its rows in order, and the keys come in order of first appearance |
| SnapshotDiff.CompareRows | src/snapshot-store.ts:542-551 | the columns that differ or exist on one side only, in order |
| SnapshotDiff.ChangesAre | src/snapshot-store.ts:542-551 | each change names a column one side lacks or that shows something else, with what the old row showed and the new row shows |
| SnapshotDiff.KeysAgreeIff | src/snapshot-store.ts:520-523 | a key is what the row shows in the match columns, a missing cell being empty, so keys agree exactly if the rows show the same there |
| SnapshotDiff.CompareKey | src/snapshot-store.ts:534-557 | rows of one key are paired occurrence by occurrence, the surplus of either side apart |
| SnapshotDiff.DiffSnapshotRows | src/snapshot-store.ts:487-569 | refused exactly when a match column is missing on a side; otherwise the whole result in terms of the pairing |
| SnapshotDiff.RowsAreConserved | src/snapshot-store.ts:459-465 | deleted and paired rows are the before side and inserted and paired rows the after side, as multisets |
| SnapshotDiff.PairsMatch | src/snapshot-store.ts:533-541 | paired rows have equal keys |
| SnapshotDiff.NoKeyOnBothSides | src/snapshot-store.ts:537-557 | no key has rows both deleted and inserted |
| SnapshotDiff.ChangesAreComplete | src/snapshot-store.ts:542-551 | with the same columns on both sides, in any order, and full-width rows, writing a pair's changes over its old row makes every column read as in its new row |
| SnapshotDiff.ApplyGivesTheNewRow | src/snapshot-store.ts:542-551 | with the columns in the same order the changes rebuild the new row |
| SnapshotDiff.NeverChangeIffAllMatched | src/snapshot-store.ts:533-551 | rows of equal keys never show a change exactly when every column of either side is a match column |
| SnapshotDiff.FullRowPairsNeverChangeIff | src/snapshot-store.ts:467-476 | for a match list that counts as a whole column set: rows of equal keys never show a change if and only if it names no column twice and both sides have the same columns |
| SnapshotDiff.RepeatedKeyColumn | src/snapshot-store.ts:452-454 | the key columns of any table that repeats its key column and has one more count as a whole column set, and a pair matched on them can show an edit |
| SnapshotStore.PathsDiffer | src/snapshot-store.ts:128-138 | a file path stands for one system and one id |
| SnapshotStore.IdsAre | src/snapshot-store.ts:98-120 | ids are the prefix and 32 lower-case hexadecimal digits, and nothing else names a snapshot file |
| SnapshotStore.Store.Prune | src/snapshot-store.ts:251-285 | a file goes exactly if it is named like a snapshot of this system and is malformed, undated or dated at or before now; they are counted |
| SnapshotStore.Store.Write | src/snapshot-store.ts:291-307 | a malformed id is refused untouched; otherwise prune, then store |
| SnapshotStore.Store.Read | src/snapshot-store.ts:313-357 | the requested file's own fate first, found, expired and deleted or not found, then the sweep |
| SnapshotStore.Store.List | src/snapshot-store.ts:359-380 | after a prune, exactly the stored snapshots of this system |
| SnapshotStore.ReadsLikeAnExpiringMap | src/snapshot-store.ts:242-357 | after any run under a clock that never goes back, a read answers with a snapshot exactly if it was written last under that system and id and is dated after now, and with an expired one only if that is undated or dated at or before now |
| SnapshotStore.ListsTheLiveOnes | src/snapshot-store.ts:359-380 | a listing holds, for each id, the snapshot written last exactly if it is dated after now |
| SnapshotStore.ForeignFilesStay | src/snapshot-store.ts:261-265 | no run touches a file that is not named like a snapshot |
| Canonical.SourceIsNormal | src/compact.ts:72-77 | no line of the result ends in a blank and the text ends in no newline |
| Canonical.OnlyTextsMatter | src/compact.ts:72-77 | line endings, trailing blanks and trailing empty lines do not show in the result, only the texts of the lines do, whether or not the last one is terminated |
| Canonical.IdempotentIff | src/compact.ts:98-105 | normalising twice is normalising once if and only if no trimmed line ends in a carriage return with text after it |
| Canonical.BareReturnFails | src/compact.ts:98-105 | a text on which the second pass changes something |
| Compact.KeepLines | src/compact.ts:219-231 | the loop keeps what the budget allows and counts what it cut |
| Compact.KeptIsAPrefix | src/compact.ts:218-231 | what is kept is a prefix of whole lines within the budget, and one more line with its break would not fit |
| Compact.FirstGuessFits | src/compact.ts:211-212 | the first guess of how much to emit already fits, so the clamp's loop never runs |
| Compact.HardClamp | src/compact.ts:205-216 | the clamp emits that first guess and its marker |
| Compact.ClampedFits | src/compact.ts:204-216 | never longer than the cap, unchanged if short enough, and the marker states exactly how much was let through |
| Compact.RenderResponse | src/compact.ts:277-427 | the response is the full text if that fits, else the clamped draft, with the reported figures |
| Compact.ResponseFits | src/compact.ts:187-187 | for every input and cap the text is at most the cap long and the stated length is its length |
| Decimals.DecimalSpells | src/compact.ts:317-338 | the digits in a notice spell the number meant |
| Compact.ChunksAddUp | src/compact.ts:297-310 | more lines are reported exactly while the next offset is still a line, and reading on from it leaves what was left |
| CompactContents.HasMoreIff | src/compact.ts:174-179 | more is reported exactly if the line after the last one returned is still a line of the whole |
| CompactContents.SaysWhereToGoOn | src/compact.ts:301-317 | a truncated response ends in the first line not shown as the next offset with the number of lines left, or says that nothing is left, or that paging is not to be had |
| CompactContents.SaysWhatItShows | src/compact.ts:319-331 | a truncated response names the first and last line it returned, as it reports them, and how many there are |
| CompactContents.TruncatedIff | src/compact.ts:172-173 | truncated exactly if something is missing; otherwise the text is whole and nothing is left |
| CompactContents.HeaderAndNotesShow | src/compact.ts:191-199 | every header field with a value and every note is in every response, however much is cut |
| CompactContents.FullTextShows | src/compact.ts:341-349 | a response that fits shows every section and the whole body |
| CompactContents.DraftShows | src/compact.ts:408-414 | a truncated response shows the lines it kept under the body's label and ends in its notice |
| CompactContents.SaysWhatWasCut | src/compact.ts:332-338 | if sections were cut, the response says how many of how many characters are left |
| CompactContents.MarkerSays | src/compact.ts:402-406 | the mark left in the body speaks of exactly the lines left out |
| CompactContents.SectionsKeptIff | src/compact.ts:201-202 | sections are kept whole exactly if they and the body fit together or they leave the body half the room |
| Compact.NoticeFitsIff | src/compact.ts:361-367 | for every number of lines kept, the notice is within the reserve exactly when a sum of digit counts of offset, lines kept and total is no larger than for none or all kept |
| Compact.NoticeForNoneIsLongest | src/compact.ts:362-367 | below line 10^12 no notice is longer than the one for nothing kept |
| Compact.DraftLength | src/compact.ts:387-415 | the exact length of every truncated response before the clamp |
| Compact.TruncatedFitsIff | src/compact.ts:387-415 | with the overhead within the cap, the truncated response fits before the clamp if and only if nothing is kept or body, marker and the growth of the notice stay within what is left and reserved |
| Compact.TruncatedFitsUnclamped | src/compact.ts:361-415 | so it fits if line numbers stay below 10^12 and no omission marker is longer than those for none and for all lines |
| Compact.UsualResponseFits | src/tools/run.ts:468-468 | the marker in use, and no marker, meet that, so with line numbers below 10^12 every response with room for its overhead fits |
| CompactLimits.TwelveDigitsAreTheLimit | src/compact.ts:362-367 | responses around line 10^12 that have room for their overhead and do not fit before the clamp |
| CompactLimits.MarkersMustBeWithinEnds | src/compact.ts:395-399 | responses with a marker longest in the middle that have room for their overhead and do not fit before the clamp |
| Compact.KeptBodyIsItsFirstLines | src/compact.ts:400-401 | the lines reported as returned are the first lines of the body |
| Compact.WithSizeLine | src/compact.ts:250-275 | a size line states the size of the very response it is in, unless it is marked as approximate |
| Compact.SetHeaderIs | src/compact.ts:262-274 | putting a size line into the header leaves every other field as it was |
| ActivationTargets.ChunkActivationTargets | src/adt/activate.ts:1299-1323 | the loop computes the greedy chunks |
| ActivationTargets.ChunksFlatten | src/adt/activate.ts:1288-1292 | the chunks concatenate to the input and none is empty |
| ActivationTargets.ChunksObey | src/adt/activate.ts:1288-1297 | each chunk has one class and, with positive caps, respects its cap |
| ActivationTargets.NoSplitIsShorter | src/adt/activate.ts:1288-1292 | no order-preserving split by the same rules has fewer chunks |
| Attribution.OnlyThePathCounts | src/adt/activate.ts:877-886 | query, fragment and a trailing slash are no part of an address |
| Text.TrimIs | src/adt/activate.ts:1135-1135 | trimming takes blanks off either end and nothing else |
| Attribution.AddressesWholeSegments | src/adt/activate.ts:1087-1096 | an address matches exactly itself and whatever follows it after a slash |
| Attribution.SiblingsDiffer | src/adt/activate.ts:1087-1092 | a text that goes on with anything but a slash is not matched |
| Attribution.AttributeToTarget | src/adt/activate.ts:1114-1146 | the loops compute the owner by address, else by a label that mentions one target only |
| Attribution.OwnerByAddress | src/adt/activate.ts:1119-1129 | among distinct targets the owner by address is the one longest target that equals the address or is followed by a slash in it |
| Attribution.InnerMessageIsOwned | src/adt/activate.ts:1114-1130 | from raw addresses: a message on something inside a target, fragment and all, belongs to that target unless another one lies at least as close around it |
| Attribution.MentionsIff | src/adt/activate.ts:1132-1141 | a label mentions a name exactly if the name stands in it with no letter, digit or underscore on either side |
| Attribution.OwnerByLabel | src/adt/activate.ts:1132-1146 | without an address the owner is the one target the label mentions, and with none or several there is no owner |
| Attribution.FindDuplicate | src/adt/activate.ts:1207-1223 | a repetition is reported exactly when two targets have one identity, at the first repeated one |
| Attribution.SameIdentityIff | src/adt/activate.ts:1207-1211 | two targets are one object if they have one address, or by their trimmed names where there is none |
| Attribution.OrderDoesNotMatter | src/adt/activate.ts:1114-1146 | reordering the targets never moves a message to another owner |
| ActivationBatch.Tally | src/adt/activate.ts:119-127 | the loop counts the failures and the warnings, and no report is counted twice |
| ActivationBatch.Distribute | src/adt/activate.ts:1453-1465 | reports are filed under their owner, in order, or under none |
| ActivationBatch.ReportsArePartitioned | src/adt/activate.ts:1184-1186 | per-object and unattributed reports together are exactly all reports |
| ActivationBatch.BlamelessIff | src/adt/activate.ts:1167-1168 | an object is blameless exactly if no failure and no inactive entry in any reply is its own |
| ActivationBatch.InnerFailureBlames | src/adt/activate.ts:1114-1130 | a failure reported inside an object, with nothing closer around it, is held against that object |
| ActivationBatch.CleanByTotals | src/adt/activate.ts:1473-1475 | the batch verdict computed from totals is that every chunk answered clean |
| ActivationBatch.PostChunks | src/adt/activate.ts:1415-1471 | chunks are posted in order up to the first throw; each object is settled by its own chunk, unknown in the throwing one, not sent after it |
| ActivationBatch.Present | src/adt/activate.ts:1484-1502 | per object: its own reports, and an activation taken back if any report blames it |
| ActivationBatch.ActivateObjects | src/adt/activate.ts:1362-1519 | which batches are refused; otherwise every object's disposition, the outcome exactly when all chunks answered, and when a stranded enqueue is released |
| ActivationBatch.ActivatedBatchActivatesAll | src/adt/activate.ts:1187-1193 | a batch that activated activated every object and blames none |
| ActivationBatch.UnattributedErrorsStillFail | src/adt/activate.ts:1109-1112 | an error tied to no object still keeps the batch from activating |
| CdsScan.StringEnd | src/safety.ts:803-817 | the inner loop stops behind the closing quote or at the end |
| CdsScan.LineEnd | src/safety.ts:822-826 | the inner loop stops at the line break or at the end |
| CdsScan.BlockEnd | src/safety.ts:828-833 | the inner loop stops behind the close or at the end |
| CdsScan.ScanCdsText | src/safety.ts:796-840 | the scanner computes the cleaned text and the spans token by token |
| CdsScan.SpansInOrder | src/safety.ts:790-795 | spans are non-empty, in order, apart and inside the text |
| CdsScan.BlanksAreComments | src/safety.ts:790-795 | against a reader that goes character by character, exactly the comment characters are blanked and all others kept |
| CdsScan.SpansAreStrings | src/safety.ts:790-795 | against the same reader, exactly the string characters lie inside a span |
| CdsScan.CleanTwice | src/safety.ts:796-840 | scanning the cleaned text gives the same text and the same spans |
| CdsScan.FindMatchingBrace | src/safety.ts:849-870 | the first brace outside strings where the depth returns to zero; negative exactly when there is none |
| ShutdownHook.Hook.Register | src/shutdown-hook.ts:188-192 | the new subscriber comes last and the listeners are installed |
| ShutdownHook.Hook.Unregister | src/shutdown-hook.ts:193-200 | the subscriber is gone, the listeners exactly when it was the last |
| ShutdownHook.Hook.RemainingBudgetMs | src/shutdown-hook.ts:88-92 | every wait of one shutdown ends at the same moment |
| ShutdownHook.Hook.RunSubscriber | src/shutdown-hook.ts:94-142 | an idle cleanup is called once and leaves the pool if it returns a promise, the first promise setting the deadline to its clock plus the budget; any other is not called |
| ShutdownHook.Hook.Settle | src/shutdown-hook.ts:132-141 | settling or rejecting ends a run and nothing else |
| ShutdownHook.Hook.Expire | src/shutdown-hook.ts:118-129 | running out of budget abandons a run and nothing else |
| ShutdownHook.Hook.Dispatch | src/shutdown-hook.ts:144-150 | one pass calls exactly the idle subscribers there were when it began, in registration order, whatever they unregister or register; in every run a cleanup that returned a promise is never called again |
| ShutdownHook.CalledWhileIdle | src/shutdown-hook.ts:20-21 | calling only cleanups that never returned a promise keeps the history one-shot |
| ShutdownHook.FirstPromiseSetsDeadline | src/shutdown-hook.ts:88-92 | in one pass the first promise sets the deadline to its own clock plus the budget |
| ShutdownHook.DeadlineStays | src/shutdown-hook.ts:88-92 | a deadline there was stays, and without a promise there is none |

## Left out

- The ADT and HTTP calls, MCP wiring, configuration, message wording, JSON syntax, hashing, regular expressions and XML: parameters or abstracted away.
- The policy tables of the safety gate and of the modes: finite case tables that would only add easy members.
- The auth latch: its staleness test is not repeated under the lock, so no clean claim between processes holds.
- The synchronous twin of the lock: the same algorithm again.
- The lock's retry loop as a loop: how often a caller tries and sleeps is a choice of the step machine, and its termination is not claimed.
- Lines torn by a crash in the middle of an append: an append is one whole line here.
- Which preceding write a begin of the protocol model sees: any write entry of the index or none. Which one it is exactly is part of the contract of the one-process begin.
- Filesystem failures inside the one-process journal class; the protocol model has them as aborted calls, failed appends and failed unlinks.
- Part blobs in the sweep: that orphans of that kind are left behind for good is not a claim.
- Journals.Journal.Reconcile: reads outside the lock in the source, so its outcome rules are stated with one call a step; the protocol model treats its patch as one more late line.
- Rendering hunks to text, token estimates and the fields of journal entries that nothing here reads.
- Compact.TruncatedFitsUnclamped: the source promises it for every marker and line number, but it fails for a marker that is longest in the middle and beyond line 10^12, so it asks for the contrary; the exact condition is `Compact.TruncatedFitsIff`.
- ShutdownHook.Hook.Dispatch: leaves open where subscribers that join in the middle of a pass stand in the list, and signals that re-enter a pass are not modelled.
- Hunks.PatchWithContext: speaks of the complete hunk list; hunks withheld by a ceiling are counted by DiffSources instead.
- extractSqlViewName itself: regular expressions over the scanner's output.
