# Verified model of the mail indexer's core

This project models the parts of a mail indexer that decide what is kept, charged,
moved and removed, and proves what they promise:

- **Chunking** (`Text`, `Normalize`, `Overflow`, `Splitter`, `Packer`, `SegmentRuns`,
  `Chunker`). The tokenizer is a parameter whose count is neither additive nor monotone. Every
  chunk is within the token ceiling, is the slice of the normalized text its offsets name, and no
  non-whitespace character is lost. What is asked of the tokenizer is the margin the splitter's
  own comment states and that token offsets move forward and cover the text.
- **Mailbox copies** (`Maildir`, `Mailbox`, `MailboxStore`, `MailboxEffects`, `MailboxRuns`).
  Tables are maps and transactions are atomic. A write to the occurrence rows is one statement and
  must satisfy both unique indexes as it happens. Reap safety is stated over whole histories of
  commits.
- **Evidence about files that change** (`FileEvidence`, `ScanTransactions`, `OccurrenceScan`,
  `ScanMeaning`, `ColdInventory`, `Reaper`). The disk is a history of worlds, and each system call
  sees its own tick, so another process may do anything between two calls. Assumed are that a file
  identity determines the bytes, a directory identity the listing, that an identity seen twice was
  there in between, and, where equality of digests is used, that the hash is injective.
- **Derived state** (`ThreadSums`, `VectorSums`, `Identity`, `Labels`, `ExtractionCache`). Each
  kept value is proved equal to a definition that looks at the whole state.
- **The durable queue** (`Queue`, `QueueRuns`, `QueueEffects`), where the death of the process is a
  step, and the **concurrent embedding loop** (`EmbedLoop`), a transition system over all
  interleavings.
- **Exact text and byte forms** (`Literal`, `Classify`, `P11`).

Where the code does less than its comments or the most obvious reading say, the model follows the
code, and the exact condition is a theorem:

- `database.py` reaps the messages it is given but checks only those of the thread it is given
  (`MailboxRuns.ReapChecksItsThread`, `MailboxRuns.ReapOutsideThread`).
- A whole-thread delete lets a cascade take the remaining chunk rows of the thread's messages
  without their vectors or sums. Other threads' sums stay right exactly when no such row belongs to
  a thread with a stored sum (`ThreadSums.NextKeeps`); a message that is mapped to another thread and
  goes with it leaves one (`ThreadSums.StrayIsCounted`). Reconciling the threads that have a sum makes
  it good (`ThreadSums.SpoiledIsMended`).
- `mark_failed`, and `defer` outside a transaction, read a row's `attempts` in one commit and write
  the count they read, or one more, in another. A re-enqueue between the two is overwritten: the
  fresh row is left with the attempts from before it, and may be dead-lettered for them
  (`QueueRuns.FreshRowIsCharged` is such a run). Over all runs, a queued row's `attempts` is the
  charges since its last reset exactly when no write put a count above zero over that reset, and
  otherwise exceeds them by the count read (`QueueRuns.AttemptsAreCounted`). One outcome raced by one
  re-enqueue comes to some serial order exactly when the count read is zero
  (`QueueRuns.RacedOutcome`).
- `begin_attempt` charges only queued rows, but the refund looks at the mark and not at the status,
  so a caller that begins a marked dead row gets back an attempt that was never charged
  (`QueueRuns.BeginThenEnd`). No run of the worker does: it begins rows it claimed, and those are
  queued (`QueueRuns.WorkerIsRefunded`).
- A vanished retirement looks at `cur` and at `new` at two instants. That the folder held none of
  the message's bytes at one instant follows exactly when the sibling was inventoried before the
  transaction and is not removed in it (`ColdInventory.InstantIff`). The code lists the sibling
  beforehand but does not look at whether that listing succeeded. `ColdInventory.ColdRetirement` runs
  a scan's retirement in which it did not, and the copy is retired although its folder holds the
  bytes at every instant; `ColdInventory.RemovedRetirement` is the run for a removed sibling.
- The comment on packing that spans never share a start fails when a token is part of a character,
  for two token slices can then start at the same one (`Splitter.SlicesMayShareStart`). The gaps are
  kept by start, so each span's own is found exactly when spans that start together follow gaps of
  one size (`Packer.GapsAreKept`). The ceiling and the coverage hold all the same; the budgets that
  packing counts gap by gap are proved under that condition.

## Model

| member | source | states |
|---|---|---|
| Text.Tokenizer.TrimEdges | indexer/src/chunker.py:611-638 | The trim of a range that holds text cuts whitespace only, ends on text, and keeps leading tabs exactly when they open a line |
| Text.Tokenizer.TrimIdempotent | indexer/src/chunker.py:611-664 | Trimming a trimmed range changes nothing, so a span's own text is what it renders to |
| Text.Tokenizer.TrimMonotone | indexer/src/chunker.py:611-664 | Ranges that move forward have trimmed ranges that move forward |
| Text.LeadingTrim | indexer/src/chunker.py:611-638 | The loop drops just the leading characters the trimmed range lacks |
| Normalize.NormalizeIsNormal | indexer/src/chunker.py:254-268 | Normalized bodies are exactly the fixed points of normalization, and every result is one |
| Normalize.NormalizeKeepsContent | indexer/src/chunker.py:254-268 | Every character that is not a line ending survives, in order |
| Normalize.NormalizeIs | indexer/src/chunker.py:254-268 | The normalized body is the body's characters with as many newlines between two of them as there were line endings, two at most, and none at either end |
| Overflow.BisectLeft | indexer/src/chunker.py:546-577 | The bisection lands in range whatever the order, and at the least index not below when sorted |
| Overflow.Settle | indexer/src/chunker.py:579-608 | From any guess the gallop ends between an index that was counted and fits and one that overflows; for a monotone count it equals the linear scan |
| Overflow.FirstOverflow | indexer/src/chunker.py:546-608 | The same for the guess made from a token window, which therefore never matters |
| Splitter.MakeSubspan | indexer/src/chunker.py:641-664 | The sub-span is the trimmed range of the source, or nothing when that is blank; the drift error cannot occur |
| Splitter.ParagraphSpans | indexer/src/chunker.py:387-391 | The spans are exactly the maximal paragraphs, and only newlines lie outside them |
| Splitter.BreakIs | indexer/src/chunker.py:59 | A paragraph breaks at a newline that only blanks and tabs part from the next |
| Splitter.SentenceEndIs | indexer/src/chunker.py:68 | A sentence ends with a run of full stops, exclamation and question marks before whitespace or the end |
| Splitter.WordEndIs | indexer/src/chunker.py:475 | A word ends where a run without whitespace does |
| Splitter.SplitByWord | indexer/src/chunker.py:465-501 | Pieces are runs of whole words, in order, losing no text; several words were counted together and fit, and each piece closes because the next word would not |
| Splitter.Reduce | indexer/src/chunker.py:445-462 | A sentence group that fits stays; else its runs of words that fit stay and the others are cut in place |
| Splitter.SplitByTokens | indexer/src/chunker.py:504-543 | Slices of as many tokens as the margin allows, moving forward, holding all text, each within the ceiling when encoded again |
| Splitter.RunStartIs | indexer/src/chunker.py:524-543 | The runs of tokens start at the multiples of their size |
| Splitter.SlicesMayShareStart | indexer/src/chunker.py:691-694 | A tokenizer that keeps all that is asked of it can give two token slices with one start |
| Splitter.SplitBySentence | indexer/src/chunker.py:411-462 | Greedy groups of sentences; those that fit stay, the others are cut to words and token slices, all within the ceiling and losing no text |
| Splitter.EnforceMaxTokens | indexer/src/chunker.py:394-408 | After it every span renders within the ceiling, no text is lost, and spans that fitted stay |
| Packer.OverlapTail | indexer/src/chunker.py:747-765 | The seed is the longest proper suffix within the overlap budget, and at least one span if there is one to spare: it ends at the first span from the back that reaches the budget, or before the one that exceeds it |
| Packer.Close | indexer/src/chunker.py:698-717 | Closing appends the open group and leaves exactly that longest tail open, with its counts |
| Packer.DropFront | indexer/src/chunker.py:719-728 | The seed loses spans from the front, with their tokens and gaps, only while the next span and its gap do not fit beside it: each longer suffix did not |
| Packer.PackSpans | indexer/src/chunker.py:667-744 | Groups are contiguous span ranges; each, the flushed last one included, starts with the longest tail the overlap allows of the one before, or later only because one span more did not fit beside the next; each holds new spans, is in its budgets and closes for a reason, and no span is lost |
| Packer.GapsAreKept | indexer/src/chunker.py:692-714 | Looking a gap up by a span's start finds that span's own gap, at every point of the packing, exactly when spans that start together follow equal gaps |
| Packer.GapIsBetween | indexer/src/chunker.py:710-714 | A gap is the source from the end of the span before to the start, and empty where they overlap |
| SegmentRuns.FitPrefix | indexer/src/chunker.py:768-791 | The binary search ends at a prefix that was rendered and fits (or one span), before one that overflows |
| SegmentRuns.FitRendered | indexer/src/chunker.py:768-791 | A group is cut into consecutive runs that fit when rendered, cut only where one more span would overflow |
| SegmentRuns.AddGroup | indexer/src/chunker.py:357-384 | The group is cut only where it must be, and a run is kept exactly when it ends past the last kept one |
| SegmentRuns.PackSegment | indexer/src/chunker.py:357-384 | The runs come of the packed groups of the bounded paragraphs; each is within the ceiling and ends past every earlier one, and together they hold every span |
| Chunker.ChunkSegment | indexer/src/chunker.py:302-354 | The chunks are the runs of the packing, rendered in order, with rising indexes, faithful offsets and the ceiling, and hold all non-whitespace text |
| Chunker.ChunkSegments | indexer/src/chunker.py:302-354 | For all segments: the exact errors, the token ceiling, the offset round trip into the joined normalized text, no chunk across segments, rising indexes, nothing lost |
| Chunker.JoinOne | indexer/src/chunker.py:302-354 | Where a segment sits in the text joined by blank lines, with nothing but line ends before it |
| Maildir.SeparatorFound | indexer/src/maildir.py:121-161 | The last flag separator is the one before the flags, whatever the uniq holds |
| Maildir.FlagRename | indexer/src/occurrences.py:50-69 | A rename that changes only flags keeps folder and uniq, and the flags read back, each as what it says |
| Maildir.NoFlags | indexer/src/maildir.py:121-161 | A name without a separator is its own uniq and says unread |
| Maildir.FolderReadsBack | indexer/src/maildir.py:164-174 | The directories mbsync writes for a folder name that folder, its components joined |
| Maildir.LocatorReads | indexer/src/occurrences.py:50-69 | A file's locator is its folder's name and its uniq, whichever of the folder's directories it is in and whatever its flags |
| Mailbox.BindKeepsRows | indexer/src/database.py:5361-5417 | A bind keeps both unique indexes and every row's folder and uniq equal to its path's locator |
| Mailbox.MoveKeepsRows | indexer/src/database.py:5419-5544 | A rename in place keeps them too |
| Mailbox.RemoveKeepsRows | indexer/src/database.py:298-301 | A cascading removal keeps them too |
| MailboxEffects.BindArrives | indexer/src/database.py:5361-5417 | After a bind one active row is at the path, with the claimant, its locator and its flags: the active row with the key, or a new one; other active rows at the path are retired and every other row is as it was; the message's tombstones go exactly when the copy is not trashed |
| MailboxEffects.MoveArrives | indexer/src/database.py:5419-5544 | After a rename that goes ahead the same holds of the new path, by the row itself in place or by retiring it and binding its message, and no active row is left at the old path; otherwise nothing changes |
| MailboxEffects.RenameArrives | indexer/src/database.py:5881-5897 | So it does when the message's tombstones go with it, which is exactly when the message is live afterwards |
| MailboxEffects.RetireChanges | indexer/src/database.py:4940-4946 | A conditional retirement changes that one row, and only while it is active at the path |
| MailboxEffects.MarksTheLost | indexer/src/database.py:5052-5083 | Marking gives a mark to each occurrence of a message without a live copy that has none, keeps every mark there is, and changes nothing else |
| MailboxEffects.ClearsTheLive | indexer/src/database.py:5033-5049 | Clearing takes just the marks of messages with a live copy |
| MailboxEffects.RemovesOnly | indexer/src/database.py:6405-6437 | A removal takes the messages with all their rows and marks, and nothing of any other message |
| MailboxStore.Store.Write | indexer/src/database.py:270-301 | One statement on the occurrence rows; it may only be issued with both unique indexes satisfied afterwards |
| MailboxStore.Store.BindOccurrence | indexer/src/database.py:5361-5417 | The two statements and the tombstone delete give the specified bind, the copy arrives as stated above, and neither statement trips an index |
| MailboxStore.Store.MoveOccurrence | indexer/src/database.py:5419-5544 | The rename moves the one active row at the old path, by retire and bind or in place, and only on verified or recorded bytes; the copy arrives as stated above |
| MailboxStore.Store.RenameRows | indexer/src/database.py:5881-5897 | The move as stated above, and the message's tombstones removed exactly when it left the message live |
| MailboxStore.Store.RemoveMessage | indexer/src/database.py:6405-6437 | Deleting the map row takes the message's occurrences and their tombstones, and says whether it was tracked |
| MailboxStore.Store.ReapThreadMessages | indexer/src/database.py:6154-6223 | The loop of removals is one removal of all ids, returns each tracked id once, or changes nothing |
| MailboxRuns.ApplyKeepsRows | indexer/src/database.py:298-301 | Every operation keeps at most one active row per key and per path |
| MailboxRuns.ApplyKeepsValid | indexer/src/database.py:5033-5083 | Every operation also leaves no tombstone beside a live occurrence |
| MailboxRuns.OperationLeaves | indexer/src/database.py:5033-6137 | What each operation leaves, row by row; a reap goes ahead exactly when its messages are without a live copy and marked by the cutoff and no file is back, and then takes just them |
| MailboxRuns.RunKeepsValid | indexer/src/database.py:5361-5544 | So does every run of binds, renames, retirements, marks, clears and reaps |
| MailboxRuns.MarksAreLosses | indexer/src/database.py:5052-5083 | Each tombstone dates from a committed state since which its message had no live copy |
| MailboxRuns.ReapSafety | indexer/src/database.py:5957-6080 | A message reaped under a cutoff had no live copy in any committed state from a time at or before the cutoff until its removal |
| MailboxRuns.OnlyReapsRemove | indexer/src/database.py:5957-6080 | No other operation removes a message |
| MailboxRuns.ReapChecksItsThread | indexer/src/database.py:6053-6080 | The reap goes ahead exactly when the thread's ids are reapable; what it removes is reapable exactly when the other ids are |
| MailboxRuns.ReapOutsideThread | indexer/src/database.py:6053-6080 | A live message of another thread, named in the ids, is removed |
| FileEvidence.ReadAll | indexer/src/file_evidence.py:40-46 | The read loop gives as many bytes as the captured size, and those of the identity if it held throughout |
| FileEvidence.ReadDigest | indexer/src/file_evidence.py:29-53 | A digest that is returned is that of the identity's bytes, however the file changed meanwhile, and one is returned if nothing touches the file |
| FileEvidence.FolderInventory.Digest | indexer/src/file_evidence.py:68-87 | The same through the cache, reading exactly the new keys the budget of 500 files and 100 MiB admits, failed reads charged |
| FileEvidence.FolderInventory.Seed | indexer/src/file_evidence.py:89-96 | A listing is recorded only if the directory's identity did not change around it |
| FileEvidence.FolderInventory.Directory | indexer/src/file_evidence.py:105-127 | Its calls one by one decide the result, what is recorded and how many calls were made; a listing that is returned is what the directory holds at that tick, and held since it was recorded |
| FileEvidence.FolderInventory.Candidates | indexer/src/file_evidence.py:129-139 | Exactly the files of the folder with the path's uniq, as of two looks, and as of the first alone if the sibling was listed before; or the folder is unsettled; the calls decide which, down to their number |
| ScanTransactions.TryMove | indexer/src/database.py:4893-4928 | The move commits exactly when the row is where it was, the destination is free and the file is the verified one at both checks; otherwise nothing changes |
| ScanTransactions.Database.MoveVerified | indexer/src/database.py:4893-4928 | The same with other transactions before it, as one justified step of the log |
| ScanTransactions.Database.RetireVanished | indexer/src/database.py:4931-4946 | Retires exactly when the second of two looks at the folder, the one inside the transaction, finds no candidate and the row is where it was |
| ScanTransactions.Database.RetireMismatched | indexer/src/database.py:4949-4977 | Retires exactly when the file is still the one whose bytes were proved different and the row is where it was |
| ScanTransactions.Database.RetireMismatchedRename | indexer/src/database.py:4980-5006 | Retires exactly when the checks inside the transaction find the copy refuted and the row is where it was; then no candidate with its uniq held the message's bytes at them |
| ScanTransactions.AbsentIff | indexer/src/database.py:4993-5003 | It counts as refuted exactly when the folder could be listed, its own path is gone, each proved file is unchanged at its own check, and no candidate is unproved |
| ScanTransactions.Database.BindFound | indexer/src/database.py:5009-5022 | Binds exactly when the file that holds the message's bytes is still there and its path is free |
| ScanTransactions.StillDiffer | indexer/src/database.py:4993-5000 | A file proved different before the inventory check and unchanged after it differed at the check |
| OccurrenceScan.CheckCandidate | indexer/src/occurrence_scan.py:355-369 | The verdict is the one size and known digest give, and it is right about the bytes |
| ScanMeaning.VerdictTells | indexer/src/occurrence_scan.py:355-369 | A look tells a match or a mismatch exactly when size and known digests show one |
| ScanMeaning.WarmsAll | indexer/src/occurrence_scan.py:319-322 | Each occurrence's directory is listed before the first transaction, by looks in order that keep what is known |
| OccurrenceScan.TryCandidates | indexer/src/occurrence_scan.py:352-376 | Each candidate is looked at once, in order, until the occurrence moves to one; the ticks, the tables, the log and what is proved are those of the looks and moves in that order, and each proof is right about the bytes |
| ScanMeaning.TrialMeans | indexer/src/occurrence_scan.py:352-376 | That is: it moved to an unheld candidate told to hold its bytes, or every candidate was looked at and exactly the mismatches are proved |
| ScanMeaning.TrialRefuses | indexer/src/occurrence_scan.py:355-376 | Candidates are tried in order; each unheld one with the occurrence's bytes that it did not move to was refused by what its transaction found |
| OccurrenceScan.ScanOccurrence | indexer/src/occurrence_scan.py:323-390 | One occurrence's turn leaves the disk, the tables, the log and the inventory where its looks, the known digests and its transactions take them, and returns just the file it moved to |
| ScanMeaning.ActMeans | indexer/src/occurrence_scan.py:323-390 | That is: kept, found stale, followed, refuted, gone or left exactly as the looks at its files and folder and, once others had their turn, the tables call for |
| ScanMeaning.ActWrites | indexer/src/occurrence_scan.py:323-390 | A turn's write is the last step of the log and the only one of the scan, is of the act's kind and that occurrence, and does to the rows what that kind does |
| ScanMeaning.NotIdle | indexer/src/occurrence_scan.py:323-376 | A found occurrence under the backstop, and one with candidates, costs at least one call |
| ScanMeaning.TurnsMean | indexer/src/occurrence_scan.py:319-390 | Every occurrence gets its turn, in order, from what the earlier ones left; outside the scope nothing is done |
| OccurrenceScan.ClaimantForContent | indexer/src/database.py:4882-4890 | The least claimant whose recorded digest it is, or none, and its bytes have that digest |
| OccurrenceScan.ScanFile | indexer/src/occurrence_scan.py:392-414 | One file's turn leaves the disk, the tables and the log where its look and, if it is tried, its transaction take them |
| ScanMeaning.FileMeans | indexer/src/occurrence_scan.py:392-414 | That is: it is tried exactly when it is admitted and its known digest is some message's, for the first such message, and bound exactly when it is still that file and its path is free |
| ScanMeaning.FilesMean | indexer/src/occurrence_scan.py:392-414 | Every file gets its turn too: it is passed over exactly when it is held, and otherwise dealt with as what the earlier files left calls for |
| OccurrenceScan.PrepareHashes | indexer/src/occurrence_scan.py:282-318 | Each wanted file is looked at once, in order, and read exactly when its digest is new and within the budget; a read that nobody disturbs succeeds |
| OccurrenceScan.Scan | indexer/src/occurrence_scan.py:215-414 | Whatever another process and other transactions do, the log explains every change, each write of the scan is justified by checks inside its transaction, the steps follow one another from the end of the reads, and the run is the occurrences' turns and then the files' |
| ScanMeaning.ScanMeans | indexer/src/occurrence_scan.py:215-414 | So a whole scan is its occurrences' turns and then its files', each what was called for |
| ScanMeaning.CopyIsBound | indexer/src/occurrence_scan.py:392-414 | In a scan that nobody disturbs an admitted, unheld file with a known digest of a message and a free path ends with the one active row at its path, bound to the first such message, unless a later file of its folder and uniq takes the row |
| ScanMeaning.RenameIsFollowed | indexer/src/occurrence_scan.py:352-376 | In a turn that nobody disturbs an occurrence whose file is gone moves to a candidate that has its bytes, if one is unheld and its path free |
| ScanMeaning.ChangeTakes | indexer/src/database.py:4893-5022 | Each kind of write does to the rows just what its transaction says: a move or a bind arrives, a retirement retires that row |
| ScanTransactions.LogKeeps | indexer/src/occurrence_scan.py:215-414 | Over a whole scan no row is lost and every row stays its message's |
| OccurrenceScan.RetiredCopyWasGone | indexer/src/occurrence_scan.py:323-390 | A retired copy's own path did not hold its message's bytes at a check inside the transaction |
| OccurrenceScan.FollowedCopyWasThere | indexer/src/occurrence_scan.py:352-414 | A file that a copy was moved or bound to held its message's bytes at a check inside the transaction |
| OccurrenceScan.GoneAtOneInstant | indexer/src/occurrence_scan.py:319-322 | With the sibling inventoried before and still there, no file of the folder with the uniq held the bytes at one instant |
| ColdInventory.InstantIff | indexer/src/database.py:4931-4946 | Among retirements with the sibling inventoried beforehand or not, and removed in the transaction or not, in all honest worlds, just those with it inventoried and not removed always have an instant at which the folder held none of the bytes |
| ColdInventory.WarmIsAbsent | indexer/src/file_evidence.py:105-139 | The instant is that of the look at the copy's own directory, whatever the inventory held before |
| ColdInventory.ColdRetirement | indexer/src/database.py:4931-4946 | A run of the retirement in which the warm-up's look fails: the copy is retired and its folder holds its bytes at every tick |
| ColdInventory.RemovedRetirement | indexer/src/database.py:4931-4946 | A run in which the sibling is removed: the same at every tick from the transaction's first |
| OccurrenceScan.VerifyRenameBytes | indexer/src/occurrence_scan.py:188-212 | A match or mismatch is reported only with the identity whose bytes prove it; a different size always is, and bytes that nobody disturbs always are |
| OccurrenceScan.CheckRecord | indexer/src/database.py:5477-5515 | A path without an occurrence binds to the recorded message only with the recorded hash, rechecked, and does when the record fits and nobody disturbs the file |
| Reaper.RestoredOne | indexer/src/database.py:6129-6151 | Whether one copy counts as restored, and how many calls that takes, is what its checks in order come to; if it does not, no untrashed file of its folder was like it, at two instants between the start of the checks and their end |
| Reaper.KeptIff | indexer/src/database.py:6129-6151 | It counts as restored exactly when its candidates could not be listed, before the transaction or in it, or an untrashed one is unproved, may match, or is not the file that was proved, each at its own check |
| Reaper.RestoredOnDisk | indexer/src/database.py:6129-6151 | The same over all copies, up to the first that counts as restored |
| Reaper.AllRunIs | indexer/src/database.py:6129-6151 | The copies are gone through from one to the next, up to the first that counts as restored, or all |
| Reaper.Reap | indexer/src/database.py:6154-6223 | The reap is called off exactly when a message is unreapable or the checks, prepared before the transaction as stated, find a copy restored; one that goes ahead found, at instants inside its transaction, none of the messages' bytes under any of their copies' names |
| Reaper.PrepareOne | indexer/src/database.py:6082-6127 | The candidates are what the looks at the folder come to; every untrashed one is looked at after them, its digest is asked for when its size fits, and its proof is what size and digests settle |
| Reaper.ProofIsRight | indexer/src/database.py:6111-6124 | A proof is right about the bytes: another size is a mismatch, and otherwise it says whether they have the expected digest, when both are known, or nothing |
| Reaper.Prepare | indexer/src/database.py:6082-6127 | So for each copy, from where the one before left the inventory |
| Reaper.GoneMeansNotHeld | indexer/src/database.py:6082-6127 | A file unlike what is recorded of a copy does not hold its message's bytes |
| ThreadSums.TotalWithout | indexer/src/database.py:3334-3350 | The exact sum does not depend on the order its vectors are read in |
| ThreadSums.InsertBalances | indexer/src/database.py:735-743 | An insert's delta is the change of every thread's exact sum and count |
| ThreadSums.DeleteBalances | indexer/src/database.py:735-743 | So is a deletion's |
| ThreadSums.SumStore.ComputeSums | indexer/src/database.py:3334-3350 | The loop over the joined rows gives the exact sum and count |
| ThreadSums.SumStore.ApplyDeltas | indexer/src/database.py:3392-3413 | Balanced deltas make every stored sum exact again, rewriting just the sums they name, and the disagreed branch is never taken |
| ThreadSums.SumStore.ReplaceMessageChunks | indexer/src/database.py:2287-2453 | Succeeds exactly when every new chunk has a vector and a free id, gives the specified rows and counts, and rewrites just the sums of the threads it touched, exactly; otherwise nothing changes |
| ThreadSums.SumStore.DeleteChunksInBatches | indexer/src/database.py:3772-3833 | Batches of 500 remove the vectors and subtract them from their threads' sums |
| ThreadSums.SumStore.DeleteChunks | indexer/src/database.py:3835-3846 | A message's or a slice's chunks go and the sums stay exact |
| ThreadSums.SumStore.RemoveMessage | indexer/src/database.py:6405-6437 | So they do when a message is reaped |
| ThreadSums.SumStore.DeleteThread | indexer/src/database.py:5957-6046 | The rows that go with a thread; the other sums stay exact if and only if no vectored row of its messages belongs to a summed thread |
| ThreadSums.SumStore.TrackMessage | indexer/src/database.py:2153-2170 | A new thread starts with an exact empty sum, and remapping a message changes none |
| ThreadSums.SumStore.ThreadSumsOf | indexer/src/database.py:3383-3390 | An inline fill stores and returns the exact sum |
| ThreadSums.SumStore.Reconcile | indexer/src/database.py:3544-3584 | Whatever is stored, the thread's sum is exact afterwards and no other changes; of right sums it repairs just the missing and unreadable |
| ThreadSums.Run | indexer/src/database.py:2153-3584 | The store driven by a run, in which sums may also be missing or become unreadable, is in the state the operations define, and stops at the first delete that takes a stray row, if there is one |
| ThreadSums.NextKeeps | indexer/src/database.py:3392-3413 | Over all operations just a whole-thread delete that takes a stray row leaves a readable sum that is not the exact one |
| ThreadSums.RunKeeps | indexer/src/database.py:3334-3413 | After every run without such a delete every readable sum is the exact one |
| ThreadSums.FirstSpoilerSpoils | indexer/src/database.py:5957-6046 | Until the first such delete of a run the sums are exact, and after it they are not |
| ThreadSums.MendedIsOk | indexer/src/database.py:3544-3615 | Reconciling a list of threads makes all sums right exactly when every readable sum of another thread is |
| ThreadSums.SpoiledIsMended | indexer/src/database.py:3586-3615 | So reconciling every thread with a sum makes good a delete that took a stray row |
| ThreadSums.StrayIsCounted | indexer/src/database.py:5957-6046 | A run of four operations after which a thread without chunks has a sum that counts one |
| ThreadSums.ReplaceLeaves | indexer/src/database.py:2287-2453 | A replacement takes just the message's body rows, or one payload's, that are not named again, if it deletes, adds just the named ones that were not there, with their vectors, and leaves every other row |
| ThreadSums.DeletionLeaves | indexer/src/database.py:3772-3846 | The other operations take just the rows of the message, of its payload, or of the thread and its messages |
| ThreadSums.SumsLeft | indexer/src/database.py:3392-3413 | Just the threads that lost or got a vector have their sums written, exactly, and no other sum goes or changes |
| VectorSums.VarintRoundTrip | indexer/src/vector_sums.py:61-65 | A varint reads back wherever it stands |
| VectorSums.GetVarint | indexer/src/vector_sums.py:97-114 | The reading loop computes that value and its end, or fails where the bytes run out |
| VectorSums.SignedRoundTrip | indexer/src/vector_sums.py:68-83 | A mantissa in two's complement reads back |
| VectorSums.WidthFits | indexer/src/vector_sums.py:68-83 | The width chosen for a mantissa holds it with its sign |
| VectorSums.Encode | indexer/src/vector_sums.py:68-83 | The encoding loop computes the blob that decodes to the sum, and the empty one for a sum of zeros |
| VectorSums.Decode | indexer/src/vector_sums.py:86-122 | The decoding loop computes what a blob stands for, or rejects it |
| VectorSums.SumRoundTrip | indexer/src/vector_sums.py:68-122 | Decoding the encoding of any sum gives it back |
| VectorSums.EncodingIsExact | indexer/src/vector_sums.py:20-24 | Two sums of one dimension are equal exactly when their blobs are |
| Identity.AssessAcceptsNothing | indexer/src/provider_identity.py:97-117 | No evidence is accepted, a candidate is kept exactly for one canonical identity of a whole capture, and only the recovery folder is rejected |
| Identity.ReasonTells | indexer/src/provider_identity.py:97-117 | The reason tells what was found, each exactly where no earlier one applies |
| Identity.EvidenceIs | indexer/src/database.py:4438-4466 | The evidence counts the message's identity header rows and takes the value of the first |
| Identity.StatementLeaves | indexer/src/database.py:385-474 | A statement outdates the assessments of its own message or occurrence, exactly when it changes their evidence, and changes nothing else; a worker's result is stored exactly while its policy and evidence are the present ones |
| Identity.IdentityStore.WriteHeader | indexer/src/database.py:422-455 | A header write invalidates exactly when it touches an identity header, and keeps every current assessment that of the present evidence |
| Identity.IdentityStore.WriteComplete | indexer/src/database.py:456-465 | So does a change of a message's capture completeness |
| Identity.IdentityStore.UpdateOccurrence | indexer/src/database.py:466-474 | So does a change of an occurrence's folder or state |
| Identity.IdentityStore.DeleteMessage | indexer/src/database.py:385-404 | So does a cascading removal |
| Identity.IdentityStore.Record | indexer/src/database.py:4468-4522 | Stores exactly when policy and evidence are the present ones; a stale worker writes nothing |
| Identity.IdentityStore.PendingEvidence | indexer/src/database.py:4438-4465 | The first pending occurrences above the cursor, in order, none left out, with their evidence |
| Identity.IdentityStore.ReassessBatch | indexer/src/provider_identity.py:120-142 | A batch is a run of stores by up-to-date workers; with no change of evidence, nothing between the cursor and the last id stays pending |
| Identity.IdentityStore.ReassessPass | indexer/src/provider_identity.py:120-142 | A pass of batches ends with nothing pending and every active occurrence's assessment current and right |
| Identity.IdentityStore.NothingIsAccepted | indexer/src/database.py:406-421 | No stored assessment is accepted |
| Identity.CandidateIsTheHeader | indexer/src/provider_identity.py:97-117 | In a valid state a current candidate is the value of the one identity header of a message captured whole, outside the recovery folder |
| Identity.Run | indexer/src/database.py:385-474 | The store driven by a run is in the state its operations define |
| Identity.RunKeeps | indexer/src/database.py:385-474 | After every run, stale workers' writes among it, every current assessment is that of the present evidence and none is accepted |
| Labels.LabelStore.Begin | indexer/src/database.py:4525-4545 | Opens a fresh generation, or is refused exactly when one is open |
| Labels.LabelStore.Record | indexer/src/database.py:4556-4582 | All memberships become live in the open generation, or none is written |
| Labels.LabelStore.Finish | indexer/src/database.py:4585-4605 | Only a complete end retires, and just what its scan did not see |
| Labels.LabelStore.Interrupt | indexer/src/database.py:4608-4616 | Ends the open generation and retires nothing |
| Labels.InterruptCloses | indexer/src/database.py:4608-4616 | An interruption closes what is open and nothing else, so that the next generation can begin |
| Labels.OperationLeaves | indexer/src/database.py:4525-4616 | What each transaction leaves: a generation begins while none is open, memberships are recorded all or none, and only a complete end retires, just what its scan did not see |
| Labels.LiveIffSeenSinceComplete | indexer/src/database.py:499-547 | In tables that match their history a membership is live exactly when it was recorded at or after the latest complete generation |
| Labels.RetiredByFirstComplete | indexer/src/database.py:499-547 | A retired row names the first complete generation after it was last seen |
| Labels.Run | indexer/src/database.py:4525-4616 | The store driven by a run is in the state its operations define |
| Labels.LiveInEveryRun | indexer/src/database.py:499-547 | After every run, refused operations among it, a membership is live or retired exactly as what was committed says |
| ExtractionCache.CacheStore.UpsertAttachment | indexer/src/database.py:2456-2541 | After a module change exactly the cached rows still used are left |
| ExtractionCache.CacheStore.WriteOccurrence | indexer/src/attachment_indexing.py:1181-1246 | The occurrence comes first, and the cache is then exactly what is still used with the plan's result stored or put back |
| ExtractionCache.CacheStore.WriteSlice | indexer/src/attachment_indexing.py:1249-1278 | The slice becomes the plan's chunks, or grows by them, or is cleared, and no other slice changes |
| ExtractionCache.CacheStore.ApplyWrites | indexer/src/attachment_indexing.py:1136-1178 | The write order never caches a row no occurrence uses or keeps a slice none carries |
| ExtractionCache.CacheStore.DeleteOccurrences | indexer/src/database.py:2609-2711 | Exactly the cached rows and slices that a remaining occurrence uses are left, and what was purged is remembered |
| ExtractionCache.CacheStore.RemoveMessage | indexer/src/database.py:3252-3273 | The same when a whole message goes |
| ExtractionCache.CacheStore.CommitMessage | indexer/src/attachment_indexing.py:1136-1278 | A commit is its plans in order and then the deletion; after it every planned result is cached and no row a sibling uses was lost |
| ExtractionCache.Run | indexer/src/database.py:2456-3273 | The store driven by a run is in the state its operations define |
| ExtractionCache.RunKeeps | indexer/src/database.py:2456-3273 | After every run a cached row has an occurrence that uses it and a slice one that carries it |
| ExtractionCache.PlanIsStored | indexer/src/attachment_indexing.py:1136-1278 | Applying a plan stores its occurrence, its result and its chunks, each unless the plan skips it: a new result replaces, an old or purged one is only put back, and every other row and slice still used stays as it was |
| ExtractionCache.OccurrencesDecide | indexer/src/database.py:2456-2711 | The other operations leave their occurrences and just the rows and slices these use, unchanged; a deletion remembers what went |
| ExtractionCache.PurgedIsPutBack | indexer/src/attachment_indexing.py:1227-1246 | A row purged with its last occurrence is put back for a later one without a result of its own |
| Queue.IndexingQueue.BeginAttempt | indexer/src/queue.py:351-384 | Charges and marks a queued row, or dead-letters a marked one with no attempt left |
| Queue.IndexingQueue.EndAttempt | indexer/src/queue.py:386-438 | Refunds the open charge of that path only |
| Queue.IndexingQueue.MarkSucceeded | indexer/src/queue.py:440-443 | Settles, then removes the job, whatever was committed in between (`QueueEffects.OutcomeConcludes`) |
| Queue.IndexingQueue.MarkFailed | indexer/src/queue.py:502-564 | Settles, reads and writes in three commits with anyone in between: the count written is one more than the one read, and dead-letters at the limit |
| Queue.IndexingQueue.DeferJob | indexer/src/queue.py:566-622 | Requeues with the count read, in three commits, or in the caller's transaction in one that leaves the charge open in memory |
| Queue.IndexingQueue.MarkDeadTerminal | indexer/src/queue.py:470-500 | Settles, then dead-letters as permanent, with one attempt and its stage, whatever was committed in between (`QueueEffects.OutcomeConcludes`) |
| Queue.IndexingQueue.MarkInterruptedRows | indexer/src/queue.py:406-418 | Marks the named rows and charges none |
| Queue.IndexingQueue.RequeueDeadRows | indexer/src/database.py:4284-4298 | Requeues exactly the dead rows of the class, with their attempts reset |
| QueueRuns.AttemptsAreCounted | indexer/src/queue.py:351-622 | In every run, with crashes and with anyone between the commits of an outcome, a queued row's attempts are the failures and deaths charged since its reset plus one while its charge is open, exactly if no write put a count above zero that was read before that reset; otherwise they exceed it by that count |
| QueueRuns.DeathChargesAtMostOne | indexer/src/queue.py:351-366 | A death charges the row in flight, by one, or nothing |
| QueueRuns.DeferChargesNone | indexer/src/queue.py:604-621 | The write of a deferral leaves the charges recorded before it, plus the count it read exactly if a reset landed between its read and its write |
| QueueRuns.DeferInTransactionChargesNone | indexer/src/queue.py:589-603 | In a transaction it leaves exactly what was recorded, less the open charge |
| QueueRuns.RacedOutcome | indexer/src/queue.py:512-552 | A re-enqueue between an outcome's read and write comes to one of the two orders exactly when the count read is zero; between the other commits it always does |
| QueueRuns.FreshRowIsCharged | indexer/src/queue.py:502-564 | A run that leaves a freshly enqueued row with an attempt from before, and dead-letters it when two are allowed |
| QueueRuns.OutcomeIsItsSteps | indexer/src/queue.py:502-622 | An outcome method with nobody in between is its steps in a row |
| QueueRuns.ReenqueueIsNotRefunded | indexer/src/database.py:4197-4209 | A re-enqueue during a step is not refunded when the step ends |
| QueueRuns.BeginThenEnd | indexer/src/database.py:4143-4209 | From any state, begin and end cancel exactly unless the row begun was a marked dead one |
| QueueRuns.WorkerIsRefunded | indexer/src/queue.py:351-388 | In every run, a begin of the worker that runs and the end after it leave the attempts as they were |
| QueueRuns.KillerIsDeadLettered | indexer/src/queue.py:351-384 | A message that kills every run is dead-lettered after exactly the allowed number of deaths |
| QueueEffects.OutcomeConcludes | indexer/src/queue.py:426-622 | An outcome method settles, reads if it needs a count, and concludes, with others in between: the row is then gone, dead for good, charged and waiting or dead, or deferred, as the outcome says, and every other row is as it was |
| QueueEffects.WriteLeaves | indexer/src/queue.py:440-622 | In every run that is what the outcome's write leaves, with the count the worker holds |
| QueueEffects.BackoffIsWait | indexer/src/queue.py:540-543 | The wait is the base, doubled for each earlier attempt, up to six hours |
| QueueEffects.StepLeaves | indexer/src/queue.py:320-622 | What every other step leaves, row by row, and which charge is open then |
| QueueEffects.DeadStaysDead | indexer/src/queue.py:454-500 | In every run a dead row that no one enqueues, requeues or removes stays as it is and is not among the claimed |
| QueueEffects.TerminalIsFinal | indexer/src/queue.py:454-500 | So a file that failed for good is recorded as such and never claimed again until someone revives it |
| EmbedLoop.StepKeeps | indexer/src/embedder.py:574-646 | Every step of the coordinator, the pool and the provider keeps the protocol's invariant |
| EmbedLoop.OutcomeIsWholeOrRealFailure | indexer/src/embedder.py:574-646 | In every interleaving all answers are returned in input order, or a request's own failure or the callback's is raised, never a skip |
| EmbedLoop.LateSubmissions | indexer/src/embedder.py:600-646 | At most the one request being submitted when a failure is recorded follows it |
| EmbedLoop.NoCallAfterFailure | indexer/src/embedder.py:655-659 | Once a failure is recorded no provider call begins |
| EmbedLoop.NeverStuck | indexer/src/embedder.py:574-646 | Only a finished loop has no step, and it never waits on nothing |
| EmbedLoop.EveryScheduleEnds | indexer/src/embedder.py:574-646 | Under every schedule the loop ends |
| EmbedLoop.EveryRunCanEnd | indexer/src/embedder.py:574-646 | What a schedule plays is a run, so every schedule gives one that returns or raises |
| EmbedLoop.RetriesEnd | indexer/src/embedder.py:646-660 | In every run a request fails exactly on a fatal answer or its third transient one, and before that a transient one is tried again |
| EmbedLoop.Batches | indexer/src/embedder.py:537-572 | The batches are within the size, not empty, and join to the texts |
| EmbedLoop.EmbedSequential | indexer/src/embedder.py:537-572 | The sequential loop gives the function of the replies and callbacks that the other two statements are about |
| EmbedLoop.SequentialIs | indexer/src/embedder.py:537-572 | All vectors in input order exactly when every request and callback passes, otherwise the error of the first that does not |
| EmbedLoop.ConcurrentIsSequential | indexer/src/embedder.py:537-646 | A finished concurrent run returns exactly when the sequential path does on the same replies, with the same vectors; what it raises is the failure of one of those requests or callbacks |
| EmbedLoop.SomeEndings | indexer/src/embedder.py:574-646 | Every run follows some endings of its requests and callbacks, so the comparison is of every interleaving |
| Literal.AttachmentFragments | indexer/src/literal.py:358-371 | Reading and decoding 32 KiB at a time gives just the text's fragments of 8192 characters |
| Literal.Scoped | indexer/src/literal.py:212-226 | The sweep gives each window exactly the clipped ranges that meet it |
| Literal.ClippedKinds | indexer/src/literal.py:212-226 | Clipping keeps the kind of every character of the window |
| Literal.KindIs | indexer/src/literal.py:98-118 | A character's kind is that of the range that holds it |
| Literal.Tokens | indexer/src/literal.py:98-118 | The token loops give exactly the grams of the folded window and of its one- and two-character spans with their scopes: every folded trigram's token, every short piece's, and no other |
| Literal.GramTokenIsExact | indexer/src/literal.py:68-69 | Different grams have different tokens |
| Literal.GramTokenReads | indexer/src/literal.py:68-69 | A token is one word of ASCII letters and digits from which every character's code reads back |
| Literal.ShortTokenIsExact | indexer/src/literal.py:98-118 | A short token names its index, or its kind, and its characters |
| Literal.FoldIsByCharacter | indexer/src/literal.py:98-118 | The folding of a text is its characters' foldings, one after another |
| Literal.Utf8SizeIsLeast | indexer/src/literal.py:135-137 | A character takes the fewest bytes that hold its code |
| Literal.Budget.Admit | indexer/src/literal.py:81-95 | A window is charged whole and stays within every limit, or the budget is capped |
| Literal.WriteWindow | indexer/src/literal.py:135-158 | A window is stored with its tokens exactly when there is disk space and time and its whole charge fits, and then charged; otherwise the budget is capped |
| Literal.FitsWithin | indexer/src/literal.py:81-95 | The limits written out |
| Literal.SpentIsSum | indexer/src/literal.py:81-95 | Every window is charged: their number, and the bytes of all their texts |
| Literal.SpentIsAll | indexer/src/literal.py:81-95 | The sources of a message are charged as all their windows in a row |
| Literal.RebuildSource | indexer/src/literal.py:191-244 | One window a fragment with its text, ranges and tokens, each charged; it stops, and the budget is capped, exactly at the first that does not fit |
| Literal.RebuildBody | indexer/src/literal.py:180-244 | The same for all sources of a message in order, until one stops |
| Literal.NoMissedMatch | indexer/src/literal.py:16-18 | Every stretch of at most 1000 characters lies whole in one window, and the token of any three adjacent characters of its folding is that window's |
| Literal.OnlyOwnGrams | indexer/src/literal.py:98-118 | And a window has no token but those of three folded characters, or of one short piece, of its own text |
| Literal.NoMissedShortMatch | indexer/src/literal.py:98-118 | One or two characters with a short folding are tokens of their window, of a body or an attachment, and of their kind when it is one |
| Classify.NextSpanDecides | indexer/src/full_body.py:259-297 | Testing only the next span tells exactly whether any wrapped-header span overlaps the line |
| Classify.Classify | indexer/src/full_body.py:241-309 | The ranges are the runs of line kinds among the lines visited, which are all unless a limit or the deadline stopped it |
| Classify.RangesAreLineKinds | indexer/src/full_body.py:259-309 | They tile a prefix of whole lines, neighbours differ in kind, and each character has its line's kind |
| P11.NoneBare | evidence-run/evidence_run/p11.py:38-41 | The count is zero exactly when no CR or LF stands alone |
| P11.EndingsRoundTrip | evidence-run/evidence_run/p11.py:38-49 | Then turning CRLF to LF and back gives the bytes |
| P11.TuidIs | evidence-run/evidence_run/p11.py:15-36 | The field is known by its name in letters of either case, with its colon |
| P11.CopyComparesEqual | evidence-run/evidence_run/simulated.py:170-178 | The isync-shaped copy of such bytes without an X-TUID field reconstitutes to them and compares equal |
| P11.EqualMeansIdentical | evidence-run/evidence_run/p11.py:44-61 | Under an injective hash, equal means the file without its one X-TUID line and with CRLF restored is the served bytes |
| P11.EqualFilesAgree | evidence-run/evidence_run/p11.py:44-61 | Two files equal to the same bytes differ only in their X-TUID line and line endings |

## Left out

- The tokenizer itself, chunk ids and their hashes, and the cache of token estimates; the count is a parameter.
- Packer.PackSpans: the budgets, and why a seed lost a span, are proved for spans that agree on their gap when they start together (`Packer.GapsAgree`), because gaps are kept by start and token slices may share one.
- The sentence and paragraph patterns are scanners written out by hand; `str.strip` on exotic whitespace is the parameter's.
- Fairness of queue claims, stalled-step detection and when dead rows are requeued; the clock and an enqueued row's due time are inputs.
- A queue row that changes its path: a rename of the file, and the missing-source refresh (`database.py:4836-4858`), carry the row with its attempts and stage to another path. One that does so while the message is in flight leaves the refund behind, so neither appears in `Queue`.
- More than one worker: the queue is written for one, and says that several would need an explicit claim column (`queue.py:49`).
- The provider client: retries inside a call, rate limits and the validation of a response's shape are one nondeterministic request.
- OccurrenceScan.Scan: starts from the files the walk found, given in order; the tree walk, the counters, the rotation of hash admissions and the pruning of the cache are not modelled.
- ScanTransactions.Database.RetireMismatchedRename: a check of the own path that raises an error ends the scan in the code; here the copy is kept and the scan goes on.
- OccurrenceScan.Scan: other transactions during a scan may do anything that keeps rows, their messages and their ids, because the reaper runs in the same loop as the scan; a reap beside a scan, with a row id reused in between, is outside it.
- Reaper.Reap: the paths of byte-identical files outside the occurrence rows are sources like the others; that all of them are found is an input.
- Carrying `indexed_files` and queue rows along a rename, unmarking paths after a reap, and the audit table of reaped messages.
- `locate` refuses paths outside the account's root; paths here lie inside it.
- ThreadSums.SumStore.ReplaceMessageChunks: vectors are integer sequences; normalization, float rounding and the full-text rows are left out.
- VectorSums.SumRoundTrip: the conversion of stored floats to integer units is left out.
- Identity: the account's provider gate; an account of another provider has no pending occurrences.
- ExtractionCache: which plan a message gets (cache gating, budgets, deferral choice), timestamps and the container stamp of a cached row; a plan that skips its occurrence's write is assumed to find it stored.
- Literal.RebuildBody: free disk space, deadlines and the size of encoded ranges are inputs; malformed UTF-8 in a stored text is not modelled.
- Classify.Classify: lines and pattern matches are inputs, with the merged matches in order of their starts.
- Preparing body sources under their budgets (`prepare`), and storing the classification digests.
- Logging, health files, migrations, SQL planning, FTS and vector-table internals, network capture and supervision.
