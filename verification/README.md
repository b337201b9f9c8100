# A verified model of the document store

The repository is a small distributed document editor in C: a name server that knows which
file is where and who may do what with it, and storage servers that hold the files and let
many clients edit single sentences of them at the same time. This project models its logic in
Dafny and proves what users rely on. `dafny verify dfyconfig.toml` checks all of it.

The routines that change things step by step in C are methods with the same loops and
branches, proved equal to a function of their inputs or of the old state (`FileParser`,
`Stream`, `WordCount`, and the classes `StorageServer.Server`, `AccessList.AccessControl`,
`HashTable.Table`, `Trie.NameTrie`, `ServerRotation.Registry`, `Requests.Server`). Only
`trim_newline`, the cut that `fgets` makes, `get_current_log_id` and the queue loop are
functions or machine steps alone. The main results are lemmas about those functions, and about
two machines whose steps are those functions: the storage server's sessions and the name
server's requests.

## What is modelled

**The edit engine** (`Text`, `FileParser`, `WordFacts`, `SentenceFacts`, `EditFacts`,
`EditQueue`, `Spacing`, `WordCount`, `Stream`). A document is a string; one scanner cuts it into
sentences, another a sentence into words, two printers put them together again, and an update
goes through all four and then through the first scanner and printer once more. Main result:
the whole pipeline is exactly one insertion into the document's word stream (`EditMeaning`).
The texts of the sentences before and after are kept exactly when two guards hold
(`SentencesBeforeKept`, `SentencesAfterKept`), and all of it carries over to a session's queue.
`Spacing` says by characters what the printers put between words and between sentences.

**Concurrent writing** (`ModificationLog`, `StorageState`, `StorageServer`, `WriteProtocol`,
`Invariants`, `Preservation`, `Progress`, `LockProtocol`, `FileEffects`, `NoLostUpdates`,
`UndoFacts`, `SentenceLedger`, `SessionTracking`, `SessionAims`, `CommitSteps`, `SoloSession`,
`LockGaps`, `WrongSentence`, `LateLog`). The storage server is a machine with any number of
threads, each serving a WRITE or an UNDO. A thread takes and releases the internal mutex and
the file's commit lock in steps of their own, and backup, shift, update loop and log entry are
separate steps, so every interleaving the locks allow is a run. All theorems are about every
run: one commit per file at a time, sentence locks in bijection with sessions, no deadlock and
bounded schedules, no word lost or invented, commits all or nothing, undo back to the latest
commit attempt and only once, the log as an exact account of sentence growth, and the sentence
a session asked for, followed by its text through the commits of others. `SoloCommit` and
`WholeSession` tie the small steps to the routines as written.

**The name server's store** (`AccessList`, `HashTable`, `Decimal`, `Persistence`, `Reload`,
`TrieShape`, `Trie`, `NameServer`, `Requests`, `RequestSteps`, `RequestRaces`, `Restarts`,
`ServerRotation`). Chained hashing is a finite map; a heap of trie nodes is a set of names; the
metadata file, printed with three separators and read back with `strtok_r`, gives every record
and every access decision back under an exact condition; new files are spread evenly over the
storage servers. Requests are handled one at a time in `Requests`, where only its owner changes
a record. In `RequestSteps` each is a few steps, each under one short lock as in the code, and
any number of them alternate; `RequestRaces` says exactly what that breaks.

## Where the code falls short

Each of these is kept as the code has it; the lemma gives the exact condition.

* A commit can edit the wrong sentence: `get_sentence_shift` compares every logged change with
  the index the session asked for and not with where the sentence is by then.
  `SessionEditsItsSentence` and `ShiftArithmetic` say exactly when it is right; `ShiftMisses`
  is a run on which it is not.
* A session that begins between another commit's write and its log entry counts that change
  although the file it saw already had it. Its target is off by the change exactly when the
  change is below the number asked for (`SessionEditsItsSentence`); `ChangeCountedTwice` is a
  run.
* Sentence locks are keyed by the number asked for, and exclude two sessions from one sentence
  only while neither sentence has moved (`UnmovedSessionsApart`). Once one has, another session
  that asks for it by its new number is let in exactly when that number is free and in range
  (`SecondSession`); `TwoSessionsOneSentence` is a run on which both are about to edit it.
* Text added after a sentence's final delimiter that does not itself end in one swallows the
  next sentence (`SentencesAfterKept`, `NextSwallowed`).
* An update of blanks only on a document of blanks loses its one sentence (`SentenceCountKept`).
  Sessions cannot send one (`ParsedLineInserts`).
* Deleting a name from the trie deletes other names too, because the helper does not look for
  other children on the way up (`DeleteKeys`, `DeleteIsExact`, `DeleteTakesSiblingExample`);
  afterwards trie and table disagree (`DeleteInStep`). When requests alternate they also do if
  a name is created again between the two writes of its DELETE (`StepListed`,
  `CreatedBetweenWrites`).
* Not every record survives a restart: one with an empty access list is saved as a line the
  loader skips, a bar in a file name shifts all fields, a line of more than 4095 characters is
  cut, and a comma or semicolon in a user's name changes how the access list is read
  (`SaveLoadExact`, `RecordRoundTrip`, `SemicolonOwner`). So a file is forgotten by the next
  restart when REMACCESS takes the only entry from its list, which can be the owner's own
  (`RevokedFileForgotten`, `LostAtRestart`).
* Look-up, owner test and removal of a DELETE are not one step: one that passed its test can
  remove a record that another user has created since (`OthersCanRemove`, `OtherUserRemoves`).
* A file created under more than 255 characters is in the trie under a name that the table lacks
  (`RequestKeepsIndexed`, `LongNameAhead`), and so is one deleted between the two writes of its
  CREATE (`CreateGetsAhead`, `DeletedBetweenWrites`).
* A line of a WRITE session that begins with a blank has its own index queued as part of the
  text (`LeadingBlank`).
* STREAM crops words of 256 characters and more (`StreamIsFaithful`, `LongWordCropped`).

A remark: a client that disconnects without ETIRW has its queue committed, because
`abort_session` is never set (`src/storage_server/file_ops.c:185-222`). The machine does the
same with `HangUp`.

## Model

| member | source | states |
|---|---|---|
| FileParser.SplitIntoSentences | src/storage_server/file_parser.c:10-42 | the pointer loop finds exactly the sentences of the text: runs up to and including a delimiter, white space after it dropped, an unfinished remainder last |
| FileParser.SkipSpacesFrom | src/storage_server/file_parser.c:26 | skips the longest run of white space and nothing else |
| FileParser.SplitIntoWords | src/storage_server/file_parser.c:46-104 | the `in_word` loop finds exactly the words: maximal runs of ordinary characters, and each delimiter by itself |
| FileParser.JoinWordsLoop | src/storage_server/file_parser.c:108-131 | the printing loop yields the text that the lemmas of `Spacing` describe character by character |
| Spacing.JoinWordsAppends | src/storage_server/file_parser.c:108-131 | each further word, of any kind, is printed with one blank in front unless it is the first or begins with one of `.`, `!`, `?` |
| Spacing.PrintedIffTidy | src/storage_server/file_parser.c:46-131 | splitting into words and printing leaves exactly the tidy texts as they are: no white space at the ends or before a stop, one blank before every other word but the first, no other white space |
| Spacing.JoinWordsTidy | src/storage_server/file_parser.c:108-131 | printing any words gives tidy text |
| Spacing.WordsProper | src/storage_server/file_parser.c:46-104 | every word of any text is one of the three stops by itself, or free of stops and white space |
| FileParser.JoinSentencesLoop | src/storage_server/file_parser.c:133-152 | the printing loop yields the text that the lemmas of `Spacing` describe |
| Spacing.JoinSentencesAppends | src/storage_server/file_parser.c:133-152 | each further sentence is printed with one blank in front unless it is the first or begins with one |
| Spacing.PrintedIffSpaced | src/storage_server/file_parser.c:10-152 | scanning sentences and printing leaves a text as it is exactly when after every stop, but for one at the end, there is one blank and then no white space |
| FileParser.SplitString | src/common/common.c:90-113 | the `strtok_r` loop: the non-empty pieces between separators, in order, empty fields gone |
| FileParser.InsertWords | src/storage_server/file_parser.c:190-194 | the three copying loops put the new words at the index and lose none of the old |
| FileParser.ApplySingleUpdate | src/storage_server/file_parser.c:154-217 | the update as a whole, refusals included, is the function that `EditMeaning` and the lemmas on neighbours are about |
| WordFacts.WordsConcat | src/storage_server/file_parser.c:46-104 | splitting into words is a homomorphism at every point that is not inside a word |
| WordFacts.WordsAreWords | src/storage_server/file_parser.c:46-104 | splitting a word gives that word |
| WordFacts.WordsOfJoinWords | src/storage_server/file_parser.c:108-131 | for any list of strings, the words of the printed list are the words of its elements one after another |
| WordFacts.WordsOfJoinSentences | src/storage_server/file_parser.c:133-152 | the same for the sentence printer |
| WordFacts.WordsOfSentences | src/storage_server/file_parser.c:10-104 | cutting a document into sentences first changes nothing about its words |
| WordFacts.WordsOfTokens | src/common/common.c:90-113 | cutting at blanks first changes nothing either |
| WordFacts.WordRoundTrip | src/storage_server/file_parser.c:46-131 | printing the words of a text and splitting again gives the same words |
| SentenceFacts.SentencesWellFormed | src/storage_server/file_parser.c:10-42 | every list the scanner returns is well formed: all but the last finished by their only delimiter, none empty, none but the first starting with white space |
| SentenceFacts.SentencesConcat | src/storage_server/file_parser.c:10-42 | scanning two texts in a row is scanning the first, and the second with the first's unfinished remainder in front |
| SentenceFacts.SentencesOfJoin | src/storage_server/file_parser.c:133-152 | finished sentences come back from the printed list one by one, whatever follows them |
| SentenceFacts.SentenceRoundTrip | src/storage_server/file_parser.c:133-152 | every well-formed list is what scanning its printed form gives |
| SentenceFacts.SplitJoinIdempotent | src/storage_server/file_parser.c:208-216 | scan and print, done twice, is scan and print done once |
| SentenceFacts.SentenceCount | src/storage_server/file_parser.c:10-42 | the number of sentences is the number of delimiters, plus one for an unfinished remainder |
| SentenceFacts.ClosedWords | src/storage_server/file_parser.c:10-104 | a text ends with a finished sentence exactly when its last word is a delimiter |
| EditFacts.EditMeaning | src/storage_server/file_parser.c:154-217 | an update is refused exactly when sentence or word index is out of range; otherwise the new word stream is the old one with the words of the text inserted at (words of the sentences before) + (word index) |
| EditFacts.EditSettles | src/storage_server/file_parser.c:208-216 | every result is a fixed point of scan and print |
| Spacing.EditedSpaced | src/storage_server/file_parser.c:208-216 | after any edit the whole text has exactly one blank between sentences |
| Spacing.EditedTidy | src/storage_server/file_parser.c:177-206 | the edited sentence is the old words with the pieces of the new text put in, printed; tidy if the pieces are words |
| EditFacts.SentencesBeforeKept | src/storage_server/file_parser.c:154-217 | all sentences before the edited one keep their text, exactly when the edit is not an append to an unfinished document |
| EditFacts.SentencesAfterKept | src/storage_server/file_parser.c:154-217 | all sentences after the edited one keep their text, exactly when there is none, or the text goes before the final delimiter, has no words, or ends in a delimiter |
| EditFacts.EditInside | src/storage_server/file_parser.c:154-217 | the full list of sentences after an edit that has a next sentence: the earlier ones, those the new text makes, then the later ones untouched or the first of them with the unfinished text in front |
| WrongSentence.NextSwallowed | src/storage_server/file_parser.c:154-217 | "x" written behind "A." in "A. B." leaves the sentences "A." and "x B." |
| EditFacts.FragmentBefore | src/storage_server/file_parser.c:208-216 | unfinished text before a list merges with the first sentence and leaves the others alone |
| EditFacts.AppendToFragment | src/storage_server/file_parser.c:163-170 | an append after an unfinished last sentence loses no sentence but changes that one's text |
| EditFacts.SentenceCountKept | src/storage_server/file_parser.c:154-217 | an edit lowers the number of sentences exactly when it inserts nothing into a non-empty blank document |
| EditQueue.ApplyUpdates | src/storage_server/file_ops.c:243-254 | the commit's loop applies the updates in order at one sentence index and gives up at the first refusal |
| EditQueue.QueueMeaning | src/storage_server/file_ops.c:243-254 | a queue that goes through adds exactly its own words; the earlier words stay, in order |
| EditQueue.QueueCountKept | src/storage_server/file_ops.c:243-270 | a queue never lowers the number of sentences |
| EditQueue.QueueBeforeKept | src/storage_server/file_ops.c:243-254 | sentences before the index keep text and number through the whole queue |
| EditQueue.QueueAfterKept | src/storage_server/file_ops.c:243-254 | sentences after it keep their text through a queue whose every update is closed where it is applied |
| EditQueue.QueueNeighbours | src/storage_server/file_ops.c:243-270 | position by position: sentences before stay, those after move by the growth of the list |
| WordCount.GetWordCount | src/common/common.c:151-170 | the one-pass counter counts all words but the occurrences of `.`, `!` and `?` |
| WordCount.QueueGrowsCount | src/storage_server/file_ops.c:277-281 | the count a commit reports is the old one plus the plain words of its updates |
| Stream.StreamFile | src/storage_server/file_ops.c:83-117 | each message is one character outside words, or between 1 and 255 letters; if no word has more than 255 letters, the messages glued together are the file |
| Stream.WordSent | src/storage_server/file_ops.c:83-117 | a whole word goes out in one message, of a longer one its first 255 letters |
| Stream.CharacterSent | src/storage_server/file_ops.c:94-104 | every other character goes out by itself |
| Stream.StreamIsFaithful | src/storage_server/file_ops.c:83-117 | what arrives, glued together, is the file exactly when every word is shorter than the buffer |
| Stream.LongWordCropped | src/storage_server/file_ops.c:83-117 | a word of 256 letters does not arrive |
| ModificationLog.ShiftArithmetic | src/storage_server/storage_server.c:41-61 | on growing logs the computed shift never passes the exact one, and equals it exactly when no entry since the start lies between the index asked for and the running position |
| WrongSentence.ShiftMisses | src/storage_server/storage_server.c:41-61 | a run from a fresh server on "A. B. C.": while session 1 waits to edit "B.", two other sessions commit, and session 1 comes to its update loop aiming at sentence 3, "A.", with its "B." at 4 |
| WrongSentence.LetterInserted | src/storage_server/file_parser.c:154-217 | writing one short finished sentence in front of another adds exactly that one to the list |
| ModificationLog.ShiftSnoc | src/storage_server/storage_server.c:6-61 | how one more logged change moves the shift |
| ModificationLog.TrackSnoc | src/storage_server/storage_server.c:6-61 | how it moves the exact position |
| StorageState.ValidationIsEditable | src/storage_server/file_ops.c:148-178 | the index check admits exactly the indices at which an edit leaves all earlier sentences alone |
| StorageState.ParsedLineInserts | src/storage_server/file_ops.c:196-208 | every queued update holds at least one piece between blanks, so the one edit that can lower the sentence count never gets into a queue |
| StorageState.LineQueued | src/storage_server/file_ops.c:196-208 | for every number and every text with something in it: the line of the number, a blank and the text queues just that word index and that text |
| StorageState.LeadingBlank | src/storage_server/file_ops.c:203-208 | a line with a blank in front queues the same index, and a text that begins with the number |
| StorageState.MissingFileIsEmpty | src/storage_server/file_ops.c:141-142 | a session on a file that is not there starts from no sentences and no words |
| StorageState.TwoPartsHaveBlank | src/storage_server/file_ops.c:196-205 | after the test for two parts `strstr` always finds its blank |
| StorageServer.Server.constructor | src/storage_server/storage_server.c:126-148 | a new server has an empty log, no locks, and the files of its directory |
| StorageServer.Server.LogModification | src/storage_server/storage_server.c:6-29 | a change of zero is not logged; any other gets the next id at the end of the list |
| StorageServer.Server.GetSentenceShift | src/storage_server/storage_server.c:41-61 | sums the new entries of the file with an index below the one asked for |
| StorageServer.Server.TryLockSentence | src/storage_server/storage_server.c:85-102 | succeeds exactly when the pair of file and number is not in the list, and then adds it |
| StorageServer.Server.UnlockSentence | src/storage_server/storage_server.c:104-122 | unlinks the first entry of that pair and no other |
| StorageServer.Server.GetFileCommitLock | src/storage_server/storage_server.c:66-83 | a known file gets its lock and the list stays; a new one gets a new lock |
| StorageServer.Server.CreateUndoBackup | src/storage_server/undo_handler.c:6-32 | the old backup goes; the file, when there is one, becomes the new |
| StorageServer.Server.PerformUndo | src/storage_server/undo_handler.c:36-50 | succeeds exactly when there is a backup, which becomes the file and is gone |
| StorageServer.Server.Validate | src/storage_server/file_ops.c:141-178 | the index check of a session; see `ValidationIsEditable` for what it means |
| StorageServer.Server.ParseLine | src/storage_server/file_ops.c:196-208 | a line of fewer than two parts is ignored; of any other it yields the update that `LineQueued` and `LeadingBlank` describe |
| StorageServer.Server.Commit | src/storage_server/file_ops.c:222-288 | backup, re-based updates, write and log entry as one change of the state, all or nothing; the sizes reported are those of the written file |
| Invariants.WithCommitLockKeeps | src/storage_server/storage_server.c:66-83 | looking up a lock never changes what another name resolves to |
| Invariants.CommitLockAt | src/storage_server/storage_server.c:66-83 | a commit lock belongs to one file name |
| Invariants.CommitExclusion | src/storage_server/file_ops.c:223-287 | two threads that hold the commit lock of one file are one thread |
| Preservation.SentenceLockTaken | src/storage_server/storage_server.c:85-102 | taking a free lock keeps the list in bijection with the sessions |
| Preservation.SentenceLockReleased | src/storage_server/storage_server.c:104-122 | so does giving one's own back |
| Preservation.WithoutMembers | src/storage_server/storage_server.c:104-122 | unlocking removes exactly one pair from a list without duplicates |
| Preservation.StepKeepsInv | src/storage_server/file_ops.c:122-326 | every step of every thread keeps the whole invariant |
| Preservation.ReachableInv | src/storage_server/file_ops.c:122-326 | so it holds in every state a fresh server can reach |
| CommitSteps.SoloCommit | src/storage_server/file_ops.c:223-288 | a thread's commit steps with nobody in between do exactly what the commit routine does, and leave every other thread and commit lock alone |
| SoloSession.WholeSession | src/storage_server/file_ops.c:122-301 | a whole WRITE session served alone, from request to last unlock: one commit of the lines it was sent, run straight through, with every lock as it was before; it reports success exactly when that commit succeeds |
| SoloSession.SessionCommitsUpdates | src/storage_server/file_ops.c:122-301 | the same for any list of updates, each sent as its word index, a blank and its text: just these updates are committed |
| SoloSession.BeginAlone | src/storage_server/file_ops.c:129-180 | a new session whose sentence is free takes its lock, and gets to its queue loop exactly when the index is in range |
| SoloSession.FinishAlone | src/storage_server/file_ops.c:223-291 | from the end of the queue on: commit lock, commit, and both locks given back |
| SoloSession.DeliverAll | src/storage_server/file_ops.c:187-219 | the lines sent become the queue, in order, those of fewer than two parts ignored |
| CommitSteps.CommitBodies | src/storage_server/file_ops.c:231-270 | the bodies of those steps, composed, are the routine's result |
| LockProtocol.SentenceLocksMatchSessions | src/storage_server/file_ops.c:132-177 | in every reachable state the lock list has no duplicates and is in bijection with the sessions between lock and unlock; finished threads hold none |
| LockProtocol.UnlockGivesBackOwn | src/storage_server/file_ops.c:291 | an unlocking session removes its own pair and no other, and is done |
| LockProtocol.CommitLockStays | src/storage_server/storage_server.c:66-83 | over any run a file name keeps the commit lock it once resolved to |
| LockProtocol.OneCommitPerFile | src/storage_server/file_ops.c:223-325 | in every reachable state at most one commit or undo is under way on a file |
| LockProtocol.ValidationGuards | src/storage_server/file_ops.c:172-180 | a session goes on exactly when its index is editable, and otherwise goes to give its lock back, changing nothing |
| LockProtocol.QueueIsWhatWasSent | src/storage_server/file_ops.c:182-219 | over any run a session's queue is the updates it was sent, in order of arrival |
| LockGaps.SecondSession | src/storage_server/storage_server.c:85-102 | in every reachable state with a session waiting: a new session served alone is let in and aims at the same sentence exactly when it asks for that sentence by its present number, that number is unlocked, and it is in range |
| LockGaps.UnmovedSessionsApart | src/storage_server/storage_server.c:85-102 | in every reachable state, two sessions with their sentence locks on one file aim at different sentences unless one of these has moved since it was asked for |
| WrongSentence.TwoSessionsOneSentence | src/storage_server/storage_server.c:85-102 | a run from a fresh server on "A. B. C." after which sessions 1 and 3 both hold a sentence lock and both aim at "B." |
| Progress.DeadlockFree | src/storage_server/file_ops.c:223-325 | while some thread is neither finished nor waiting for its client, some thread can step |
| Progress.StepUsesUp | src/storage_server/file_ops.c:122-326 | every step brings the threads together nearer to their end |
| Progress.SchedulesEnd | src/storage_server/file_ops.c:122-326 | so a schedule without new input has bounded length |
| Progress.RestAtEnd | src/storage_server/storage_server.c:66-122 | a schedule that cannot go on leaves no mutex and no commit lock held, and sentence locks only with sessions that wait for their clients |
| FileEffects.FileChanges | src/storage_server/file_ops.c:243-260 | a step changes a file only by a successful commit or a successful undo of that file |
| FileEffects.BackupChanges | src/storage_server/undo_handler.c:6-50 | a backup changes only when a commit of its file starts or an undo of it runs |
| FileEffects.LogChanges | src/storage_server/file_ops.c:265-270 | the log grows only by a commit's own entry, at its re-based index |
| NoLostUpdates.NoWordLost | src/storage_server/file_ops.c:223-288 | over any interleaving of WRITE and UNDO the words of file and backup are those of a ledger of successful commits, commit attempts and undos |
| NoLostUpdates.LedgerStep | src/storage_server/file_ops.c:226-325 | every step changes them as its ledger entry says |
| NoLostUpdates.WordsOnlyGrow | src/storage_server/file_ops.c:223-288 | without undo exactly the committed words are added, and every earlier word stream is a subsequence of every later one |
| UndoFacts.CommitAllOrNothing | src/storage_server/file_ops.c:226-286 | in every reachable state a commit past its update loop has either all its updates in the file or left it as it read it |
| UndoFacts.BackupStays | src/storage_server/undo_handler.c:6-50 | a run without commit attempts and undos of a file leaves its backup alone |
| UndoFacts.UndoRestores | src/storage_server/file_ops.c:303-325 | an undo restores the file from just before the latest commit attempt, failed and empty ones included; it is refused when there was no file then |
| UndoFacts.SecondUndoRefused | src/storage_server/undo_handler.c:36-50 | of two undos with no commit attempt in between the second is refused and changes nothing |
| SentenceLedger.LogAccountsForSentences | src/storage_server/file_ops.c:231-270 | without undo the logged changes of a file, with one that may still be waiting to be logged, sum to what it gained since the server started; ids count up from 0 and all changes are growth |
| SentenceLedger.BalanceStep | src/storage_server/file_ops.c:256-270 | no step that is not an undo disturbs that balance |
| SentenceLedger.PendingStep | src/storage_server/file_ops.c:256-270 | a written change waits to be logged exactly when it changed the count, and until its own thread logs it |
| SessionAims.SessionEditsItsSentence | src/storage_server/file_ops.c:129-289 | for any session that asked for an existing sentence, whenever it began: through any commits of others that are closed, in range and not at its sentence, that sentence keeps its text and is where the log from some point on says; the commit aims at most as far past it as a change counts that was written before the session began and logged after, and aims at it exactly when that and the changes that overtook the sentence cancel; with no such change, exactly when none overtook it |
| LateLog.ChangeCountedTwice | src/storage_server/file_ops.c:129-270 | a run from a fresh server on "A. B. C.": session 2 has written "X. Y." in front and not yet logged it, session 1 asks for sentence 3, "B.", and comes to its update loop aiming at number 5 |
| SessionAims.SettleRun | src/storage_server/file_ops.c:255-270 | a change that is written and not yet logged is logged at some point of any run that ends without it; until then nobody else touches the file |
| SessionAims.SessionAgainstEnd | src/storage_server/file_ops.c:129-237 | for any number asked for, the append slot included, whenever the session began, and any runs of others without undo: but for a change logged late, the commit aims no nearer to the end of the file than was asked, and exactly as near exactly when all that was logged from then on lies below the number asked for |
| SessionTracking.TrackStep | src/storage_server/file_ops.c:223-288 | each such step keeps the sentence's text and the log's account of its place |
| SessionAims.TrackedTarget | src/storage_server/file_ops.c:235-237 | at the update loop, what the session's shift makes of the number asked for, against the sentence's true place |
| SessionTracking.NeighbourText | src/storage_server/file_ops.c:243-270 | a sentence that a queue does not aim at keeps its text, at its old place or moved by the growth |
| AccessList.AccessControl.AddAccess | src/common/data_structures.c:123-137 | an existing entry is changed in place, a new one goes to the front |
| AccessList.AccessControl.RemoveAccess | src/common/data_structures.c:139-155 | unlinks the user's first entry, if any |
| AccessList.AccessControl.GetAccess | src/common/data_structures.c:157-166 | the permission of the first entry for the user, NUL without one |
| AccessList.AccessControl.CheckAccess | src/name_server/client_handler.c:166-178 | the decision: owners may do anything, W implies R, everything else is refused |
| AccessList.AddedGrants | src/common/data_structures.c:123-137 | granting sets exactly one user's permission and lists nobody twice |
| AccessList.RemovedGrants | src/common/data_structures.c:139-155 | revoking takes away exactly one user's permission |
| AccessList.RemovedMembers | src/common/data_structures.c:139-155 | what is left after revoking was there before, and nobody is listed twice |
| HashTable.HashFunction | src/common/data_structures.c:201-208 | the loop over the key computes 5381 * 33^n + key[0] * 33^(n-1) + ... modulo 1024: the wrap-around of the 64-bit word does not show |
| HashTable.Table.constructor | src/common/data_structures.c:194-199 | a new table finds no name |
| HashTable.Table.Insert | src/common/data_structures.c:210-237 | fails exactly when the name is there, and otherwise puts the record at the head of its bucket |
| HashTable.Table.Get | src/common/data_structures.c:239-253 | the record of that name, if any |
| HashTable.Table.Change | src/name_server/client_handler.c:487-503 | a record changed through the pointer the table gave out stays where it is in its chain |
| HashTable.Table.Delete | src/common/data_structures.c:255-283 | unlinks the record of that name and no other |
| HashTable.InsertRefines | src/common/data_structures.c:210-237 | insertion adds exactly the new name and keeps the table well formed |
| HashTable.DeleteRefines | src/common/data_structures.c:255-283 | deletion removes exactly the name and keeps the table well formed |
| HashTable.ChangeRefines | src/name_server/client_handler.c:487-503 | a change in place affects the look-up of that name only |
| HashTable.TableIsMap | src/common/data_structures.c:201-283 | over any sequence of insert, get, change in place and delete the table is the finite map and gives its answers, insert failing exactly on present names: every node in the bucket of its hash, no name twice |
| Decimal.AtoiOfPrintInt | src/name_server/persistence.c:162-169 | a printed number is read back as itself |
| Decimal.ReadSigned | src/name_server/persistence.c:162-177 | leading white space is skipped and a sign understood: " \t-46" is -46 |
| Persistence.SampleLine | src/name_server/persistence.c:55-70 | a sample record, character by character: the nine fields in order with bars between, each access entry as user, comma, permission, semicolon |
| Persistence.TokensOfBarred | src/common/common.c:90-113 | splitting a printed line gives its non-empty fields: an empty field shifts all later ones |
| Persistence.AccessRead | src/name_server/persistence.c:164-174 | a saved access field is read entry by entry, whatever the names in it |
| Reload.LoadedRecord | src/name_server/persistence.c:143-183 | however long its line, a record whose texts keep to their fields is loaded as the first 4095 characters of the line parse, and the rest of the line makes nothing |
| Persistence.DecisionsKept | src/name_server/client_handler.c:166-178 | for every user and permission the decision on a reloaded list is the decision on the saved one |
| Reload.RecordRoundTrip | src/name_server/persistence.c:50-75 | for any record, whatever its texts: saved and loaded it comes back with all its fields exactly when no text breaks the line or is too long, its access list is not empty and reads alike, and its line fits the read buffer |
| Reload.ReadsAlikeWhenPlain | src/name_server/persistence.c:164-174 | an access list reads alike when all its users are free of commas and semicolons, only if all but the owner are, and exactly then if the owner is |
| Reload.SemicolonOwner | src/name_server/persistence.c:160-174 | the list of an owner named "a;b" does not: after loading, user "b" may write |
| Reload.RecordReread | src/name_server/persistence.c:145-183 | a record whose texts keep to their fields is read back, its list as it is read, exactly when the list is not empty and the line fits; with an empty list nothing is read |
| Persistence.RecordsConcat | src/name_server/persistence.c:49-75 | the records are written bucket by bucket, each chain in its order |
| Persistence.RecordsFind | src/name_server/persistence.c:39-79 | the records written are those of the table, each once |
| Reload.LoadedReadable | src/name_server/persistence.c:145-183 | whatever is in the file, a loaded record is one that a line can hold: no separators in its texts, and names that fit |
| Reload.SaveLoadRoundTrip | src/name_server/persistence.c:135-197 | for a table whose texts keep to their fields, name by name: the record is back as its line is read exactly when its access list is not empty and its line fits, and with every access decision if the list reads alike; with an empty list it is gone |
| Reload.SaveLoadExact | src/name_server/persistence.c:39-197 | for any table, whatever its names: loading what was saved restores every record and nothing else exactly when every record by itself comes back |
| NameServer.SaveRecord | src/name_server/persistence.c:50-72 | the print calls for one record write its line |
| NameServer.SaveAccess | src/name_server/persistence.c:57-65 | the entries as `user,permission;` in list order |
| NameServer.SaveFiles | src/name_server/persistence.c:39-79 | the loops over buckets and chains write each record of the table once |
| NameServer.ParseRecord | src/name_server/persistence.c:145-183 | a line of fewer than nine fields is dropped; the owner is given write access first, then the entries are added |
| NameServer.LoadFiles | src/name_server/persistence.c:135-197 | every line that parses goes into the table and into the trie |
| NameServer.LoadKeepsInStep | src/name_server/persistence.c:135-197 | loading leaves table and trie with the same names |
| NameServer.CreateKeepsInStep | src/name_server/client_handler.c:240-279 | so does creating a file |
| NameServer.DeleteInStep | src/name_server/client_handler.c:281-323 | deleting one does exactly when the name has extensions or is alone under the branch the trie cuts off |
| TrieShape.InsertAddsKey | src/common/data_structures.c:19-31 | insertion adds exactly the name and leaves no dead branch |
| TrieShape.DeleteKeys | src/common/data_structures.c:50-79 | which names are left after a deletion, in every case: all but those that extend the name cut one character past its longest proper prefix that is a name |
| TrieShape.DeleteIsExact | src/common/data_structures.c:50-79 | deletion removes only the name exactly when it has extensions, is empty, or is alone under its cut |
| TrieShape.DeleteLeavesNoDeadBranch | src/common/data_structures.c:50-79 | after any deletion every node still leads to a name |
| TrieShape.DeleteTakesSibling | src/common/data_structures.c:50-79 | of two names of two characters that differ in the second, deleting one deletes both |
| TrieShape.DeleteTakesSiblingExample | src/common/data_structures.c:50-79 | with "ab" and "ac" inserted, deleting "ab" leaves nothing |
| Trie.NameTrie.constructor | src/common/data_structures.c:5-17 | a new trie is one node and holds no name |
| Trie.NameTrie.Search | src/common/data_structures.c:33-47 | finds exactly the names that are in |
| Trie.NameTrie.Insert | src/common/data_structures.c:19-31 | makes the missing nodes of the path, marks the last, and keeps the heap a tree |
| Trie.NameTrie.Delete | src/common/data_structures.c:75-79 | the recursion on nodes removes what `TrieShape.DeleteKeys` says and keeps the heap a tree |
| Trie.NameTrie.DeleteHelper | src/common/data_structures.c:50-73 | one level of it, with the answer whether the caller is to free the node |
| Requests.Server.constructor | src/name_server/name_server.c:15-27 | a server that has read its metadata file holds what the file holds, and no storage servers; without one it is empty |
| Requests.NewStoreOk | src/name_server/name_server.c:15-22 | an empty store is a good one, with its trie in step |
| Requests.Server.HandleCreate | src/name_server/client_handler.c:240-279 | CREATE: conflict, no server, or a new record owned by the user, known to table and trie, on the server whose turn it is |
| Requests.CreatedRecord | src/name_server/client_handler.c:240-279 | a created file is found under its name, with the creator as owner and alone allowed anything, the address and client port of the server whose turn it is, no size or counts, and the time of creation; the turn goes on by one, from 0 after the last |
| Requests.DeletedRecord | src/name_server/client_handler.c:311-313 | a deleted file is gone from the table |
| Requests.RepliesAre | src/name_server/client_handler.c:232-513 | exactly which request gets which reply, and that a refused one changes nothing |
| Requests.OthersUntouched | src/name_server/client_handler.c:232-513 | a request leaves the records of all other names and the list of servers alone |
| Requests.Server.HandleDelete | src/name_server/client_handler.c:281-323 | DELETE: not found, not the owner, or gone from the table and cut from the trie |
| Requests.Server.HandleAccess | src/name_server/client_handler.c:450-513 | ADDACCESS and REMACCESS: bad flag, not found, not the owner, or one change of one access list |
| Requests.RequestKeepsStoreOk | src/name_server/client_handler.c:232-513 | every request keeps the table a table of distinct names that fit, access lists free of duplicates, and the trie a tree without dead branches |
| Requests.RunKeepsStoreOk | src/name_server/client_handler.c:232-513 | so does every sequence of requests |
| Requests.RequestKeepsIndexed | src/name_server/client_handler.c:240-323 | one request at a time: it leaves a name in the trie that the table lacks exactly when it creates a file under more than 255 characters |
| Requests.LongNameAhead | src/name_server/client_handler.c:240-279 | a file created under 256 letters is in the trie and not, under that name, in the table |
| Requests.OnlyOwnerChanges | src/name_server/client_handler.c:281-513 | one request at a time: no sequence of requests by others changes or removes a file's record |
| RequestSteps.RunKeepsInv | src/name_server/client_handler.c:232-513 | over every interleaving of the steps of any number of requests the table stays a table, the trie a tree without dead branches, access lists free of duplicates, and a request past its owner test either found the record that is there now and owns it, or found an earlier one |
| RequestRaces.ServedAlone | src/name_server/client_handler.c:232-513 | the steps of a request with nobody in between do exactly what the request does, reply included |
| RequestRaces.OthersCanRemove | src/name_server/client_handler.c:281-316 | in every reachable state: others than its owner can change or remove a file's record, by any requests in any interleaving, exactly when a DELETE of that name by another user is already past its owner test |
| RequestRaces.StaleTestedEarlier | src/name_server/client_handler.c:283-291 | that DELETE tested an earlier record of the name |
| RequestRaces.OtherUserRemoves | src/name_server/client_handler.c:281-316 | a run from a server without files in which a DELETE by one user removes the record that another has created meanwhile |
| RequestRaces.StepIndexed | src/common/data_structures.c:19-31 | in every reachable state: a step lets the trie get ahead of the table exactly when it is a CREATE's trie write of a name that the table lacks and that no DELETE is about to take out of the trie |
| RequestRaces.CreateGetsAhead | src/name_server/client_handler.c:250-268 | over any interleaving between a CREATE's two writes: the second lets the trie get ahead exactly when the name is longer than a record holds, or was removed from the table in between and not entered again, and no DELETE is left to take it out |
| RequestRaces.NameAfterRun | src/common/data_structures.c:210-283 | over any interleaving the table has a name exactly when the last table write under it was an entry |
| RequestRaces.IndexedAtRest | src/name_server/client_handler.c:232-323 | over any run without such a step the trie names no file that the table lacks, whenever no DELETE is half done |
| RequestRaces.StepListed | src/common/data_structures.c:50-79 | in every reachable state: a step leaves the table with a file that the trie lacks and nobody is about to enter exactly when a DELETE's trie write takes out a name the table has, another's or its own created again since, or a CREATE enters a record whose name is cut |
| RequestRaces.CreatedBetweenWrites | src/name_server/client_handler.c:240-316 | a run of a DELETE with a CREATE of the same name served between its two writes, after which the trie lacks a file of the table |
| RequestRaces.DeletedBetweenWrites | src/name_server/client_handler.c:240-316 | a run of a CREATE of a short name with a DELETE served between its two writes, after which the trie has a name that the table lacks |
| Requests.GrantTakesEffect | src/name_server/client_handler.c:450-513 | a successful grant came from the owner, changes the target's decisions as its flag says, and nobody else's |
| Requests.RevokeTakesEffect | src/name_server/client_handler.c:450-513 | a successful revocation came from the owner, leaves its target with nothing, takes nothing from the owner, and changes nobody else |
| Restarts.RestartedOk | src/name_server/persistence.c:135-197 | whatever the metadata file holds, the server starts with a good store whose trie has exactly the names of its table |
| Restarts.RestartKeepsDecisions | src/name_server/persistence.c:39-197 | from a new store on, after any requests whose names do not break a line, stopping and starting keeps every file as its line is read exactly when its access list is not empty and its line fits, and with all access decisions when the list reads alike |
| Restarts.RestartExact | src/name_server/persistence.c:39-197 | from a new store on, after any requests whatever, stopping and starting keeps everything exactly when every record by itself comes back |
| Restarts.LostAtRestart | src/name_server/client_handler.c:505-512 | a user creates "f" and revokes the own entry: after a restart there is no "f" |
| Restarts.RevokedFileForgotten | src/name_server/client_handler.c:505-512 | after a successful revocation a restart forgets the file exactly when nobody but the target was listed |
| ServerRotation.Registry.AddServer | src/name_server/ss_handler.c:4-13 | a new server goes to the front of the list |
| ServerRotation.Registry.RemoveServer | src/name_server/ss_handler.c:20-42 | the first server on that socket goes, and the others keep their order |
| ServerRotation.Registry.ServerForNewFile | src/name_server/ss_handler.c:53-81 | no server for an empty list; the one at the counter, which then goes up by one; and the first one, with the counter then 1, when the counter is at or past the end |
| ServerRotation.RotationIsFair | src/name_server/ss_handler.c:53-81 | with n servers and an unchanged list any m consecutive choices fall on each server floor(m/n) or ceil(m/n) times, wherever the counter stood |

## Left out

* Sockets, message framing, accept loops, thread creation, delays and log messages. A line from
  a client is an event, and a reply is an outcome.
* The client program and `exec_handler.c`.
* The LRU cache and the listing of all names, which are stubs in the code, and COPY and SEARCH,
  which only the documentation has.
* The text of VIEW, INFO and LIST, and creation and access times.
* The user list and its file, and the list of connected clients.
* INFO_UPDATE as received by the name server, and a storage server connecting again.
* CREATE and DELETE as they arrive at a storage server: they bypass the commit lock, so runs of
  the write protocol do not have them.
* File-system failures, and readers that see a file while it is being written. Taking the backup
  and reading the file are one step, as are the update loop and writing the file; all threads
  that write hold the commit lock, but a session's index check, READ and STREAM do not.
* A file and its backup are separate slots, so a file whose name is another's with `.undo` added
  is not modelled, nor are the cut-off of names at 255 characters in the storage server's lists
  and of user names in access entries.
* Text is ASCII without NUL, so `isspace` and `fgetc` on bytes above 127 are not modelled.
* Integers other than the hash are unbounded: counters and `atoi` do not wrap around or saturate.
* Linked lists are sequences and the records of the hash table are values, so aliasing between a
  record and its pointers is not modelled; a change through a pointer is `HashTable.Table.Change`.
  The trie is a heap of nodes.
* What C leaves undefined when a request follows a pointer to a record that another request has
  freed: look-up and owner test are one step, and a change to a record that is gone does nothing.
* The metadata file while several requests write it at once.
- Reload.SaveLoadRoundTrip: is about tables whose texts do not break a line, and says of each name by itself what becomes of it; a record with a bar in its name can come back as another, and then only the whole table can be judged, as `Reload.SaveLoadExact` does for any names.
- Reload.LoadedRecord: is about such texts for the same reason, and so is `Reload.RecordReread`; for others `Reload.RecordRoundTrip` says that the record does not come back.
- Restarts.RestartKeepsDecisions: asks for names that do not break a line; `Restarts.RestartExact` asks for nothing.
- Restarts.RevokedFileForgotten: asks for such names and a line that fits, because the broken line of another record, or its own cut short, can come back under the name.
- Requests.OnlyOwnerChanges: is about one request at a time; `RequestRaces.OthersCanRemove` is about all interleavings.
- Requests.RequestKeepsIndexed: is about one request at a time; `RequestRaces.StepIndexed` is about all interleavings.
- SessionAims.SessionEditsItsSentence: is about a sentence that exists when the session starts; the slot after the last one is the subject of `SessionAims.SessionAgainstEnd`.
