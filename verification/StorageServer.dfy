/** The storage server's routines as they run, each proved to do to the shared state what
    `StorageState` says. */
module StorageServer {
  import opened Text
  import opened FileParser
  import opened EditQueue
  import opened ModificationLog
  import opened Decimal
  import opened StorageState
  import WordCount

  datatype FileInfo = FileInfo(size: nat, words: nat, chars: nat)

  class Server {
    var files: map<string, string>
    var undo: map<string, string>
    var modLog: seq<LogEntry>
    var nextLogId: int
    var sentenceLocks: seq<SentenceLock>
    var fileLocks: seq<FileLock>

    function State(): Shared
      reads this
    {
      Shared(files, undo, modLog, nextLogId, sentenceLocks, fileLocks)
    }

    /** A server started on a directory that holds `files` and backups `undo`. */
    constructor (files: map<string, string>, undo: map<string, string>)
      ensures State() == Shared(files, undo, [], 0, [], [])
    {
      this.files, this.undo := files, undo;
      modLog, nextLogId := [], 0;
      sentenceLocks, fileLocks := [], [];
    }

    method LogModification(filename: string, index: int, delta: int)
      modifies this`modLog, this`nextLogId
      ensures State() == Logged(old(State()), filename, index, delta)
    {
      if delta == 0 {
        return;
      }
      modLog := modLog + [LogEntry(nextLogId, filename, index, delta)];
      nextLogId := nextLogId + 1;
    }

    method GetSentenceShift(filename: string, originalIndex: int, startLogId: int) returns (shift: int)
      ensures shift == Shift(modLog, filename, originalIndex, startLogId)
    {
      shift := 0;
      assert modLog[0..] == modLog;
      for i := 0 to |modLog|
        invariant shift + Shift(modLog[i..], filename, originalIndex, startLogId)
                  == Shift(modLog, filename, originalIndex, startLogId)
      {
        assert modLog[i..][0] == modLog[i] && modLog[i..][1..] == modLog[i + 1..];
        if modLog[i].id >= startLogId {
          if modLog[i].file == filename {
            if modLog[i].index < originalIndex {
              shift := shift + modLog[i].delta;
            }
          }
        }
      }
    }

    method TryLockSentence(filename: string, sentNum: int) returns (locked: bool)
      modifies this`sentenceLocks
      ensures locked <==> SentenceLock(filename, sentNum) !in old(sentenceLocks)
      ensures sentenceLocks ==
              if locked then [SentenceLock(filename, sentNum)] + old(sentenceLocks) else old(sentenceLocks)
    {
      for i := 0 to |sentenceLocks|
        invariant SentenceLock(filename, sentNum) !in sentenceLocks[..i]
        invariant sentenceLocks == old(sentenceLocks)
      {
        if sentenceLocks[i].file == filename && sentenceLocks[i].num == sentNum {
          return false;
        }
      }
      sentenceLocks := [SentenceLock(filename, sentNum)] + sentenceLocks;
      return true;
    }

    method UnlockSentence(filename: string, sentNum: int)
      modifies this`sentenceLocks
      ensures sentenceLocks == Without(old(sentenceLocks), SentenceLock(filename, sentNum))
    {
      hide Without;
      ghost var l := SentenceLock(filename, sentNum);
      var i := 0;
      assert sentenceLocks[0..] == sentenceLocks;
      while i < |sentenceLocks| && !(sentenceLocks[i].file == filename && sentenceLocks[i].num == sentNum)
        invariant 0 <= i <= |sentenceLocks| && sentenceLocks == old(sentenceLocks)
        invariant sentenceLocks[..i] + Without(sentenceLocks[i..], l) == Without(sentenceLocks, l)
      {
        WithoutTurn(sentenceLocks, i, l);
        Regroup(sentenceLocks[..i], [sentenceLocks[i]], Without(sentenceLocks[i + 1..], l));
        assert sentenceLocks[..i] + [sentenceLocks[i]] == sentenceLocks[..i + 1];
        i := i + 1;
      }
      if i < |sentenceLocks| {
        WithoutTurn(sentenceLocks, i, l);
        sentenceLocks := sentenceLocks[..i] + sentenceLocks[i + 1..];
      } else {
        WithoutNothing(l);
        assert sentenceLocks[..i] == sentenceLocks && sentenceLocks[i..] == [];
      }
    }

    method GetFileCommitLock(filename: string) returns (id: nat)
      modifies this`fileLocks
      ensures fileLocks == WithCommitLock(old(fileLocks), filename)
      ensures CommitLock(fileLocks, filename) == Some(id)
    {
      assert fileLocks[0..] == fileLocks;
      for i := 0 to |fileLocks|
        invariant fileLocks == old(fileLocks)
        invariant CommitLock(fileLocks[i..], filename) == CommitLock(fileLocks, filename)
      {
        assert fileLocks[i..][0] == fileLocks[i] && fileLocks[i..][1..] == fileLocks[i + 1..];
        if fileLocks[i].file == filename {
          return fileLocks[i].id;
        }
      }
      id := |fileLocks|;
      fileLocks := [FileLock(filename, id)] + fileLocks;
    }

    method CreateUndoBackup(filename: string)
      modifies this`undo
      ensures State() == BackedUp(old(State()), filename)
    {
      undo := undo - {filename};
      if filename in files {
        undo := undo[filename := files[filename]];
      }
    }

    method PerformUndo(filename: string) returns (ok: bool)
      modifies this`files, this`undo
      ensures ok <==> filename in old(undo)
      ensures State() == Reverted(old(State()), filename)
    {
      if filename !in undo {
        return false;
      }
      files := files[filename := undo[filename]];
      undo := undo - {filename};
      return true;
    }

    method GetFileContent(filename: string) returns (content: string)
      ensures content == Content(State(), filename)
    {
      content := if filename in files then files[filename] else "";
    }

    /** The index check of a session that has its sentence lock. */
    method Validate(filename: string, sentNum: int) returns (valid: bool)
      ensures valid <==> 0 <= sentNum <= MaxValidIndex(Content(State(), filename))
    {
      var content := GetFileContent(filename);
      var sentences := SplitIntoSentences(content);
      var maxValid := |sentences|;
      if |sentences| > 0 {
        var last := sentences[|sentences| - 1];
        var idx := |last| - 1;
        assert last[..idx + 1] == last;
        while idx >= 0 && IsSpace(last[idx])
          invariant -1 <= idx < |last|
          invariant LastInk(last[..idx + 1]) == LastInk(last)
        {
          assert last[..idx + 1][..idx] == last[..idx];
          idx := idx - 1;
        }
        if !(idx >= 0 && IsDelimiter(last[idx])) {
          maxValid := |sentences| - 1;
        }
      }
      valid := 0 <= sentNum <= maxValid;
    }

    method ParseLine(line: string) returns (u: Option<Update>)
      ensures u == ParsedLine(line)
    {
      var parts := SplitString(line, ' ');
      if |parts| < 2 {
        return None;
      }
      TwoPartsHaveBlank(line);
      var blank := 0;
      while line[blank] != ' '
        invariant 0 <= blank < |line| && blank <= FirstOf(line, ' ')
        decreases |line| - blank
      {
        FirstOfFacts(line, ' ');
        blank := blank + 1;
      }
      FirstOfFacts(line, ' ');
      u := Some(Update(Atoi(parts[0]), line[blank + 1..]));
    }

    /** The commit phase: what one session does while it holds the file's commit lock. */
    method Commit(filename: string, sentNum: int, startLogId: int, updates: seq<Update>)
      returns (ok: bool, info: FileInfo)
      modifies this`files, this`undo, this`modLog, this`nextLogId
      ensures (State(), ok) == CommitResult(old(State()), filename, sentNum, startLogId, updates)
      ensures ok ==> var after := Content(State(), filename);
                     info == FileInfo(|after|, WordCount.PlainCount(Words(after)), |after|)
    {
      hide ApplyAll, Shift, Words, WordCount.PlainCount;
      info := FileInfo(0, 0, 0);
      CreateUndoBackup(filename);
      var current := GetFileContent(filename);
      var sentsBefore := SplitIntoSentences(current);
      var shift := GetSentenceShift(filename, sentNum, startLogId);
      var realNum := sentNum + shift;
      var updated := ApplyUpdates(current, realNum, updates);
      if updated.None? {
        return false, info;
      }
      files := files[filename := updated.value];
      var sentsAfter := SplitIntoSentences(updated.value);
      var delta := |sentsAfter| - |sentsBefore|;
      if delta != 0 {
        LogModification(filename, realNum, delta);
      }
      var words := WordCount.GetWordCount(updated.value);
      info := FileInfo(|updated.value|, words, |updated.value|);
      ok := true;
    }
  }
}
