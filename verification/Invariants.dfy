/** What every reachable state of the machine keeps. */
module Invariants {
  import opened Text
  import opened FileParser
  import opened EditQueue
  import opened ModificationLog
  import opened StorageState
  import opened WriteProtocol

  // ---------------------------------------------------------------- the parts

  ghost predicate LogOk(sh: Shared) {
    && sh.nextLogId == |sh.log|
    && (forall i | 0 <= i < |sh.log| :: sh.log[i].id == i)
    && Growing(sh.log)
  }

  /** Commit locks are numbered in the order of creation, newest first in the list. */
  ghost predicate CommitLocksOk(locks: seq<FileLock>) {
    forall i | 0 <= i < |locks| :: locks[i].id == |locks| - 1 - i
  }

  ghost predicate MutexOk(st: State) {
    && (st.mutex.Some? ==> st.mutex.value in st.threads && st.threads[st.mutex.value].inMutex)
    && (forall t | t in st.threads && st.threads[t].inMutex :: st.mutex == Some(t))
  }

  ghost predicate HeldOk(st: State) {
    forall id | id in st.held ::
      && st.held[id] in st.threads
      && HoldsFile(st.threads[st.held[id]].pc)
      && st.threads[st.held[id]].lockId == id
  }

  ghost predicate Holder(st: State, t: nat, l: SentenceLock) {
    t in st.threads && HoldsSentence(st.threads[t]) && SentenceOf(st.threads[t]) == l
  }

  /** The sentence-lock list has no duplicates and matches the sessions between lock and
      unlock one to one. */
  ghost predicate SentenceLocksOk(st: State) {
    && (forall i, j | 0 <= i < j < |st.shared.sentenceLocks| ::
          st.shared.sentenceLocks[i] != st.shared.sentenceLocks[j])
    && (forall l | l in st.shared.sentenceLocks :: exists t :: Holder(st, t, l))
    && (forall t, l | Holder(st, t, l) :: l in st.shared.sentenceLocks)
    && (forall t, u, l | Holder(st, t, l) && Holder(st, u, l) :: t == u)
  }

  ghost predicate PcOk(th: Thread) {
    && (th.job.Write? ==> th.pc != PerformUndo)
    && (th.job.Undo? ==>
          th.pc.Resolve? || th.pc.AcquireFile? || th.pc.PerformUndo? || th.pc.ReleaseFile? || th.pc.Finished?)
    && (th.inMutex ==> Mutexed(th.pc))
    && Inserting(th.queue)
  }

  /** What a thread with the file's commit lock knows of the file and the log. */
  ghost predicate CommitOk(sh: Shared, th: Thread) {
    && (th.pc.ReadShift? || th.pc.Apply? ==> th.content == Content(sh, th.file))
    && (th.pc == Apply && th.job.Write? ==> th.shift == Shift(sh.log, th.file, th.job.num, th.startId))
    && (th.job.Write? && (th.pc.Log? || th.pc.ReleaseFile?) ==>
          if th.outcome == Saved then
            && ApplyAll(th.content, Target(th), th.queue) == Some(Content(sh, th.file))
            && th.delta == |Sentences(Content(sh, th.file))| - |Sentences(th.content)|
          else Content(sh, th.file) == th.content)
    && (th.pc == Log ==> th.outcome == Saved && th.delta > 0)
  }

  ghost predicate LocksResolved(st: State, t: nat, th: Thread) {
    && (th.pc == AcquireFile || HoldsFile(th.pc) ==> CommitLock(st.shared.fileLocks, th.file) == Some(th.lockId))
    && (HoldsFile(th.pc) ==> th.lockId in st.held && st.held[th.lockId] == t)
    && (th.job.Write? && th.pc != GetId ==> th.startId <= st.shared.nextLogId)
  }

  ghost predicate ThreadOk(st: State, t: nat, th: Thread) {
    PcOk(th) && LocksResolved(st, t, th) && CommitOk(st.shared, th)
  }

  ghost predicate Inv(st: State) {
    && LogOk(st.shared)
    && CommitLocksOk(st.shared.fileLocks)
    && MutexOk(st)
    && HeldOk(st)
    && SentenceLocksOk(st)
    && (forall t | t in st.threads :: ThreadOk(st, t, st.threads[t]))
  }

  // ---------------------------------------------------------------- commit locks

  /** A commit lock's identity tells its file. */
  lemma {:induction false} CommitLockAt(locks: seq<FileLock>, file: string)
    requires CommitLocksOk(locks) && CommitLock(locks, file).Some?
    ensures var id := CommitLock(locks, file).value;
            id < |locks| && locks[|locks| - 1 - id].file == file
  {
    if locks[0].file != file {
      assert CommitLocksOk(locks[1..]);
      CommitLockAt(locks[1..], file);
    }
  }

  lemma {:induction false} WithCommitLockKeeps(locks: seq<FileLock>, file: string)
    requires CommitLocksOk(locks)
    ensures CommitLocksOk(WithCommitLock(locks, file))
    ensures CommitLock(WithCommitLock(locks, file), file).Some?
    ensures forall g | CommitLock(locks, g).Some? ::
              CommitLock(WithCommitLock(locks, file), g) == CommitLock(locks, g)
  {
    if CommitLock(locks, file).None? {
      var more := [FileLock(file, |locks|)] + locks;
      assert more[1..] == locks;
      forall g | CommitLock(locks, g).Some?
        ensures CommitLock(more, g) == CommitLock(locks, g)
      {
      }
    }
  }

  /** At most one commit or undo runs per file. */
  lemma CommitExclusion(st: State, t: nat, u: nat)
    requires Inv(st) && t in st.threads && u in st.threads
    requires HoldsFile(st.threads[t].pc) && HoldsFile(st.threads[u].pc)
    requires st.threads[t].file == st.threads[u].file
    ensures t == u
  {
  }

  lemma CommitLockTellsFile(st: State, t: nat, u: nat)
    requires Inv(st) && t in st.threads && u in st.threads
    requires HoldsFile(st.threads[t].pc) && HoldsFile(st.threads[u].pc) && t != u
    ensures st.threads[t].file != st.threads[u].file
    ensures st.threads[t].lockId != st.threads[u].lockId
  {
  }

  /** What a thread can rely on at its next step. */
  lemma ThreadKnows(st: State, t: nat)
    requires Inv(st) && t in st.threads
    ensures var th := st.threads[t];
            && PcOk(th) && LocksResolved(st, t, th) && Inserting(th.queue)
            && (th.pc == Apply ==> th.job.Write? && !th.inMutex && th.content == Content(st.shared, th.file))
            && (th.pc == Backup || th.pc == Log || th.pc == Validate ==> th.job.Write?)
            && (th.pc == Log ==> th.delta > 0)
  {
    assert ThreadOk(st, t, st.threads[t]);
    hide ApplyAll, Sentences, Shift, Inserting, CommitLock, Content;
  }
}
