/** Every step of the machine keeps the invariant. */
module Preservation {
  import opened Text
  import opened FileParser
  import opened EditQueue
  import opened ModificationLog
  import opened StorageState
  import opened WriteProtocol
  import opened Invariants

  /** The step left everything thread `u` relies on as it was. */
  ghost predicate Undisturbed(st: State, after: State, u: nat) {
    && u in st.threads && u in after.threads && after.threads[u] == st.threads[u]
    && var th := st.threads[u];
    && (CommitLock(st.shared.fileLocks, th.file).Some? ==>
          CommitLock(after.shared.fileLocks, th.file) == CommitLock(st.shared.fileLocks, th.file))
    && st.shared.nextLogId <= after.shared.nextLogId
    && (HoldsFile(th.pc) ==>
          && (th.lockId in st.held ==> th.lockId in after.held && after.held[th.lockId] == st.held[th.lockId])
          && Content(after.shared, th.file) == Content(st.shared, th.file)
          && (th.job.Write? ==> Shift(after.shared.log, th.file, th.job.num, th.startId)
                                == Shift(st.shared.log, th.file, th.job.num, th.startId)))
  }

  lemma UndisturbedOk(st: State, after: State, u: nat)
    requires Undisturbed(st, after, u) && ThreadOk(st, u, st.threads[u])
    ensures ThreadOk(after, u, st.threads[u])
  {
    hide Shift, Content, ApplyAll, CommitLock;
  }

  /** Only thread `t` changed, and it keeps its job and file. */
  ghost predicate OnlyMoves(st: State, after: State, t: nat) {
    && t in st.threads && t in after.threads
    && after.threads == st.threads[t := after.threads[t]]
    && after.threads[t].job == st.threads[t].job
    && after.threads[t].file == st.threads[t].file
  }

  lemma ThreadsOk(st: State, after: State, t: nat)
    requires forall u | u in st.threads :: ThreadOk(st, u, st.threads[u])
    requires t in after.threads && after.threads == st.threads[t := after.threads[t]]
    requires ThreadOk(after, t, after.threads[t])
    requires forall u | u in st.threads && u != t :: Undisturbed(st, after, u)
    ensures forall u | u in after.threads :: ThreadOk(after, u, after.threads[u])
  {
    hide ThreadOk;
    forall u | u in after.threads ensures ThreadOk(after, u, after.threads[u]) {
      if u != t {
        UndisturbedOk(st, after, u);
      }
    }
  }

  // ---------------------------------------------------------------- the lists of locks

  /** A step that leaves the sentence locks and their holders alone. */
  lemma SentenceLocksUntouched(st: State, after: State, t: nat)
    requires SentenceLocksOk(st) && OnlyMoves(st, after, t)
    requires after.shared.sentenceLocks == st.shared.sentenceLocks
    requires HoldsSentence(after.threads[t]) <==> HoldsSentence(st.threads[t])
    ensures SentenceLocksOk(after)
  {
    assert forall u, l :: Holder(after, u, l) <==> Holder(st, u, l);
  }

  lemma SentenceLockTaken(st: State, after: State, t: nat)
    requires SentenceLocksOk(st) && OnlyMoves(st, after, t)
    requires st.threads[t].job.Write? && !HoldsSentence(st.threads[t]) && HoldsSentence(after.threads[t])
    requires SentenceOf(st.threads[t]) !in st.shared.sentenceLocks
    requires after.shared.sentenceLocks == [SentenceOf(st.threads[t])] + st.shared.sentenceLocks
    ensures SentenceLocksOk(after)
  {
    var mine := SentenceOf(st.threads[t]);
    assert forall u, l :: Holder(after, u, l) <==> Holder(st, u, l) || (u == t && l == mine);
    forall l | l in after.shared.sentenceLocks
      ensures exists u :: Holder(after, u, l)
    {
      if l == mine {
        assert Holder(after, t, l);
      } else {
        assert l in st.shared.sentenceLocks;
        var u :| Holder(st, u, l);
        assert Holder(after, u, l);
      }
    }
  }

  lemma {:induction false} WithoutMembers(locks: seq<SentenceLock>, l: SentenceLock)
    requires forall i, j | 0 <= i < j < |locks| :: locks[i] != locks[j]
    ensures forall m :: m in Without(locks, l) <==> m in locks && m != l
    ensures forall i, j | 0 <= i < j < |Without(locks, l)| :: Without(locks, l)[i] != Without(locks, l)[j]
  {
    if locks == [] {
    } else if locks[0] == l {
      forall m ensures m in locks[1..] <==> m in locks && m != l {
        if m in locks && m != l {
          var i :| 0 <= i < |locks| && locks[i] == m;
          assert locks[1..][i - 1] == m;
        }
      }
    } else {
      WithoutMembers(locks[1..], l);
      var rest := Without(locks[1..], l);
      assert locks[0] !in locks[1..];
      forall m ensures m in [locks[0]] + rest <==> m in locks && m != l {
        assert m in locks <==> m == locks[0] || m in locks[1..];
      }
    }
  }

  /** Unlocking removes the caller's own lock and nothing else. */
  lemma SentenceLockReleased(st: State, after: State, t: nat)
    requires SentenceLocksOk(st) && OnlyMoves(st, after, t)
    requires HoldsSentence(st.threads[t]) && !HoldsSentence(after.threads[t])
    requires after.shared.sentenceLocks == Without(st.shared.sentenceLocks, SentenceOf(st.threads[t]))
    ensures SentenceLocksOk(after)
  {
    var mine := SentenceOf(st.threads[t]);
    WithoutMembers(st.shared.sentenceLocks, mine);
    assert Holder(st, t, mine);
    assert forall u, l :: Holder(after, u, l) <==> Holder(st, u, l) && u != t;
    forall l | l in after.shared.sentenceLocks
      ensures exists u :: Holder(after, u, l)
    {
      var u :| Holder(st, u, l);
      assert Holder(after, u, l);
    }
  }

  // ---------------------------------------------------------------- the steps

  /** A step that leaves files, log and commit locks alone and takes no commit lock away. */
  lemma Quiet(st: State, after: State, t: nat)
    requires OnlyMoves(st, after, t)
    requires after.shared == st.shared.(sentenceLocks := after.shared.sentenceLocks, undo := after.shared.undo)
    requires forall id | id in st.held :: id in after.held && after.held[id] == st.held[id]
    ensures forall u | u in st.threads && u != t :: Undisturbed(st, after, u)
  {
    hide Shift, CommitLock;
  }

  lemma HeldSame(st: State, after: State, t: nat)
    requires HeldOk(st) && OnlyMoves(st, after, t) && after.held == st.held
    requires HoldsFile(after.threads[t].pc) <==> HoldsFile(st.threads[t].pc)
    requires after.threads[t].lockId == st.threads[t].lockId
    ensures HeldOk(after)
  {
  }

  lemma HeldByOthers(st: State, after: State, t: nat)
    requires HeldOk(st) && OnlyMoves(st, after, t) && after.held == st.held && !HoldsFile(st.threads[t].pc)
    ensures HeldOk(after)
  {
  }

  lemma KeepStart(st: State, t: nat, job: Job, file: string)
    requires Inv(st) && Enabled(st, Start(t, job, file))
    ensures Inv(Next(st, Start(t, job, file)))
  {
    hide LogOk, CommitLocksOk, Shift, CommitLock, ApplyAll, Content;
    var after := Next(st, Start(t, job, file));
    assert SentenceLocksOk(after) by {
      assert forall u, l :: Holder(after, u, l) <==> Holder(st, u, l);
    }
    hide SentenceOf, SentenceLocksOk;
    assert forall u | u in st.threads && u != t :: Undisturbed(st, after, u);
    hide Undisturbed;
    ThreadsOk(st, after, t);
  }

  lemma KeepDeliver(st: State, t: nat, message: Message)
    requires Inv(st) && Enabled(st, Deliver(t, message))
    ensures Inv(Next(st, Deliver(t, message)))
  {
    hide LogOk, CommitLocksOk, HeldOk, Shift, CommitLock, ApplyAll, SentenceLocksOk, Undisturbed;
    var after := Next(st, Deliver(t, message));
    var th := st.threads[t];
    assert Inserting(Received(th, message).queue) by {
      if message.Line? && ParsedLine(message.text).Some? {
        ParsedLineInserts(message.text);
      }
    }
    hide Inserting, ParsedLine;
    HeldSame(st, after, t);
    SentenceLocksUntouched(st, after, t);
    Quiet(st, after, t);
    ThreadsOk(st, after, t);
  }

  lemma KeepEnterMutex(st: State, t: nat)
    requires Inv(st) && Enabled(st, Step(t))
    requires Mutexed(st.threads[t].pc) && !st.threads[t].inMutex
    ensures Inv(Next(st, Step(t)))
  {
    hide LogOk, CommitLocksOk, HeldOk, Shift, CommitLock, ApplyAll, SentenceLocksOk, Undisturbed, Inserting;
    var after := Next(st, Step(t));
    HeldSame(st, after, t);
    SentenceLocksUntouched(st, after, t);
    Quiet(st, after, t);
    ThreadsOk(st, after, t);
  }

  /** Common end of the steps that leave the mutex. */
  lemma LeaveMutex(st: State, after: State, t: nat)
    requires Inv(st) && st.mutex == Some(t) && OnlyMoves(st, after, t)
    requires after.mutex == None && !after.threads[t].inMutex && after.held == st.held
    requires after.shared.fileLocks == st.shared.fileLocks
    requires HoldsFile(after.threads[t].pc) <==> HoldsFile(st.threads[t].pc)
    requires after.threads[t].lockId == st.threads[t].lockId
    requires LogOk(after.shared) && SentenceLocksOk(after)
    requires ThreadOk(after, t, after.threads[t])
    requires forall u | u in st.threads && u != t :: Undisturbed(st, after, u)
    ensures Inv(after)
  {
    hide ThreadOk, LogOk, SentenceLocksOk, CommitLocksOk, Undisturbed;
    ThreadsOk(st, after, t);
  }

  lemma KeepGetId(st: State, t: nat)
    requires Inv(st) && Enabled(st, Step(t)) && st.threads[t].inMutex && st.threads[t].pc == GetId
    ensures Inv(Next(st, Step(t)))
  {
    hide LogOk, CommitLocksOk, HeldOk, Shift, CommitLock, ApplyAll, SentenceLocksOk, Undisturbed, Inserting;
    var after := Next(st, Step(t));
    SentenceLocksUntouched(st, after, t);
    Quiet(st, after, t);
    LeaveMutex(st, after, t);
  }

  lemma KeepTryLock(st: State, t: nat)
    requires Inv(st) && Enabled(st, Step(t)) && st.threads[t].inMutex && st.threads[t].pc == TryLock
    ensures Inv(Next(st, Step(t)))
  {
    hide LogOk, CommitLocksOk, HeldOk, Shift, CommitLock, ApplyAll, SentenceLocksOk, Undisturbed, Inserting;
    var after := Next(st, Step(t));
    LogOkSame(st.shared, after.shared);
    if SentenceOf(st.threads[t]) in st.shared.sentenceLocks {
      SentenceLocksUntouched(st, after, t);
    } else {
      SentenceLockTaken(st, after, t);
    }
    Quiet(st, after, t);
    LeaveMutex(st, after, t);
  }

  lemma LogOkSame(a: Shared, b: Shared)
    requires LogOk(a) && b.log == a.log && b.nextLogId == a.nextLogId
    ensures LogOk(b)
  {
  }

  lemma KeepUnlock(st: State, t: nat)
    requires Inv(st) && Enabled(st, Step(t)) && st.threads[t].inMutex && st.threads[t].pc == Unlock
    ensures Inv(Next(st, Step(t)))
  {
    hide LogOk, CommitLocksOk, HeldOk, Shift, CommitLock, ApplyAll, SentenceLocksOk, Undisturbed, Inserting, Without;
    var after := Next(st, Step(t));
    LogOkSame(st.shared, after.shared);
    SentenceLockReleased(st, after, t);
    Quiet(st, after, t);
    LeaveMutex(st, after, t);
  }

  lemma KeepReadShift(st: State, t: nat)
    requires Inv(st) && Enabled(st, Step(t)) && st.threads[t].inMutex && st.threads[t].pc == ReadShift
    ensures Inv(Next(st, Step(t)))
  {
    hide LogOk, CommitLocksOk, HeldOk, Shift, CommitLock, ApplyAll, SentenceLocksOk, Undisturbed, Inserting;
    var after := Next(st, Step(t));
    SentenceLocksUntouched(st, after, t);
    Quiet(st, after, t);
    LeaveMutex(st, after, t);
  }

  lemma KeepResolve(st: State, t: nat)
    requires Inv(st) && Enabled(st, Step(t)) && st.threads[t].inMutex && st.threads[t].pc == Resolve
    ensures Inv(Next(st, Step(t)))
  {
    hide LogOk, CommitLocksOk, HeldOk, Shift, CommitLock, WithCommitLock, ApplyAll, SentenceLocksOk, Inserting;
    var after := Next(st, Step(t));
    LogOkSame(st.shared, after.shared);
    HeldByOthers(st, after, t);
    WithCommitLockKeeps(st.shared.fileLocks, st.threads[t].file);
    SentenceLocksUntouched(st, after, t);
    assert forall u | u in st.threads && u != t :: Undisturbed(st, after, u);
    hide Undisturbed;
    ThreadsOk(st, after, t);
  }

  /** An entry logged for one file shifts no sentence of another. */
  lemma LogUndisturbed(st: State, after: State, t: nat)
    requires Inv(st) && OnlyMoves(st, after, t) && HoldsFile(st.threads[t].pc) && after.held == st.held
    requires exists index: int, delta: int ::
               after.shared == Logged(st.shared, st.threads[t].file, index, delta)
    ensures forall u | u in st.threads && u != t :: Undisturbed(st, after, u)
  {
    hide CommitLock;
    var file := st.threads[t].file;
    var index: int, delta: int :| after.shared == Logged(st.shared, file, index, delta);
    forall u | u in st.threads && u != t ensures Undisturbed(st, after, u) {
      var other := st.threads[u];
      if HoldsFile(other.pc) && other.job.Write? {
        CommitLockTellsFile(st, t, u);
        ShiftSnoc(st.shared.log, LogEntry(st.shared.nextLogId, file, index, delta),
                  other.file, other.job.num, other.startId);
      }
    }
  }

  lemma KeepLog(st: State, t: nat)
    requires Inv(st) && Enabled(st, Step(t)) && st.threads[t].inMutex && st.threads[t].pc == Log
    ensures Inv(Next(st, Step(t)))
  {
    hide CommitLocksOk, HeldOk, Shift, CommitLock, ApplyAll, SentenceLocksOk, Undisturbed, Inserting;
    var after := Next(st, Step(t));
    assert after.shared == Logged(st.shared, st.threads[t].file, Target(st.threads[t]), st.threads[t].delta);
    LogUndisturbed(st, after, t);
    SentenceLocksUntouched(st, after, t);
    LeaveMutex(st, after, t);
  }

  /** Common end of the steps outside the mutex. */
  lemma Outside(st: State, after: State, t: nat)
    requires Inv(st) && OnlyMoves(st, after, t)
    requires after.mutex == st.mutex && !st.threads[t].inMutex && !after.threads[t].inMutex
    requires after.shared.fileLocks == st.shared.fileLocks && LogOk(after.shared)
    requires HeldOk(after) && SentenceLocksOk(after) && ThreadOk(after, t, after.threads[t])
    requires forall u | u in st.threads && u != t :: Undisturbed(st, after, u)
    ensures Inv(after)
  {
    hide ThreadOk, LogOk, SentenceLocksOk, CommitLocksOk, HeldOk, Undisturbed;
    ThreadsOk(st, after, t);
  }

  lemma KeepAcquireFile(st: State, t: nat)
    requires Inv(st) && Enabled(st, Step(t)) && st.threads[t].pc == AcquireFile
    ensures Inv(Next(st, Step(t)))
  {
    hide LogOk, CommitLocksOk, Shift, CommitLock, ApplyAll, SentenceLocksOk, Undisturbed, Inserting;
    var after := Next(st, Step(t));
    SentenceLocksUntouched(st, after, t);
    Quiet(st, after, t);
    Outside(st, after, t);
  }

  /** Only the releasing thread loses its commit lock. */
  lemma ReleaseUndisturbed(st: State, after: State, t: nat)
    requires Inv(st) && OnlyMoves(st, after, t) && HoldsFile(st.threads[t].pc)
    requires after.shared == st.shared && after.held == st.held - {st.threads[t].lockId}
    ensures forall u | u in st.threads && u != t :: Undisturbed(st, after, u)
  {
    hide CommitLock, Shift, ApplyAll;
    forall u | u in st.threads && u != t ensures Undisturbed(st, after, u) {
      if HoldsFile(st.threads[u].pc) {
        CommitLockTellsFile(st, t, u);
      }
    }
  }

  lemma KeepReleaseFile(st: State, t: nat)
    requires Inv(st) && Enabled(st, Step(t)) && st.threads[t].pc == ReleaseFile
    ensures Inv(Next(st, Step(t)))
  {
    hide LogOk, CommitLocksOk, Shift, CommitLock, ApplyAll, SentenceLocksOk, Undisturbed, Inserting;
    var after := Next(st, Step(t));
    SentenceLocksUntouched(st, after, t);
    ReleaseUndisturbed(st, after, t);
    Outside(st, after, t);
  }

  /** Steps under the file's commit lock touch no other locked file. */
  lemma FileUndisturbed(st: State, after: State, t: nat)
    requires Inv(st) && OnlyMoves(st, after, t) && HoldsFile(st.threads[t].pc) && after.held == st.held
    requires after.shared == st.shared.(files := after.shared.files, undo := after.shared.undo)
    requires forall g | g != st.threads[t].file :: Content(after.shared, g) == Content(st.shared, g)
    ensures forall u | u in st.threads && u != t :: Undisturbed(st, after, u)
  {
    hide CommitLock, Shift, ApplyAll, Content;
    forall u | u in st.threads && u != t ensures Undisturbed(st, after, u) {
      if HoldsFile(st.threads[u].pc) {
        CommitLockTellsFile(st, t, u);
      }
    }
  }

  lemma KeepValidate(st: State, t: nat)
    requires Inv(st) && Enabled(st, Step(t)) && st.threads[t].pc == Validate
    ensures Inv(Next(st, Step(t)))
  {
    hide LogOk, CommitLocksOk, HeldOk, Shift, CommitLock, ApplyAll, SentenceLocksOk, Undisturbed, Inserting,
         MaxValidIndex;
    var after := Next(st, Step(t));
    HeldSame(st, after, t);
    SentenceLocksUntouched(st, after, t);
    Quiet(st, after, t);
    Outside(st, after, t);
  }

  lemma KeepBackup(st: State, t: nat)
    requires Inv(st) && Enabled(st, Step(t)) && st.threads[t].pc == Backup
    ensures Inv(Next(st, Step(t)))
  {
    hide LogOk, CommitLocksOk, HeldOk, Shift, CommitLock, ApplyAll, SentenceLocksOk, Undisturbed, Inserting;
    var after := Next(st, Step(t));
    HeldSame(st, after, t);
    LogOkSame(st.shared, after.shared);
    SentenceLocksUntouched(st, after, t);
    FileUndisturbed(st, after, t);
    Outside(st, after, t);
  }

  /** The update loop leaves the thread knowing what it wrote. */
  lemma ApplyBodyOk(sh: Shared, th: Thread)
    requires th.pc == Apply && th.job.Write? && !th.inMutex && th.content == Content(sh, th.file) && Inserting(th.queue)
    ensures var (sh', th') := PlainBody(sh, th);
            && PcOk(th') && CommitOk(sh', th') && (th'.pc == Log || th'.pc == ReleaseFile)
            && th' == th.(pc := th'.pc, delta := th'.delta, outcome := th'.outcome)
            && sh' == sh.(files := sh'.files)
  {
    hide Shift, ApplyAll, Sentences, Inserting;
    if ApplyAll(th.content, Target(th), th.queue).Some? {
      QueueCountKept(th.content, Target(th), th.queue);
    }
  }

  lemma ApplyThreadOk(st: State, t: nat)
    requires Inv(st) && Enabled(st, Step(t)) && st.threads[t].pc == Apply
    ensures var after := Next(st, Step(t));
            && OnlyMoves(st, after, t) && ThreadOk(after, t, after.threads[t])
            && HoldsFile(after.threads[t].pc) && HoldsSentence(after.threads[t])
  {
    hide Inv, PlainBody, MutexBody, CommitLock, ApplyAll, Inserting, PcOk, CommitOk, Content;
    ThreadKnows(st, t);
    ApplyBodyOk(st.shared, st.threads[t]);
  }

  lemma KeepApply(st: State, t: nat)
    requires Inv(st) && Enabled(st, Step(t)) && st.threads[t].pc == Apply
    ensures Inv(Next(st, Step(t)))
  {
    hide LogOk, CommitLocksOk, HeldOk, Shift, CommitLock, SentenceLocksOk, Undisturbed, ApplyAll, Sentences, Inserting;
    var after := Next(st, Step(t));
    ApplyThreadOk(st, t);
    assert PcOk(st.threads[t]) && PcOk(after.threads[t]);
    hide ThreadOk;
    LogOkSame(st.shared, after.shared);
    HeldSame(st, after, t);
    SentenceLocksUntouched(st, after, t);
    FileUndisturbed(st, after, t);
    Outside(st, after, t);
  }

  lemma KeepUndo(st: State, t: nat)
    requires Inv(st) && Enabled(st, Step(t)) && st.threads[t].pc == PerformUndo
    ensures Inv(Next(st, Step(t)))
  {
    hide LogOk, CommitLocksOk, HeldOk, Shift, CommitLock, ApplyAll, SentenceLocksOk, Undisturbed, Inserting;
    var after := Next(st, Step(t));
    HeldSame(st, after, t);
    LogOkSame(st.shared, after.shared);
    SentenceLocksUntouched(st, after, t);
    FileUndisturbed(st, after, t);
    Outside(st, after, t);
  }

  lemma StepKeepsInv(st: State, e: Event)
    requires Inv(st) && Enabled(st, e)
    ensures Inv(Next(st, e))
  {
    hide Next, ThreadOk, SentenceLocksOk, LogOk, MutexOk, HeldOk, CommitLocksOk;
    match e
    case Start(t, job, file) => KeepStart(st, t, job, file);
    case Deliver(t, message) => KeepDeliver(st, t, message);
    case Step(t) =>
      var th := st.threads[t];
      if Mutexed(th.pc) && !th.inMutex {
        KeepEnterMutex(st, t);
      } else {
        match th.pc
        case GetId => KeepGetId(st, t);
        case TryLock => KeepTryLock(st, t);
        case Validate => KeepValidate(st, t);
        case Resolve => KeepResolve(st, t);
        case AcquireFile => KeepAcquireFile(st, t);
        case Backup => KeepBackup(st, t);
        case ReadShift => KeepReadShift(st, t);
        case Apply => KeepApply(st, t);
        case Log => KeepLog(st, t);
        case PerformUndo => KeepUndo(st, t);
        case ReleaseFile => KeepReleaseFile(st, t);
        case Unlock => KeepUnlock(st, t);
        case _ =>
      }
  }

  /** Every state reached from a freshly started server satisfies the invariant. */
  lemma {:induction false} RunKeepsInv(st: State, evs: seq<Event>)
    requires Inv(st) && Run(st, evs)
    ensures Inv(After(st, evs))
    decreases |evs|
  {
    if evs != [] {
      StepKeepsInv(st, evs[0]);
      RunKeepsInv(Next(st, evs[0]), evs[1..]);
    }
  }

  lemma ReachableInv(st: State, evs: seq<Event>)
    requires Initial(st) && Run(st, evs)
    ensures Inv(After(st, evs))
  {
    RunKeepsInv(st, evs);
  }
}
