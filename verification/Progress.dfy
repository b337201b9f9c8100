/** No deadlock: whatever the schedule, the server comes to rest, and at rest nobody waits
    for a lock. */
module Progress {
  import opened Text
  import opened FileParser
  import opened EditQueue
  import opened StorageState
  import opened WriteProtocol
  import opened Invariants
  import opened Preservation

  /** The thread is through, or waits for its own client. */
  predicate AtRest(th: Thread) {
    th.pc == Finished || th.pc == Receive
  }

  /** As long as some thread is not at rest, some thread can step. */
  lemma DeadlockFree(st: State, t: nat)
    requires Inv(st) && t in st.threads && !AtRest(st.threads[t])
    ensures exists u :: Enabled(st, Step(u))
  {
    hide SentenceLocksOk, LogOk, CommitLocksOk, CommitOk;
    var th := st.threads[t];
    if st.mutex.Some? {
      assert Enabled(st, Step(st.mutex.value));
    } else if th.pc == AcquireFile && th.lockId in st.held {
      assert Enabled(st, Step(st.held[th.lockId]));
    } else {
      assert Enabled(st, Step(t));
    }
  }

  /** Steps a thread has left at most. */
  function Left(th: Thread): nat {
    var n := match th.pc
      case GetId => 22 case TryLock => 20 case Validate => 18 case Receive => 17 case Resolve => 16
      case AcquireFile => 14 case Backup => 13 case ReadShift => 12 case Apply => 10 case Log => 8
      case PerformUndo => 8 case ReleaseFile => 6 case Unlock => 4 case Finished => 0;
    if th.inMutex && n > 0 then n - 1 else n
  }

  ghost function TotalLeft(threads: map<nat, Thread>): nat
    decreases |threads|
  {
    if threads == map[] then 0
    else
      var t :| t in threads;
      Left(threads[t]) + TotalLeft(threads - {t})
  }

  lemma {:induction false} TotalLeftAt(threads: map<nat, Thread>, t: nat)
    requires t in threads
    ensures TotalLeft(threads) == Left(threads[t]) + TotalLeft(threads - {t})
    decreases |threads|
  {
    var u :| u in threads && TotalLeft(threads) == Left(threads[u]) + TotalLeft(threads - {u});
    if u != t {
      TotalLeftAt(threads - {u}, t);
      TotalLeftAt(threads - {t}, u);
      assert threads - {u} - {t} == threads - {t} - {u};
    }
  }

  lemma StepUsesUp(st: State, t: nat)
    requires Inv(st) && Enabled(st, Step(t))
    ensures TotalLeft(Next(st, Step(t)).threads) < TotalLeft(st.threads)
  {
    hide Inv, Left, Next;
    var after := Next(st, Step(t)).threads;
    LeftDrops(st, t);
    TotalLeftAt(st.threads, t);
    TotalLeftAt(after, t);
    assert after - {t} == st.threads - {t};
  }

  lemma LeftAfterMutex(sh: Shared, th: Thread)
    requires PcOk(th) && th.inMutex
    ensures Left(MutexBody(sh, th).1.(inMutex := false)) < Left(th)
  {
  }

  lemma LeftAfterPlain(sh: Shared, th: Thread)
    requires PcOk(th) && Plain(th.pc)
    ensures Left(PlainBody(sh, th).1) < Left(th)
  {
    hide ApplyAll, Sentences, MaxValidIndex;
  }

  lemma LeftAfterLocks(th: Thread)
    requires PcOk(th)
    ensures Mutexed(th.pc) && !th.inMutex ==> Left(th.(inMutex := true)) < Left(th)
    ensures th.pc == AcquireFile ==> Left(th.(pc := if th.job.Write? then Backup else PerformUndo)) < Left(th)
    ensures th.pc == ReleaseFile ==> Left(th.(pc := if th.job.Write? then Unlock else Finished)) < Left(th)
  {
  }

  lemma LeftDrops(st: State, t: nat)
    requires Inv(st) && Enabled(st, Step(t))
    ensures var after := Next(st, Step(t)).threads;
            t in after && after == st.threads[t := after[t]] && Left(after[t]) < Left(st.threads[t])
  {
    var th := st.threads[t];
    assert PcOk(th) by {
      assert ThreadOk(st, t, th);
    }
    hide Inv, MutexBody, PlainBody, Left, Inserting;
    LeftAfterLocks(th);
    if th.inMutex {
      LeftAfterMutex(st.shared, th);
    } else if Plain(th.pc) {
      LeftAfterPlain(st.shared, th);
    }
  }

  predicate OnlySteps(evs: seq<Event>) {
    forall i | 0 <= i < |evs| :: evs[i].Step?
  }

  /** Without new requests and client lines a schedule has bounded length. */
  lemma {:induction false} SchedulesEnd(st: State, evs: seq<Event>)
    requires Inv(st) && Run(st, evs) && OnlySteps(evs)
    ensures |evs| + TotalLeft(After(st, evs).threads) <= TotalLeft(st.threads)
    decreases |evs|
  {
    if evs != [] {
      StepUsesUp(st, evs[0].t);
      StepKeepsInv(st, evs[0]);
      SchedulesEnd(Next(st, evs[0]), evs[1..]);
    }
  }

  /** A schedule that cannot go on has brought every thread to rest; the only sentence
      locks left belong to sessions waiting for their clients. */
  lemma RestAtEnd(st: State, evs: seq<Event>)
    requires Inv(st) && Run(st, evs)
    requires forall u :: !Enabled(After(st, evs), Step(u))
    ensures var end := After(st, evs);
            && (forall t | t in end.threads :: AtRest(end.threads[t]))
            && end.mutex == None && end.held == map[]
            && forall l | l in end.shared.sentenceLocks ::
                 exists t :: Holder(end, t, l) && end.threads[t].pc == Receive
  {
    RunKeepsInv(st, evs);
    var end := After(st, evs);
    HoldersNotAtRest(end);
    forall t | t in end.threads ensures AtRest(end.threads[t]) {
      if !AtRest(end.threads[t]) {
        DeadlockFree(end, t);
      }
    }
    hide LogOk, CommitLocksOk, CommitOk;
    forall l | l in end.shared.sentenceLocks
      ensures exists t :: Holder(end, t, l) && end.threads[t].pc == Receive
    {
      var t :| Holder(end, t, l);
      assert AtRest(end.threads[t]);
    }
    assert forall id :: id !in end.held;
  }

  lemma HoldersNotAtRest(st: State)
    requires Inv(st)
    ensures forall id | id in st.held :: st.held[id] in st.threads && !AtRest(st.threads[st.held[id]])
    ensures st.mutex.Some? ==> st.mutex.value in st.threads && !AtRest(st.threads[st.mutex.value])
  {
    hide SentenceLocksOk, LogOk, CommitLocksOk, CommitOk, LocksResolved;
    if st.mutex.Some? {
      assert ThreadOk(st, st.mutex.value, st.threads[st.mutex.value]);
    }
  }
}
