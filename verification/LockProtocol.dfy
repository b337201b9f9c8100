/** The two kinds of locks over whole runs, and what a session's own steps guarantee. */
module LockProtocol {
  import opened Text
  import opened FileParser
  import opened EditFacts
  import opened EditQueue
  import opened StorageState
  import opened WriteProtocol
  import opened Invariants
  import opened Preservation

  /** In every reachable state the sentence-lock list is duplicate-free and in one-to-one
      correspondence with the sessions between lock and unlock; a finished thread has none. */
  lemma SentenceLocksMatchSessions(st: State, evs: seq<Event>)
    requires Initial(st) && Run(st, evs)
    ensures SentenceLocksOk(After(st, evs))
    ensures forall t, l | t in After(st, evs).threads && After(st, evs).threads[t].pc == Finished ::
              !Holder(After(st, evs), t, l)
  {
    ReachableInv(st, evs);
    hide After, SentenceLocksOk;
  }

  /** Unlocking gives back the caller's lock and no other. */
  lemma UnlockGivesBackOwn(st: State, t: nat)
    requires Inv(st) && Enabled(st, Step(t)) && st.threads[t].pc == Unlock && st.threads[t].inMutex
    ensures st.threads[t].job.Write?
    ensures forall l :: l in Next(st, Step(t)).shared.sentenceLocks <==>
                        l in st.shared.sentenceLocks && l != SentenceOf(st.threads[t])
    ensures Next(st, Step(t)).threads[t].pc == Finished
  {
    assert PcOk(st.threads[t]) by {
      assert ThreadOk(st, t, st.threads[t]);
    }
    WithoutMembers(st.shared.sentenceLocks, SentenceOf(st.threads[t]));
    hide Inv, Without;
  }

  /** Once a file name has a commit lock it always resolves to that one. */
  lemma {:induction false} CommitLockStays(st: State, evs: seq<Event>, file: string)
    requires Inv(st) && Run(st, evs) && CommitLock(st.shared.fileLocks, file).Some?
    ensures CommitLock(After(st, evs).shared.fileLocks, file) == CommitLock(st.shared.fileLocks, file)
    decreases |evs|
  {
    if evs != [] {
      CommitLockStep(st, evs[0], file);
      StepKeepsInv(st, evs[0]);
      hide Inv, Next;
      CommitLockStays(Next(st, evs[0]), evs[1..], file);
    }
  }

  /** Only the look-up touches the list of commit locks. */
  lemma BodiesCommitLocks(sh: Shared, th: Thread)
    ensures Mutexed(th.pc) ==> var locks := MutexBody(sh, th).0.fileLocks;
              locks == sh.fileLocks || locks == WithCommitLock(sh.fileLocks, th.file)
    ensures Plain(th.pc) ==> PlainBody(sh, th).0.fileLocks == sh.fileLocks
  {
    hide ApplyAll, Sentences, MaxValidIndex, WithCommitLock;
  }

  lemma CommitLockStep(st: State, e: Event, file: string)
    requires Inv(st) && Enabled(st, e) && CommitLock(st.shared.fileLocks, file).Some?
    ensures CommitLock(Next(st, e).shared.fileLocks, file) == CommitLock(st.shared.fileLocks, file)
  {
    assert CommitLocksOk(st.shared.fileLocks);
    hide Inv, CommitLock, WithCommitLock, CommitLocksOk, MutexBody, PlainBody;
    if e.Step? {
      BodiesCommitLocks(st.shared, st.threads[e.t]);
      WithCommitLockKeeps(st.shared.fileLocks, st.threads[e.t].file);
    }
  }

  /** In every reachable state at most one commit or undo is under way on a file. */
  lemma OneCommitPerFile(st: State, evs: seq<Event>, t: nat, u: nat)
    requires Initial(st) && Run(st, evs)
    requires var end := After(st, evs);
             && t in end.threads && u in end.threads
             && HoldsFile(end.threads[t].pc) && HoldsFile(end.threads[u].pc)
             && end.threads[t].file == end.threads[u].file
    ensures t == u
  {
    ReachableInv(st, evs);
    CommitExclusion(After(st, evs), t, u);
  }

  /** The index check lets a session go on exactly when an edit there leaves all earlier
      sentences alone; a refused session goes straight to giving its lock back. */
  lemma ValidationGuards(st: State, t: nat)
    requires Inv(st) && Enabled(st, Step(t)) && st.threads[t].pc == Validate
    ensures var th, after := st.threads[t], Next(st, Step(t));
            && th.job.Write?
            && after.threads[t].pc == (if Editable(Content(st.shared, th.file), th.job.num) then Receive else Unlock)
            && after.shared == st.shared
  {
    assert PcOk(st.threads[t]) by {
      assert ThreadOk(st, t, st.threads[t]);
    }
    hide Inv, MaxValidIndex, Editable;
    if st.threads[t].job.Write? {
      ValidationIsEditable(Content(st.shared, st.threads[t].file), st.threads[t].job.num);
    }
  }

  /** The update an event sends to thread `t`, if any. */
  function SentBy(e: Event, t: nat): seq<Update> {
    if e.Deliver? && e.t == t && e.message.Line? && e.message.text != "ETIRW" then
      match ParsedLine(e.message.text) case None => [] case Some(u) => [u]
    else []
  }

  /** The updates a session was sent during a run, in order. */
  function Sent(evs: seq<Event>, t: nat): seq<Update>
    decreases |evs|
  {
    if evs == [] then [] else SentBy(evs[0], t) + Sent(evs[1..], t)
  }

  /** A session's queue is what it was sent: nothing lost, nothing of another session's, in
      the order of arrival. */
  lemma {:induction false} QueueIsWhatWasSent(st: State, evs: seq<Event>, t: nat)
    requires Run(st, evs) && t in st.threads
    ensures t in After(st, evs).threads
    ensures After(st, evs).threads[t].queue == st.threads[t].queue + Sent(evs, t)
    decreases |evs|
  {
    if evs != [] {
      QueueStep(st, evs[0], t);
      hide Next, SentBy, Enabled;
      QueueIsWhatWasSent(Next(st, evs[0]), evs[1..], t);
      Regroup(st.threads[t].queue, SentBy(evs[0], t), Sent(evs[1..], t));
    }
  }

  lemma QueueStep(st: State, e: Event, t: nat)
    requires Enabled(st, e) && t in st.threads
    ensures t in Next(st, e).threads
    ensures Next(st, e).threads[t].queue == st.threads[t].queue + SentBy(e, t)
  {
    if e.Step? {
      BodiesKeepQueue(st.shared, st.threads[e.t]);
    }
    hide MutexBody, PlainBody, ParsedLine;
  }

  lemma BodiesKeepQueue(sh: Shared, th: Thread)
    ensures Mutexed(th.pc) ==> MutexBody(sh, th).1.queue == th.queue
    ensures Plain(th.pc) ==> PlainBody(sh, th).1.queue == th.queue
  {
    hide ApplyAll, Sentences, MaxValidIndex;
  }

  /** A client that disconnects has its session committed like one that says ETIRW: whatever
      can follow the one can follow the other, and leads to the same state. */
  lemma HangUpCommits(st: State, t: nat, evs: seq<Event>)
    requires Enabled(st, Deliver(t, HangUp))
    ensures var dropped, ended := [Deliver(t, HangUp)] + evs, [Deliver(t, Line("ETIRW"))] + evs;
            && (Run(st, dropped) <==> Run(st, ended))
            && (Run(st, dropped) ==> After(st, dropped) == After(st, ended))
  {
    var dropped, ended := [Deliver(t, HangUp)] + evs, [Deliver(t, Line("ETIRW"))] + evs;
    assert dropped[1..] == evs && ended[1..] == evs;
    assert Next(st, dropped[0]) == Next(st, ended[0]);
  }
}
