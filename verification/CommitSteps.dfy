/** What one thread does when nobody comes in between: a commit, and a whole WRITE session,
    step by step, against the routines run straight through. */
module CommitSteps {
  import opened Text
  import opened FileParser
  import opened EditQueue
  import opened ModificationLog
  import opened StorageState
  import opened WriteProtocol
  import opened Invariants

  // ---------------------------------------------------------------- runs with an end

  /** The events can happen from `st` and lead to `end`. */
  ghost predicate Leads(st: State, evs: seq<Event>, end: State) {
    Run(st, evs) && After(st, evs) == end
  }

  lemma LeadsOn(a: State, x: seq<Event>, b: State, y: seq<Event>, c: State)
    requires Leads(a, x, b) && Leads(b, y, c)
    ensures Leads(a, x + y, c)
  {
    RunConcat(a, x, y);
  }

  lemma OneEvent(st: State, e: Event)
    requires Enabled(st, e)
    ensures Leads(st, [e], Next(st, e))
  {
    assert [e][1..] == [];
  }

  predicate OnlyStepsOf(evs: seq<Event>, t: nat) {
    forall i | 0 <= i < |evs| :: evs[i] == Step(t)
  }

  // ---------------------------------------------------------------- one thread alone

  /** The other threads and the commit locks held while thread `t` moves. */
  datatype Scene = Scene(threads: map<nat, Thread>, held: map<nat, nat>, t: nat)

  function Alone(sc: Scene, th: Thread, sh: Shared): State {
    State(sh, None, sc.held, sc.threads[sc.t := th])
  }

  lemma PlainStep(sc: Scene, th: Thread, sh: Shared)
    requires Plain(th.pc)
    ensures Leads(Alone(sc, th, sh), [Step(sc.t)], Alone(sc, PlainBody(sh, th).1, PlainBody(sh, th).0))
  {
    hide PlainBody, MutexBody;
    var st := Alone(sc, th, sh);
    OneEvent(st, Step(sc.t));
    assert Next(st, Step(sc.t)).threads == sc.threads[sc.t := PlainBody(sh, th).1];
  }

  /** Two steps: into the mutex and, with the body done, out of it. */
  lemma MutexStep(sc: Scene, th: Thread, sh: Shared)
    requires Mutexed(th.pc) && !th.inMutex
    ensures var (after, end) := MutexBody(sh, th.(inMutex := true));
            Leads(Alone(sc, th, sh), [Step(sc.t)] + [Step(sc.t)], Alone(sc, end.(inMutex := false), after))
  {
    hide PlainBody, MutexBody;
    var st, e := Alone(sc, th, sh), Step(sc.t);
    var (after, end) := MutexBody(sh, th.(inMutex := true));
    OneEvent(st, e);
    var mid := Next(st, e);
    assert mid.threads[sc.t] == th.(inMutex := true) && mid.threads == sc.threads[sc.t := th.(inMutex := true)];
    OneEvent(mid, e);
    assert Next(mid, e).threads == sc.threads[sc.t := end.(inMutex := false)];
    LeadsOn(st, [e], mid, [e], Next(mid, e));
  }

  // ---------------------------------------------------------------- the commit

  /** The thread at its update loop, having run alone since the backup. */
  function Ready(sh: Shared, th: Thread): Thread
    requires th.job.Write?
  {
    th.(content := Content(sh, th.file), pc := Apply, shift := Shift(sh.log, th.file, th.job.num, th.startId))
  }

  /** Up to the update loop: the backup is taken, the file read, the shift computed. */
  lemma ToApply(sc: Scene, th: Thread, sh: Shared) returns (evs: seq<Event>)
    requires th.job.Write? && th.pc == Backup && !th.inMutex
    ensures OnlyStepsOf(evs, sc.t)
    ensures Leads(Alone(sc, th, sh), evs, Alone(sc, Ready(sh, th), BackedUp(sh, th.file)))
  {
    hide Leads, Shift, Content;
    var read, backed := th.(content := Content(sh, th.file), pc := ReadShift), BackedUp(sh, th.file);
    PlainStep(sc, th, sh);
    MutexStep(sc, read, backed);
    assert MutexBody(backed, read.(inMutex := true)) == (backed, Ready(sh, th).(inMutex := true));
    assert Ready(sh, th).(inMutex := true).(inMutex := false) == Ready(sh, th);
    hide Alone, BackedUp, Ready;
    evs := [Step(sc.t)] + ([Step(sc.t)] + [Step(sc.t)]);
    LeadsOn(Alone(sc, th, sh), [Step(sc.t)], Alone(sc, read, backed),
            [Step(sc.t)] + [Step(sc.t)], Alone(sc, Ready(sh, th), backed));
  }

  /** The thread is through with its commit. */
  predicate Committed(before: Thread, after: Thread) {
    && after.pc == ReleaseFile && !after.inMutex
    && after.job == before.job && after.file == before.file && after.lockId == before.lockId
  }

  /** The bodies of the last steps, put together, are the commit routine. */
  lemma CommitBodies(sh: Shared, th: Thread)
    requires th.job.Write? && !th.inMutex
    ensures var (written, done) := PlainBody(BackedUp(sh, th.file), Ready(sh, th));
            var result := CommitResult(sh, th.file, th.job.num, th.startId, th.queue);
            && (done.outcome == Saved || done.outcome == Rejected) && (done.outcome == Saved <==> result.1)
            && !done.inMutex
            && (if done.pc == Log then
                  var (logged, end) := MutexBody(written, done.(inMutex := true));
                  && logged == result.0 && end.outcome == done.outcome
                  && Committed(th, end.(inMutex := false))
                else written == result.0 && Committed(th, done))
  {
    hide ApplyAll, Sentences, Shift;
  }

  lemma CommitAlone(sc: Scene, th: Thread, sh: Shared) returns (evs: seq<Event>, done: Thread)
    requires th.job.Write? && th.pc == Backup && !th.inMutex
    ensures OnlyStepsOf(evs, sc.t) && Committed(th, done)
    ensures var result := CommitResult(sh, th.file, th.job.num, th.startId, th.queue);
            && Leads(Alone(sc, th, sh), evs, Alone(sc, done, result.0))
            && (done.outcome == Saved <==> result.1)
  {
    hide Leads, Alone, PlainBody, MutexBody, CommitResult, BackedUp, Content, Committed;
    var start, backed := Alone(sc, th, sh), BackedUp(sh, th.file);
    evs := ToApply(sc, th, sh);
    CommitBodies(sh, th);
    PlainStep(sc, Ready(sh, th), backed);
    var (written, loop) := PlainBody(backed, Ready(sh, th));
    LeadsOn(start, evs, Alone(sc, Ready(sh, th), backed), [Step(sc.t)], Alone(sc, loop, written));
    evs := evs + [Step(sc.t)];
    done := loop;
    if loop.pc == Log {
      MutexStep(sc, loop, written);
      var (logged, end) := MutexBody(written, loop.(inMutex := true));
      done := end.(inMutex := false);
      LeadsOn(start, evs, Alone(sc, loop, written), [Step(sc.t)] + [Step(sc.t)], Alone(sc, done, logged));
      evs := evs + ([Step(sc.t)] + [Step(sc.t)]);
    }
  }

  /** A thread that runs its commit with nobody in between leaves the shared state exactly
      as the commit routine does, and the other threads alone. */
  lemma SoloCommit(st: State, t: nat) returns (evs: seq<Event>)
    requires Inv(st) && st.mutex == None && t in st.threads
    requires st.threads[t].job.Write? && st.threads[t].pc == Backup
    ensures OnlyStepsOf(evs, t) && Run(st, evs)
    ensures var th, end := st.threads[t], After(st, evs);
            && t in end.threads && Committed(th, end.threads[t])
            && end.threads == st.threads[t := end.threads[t]] && end.held == st.held && end.mutex == None
            && (end.shared, end.threads[t].outcome == Saved) ==
               CommitResult(st.shared, th.file, th.job.num, th.startId, th.queue)
  {
    var th, sc := st.threads[t], Scene(st.threads, st.held, t);
    assert !th.inMutex by {
      assert ThreadOk(st, t, th);
    }
    assert st == Alone(sc, th, st.shared) by {
      assert st.threads[t := th] == st.threads;
    }
    hide Inv, Run, After, CommitResult, Committed;
    var done: Thread;
    evs, done := CommitAlone(sc, th, st.shared);
  }
}
