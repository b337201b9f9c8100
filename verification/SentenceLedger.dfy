/** The log accounts for every sentence a file has gained. */
module SentenceLedger {
  import opened FileParser
  import opened EditQueue
  import opened ModificationLog
  import opened StorageState
  import opened WriteProtocol
  import opened Invariants
  import opened Preservation
  import opened FileEffects
  import opened NoLostUpdates

  /** Thread `u` has written the file but not yet logged the change. */
  ghost predicate Pending(st: State, u: nat, file: string) {
    u in st.threads && st.threads[u].file == file && st.threads[u].pc == Log
  }

  /** The sentences a saving step adds. */
  function Growth(st: State, e: Event): int
    requires e.Step? && e.t in st.threads && st.threads[e.t].job.Write? && NewContent(st, e).Some?
  {
    |Sentences(NewContent(st, e).value)| - |Sentences(Content(st.shared, st.threads[e.t].file))|
  }

  /** Only a write that changes the number of sentences leads to the log. */
  lemma BodiesReachLog(sh: Shared, th: Thread)
    ensures Mutexed(th.pc) ==> MutexBody(sh, th).1.pc != Log
    ensures th.pc == PerformUndo ==> PlainBody(sh, th).1.pc != Log
    ensures Plain(th.pc) && th.job.Write? ==>
              var after, r := PlainBody(sh, th).1, ApplyAll(th.content, Target(th), th.queue);
              && (after.pc == Log <==>
                    th.pc == Apply && r.Some? && |Sentences(r.value)| != |Sentences(th.content)|)
              && (after.pc == Log ==>
                    && after.job == th.job && after.shift == th.shift
                    && after.delta == |Sentences(r.value)| - |Sentences(th.content)|)
  {
    hide ApplyAll, Sentences, MaxValidIndex, Shift;
  }

  /** A thread that does not move keeps its change pending, or not. */
  lemma PendingOther(st: State, e: Event, u: nat, file: string)
    requires Enabled(st, e) && !(e.Step? && u == e.t)
    ensures Pending(Next(st, e), u, file) <==> Pending(st, u, file)
    ensures Pending(st, u, file) ==> Next(st, e).threads[u] == st.threads[u]
  {
    hide MutexBody, PlainBody;
  }

  lemma PendingSelf(st: State, t: nat, file: string)
    requires Inv(st) && Enabled(st, Step(t))
    ensures Pending(Next(st, Step(t)), t, file) <==>
            || (Pending(st, t, file) && !Logs(st, Step(t), file))
            || (Saves(st, Step(t), file) && Growth(st, Step(t)) != 0)
    ensures Pending(Next(st, Step(t)), t, file) ==>
              var th := Next(st, Step(t)).threads[t];
              && th.job == st.threads[t].job && th.shift == st.threads[t].shift
              && th.delta == if Saves(st, Step(t), file) then Growth(st, Step(t)) else st.threads[t].delta
  {
    hide Inv, ApplyAll, Sentences, MutexBody, PlainBody, Content, Inserting;
    ThreadKnows(st, t);
    BodiesReachLog(st.shared, st.threads[t]);
    BodiesKeep(st.shared, st.threads[t]);
  }

  /** Writing makes a change pending, unless the count stayed; logging settles it. */
  lemma PendingStep(st: State, e: Event, u: nat, file: string)
    requires Inv(st) && Enabled(st, e)
    ensures Pending(Next(st, e), u, file) <==>
            || (Pending(st, u, file) && !(e.Step? && u == e.t && Logs(st, e, file)))
            || (Saves(st, e, file) && u == e.t && Growth(st, e) != 0)
    ensures Pending(Next(st, e), u, file) ==>
              var th := Next(st, e).threads[u];
              && th.job.Write? && th.job == st.threads[u].job && th.shift == st.threads[u].shift
              && th.delta > 0
              && th.delta == if Saves(st, e, file) && u == e.t then Growth(st, e) else st.threads[u].delta
  {
    StepKeepsInv(st, e);
    PendingKind(Next(st, e), u, file);
    if e.Step? && u == e.t {
      PendingSelf(st, u, file);
    } else {
      PendingOther(st, e, u, file);
    }
    hide Inv, Next, ApplyAll, Sentences;
  }

  lemma PendingSteps(st: State, e: Event, file: string)
    requires Inv(st) && Enabled(st, e)
    ensures forall u :: Pending(Next(st, e), u, file) <==>
              || (Pending(st, u, file) && !(e.Step? && u == e.t && Logs(st, e, file)))
              || (Saves(st, e, file) && u == e.t && Growth(st, e) != 0)
    ensures forall u | Pending(Next(st, e), u, file) ::
              var th := Next(st, e).threads[u];
              && th.job.Write? && th.job == st.threads[u].job && th.shift == st.threads[u].shift
              && th.delta == if Saves(st, e, file) && u == e.t then Growth(st, e) else st.threads[u].delta
    ensures Logs(st, e, file) ==> Pending(st, e.t, file) && forall u :: !Pending(Next(st, e), u, file)
    ensures Saves(st, e, file) ==> forall u :: !Pending(st, u, file)
  {
    forall u ensures Pending(Next(st, e), u, file) <==>
        || (Pending(st, u, file) && !(e.Step? && u == e.t && Logs(st, e, file)))
        || (Saves(st, e, file) && u == e.t && Growth(st, e) != 0)
    {
      PendingStep(st, e, u, file);
    }
    forall u | Pending(Next(st, e), u, file)
      ensures var th := Next(st, e).threads[u];
              && th.job.Write? && th.job == st.threads[u].job && th.shift == st.threads[u].shift
              && th.delta == if Saves(st, e, file) && u == e.t then Growth(st, e) else st.threads[u].delta
    {
      PendingStep(st, e, u, file);
    }
    if Saves(st, e, file) || Logs(st, e, file) {
      OnePending(st, e.t, file);
    }
    hide Inv, Next, Sentences, ApplyAll;
  }

  lemma PendingKind(st: State, u: nat, file: string)
    requires Inv(st)
    ensures Pending(st, u, file) ==> st.threads[u].job.Write? && st.threads[u].delta > 0
  {
    if Pending(st, u, file) {
      assert ThreadOk(st, u, st.threads[u]);
    }
  }

  /** While one thread holds a file's commit lock no other has a change pending on it. */
  lemma OnePending(st: State, t: nat, file: string)
    requires Inv(st) && t in st.threads && HoldsFile(st.threads[t].pc) && st.threads[t].file == file
    ensures forall u | Pending(st, u, file) :: u == t
  {
    forall u | Pending(st, u, file) ensures u == t {
      CommitExclusion(st, t, u);
    }
  }

  /** Sentences now, less those logged and the one change that may be pending, are `base`. */
  ghost predicate Balanced(st: State, file: string, base: int) {
    var n := |Sentences(Content(st.shared, file))| - Gained(st.shared.log, file);
    && (forall u | Pending(st, u, file) :: n - st.threads[u].delta == base)
    && ((forall u :: !Pending(st, u, file)) ==> n == base)
  }

  /** What the log records for one file changes only by that file's own log step. */
  lemma GainedStep(st: State, e: Event, file: string)
    requires Inv(st) && Enabled(st, e)
    ensures Gained(Next(st, e).shared.log, file) ==
            Gained(st.shared.log, file) + if Logs(st, e, file) then st.threads[e.t].delta else 0
  {
    LogChanges(st, e, file);
    if g: string :| Logs(st, e, g) {
      var th := st.threads[e.t];
      GainedSnoc(st.shared.log, LogEntry(st.shared.nextLogId, th.file, Target(th), th.delta), file);
    }
    hide Inv, Next;
  }

  lemma BalanceStep(st: State, e: Event, file: string, base: int)
    requires Inv(st) && Enabled(st, e) && !Reverts(st, e, file) && Balanced(st, file, base)
    ensures Balanced(Next(st, e), file, base)
  {
    var next := Next(st, e);
    FileChanges(st, e, file);
    GainedStep(st, e, file);
    PendingSteps(st, e, file);
    hide Inv, Next, Sentences, ApplyAll, Gained, Pending;
  }

  lemma {:induction false} BalanceRun(st: State, evs: seq<Event>, file: string, base: int)
    requires Inv(st) && Run(st, evs) && NoRevert(st, evs, file) && Balanced(st, file, base)
    ensures Balanced(After(st, evs), file, base)
    decreases |evs|
  {
    if evs != [] {
      BalanceStep(st, evs[0], file, base);
      StepKeepsInv(st, evs[0]);
      BalanceRun(Next(st, evs[0]), evs[1..], file, base);
    }
  }

  /** From a fresh server on, with no undo: the logged growth of a file, with the one
      change that may still be waiting to be logged, is exactly what the file has gained;
      log ids are 0, 1, 2, ... in list order and every logged change is a growth. */
  lemma LogAccountsForSentences(st: State, evs: seq<Event>, file: string)
    requires Initial(st) && Run(st, evs) && NoRevert(st, evs, file)
    ensures var end := After(st, evs);
            var gained := |Sentences(Content(end.shared, file))| - |Sentences(Content(st.shared, file))|;
            && (forall u | Pending(end, u, file) ::
                  gained == Gained(end.shared.log, file) + end.threads[u].delta)
            && ((forall u :: !Pending(end, u, file)) ==> gained == Gained(end.shared.log, file))
            && LogOk(end.shared)
  {
    BalanceRun(st, evs, file, |Sentences(Content(st.shared, file))|);
    ReachableInv(st, evs);
    hide After, Sentences;
  }
}
