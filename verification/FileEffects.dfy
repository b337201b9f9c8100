/** What a step of the machine does to one file, its backup and its log entries. */
module FileEffects {
  import opened Text
  import opened FileParser
  import opened EditQueue
  import opened ModificationLog
  import opened StorageState
  import opened WriteProtocol
  import opened Invariants

  function Slot(m: map<string, string>, file: string): Option<string> {
    if file in m then Some(m[file]) else None
  }

  /** The event is the step `pc` of a thread that works on `file`. */
  predicate Acts(st: State, e: Event, file: string, pc: Pc) {
    && e.Step? && e.t in st.threads
    && st.threads[e.t].file == file && st.threads[e.t].pc == pc
    && (Mutexed(pc) ==> st.threads[e.t].inMutex)
  }

  /** A commit starts: the backup is taken. */
  predicate Attempts(st: State, e: Event, file: string) {
    Acts(st, e, file, Backup) && st.threads[e.t].job.Write?
  }

  function NewContent(st: State, e: Event): Option<string>
    requires e.Step? && e.t in st.threads && st.threads[e.t].job.Write?
  {
    var th := st.threads[e.t];
    ApplyAll(Content(st.shared, th.file), Target(th), th.queue)
  }

  /** A commit succeeds: the file is written. */
  predicate Saves(st: State, e: Event, file: string) {
    Acts(st, e, file, Apply) && st.threads[e.t].job.Write? && NewContent(st, e).Some?
  }

  /** An undo succeeds: the backup becomes the file. */
  predicate Reverts(st: State, e: Event, file: string) {
    Acts(st, e, file, PerformUndo) && file in st.shared.undo
  }

  /** A commit enters its change into the log. */
  predicate Logs(st: State, e: Event, file: string) {
    Acts(st, e, file, Log)
  }

  /** A routine under the mutex touches no file and no backup, and only one logs. */
  lemma MutexBodyFiles(sh: Shared, th: Thread)
    requires Mutexed(th.pc)
    ensures var after := MutexBody(sh, th).0; after.files == sh.files && after.undo == sh.undo
    ensures th.pc != Log ==> MutexBody(sh, th).0.log == sh.log
    ensures th.pc == Log && th.job.Write? && th.delta != 0 ==>
              MutexBody(sh, th).0.log == sh.log + [LogEntry(sh.nextLogId, th.file, Target(th), th.delta)]
  {
  }

  /** What a step outside the mutex writes. */
  lemma PlainBodyFiles(sh: Shared, th: Thread, file: string)
    requires Plain(th.pc)
    requires th.pc == Backup || th.pc == Apply ==> th.job.Write?
    ensures PlainBody(sh, th).0.log == sh.log
    ensures Slot(PlainBody(sh, th).0.files, file) ==
            if file != th.file then Slot(sh.files, file)
            else if th.pc == Apply && ApplyAll(th.content, Target(th), th.queue).Some? then
              ApplyAll(th.content, Target(th), th.queue)
            else if th.pc == PerformUndo && file in sh.undo then Slot(sh.undo, file)
            else Slot(sh.files, file)
    ensures Slot(PlainBody(sh, th).0.undo, file) ==
            if file != th.file then Slot(sh.undo, file)
            else if th.pc == Backup then Slot(sh.files, file)
            else if th.pc == PerformUndo then None
            else Slot(sh.undo, file)
  {
    hide ApplyAll, Sentences, MaxValidIndex;
  }

  lemma FileChanges(st: State, e: Event, file: string)
    requires Inv(st) && Enabled(st, e)
    ensures var after := Next(st, e).shared;
            Slot(after.files, file) ==
            if Saves(st, e, file) then NewContent(st, e)
            else if Reverts(st, e, file) then Slot(st.shared.undo, file)
            else Slot(st.shared.files, file)
  {
    if e.Step? {
      var th := st.threads[e.t];
      ThreadKnows(st, e.t);
      hide Inv, MutexBody, PlainBody, ApplyAll, Content, PcOk, Slot;
      if Mutexed(th.pc) {
        MutexBodyFiles(st.shared, th);
      } else if Plain(th.pc) {
        PlainBodyFiles(st.shared, th, file);
      }
    }
  }

  lemma BackupChanges(st: State, e: Event, file: string)
    requires Inv(st) && Enabled(st, e)
    ensures var after := Next(st, e).shared;
            Slot(after.undo, file) ==
            if Attempts(st, e, file) then Slot(st.shared.files, file)
            else if Acts(st, e, file, PerformUndo) then None
            else Slot(st.shared.undo, file)
  {
    if e.Step? {
      var th := st.threads[e.t];
      ThreadKnows(st, e.t);
      hide Inv, MutexBody, PlainBody, ApplyAll, Content, PcOk, Slot;
      if Mutexed(th.pc) {
        MutexBodyFiles(st.shared, th);
      } else if Plain(th.pc) {
        PlainBodyFiles(st.shared, th, file);
      }
    }
  }

  lemma LogChanges(st: State, e: Event, file: string)
    requires Inv(st) && Enabled(st, e)
    ensures var before, after := st.shared, Next(st, e).shared;
            if exists g :: Logs(st, e, g) then
              var th := st.threads[e.t];
              && th.job.Write?
              && after.log == before.log + [LogEntry(before.nextLogId, th.file, Target(th), th.delta)]
            else after.log == before.log
  {
    if e.Step? {
      var th := st.threads[e.t];
      ThreadKnows(st, e.t);
      hide Inv, MutexBody, PlainBody, ApplyAll, Content, PcOk;
      if Mutexed(th.pc) {
        MutexBodyFiles(st.shared, th);
      } else if Plain(th.pc) {
        PlainBodyFiles(st.shared, th, file);
      }
      if th.pc == Log && th.inMutex {
        assert Logs(st, e, th.file);
      }
    }
  }

  lemma BodiesKeep(sh: Shared, th: Thread)
    ensures Mutexed(th.pc) ==>
              var after := MutexBody(sh, th).1;
              && after.job == th.job && after.file == th.file
              && after.pc != GetId && (th.pc != GetId ==> after.startId == th.startId)
    ensures Plain(th.pc) ==>
              var after := PlainBody(sh, th).1;
              after.job == th.job && after.file == th.file && after.pc != GetId && after.startId == th.startId
  {
    hide ApplyAll, Sentences, MaxValidIndex;
  }

  /** Threads keep their job and file, and their session's start once it is read. */
  lemma ThreadKeeps(st: State, e: Event, t: nat)
    requires Enabled(st, e) && t in st.threads
    ensures var after := Next(st, e);
            && t in after.threads
            && after.threads[t].job == st.threads[t].job
            && after.threads[t].file == st.threads[t].file
            && (st.threads[t].pc != GetId ==>
                  after.threads[t].pc != GetId && after.threads[t].startId == st.threads[t].startId)
  {
    hide MutexBody, PlainBody;
    if e.Step? {
      BodiesKeep(st.shared, st.threads[e.t]);
    }
  }
}
