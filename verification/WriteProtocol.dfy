/** The storage server as a machine: any number of WRITE and UNDO requests, each a thread
    that takes one step at a time. The locks are taken and released where the code does,
    so a thread can be stopped anywhere between two of its steps. */
module WriteProtocol {
  import opened Text
  import opened FileParser
  import opened EditQueue
  import opened ModificationLog
  import opened StorageState

  datatype Job = Write(num: int) | Undo

  /** What a thread does next. */
  datatype Pc =
    | GetId          // get_current_log_id
    | TryLock        // try_lock_sentence
    | Validate       // the index check
    | Receive        // the queue loop
    | Resolve        // get_file_commit_lock
    | AcquireFile    // pthread_mutex_lock on the commit lock
    | Backup         // create_undo_backup and reading the file
    | ReadShift      // get_sentence_shift
    | Apply          // the update loop and writing the file
    | Log            // log_modification
    | PerformUndo    // perform_undo
    | ReleaseFile    // pthread_mutex_unlock on the commit lock
    | Unlock         // unlock_sentence
    | Finished

  datatype Outcome = Open | Locked | BadIndex | Saved | Rejected | Undone | NoHistory

  datatype Thread = Thread(
    job: Job,
    file: string,
    pc: Pc,
    inMutex: bool,
    startId: int,
    queue: seq<Update>,
    lockId: nat,
    content: string,   // the file as read under the commit lock
    shift: int,
    delta: int,
    outcome: Outcome)

  datatype State = State(
    shared: Shared,
    mutex: Option<nat>,        // the thread inside the internal mutex
    held: map<nat, nat>,       // commit lock -> thread that has it
    threads: map<nat, Thread>)

  datatype Message = Line(text: string) | HangUp

  datatype Event =
    | Start(t: nat, job: Job, file: string)
    | Deliver(t: nat, message: Message)
    | Step(t: nat)

  /** The routines that run under the internal mutex. */
  predicate Mutexed(pc: Pc) {
    pc.GetId? || pc.TryLock? || pc.Resolve? || pc.ReadShift? || pc.Log? || pc.Unlock?
  }

  /** Steps outside the mutex that touch no lock. */
  predicate Plain(pc: Pc) {
    pc.Validate? || pc.Backup? || pc.Apply? || pc.PerformUndo?
  }

  /** Between taking the file's commit lock and giving it back. */
  predicate HoldsFile(pc: Pc) {
    pc.Backup? || pc.ReadShift? || pc.Apply? || pc.Log? || pc.PerformUndo? || pc.ReleaseFile?
  }

  /** Between taking the sentence lock and giving it back. */
  predicate HoldsSentence(th: Thread) {
    th.job.Write? && !th.pc.GetId? && !th.pc.TryLock? && !th.pc.Finished?
  }

  function SentenceOf(th: Thread): SentenceLock
    requires th.job.Write?
  {
    SentenceLock(th.file, th.job.num)
  }

  /** The sentence index a commit really edits. */
  function Target(th: Thread): int
    requires th.job.Write?
  {
    th.job.num + th.shift
  }

  function NewThread(job: Job, file: string): Thread {
    Thread(job, file, if job.Write? then GetId else Resolve, false, 0, [], 0, "", 0, 0, Open)
  }

  /** The body of a routine that runs under the internal mutex. */
  function MutexBody(sh: Shared, th: Thread): (Shared, Thread)
    requires Mutexed(th.pc)
  {
    var num := if th.job.Write? then th.job.num else 0;
    match th.pc
    case GetId => (sh, th.(startId := sh.nextLogId, pc := TryLock))
    case TryLock =>
      var l := SentenceLock(th.file, num);
      if l in sh.sentenceLocks then (sh, th.(pc := Finished, outcome := Locked))
      else (sh.(sentenceLocks := [l] + sh.sentenceLocks), th.(pc := Validate))
    case Resolve =>
      var locks := WithCommitLock(sh.fileLocks, th.file);
      var id := CommitLock(locks, th.file);
      (sh.(fileLocks := locks), th.(lockId := if id.Some? then id.value else 0, pc := AcquireFile))
    case ReadShift => (sh, th.(shift := Shift(sh.log, th.file, num, th.startId), pc := Apply))
    case Log => (Logged(sh, th.file, num + th.shift, th.delta), th.(pc := ReleaseFile))
    case _ => (sh.(sentenceLocks := Without(sh.sentenceLocks, SentenceLock(th.file, num))), th.(pc := Finished))
  }

  /** The body of a step outside the mutex. */
  function PlainBody(sh: Shared, th: Thread): (Shared, Thread)
    requires Plain(th.pc)
  {
    var num := if th.job.Write? then th.job.num else 0;
    match th.pc
    case Validate =>
      if 0 <= num <= MaxValidIndex(Content(sh, th.file)) then (sh, th.(pc := Receive))
      else (sh, th.(pc := Unlock, outcome := BadIndex))
    case Backup => (BackedUp(sh, th.file), th.(content := Content(sh, th.file), pc := ReadShift))
    case Apply =>
      (match ApplyAll(th.content, num + th.shift, th.queue)
       case None => (sh, th.(pc := ReleaseFile, outcome := Rejected))
       case Some(after) =>
         var delta := |Sentences(after)| - |Sentences(th.content)|;
         (Written(sh, th.file, after),
          th.(delta := delta, pc := if delta != 0 then Log else ReleaseFile, outcome := Saved)))
    case _ =>
      (Reverted(sh, th.file),
       th.(pc := ReleaseFile, outcome := if th.file in sh.undo then Undone else NoHistory))
  }

  predicate Enabled(st: State, e: Event) {
    match e
    case Start(t, _, _) => t !in st.threads
    case Deliver(t, _) => t in st.threads && st.threads[t].pc == Receive
    case Step(t) =>
      && t in st.threads
      && var th := st.threads[t];
      && th.pc != Receive && th.pc != Finished
      && (Mutexed(th.pc) && !th.inMutex ==> st.mutex == None)
      && (th.pc == AcquireFile ==> th.lockId !in st.held)
  }

  function Next(st: State, e: Event): State
    requires Enabled(st, e)
  {
    match e
    case Start(t, job, file) => st.(threads := st.threads[t := NewThread(job, file)])
    case Deliver(t, message) => st.(threads := st.threads[t := Received(st.threads[t], message)])
    case Step(t) =>
      var th := st.threads[t];
      if Mutexed(th.pc) && !th.inMutex then
        st.(mutex := Some(t), threads := st.threads[t := th.(inMutex := true)])
      else if Mutexed(th.pc) then
        var (sh, th') := MutexBody(st.shared, th);
        st.(shared := sh, mutex := None, threads := st.threads[t := th'.(inMutex := false)])
      else if th.pc == AcquireFile then
        st.(held := st.held[th.lockId := t],
            threads := st.threads[t := th.(pc := if th.job.Write? then Backup else PerformUndo)])
      else if th.pc == ReleaseFile then
        st.(held := st.held - {th.lockId},
            threads := st.threads[t := th.(pc := if th.job.Write? then Unlock else Finished)])
      else
        var (sh, th') := PlainBody(st.shared, th);
        st.(shared := sh, threads := st.threads[t := th'])
  }

  /** A line of the queue loop; ETIRW and a closed connection both end it. */
  function Received(th: Thread, message: Message): Thread {
    match message
    case HangUp => th.(pc := Resolve)
    case Line(text) =>
      if text == "ETIRW" then th.(pc := Resolve)
      else
        match ParsedLine(text)
        case None => th
        case Some(u) => th.(queue := th.queue + [u])
  }

  /** `evs` can happen one after another from `st`. */
  predicate Run(st: State, evs: seq<Event>)
    decreases |evs|
  {
    evs == [] || (Enabled(st, evs[0]) && Run(Next(st, evs[0]), evs[1..]))
  }

  function After(st: State, evs: seq<Event>): State
    requires Run(st, evs)
    decreases |evs|
  {
    if evs == [] then st else After(Next(st, evs[0]), evs[1..])
  }

  /** A server just started on a directory of files and backups. */
  predicate Initial(st: State) {
    && st.shared.log == [] && st.shared.nextLogId == 0
    && st.shared.sentenceLocks == [] && st.shared.fileLocks == []
    && st.mutex == None && st.held == map[] && st.threads == map[]
  }

  lemma {:induction false} RunConcat(st: State, a: seq<Event>, b: seq<Event>)
    requires Run(st, a) && Run(After(st, a), b)
    ensures Run(st, a + b) && After(st, a + b) == After(After(st, a), b)
    decreases |a|
  {
    if a == [] {
      assert a + b == b;
    } else {
      assert (a + b)[0] == a[0] && (a + b)[1..] == a[1..] + b;
      RunConcat(Next(st, a[0]), a[1..], b);
    }
  }
}
