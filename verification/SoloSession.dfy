/** A whole WRITE session, from its request to its last unlock, with nobody in between. */
module SoloSession {
  import opened Text
  import opened FileParser
  import opened EditQueue
  import opened ModificationLog
  import opened Decimal
  import opened StorageState
  import opened WriteProtocol
  import opened CommitSteps

  // ---------------------------------------------------------------- the beginning

  /** A new session up to where it takes or misses its sentence lock. */
  lemma AskAlone(st: State, u: nat, num: int, file: string) returns (evs: seq<Event>)
    requires st.mutex == None && u !in st.threads
    ensures |evs| > 0 && evs[0] == Start(u, Write(num), file) && OnlyStepsOf(evs[1..], u)
    ensures var sc, l := Scene(st.threads, st.held, u), SentenceLock(file, num);
            var th := NewThread(Write(num), file).(startId := st.shared.nextLogId);
            Leads(st, evs,
                  if l in st.shared.sentenceLocks
                  then Alone(sc, th.(pc := Finished, outcome := Locked), st.shared)
                  else Alone(sc, th.(pc := Validate),
                             st.shared.(sentenceLocks := [l] + st.shared.sentenceLocks)))
  {
    var sc, sh := Scene(st.threads, st.held, u), st.shared;
    var start, th0 := Start(u, Write(num), file), NewThread(Write(num), file);
    var th1 := th0.(startId := sh.nextLogId, pc := TryLock);
    OneEvent(st, start);
    assert Next(st, start) == Alone(sc, th0, sh);
    MutexStep(sc, th0, sh);
    MutexStep(sc, th1, sh);
    var (after, end) := MutexBody(sh, th1.(inMutex := true));
    var two := [Step(u)] + [Step(u)];
    hide Leads, Next, Alone;
    assert MutexBody(sh, th0.(inMutex := true)) == (sh, th1.(inMutex := true));
    LeadsOn(st, [start], Alone(sc, th0, sh), two, Alone(sc, th1, sh));
    LeadsOn(st, [start] + two, Alone(sc, th1, sh), two, Alone(sc, end.(inMutex := false), after));
    evs := [start] + two + two;
  }

  /** The session at its queue loop, or past the refusal. */
  function Begun(num: int, file: string, start: int, valid: bool): Thread {
    var th := NewThread(Write(num), file).(startId := start);
    if valid then th.(pc := Receive) else th.(pc := Unlock, outcome := BadIndex)
  }

  /** A new session whose sentence is free gets its lock, and to its queue loop exactly when
      the index is in range. */
  lemma BeginAlone(st: State, u: nat, num: int, file: string) returns (evs: seq<Event>)
    requires st.mutex == None && u !in st.threads && SentenceLock(file, num) !in st.shared.sentenceLocks
    ensures |evs| > 0 && evs[0] == Start(u, Write(num), file) && OnlyStepsOf(evs[1..], u)
    ensures Leads(st, evs,
                  Alone(Scene(st.threads, st.held, u),
                        Begun(num, file, st.shared.nextLogId, 0 <= num <= MaxValidIndex(Content(st.shared, file))),
                        st.shared.(sentenceLocks := [SentenceLock(file, num)] + st.shared.sentenceLocks)))
  {
    hide Leads, MaxValidIndex, Alone;
    var sc := Scene(st.threads, st.held, u);
    var sh := st.shared.(sentenceLocks := [SentenceLock(file, num)] + st.shared.sentenceLocks);
    var th := NewThread(Write(num), file).(startId := st.shared.nextLogId, pc := Validate);
    var asked := AskAlone(st, u, num, file);
    PlainStep(sc, th, sh);
    LeadsOn(st, asked, Alone(sc, th, sh), [Step(u)], Alone(sc, PlainBody(sh, th).1, sh));
    evs := asked + [Step(u)];
  }

  // ---------------------------------------------------------------- the queue

  /** The updates in a list of lines, in order; lines of fewer than two parts are ignored. */
  function Updates(lines: seq<string>): seq<Update> {
    if lines == [] then []
    else (match ParsedLine(lines[0]) case None => [] case Some(u) => [u]) + Updates(lines[1..])
  }

  function Deliveries(t: nat, lines: seq<string>): seq<Event> {
    if lines == [] then [] else [Deliver(t, Line(lines[0]))] + Deliveries(t, lines[1..])
  }

  lemma DeliverOne(sc: Scene, th: Thread, sh: Shared, message: Message)
    requires th.pc == Receive
    ensures Leads(Alone(sc, th, sh), [Deliver(sc.t, message)], Alone(sc, Received(th, message), sh))
  {
    hide Received;
    OneEvent(Alone(sc, th, sh), Deliver(sc.t, message));
    assert sc.threads[sc.t := th][sc.t := Received(th, message)] == sc.threads[sc.t := Received(th, message)];
  }

  lemma {:induction false} DeliverAll(sc: Scene, th: Thread, sh: Shared, lines: seq<string>)
    requires th.pc == Receive && "ETIRW" !in lines
    ensures Leads(Alone(sc, th, sh), Deliveries(sc.t, lines),
                  Alone(sc, th.(queue := th.queue + Updates(lines)), sh))
    decreases |lines|
  {
    if lines == [] {
      assert th.queue + [] == th.queue;
    } else {
      var next := Received(th, Line(lines[0]));
      DeliverOne(sc, th, sh, Line(lines[0]));
      hide Leads, ParsedLine, Alone;
      DeliverAll(sc, next, sh, lines[1..]);
      assert lines[0] in lines;
      var first := match ParsedLine(lines[0]) case None => [] case Some(u) => [u];
      assert next.queue == th.queue + first;
      Regroup(th.queue, first, Updates(lines[1..]));
      LeadsOn(Alone(sc, th, sh), [Deliver(sc.t, Line(lines[0]))], Alone(sc, next, sh), Deliveries(sc.t, lines[1..]),
              Alone(sc, next.(queue := next.queue + Updates(lines[1..])), sh));
    }
  }

  // ---------------------------------------------------------------- the end

  /** Nobody holds the commit lock that `file` has or would get. */
  predicate CommitLockFree(sh: Shared, held: map<nat, nat>, file: string) {
    var id := CommitLock(WithCommitLock(sh.fileLocks, file), file);
    id.Some? && id.value !in held
  }

  function Resolved(sh: Shared, file: string): Shared {
    sh.(fileLocks := WithCommitLock(sh.fileLocks, file))
  }

  /** The thread takes the file's commit lock. */
  lemma AcquireAlone(sc: Scene, th: Thread, sh: Shared) returns (evs: seq<Event>, id: nat)
    requires th.pc == Resolve && !th.inMutex && th.job.Write? && CommitLockFree(sh, sc.held, th.file)
    ensures OnlyStepsOf(evs, sc.t) && id !in sc.held
    ensures Leads(Alone(sc, th, sh), evs,
                  Alone(sc.(held := sc.held[id := sc.t]), th.(lockId := id, pc := Backup), Resolved(sh, th.file)))
  {
    hide CommitLock, WithCommitLock;
    var resolved := Resolved(sh, th.file);
    id := CommitLock(resolved.fileLocks, th.file).value;
    var waiting := th.(lockId := id, pc := AcquireFile);
    var done := Alone(sc.(held := sc.held[id := sc.t]), th.(lockId := id, pc := Backup), resolved);
    MutexStep(sc, th, sh);
    assert MutexBody(sh, th.(inMutex := true)).1.(inMutex := false) == waiting;
    OneEvent(Alone(sc, waiting, resolved), Step(sc.t));
    assert Next(Alone(sc, waiting, resolved), Step(sc.t)) == done by {
      assert sc.threads[sc.t := waiting][sc.t := th.(lockId := id, pc := Backup)]
             == sc.threads[sc.t := th.(lockId := id, pc := Backup)];
    }
    hide Leads, Alone, Next;
    evs := [Step(sc.t)] + [Step(sc.t)] + [Step(sc.t)];
    LeadsOn(Alone(sc, th, sh), [Step(sc.t)] + [Step(sc.t)], Alone(sc, waiting, resolved), [Step(sc.t)], done);
  }

  /** A waiting session is told to end and comes to its update loop. */
  lemma LoopAlone(sc: Scene, th: Thread, sh: Shared) returns (evs: seq<Event>, id: nat)
    requires th.pc == Receive && !th.inMutex && th.job.Write? && CommitLockFree(sh, sc.held, th.file)
    ensures Leads(Alone(sc, th, sh), evs,
                  Alone(sc.(held := sc.held[id := sc.t]), Ready(Resolved(sh, th.file), th.(lockId := id)),
                        BackedUp(Resolved(sh, th.file), th.file)))
  {
    hide Leads, Alone, CommitLockFree, Resolved, BackedUp, Content, Shift;
    var start, asked := Alone(sc, th, sh), th.(pc := Resolve);
    DeliverOne(sc, th, sh, Line("ETIRW"));
    var x: seq<Event>;
    x, id := AcquireAlone(sc, asked, sh);
    var inside, begun := sc.(held := sc.held[id := sc.t]), asked.(lockId := id, pc := Backup);
    var y := ToApply(inside, begun, Resolved(sh, th.file));
    LeadsOn(start, [Deliver(sc.t, Line("ETIRW"))], Alone(sc, asked, sh), x,
            Alone(inside, begun, Resolved(sh, th.file)));
    LeadsOn(start, [Deliver(sc.t, Line("ETIRW"))] + x, Alone(inside, begun, Resolved(sh, th.file)), y,
            Alone(inside, Ready(Resolved(sh, th.file), th.(lockId := id)), BackedUp(Resolved(sh, th.file), th.file)));
    evs := [Deliver(sc.t, Line("ETIRW"))] + x + y;
  }

  /** It gives back first that lock and then its sentence lock. */
  lemma ReleaseAlone(sc: Scene, th: Thread, sh: Shared) returns (evs: seq<Event>)
    requires th.pc == ReleaseFile && !th.inMutex && th.job.Write?
    ensures OnlyStepsOf(evs, sc.t)
    ensures Leads(Alone(sc, th, sh), evs,
                  Alone(sc.(held := sc.held - {th.lockId}), th.(pc := Finished),
                        sh.(sentenceLocks := Without(sh.sentenceLocks, SentenceOf(th)))))
  {
    hide Without;
    var free, out := sc.(held := sc.held - {th.lockId}), th.(pc := Unlock);
    OneEvent(Alone(sc, th, sh), Step(sc.t));
    assert Next(Alone(sc, th, sh), Step(sc.t)) == Alone(free, out, sh) by {
      assert sc.threads[sc.t := th][sc.t := out] == sc.threads[sc.t := out];
    }
    MutexStep(free, out, sh);
    hide Leads, Alone, Next;
    evs := [Step(sc.t)] + ([Step(sc.t)] + [Step(sc.t)]);
    LeadsOn(Alone(sc, th, sh), [Step(sc.t)], Alone(free, out, sh), [Step(sc.t)] + [Step(sc.t)],
            Alone(free, th.(pc := Finished), sh.(sentenceLocks := Without(sh.sentenceLocks, SentenceOf(th)))));
  }

  lemma FinishAlone(sc: Scene, th: Thread, sh: Shared) returns (evs: seq<Event>, done: Thread)
    requires th.pc == Resolve && !th.inMutex && th.job.Write? && CommitLockFree(sh, sc.held, th.file)
    ensures OnlyStepsOf(evs, sc.t) && done.pc == Finished
    ensures var (after, ok) := CommitResult(Resolved(sh, th.file), th.file, th.job.num, th.startId, th.queue);
            && (done.outcome == Saved <==> ok)
            && Leads(Alone(sc, th, sh), evs,
                     Alone(sc, done, after.(sentenceLocks := Without(after.sentenceLocks, SentenceOf(th)))))
  {
    hide Leads, Alone, CommitResult, Without, CommitLockFree;
    var start := Alone(sc, th, sh);
    var x, id := AcquireAlone(sc, th, sh);
    var inside, begun := sc.(held := sc.held[id := sc.t]), th.(lockId := id, pc := Backup);
    var y, end := CommitAlone(inside, begun, Resolved(sh, th.file));
    var (after, ok) := CommitResult(Resolved(sh, th.file), th.file, th.job.num, th.startId, th.queue);
    LeadsOn(start, x, Alone(inside, begun, Resolved(sh, th.file)), y, Alone(inside, end, after));
    var z := ReleaseAlone(inside, end, after);
    assert inside.(held := inside.held - {id}) == sc;
    done := end.(pc := Finished);
    LeadsOn(start, x + y, Alone(inside, end, after), z,
            Alone(sc, done, after.(sentenceLocks := Without(after.sentenceLocks, SentenceOf(th)))));
    evs := x + y + z;
  }

  // ---------------------------------------------------------------- the session

  /** What a session leaves behind: one commit, run straight through. */
  function SessionResult(sh: Shared, file: string, num: int, queue: seq<Update>): (Shared, bool) {
    CommitResult(Resolved(sh, file), file, num, sh.nextLogId, queue)
  }

  /** Sentence locks and commits do not meet. */
  lemma CommitIgnoresLocks(sh: Shared, locks: seq<SentenceLock>, file: string, num: int, start: int, queue: seq<Update>)
    ensures CommitResult(sh.(sentenceLocks := locks), file, num, start, queue) ==
            (CommitResult(sh, file, num, start, queue).0.(sentenceLocks := locks),
             CommitResult(sh, file, num, start, queue).1)
  {
    hide ApplyAll, Shift, Sentences;
  }

  lemma SentenceLocksStay(sh: Shared, file: string, num: int, start: int, queue: seq<Update>)
    ensures CommitResult(sh, file, num, start, queue).0.sentenceLocks == sh.sentenceLocks
  {
    hide ApplyAll, Shift, Sentences;
  }

  /** A session that finds its sentence free and in range and is served alone ends with
      every lock as it found it, and the shared state as one commit of what it was sent,
      run straight through, leaves it; it is told so. */
  lemma WholeSession(st: State, u: nat, num: int, file: string, lines: seq<string>)
    returns (evs: seq<Event>, done: Thread)
    requires st.mutex == None && u !in st.threads && "ETIRW" !in lines
    requires SentenceLock(file, num) !in st.shared.sentenceLocks
    requires 0 <= num <= MaxValidIndex(Content(st.shared, file))
    requires CommitLockFree(st.shared, st.held, file)
    ensures done.pc == Finished
    ensures var (after, ok) := SessionResult(st.shared, file, num, Updates(lines));
            && (done.outcome == Saved <==> ok)
            && Leads(st, evs, Alone(Scene(st.threads, st.held, u), done, after))
  {
    hide Leads, Alone, CommitResult, MaxValidIndex, CommitLock, WithCommitLock, Updates, Deliveries;
    var sc, l := Scene(st.threads, st.held, u), SentenceLock(file, num);
    var sh := st.shared.(sentenceLocks := [l] + st.shared.sentenceLocks);
    var th := Begun(num, file, st.shared.nextLogId, true);
    var full := th.(queue := Updates(lines));
    evs := BeginAlone(st, u, num, file);
    DeliverAll(sc, th, sh, lines);
    assert th.queue + Updates(lines) == Updates(lines);
    LeadsOn(st, evs, Alone(sc, th, sh), Deliveries(u, lines), Alone(sc, full, sh));
    evs := evs + Deliveries(u, lines);
    DeliverOne(sc, full, sh, Line("ETIRW"));
    LeadsOn(st, evs, Alone(sc, full, sh), [Deliver(u, Line("ETIRW"))], Alone(sc, full.(pc := Resolve), sh));
    evs := evs + [Deliver(u, Line("ETIRW"))];
    var z: seq<Event>;
    z, done := FinishAlone(sc, full.(pc := Resolve), sh);
    EndState(st.shared, l, full);
    LeadsOn(st, evs, Alone(sc, full.(pc := Resolve), sh), z,
            Alone(sc, done, SessionResult(st.shared, file, num, Updates(lines)).0));
    evs := evs + z;
  }

  lemma EndState(sh: Shared, l: SentenceLock, th: Thread)
    requires th.job.Write? && l == SentenceOf(th) && th.startId == sh.nextLogId
    ensures var (after, ok) := CommitResult(Resolved(sh.(sentenceLocks := [l] + sh.sentenceLocks), th.file),
                                            th.file, th.job.num, th.startId, th.queue);
            (after.(sentenceLocks := Without(after.sentenceLocks, l)), ok) ==
            SessionResult(sh, th.file, th.job.num, th.queue)
  {
    hide CommitResult, WithCommitLock;
    var locks := [l] + sh.sentenceLocks;
    CommitIgnoresLocks(Resolved(sh, th.file), locks, th.file, th.job.num, th.startId, th.queue);
    SentenceLocksStay(Resolved(sh, th.file), th.file, th.job.num, th.startId, th.queue);
    assert Without(locks, l) == sh.sentenceLocks;
  }

  // ---------------------------------------------------------------- the session, by its updates

  /** What a client sends for a list of updates. */
  function LinesFor(updates: seq<Update>): seq<string> {
    if updates == [] then []
    else [PrintInt(updates[0].wordIdx) + " " + updates[0].text] + LinesFor(updates[1..])
  }

  lemma {:induction false} LinesQueued(updates: seq<Update>)
    requires Inserting(updates)
    ensures Updates(LinesFor(updates)) == updates && "ETIRW" !in LinesFor(updates)
  {
    if updates != [] {
      var u := updates[0];
      LineQueued(u.wordIdx, u.text);
      LinesQueued(updates[1..]);
      var line := PrintInt(u.wordIdx) + " " + u.text;
      assert line[0] == PrintInt(u.wordIdx)[0];
      hide ParsedLine, PrintInt, Tokens;
      assert LinesFor(updates)[1..] == LinesFor(updates[1..]);
      assert Updates(LinesFor(updates)) == [u] + Updates(LinesFor(updates[1..]));
    }
  }

  /** A session served alone that sends each update as a word index, a blank and a text
      commits just these updates. */
  lemma SessionCommitsUpdates(st: State, u: nat, num: int, file: string, updates: seq<Update>)
    returns (evs: seq<Event>, done: Thread)
    requires st.mutex == None && u !in st.threads && Inserting(updates)
    requires SentenceLock(file, num) !in st.shared.sentenceLocks
    requires 0 <= num <= MaxValidIndex(Content(st.shared, file))
    requires CommitLockFree(st.shared, st.held, file)
    ensures done.pc == Finished
    ensures var (after, ok) := SessionResult(st.shared, file, num, updates);
            && (done.outcome == Saved <==> ok)
            && Leads(st, evs, Alone(Scene(st.threads, st.held, u), done, after))
  {
    LinesQueued(updates);
    hide Leads, Alone, SessionResult, MaxValidIndex, CommitLockFree, Updates, LinesFor, Inserting;
    evs, done := WholeSession(st, u, num, file, LinesFor(updates));
  }
}
