/** A run in which a session counts a change that the file already had when it began. */
module LateLog {
  import opened Text
  import opened FileParser
  import opened EditQueue
  import opened ModificationLog
  import opened StorageState
  import opened WriteProtocol
  import opened CommitSteps
  import opened SoloSession
  import opened WrongSentence

  /** Session 2 has written two new sentences in front and not yet logged them. */
  predicate Unlogged(st: State) {
    && st.mutex == None && st.threads.Keys == {2} && Writer(st.threads[2]) && st.held == map[st.threads[2].lockId := 2]
    && FILE in st.shared.files && Sentences(st.shared.files[FILE]) == ["X.", "Y."] + Sentences(DOCUMENT)
    && st.shared.log == [] && st.shared.nextLogId == 0
    && SentenceLock(FILE, 3) !in st.shared.sentenceLocks && st.shared.fileLocks == [FileLock(FILE, 0)]
  }

  predicate Writer(th: Thread) {
    th.job == Write(0) && th.file == FILE && th.pc == Log && !th.inMutex && th.shift == 0 && th.delta == 2
  }

  /** The update loop of a session whose queue goes through and adds sentences. */
  lemma LoopWrites(sh: Shared, th: Thread, written: string)
    requires th.job.Write? && th.pc == Apply && ApplyAll(th.content, Target(th), th.queue) == Some(written)
    requires |Sentences(written)| != |Sentences(th.content)|
    ensures PlainBody(sh, th) ==
            (Written(sh, th.file, written),
             th.(delta := |Sentences(written)| - |Sentences(th.content)|, pc := Log, outcome := Saved))
  {
    hide ApplyAll, Sentences, MaxValidIndex;
  }

  /** Session 2 at its queue loop, with what it was sent. */
  function Sender(): Thread {
    Begun(0, FILE, 0, true).(queue := Inserts(["Y.", "X."]))
  }

  function Sent(): Shared {
    Fresh(DOCUMENT).shared.(sentenceLocks := [SentenceLock(FILE, 0)])
  }

  lemma SecondSends() returns (evs: seq<Event>)
    ensures Leads(Fresh(DOCUMENT), evs, Alone(Scene(map[], map[], 2), Sender(), Sent()))
  {
    var st0, sc, th := Fresh(DOCUMENT), Scene(map[], map[], 2), Begun(0, FILE, 0, true);
    DocumentSentences();
    ValidationIsEditable(DOCUMENT, 0);
    SecondPieces();
    LinesInsert(["Y.", "X."]);
    hide Leads, Sentences, MaxValidIndex, Inserts, Lines, Updates, Alone, Letters;
    evs := BeginAlone(st0, 2, 0, FILE);
    assert [SentenceLock(FILE, 0)] + st0.shared.sentenceLocks == [SentenceLock(FILE, 0)];
    DeliverAll(sc, th, Sent(), Lines(["Y.", "X."]));
    assert th.queue + Inserts(["Y.", "X."]) == Inserts(["Y.", "X."]);
    LeadsOn(st0, evs, Alone(sc, th, Sent()), Deliveries(2, Lines(["Y.", "X."])), Alone(sc, Sender(), Sent()));
    evs := evs + Deliveries(2, Lines(["Y.", "X."]));
  }

  lemma QueueWritten()
    ensures var r := ApplyAll(DOCUMENT, 0, Inserts(["Y.", "X."]));
            && r.Some? && Sentences(r.value) == ["X.", "Y."] + Sentences(DOCUMENT)
            && |Sentences(r.value)| == |Sentences(DOCUMENT)| + 2
  {
    DocumentSentences();
    SecondPieces();
    QueueInserted(DOCUMENT, 0, ["Y.", "X."]);
    TwoPieces(Sentences(DOCUMENT), "Y.", "X.");
    hide Sentences, ApplyAll, Inserts, WithPieces, Letters;
  }

  /** Session 2 at its update loop. */
  function Writing(id: nat): Thread {
    Ready(Resolved(Sent(), FILE), Sender().(lockId := id))
  }

  lemma WritingApplies(id: nat)
    ensures Writing(id).pc == Apply && Writing(id).job == Write(0) && Writing(id).file == FILE
    ensures Writing(id).content == DOCUMENT && Writing(id).queue == Inserts(["Y.", "X."])
    ensures Writing(id).shift == 0 && Writing(id).lockId == id && !Writing(id).inMutex
  {
    hide Inserts;
  }

  function LoopState(id: nat): State {
    Alone(Scene(map[], map[id := 2], 2), Writing(id), BackedUp(Resolved(Sent(), FILE), FILE))
  }

  lemma SecondLoops() returns (evs: seq<Event>, id: nat)
    ensures Leads(Fresh(DOCUMENT), evs, LoopState(id))
  {
    var sc := Scene(map[], map[], 2);
    assert CommitLockFree(Sent(), map[], FILE);
    assert sc.(held := sc.held[0 := 2]) == Scene(map[], map[0 := 2], 2);
    hide Leads, Inserts, Alone, Ready, BackedUp, Resolved, CommitLockFree;
    var x := SecondSends();
    var y: seq<Event>;
    y, id := LoopAlone(sc, Sender(), Sent());
    assert sc.held[id := 2] == map[id := 2];
    LeadsOn(Fresh(DOCUMENT), x, Alone(sc, Sender(), Sent()), y, LoopState(id));
    evs := x + y;
  }

  /** Session 2 stops between writing the file and logging the change. */
  lemma SecondStops() returns (evs: seq<Event>, st: State)
    ensures Leads(Fresh(DOCUMENT), evs, st) && Unlogged(st)
  {
    var backed := BackedUp(Resolved(Sent(), FILE), FILE);
    hide Leads, Sentences, ApplyAll, Inserts, Alone, Ready, Writing, BackedUp, Resolved, Unlogged, Writer;
    var x, id := SecondLoops();
    WritingApplies(id);
    QueueWritten();
    var written := ApplyAll(DOCUMENT, 0, Inserts(["Y.", "X."])).value;
    LoopWrites(backed, Writing(id), written);
    var inside := Scene(map[], map[id := 2], 2);
    PlainStep(inside, Writing(id), backed);
    var after := Writing(id).(delta := 2, pc := Log, outcome := Saved);
    st := Alone(inside, after, Written(backed, FILE, written));
    LeadsOn(Fresh(DOCUMENT), x, LoopState(id), [Step(2)], st);
    evs := x + [Step(2)];
    assert Writer(after) by {
      IsWriter(after);
    }
    StopsUnlogged(id, after, written);
  }

  lemma IsWriter(th: Thread)
    requires th.job == Write(0) && th.file == FILE && th.pc == Log && !th.inMutex && th.shift == 0 && th.delta == 2
    ensures Writer(th)
  {
  }

  lemma StopsUnlogged(id: nat, after: Thread, written: string)
    requires Writer(after) && after.lockId == id && Sentences(written) == ["X.", "Y."] + Sentences(DOCUMENT)
    ensures Unlogged(Alone(Scene(map[], map[id := 2], 2), after,
                           Written(BackedUp(Resolved(Sent(), FILE), FILE), FILE, written)))
  {
    hide Sentences;
  }

  // ---------------------------------------------------------------- the late session

  /** Session 1 has begun and asks for sentence 3; session 2 has still not logged. */
  predicate Begins(st: State) {
    && st.mutex == None && st.threads.Keys == {1, 2} && Writer(st.threads[2])
    && st.held == map[st.threads[2].lockId := 2]
    && st.threads[1] == Begun(3, FILE, 0, true)
    && FILE in st.shared.files && Sentences(st.shared.files[FILE]) == ["X.", "Y."] + Sentences(DOCUMENT)
    && st.shared.log == [] && st.shared.nextLogId == 0 && st.shared.fileLocks == [FileLock(FILE, 0)]
  }

  lemma FirstBegins(st: State) returns (evs: seq<Event>, end: State)
    requires Unlogged(st)
    ensures Leads(st, evs, end) && Begins(end)
  {
    DocumentSentences();
    ValidationIsEditable(Content(st.shared, FILE), 3);
    hide Leads, Sentences, MaxValidIndex, Begun;
    evs := BeginAlone(st, 1, 3, FILE);
    end := Alone(Scene(st.threads, st.held, 1), Begun(3, FILE, 0, true),
                 st.shared.(sentenceLocks := [SentenceLock(FILE, 3)] + st.shared.sentenceLocks));
  }

  /** Session 2 has logged and is gone. */
  predicate Logged2(st: State) {
    && st.mutex == None && st.held == map[] && 1 in st.threads && st.threads[1] == Begun(3, FILE, 0, true)
    && FILE in st.shared.files && Sentences(st.shared.files[FILE]) == ["X.", "Y."] + Sentences(DOCUMENT)
    && st.shared.log == [LogEntry(0, FILE, 0, 2)] && st.shared.fileLocks == [FileLock(FILE, 0)]
  }

  lemma LogBody(sh: Shared, th: Thread)
    requires Writer(th)
    ensures var out := th.(pc := ReleaseFile);
            MutexBody(sh, th.(inMutex := true)) == (Logged(sh, FILE, 0, 2), out.(inMutex := true))
            && out.(inMutex := true).(inMutex := false) == out
  {
  }

  lemma SecondIsWriter(st: State)
    requires Begins(st)
    ensures 2 in st.threads && Writer(st.threads[2]) && st.mutex == None
    ensures st.threads[2].job == Write(0) && st.threads[2].pc == Log && !st.threads[2].inMutex
    ensures st == Alone(Scene(st.threads, st.held, 2), st.threads[2], st.shared)
  {
    assert st.threads[2 := st.threads[2]] == st.threads;
  }

  lemma FreedIsLogged(st: State)
    requires Begins(st)
    ensures Logged2(Freed(Scene(st.threads, st.held, 2), st.threads[2].(pc := ReleaseFile),
                          Logged(st.shared, FILE, 0, 2)))
  {
    hide Sentences, Begun, Without;
  }

  lemma SecondLogs(st: State) returns (evs: seq<Event>, end: State)
    requires Begins(st)
    ensures Leads(st, evs, end) && Logged2(end)
  {
    hide Leads, Begins, Logged2, MutexBody, Writer, Alone, Logged, Freed;
    SecondIsWriter(st);
    FreedIsLogged(st);
    var sc, th, sh := Scene(st.threads, st.held, 2), st.threads[2], st.shared;
    var logged, out := Logged(sh, FILE, 0, 2), th.(pc := ReleaseFile);
    LogBody(sh, th);
    MutexStep(sc, th, sh);
    var y := ReleaseFreed(sc, out, logged);
    LeadsOn(st, [Step(2)] + [Step(2)], Alone(sc, out, logged), y, Freed(sc, out, logged));
    evs := [Step(2)] + [Step(2)] + y;
    end := Freed(sc, out, logged);
  }

  lemma ReleaseFreed(sc: Scene, th: Thread, sh: Shared) returns (evs: seq<Event>)
    requires th.pc == ReleaseFile && !th.inMutex && th.job.Write?
    ensures Leads(Alone(sc, th, sh), evs, Freed(sc, th, sh))
  {
    hide Leads, Alone, Without;
    evs := ReleaseAlone(sc, th, sh);
  }

  function Freed(sc: Scene, th: Thread, sh: Shared): State
    requires th.job.Write?
  {
    Alone(sc.(held := sc.held - {th.lockId}), th.(pc := Finished),
          sh.(sentenceLocks := Without(sh.sentenceLocks, SentenceOf(th))))
  }

  /** Session 1 is at its update loop, aiming two sentences past the one it asked for, which
      has not moved since. */
  ghost predicate CountsTwice(st: State) {
    && 1 in st.threads && st.threads[1].job == Write(3) && st.threads[1].pc == Apply
    && Sentences(st.threads[1].content) == ["X.", "Y.", "A.", "B.", "C."]
    && Target(st.threads[1]) == 5
  }

  lemma FirstLoopsLate(st: State) returns (evs: seq<Event>, end: State)
    requires Logged2(st)
    ensures Leads(st, evs, end) && CountsTwice(end)
  {
    var sc, th := Scene(st.threads, st.held, 1), st.threads[1];
    assert st == Alone(sc, th, st.shared) by {
      assert st.threads[1 := th] == st.threads;
    }
    assert CommitLockFree(st.shared, st.held, FILE);
    var id: nat;
    evs, id := LoopLate(sc, th, st.shared);
    end := LateEnd(sc, th, st.shared, id);
    LateEndCounts(st, id);
  }

  lemma LoopLate(sc: Scene, th: Thread, sh: Shared) returns (evs: seq<Event>, id: nat)
    requires th == Begun(3, FILE, 0, true) && CommitLockFree(sh, sc.held, FILE)
    ensures Leads(Alone(sc, th, sh), evs, LateEnd(sc, th, sh, id))
  {
    hide Leads, Alone, Ready, BackedUp, CommitLockFree, Resolved;
    evs, id := LoopAlone(sc, th, sh);
  }

  function LateEnd(sc: Scene, th: Thread, sh: Shared, id: nat): State
    requires th.job.Write?
  {
    Alone(sc.(held := sc.held[id := sc.t]), Ready(Resolved(sh, th.file), th.(lockId := id)),
          BackedUp(Resolved(sh, th.file), th.file))
  }

  lemma LateEndCounts(st: State, id: nat)
    requires Logged2(st)
    ensures CountsTwice(LateEnd(Scene(st.threads, st.held, 1), st.threads[1], st.shared, id))
  {
    DocumentSentences();
    var log := st.shared.log;
    hide Sentences;
    assert log[1..] == [] && Shift(log[1..], FILE, 3, 0) == 0 && Shift(log, FILE, 3, 0) == 2;
    assert ["X.", "Y."] + ["A.", "B.", "C."] == ["X.", "Y.", "A.", "B.", "C."];
  }

  /** Session 2 writes "X. Y." in front of "A. B. C." and stops before it logs that. Session 1
      asks for sentence 3, which is "B.". Session 2 logs; session 1 comes to its update loop
      aiming at number 5, behind the last sentence. */
  lemma ChangeCountedTwice() returns (evs: seq<Event>, end: State)
    ensures Sentences(DOCUMENT) == ["A.", "B.", "C."]
    ensures Initial(Fresh(DOCUMENT)) && Leads(Fresh(DOCUMENT), evs, end) && CountsTwice(end)
  {
    DocumentSentences();
    assert Initial(Fresh(DOCUMENT));
    hide Leads, Sentences, Unlogged, Begins, Logged2, CountsTwice, Fresh, Initial;
    var x, st := SecondStops();
    var y, st1 := FirstBegins(st);
    LeadsOn(Fresh(DOCUMENT), x, st, y, st1);
    var z, st2 := SecondLogs(st1);
    LeadsOn(Fresh(DOCUMENT), x + y, st1, z, st2);
    var w: seq<Event>;
    w, end := FirstLoopsLate(st2);
    LeadsOn(Fresh(DOCUMENT), x + y + z, st2, w, end);
    evs := x + y + z + w;
  }
}
