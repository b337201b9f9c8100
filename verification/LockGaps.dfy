/** What the sentence locks exclude and what they do not: they are taken by the number a
    session asked for, and sentences move. */
module LockGaps {
  import opened Text
  import opened ModificationLog
  import opened StorageState
  import opened WriteProtocol
  import opened Invariants
  import opened Preservation
  import opened CommitSteps
  import opened SoloSession

  /** The sentence a session's commit would edit, were it to read its shift now. */
  function Aim(st: State, t: nat): int
    requires t in st.threads && st.threads[t].job.Write?
  {
    var th := st.threads[t];
    th.job.num + Shift(st.shared.log, th.file, th.job.num, th.startId)
  }

  /** By the log, the sentence asked for is no longer at the number asked for. */
  predicate HasMoved(st: State, t: nat)
    requires t in st.threads && st.threads[t].job.Write?
  {
    Aim(st, t) != st.threads[t].job.num
  }

  /** In every reachable state, two sessions that have their sentence locks on one file aim
      at different sentences unless one of these has moved. */
  lemma UnmovedSessionsApart(st0: State, evs: seq<Event>, st: State, t: nat, u: nat)
    requires Initial(st0) && Leads(st0, evs, st)
    requires && t in st.threads && u in st.threads && t != u
             && HoldsSentence(st.threads[t]) && HoldsSentence(st.threads[u])
             && st.threads[t].file == st.threads[u].file
             && Aim(st, t) == Aim(st, u)
    ensures HasMoved(st, t) || HasMoved(st, u)
  {
    ReachableInv(st0, evs);
    hide Shift, Run, After;
    assert Holder(st, t, SentenceOf(st.threads[t])) && Holder(st, u, SentenceOf(st.threads[u]));
  }

  lemma NewShift(st: State, file: string, num: int)
    requires Inv(st)
    ensures Shift(st.shared.log, file, num, st.shared.nextLogId) == 0
  {
    ShiftOfOld(st.shared.log, file, num, st.shared.nextLogId);
  }

  /** How far a new session gets before it waits for its client, or is refused. */
  predicate Settled(th: Thread) {
    th.pc == Receive || th.pc == Unlock || th.pc == Finished
  }

  /** In every reachable state: a new session's request, served with nobody in between. It is let in and aims at the
      sentence a waiting session aims at exactly when it asks for that sentence by its
      present number, nobody has that number locked, and it is in range. */
  lemma SecondSession(st0: State, run: seq<Event>, st: State, t: nat, u: nat, num: int) returns (evs: seq<Event>)
    requires Initial(st0) && Leads(st0, run, st)
    requires st.mutex == None && t in st.threads && u !in st.threads
    requires st.threads[t].job.Write? && st.threads[t].pc == Receive
    ensures |evs| > 0 && evs[0] == Start(u, Write(num), st.threads[t].file) && OnlyStepsOf(evs[1..], u)
    ensures Run(st, evs)
    ensures var file, end := st.threads[t].file, After(st, evs);
            && t in end.threads && end.threads[t] == st.threads[t] && Aim(end, t) == Aim(st, t)
            && end.shared == st.shared.(sentenceLocks := end.shared.sentenceLocks)
            && u in end.threads && end.threads[u].job == Write(num) && Settled(end.threads[u])
            && (end.threads[u].pc == Receive && Aim(end, u) == Aim(end, t) <==>
                  && num == Aim(st, t)
                  && SentenceLock(file, num) !in st.shared.sentenceLocks
                  && 0 <= num <= MaxValidIndex(Content(st.shared, file)))
            && (end.threads[u].pc == Receive ==>
                  Holder(end, t, SentenceOf(st.threads[t])) && Holder(end, u, SentenceLock(file, num)))
  {
    hide Inv, Run, After, Shift, MaxValidIndex, Content;
    var file := st.threads[t].file;
    ReachableInv(st0, run);
    NewShift(st, file, num);
    if SentenceLock(file, num) in st.shared.sentenceLocks {
      evs := AskAlone(st, u, num, file);
    } else {
      evs := BeginAlone(st, u, num, file);
    }
  }
}
