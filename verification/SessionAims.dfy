/** Where a session's commit aims, and where the sentence is that it asked for. */
module SessionAims {
  import opened FileParser
  import opened EditQueue
  import opened ModificationLog
  import opened StorageState
  import opened WriteProtocol
  import opened Invariants
  import opened Preservation
  import opened FileEffects
  import opened NoLostUpdates
  import opened SentenceLedger
  import opened SessionTracking

  // ---------------------------------------------------------------- a change still to be logged

  /** While one commit has its change still to log, no other touches the file. */
  lemma WaitStep(st: State, e: Event, u: nat, file: string, start: int)
    requires Inv(st) && Enabled(st, e) && Pending(st, u, file) && !Logs(st, e, file)
    requires NoneSince(st.shared.log, file, start) && start <= st.shared.nextLogId
    ensures !Saves(st, e, file) && !Reverts(st, e, file)
    ensures Pending(Next(st, e), u, file) && st.threads[u].job.Write?
    ensures Next(st, e).threads[u].job == st.threads[u].job
    ensures Next(st, e).threads[u].shift == st.threads[u].shift && Next(st, e).threads[u].delta == st.threads[u].delta
    ensures Content(Next(st, e).shared, file) == Content(st.shared, file)
    ensures NoneSince(Next(st, e).shared.log, file, start) && start <= Next(st, e).shared.nextLogId
  {
    PendingSteps(st, e, file);
    PendingKind(st, u, file);
    if Reverts(st, e, file) {
      CommitExclusion(st, e.t, u);
    }
    ContentAfter(st, e, file);
    LogChanges(st, e, file);
    LogTip(st, e);
    hide Inv, Next, Sentences, ApplyAll, Growth, Content;
  }

  lemma LogTip(st: State, e: Event)
    requires Inv(st) && Enabled(st, e)
    ensures st.shared.nextLogId == |st.shared.log| && Next(st, e).shared.nextLogId == |Next(st, e).shared.log|
    ensures |Next(st, e).shared.log| >= |st.shared.log|
    ensures Next(st, e).shared.log[..|st.shared.log|] == st.shared.log
  {
    StepKeepsInv(st, e);
    LogChanges(st, e, "");
    hide Next, ThreadOk, SentenceLocksOk, HeldOk, MutexOk, CommitLocksOk;
  }

  /** Its log step. */
  lemma SettleStep(st: State, e: Event, u: nat, file: string)
    requires Inv(st) && Enabled(st, e) && Pending(st, u, file) && Logs(st, e, file)
    ensures st.threads[u].job.Write?
    ensures forall v :: !Pending(Next(st, e), v, file)
    ensures !Saves(st, e, file) && !Reverts(st, e, file)
    ensures Content(Next(st, e).shared, file) == Content(st.shared, file)
    ensures Next(st, e).shared.log ==
            st.shared.log + [LogEntry(st.shared.nextLogId, file, Target(st.threads[u]), st.threads[u].delta)]
    ensures Next(st, e).shared.nextLogId == st.shared.nextLogId + 1
  {
    PendingSteps(st, e, file);
    PendingKind(st, u, file);
    OnePending(st, u, file);
    ContentAfter(st, e, file);
    LogChanges(st, e, file);
    LogTip(st, e);
    hide Inv, Next, Sentences, ApplyAll, Growth, Content;
  }

  /** A point of a run at which nothing of the file is left to log, and the file is still as
      it was: what a session that began at `start` will count too much, and from where on the
      log is about changes made after it began. */
  ghost predicate SettledAt(st: State, mid: State, file: string, k: int, start: int, from: int) {
    && Inv(mid) && (forall u :: !Pending(mid, u, file))
    && Content(mid.shared, file) == Content(st.shared, file)
    && 0 <= start <= from == mid.shared.nextLogId == |mid.shared.log|
    && ((forall u :: !Pending(st, u, file)) ==> mid == st && from == start)
    && (forall u | Pending(st, u, file) ::
          && start < from && st.threads[u].job.Write?
          && mid.shared.log[from - 1] ==
             LogEntry(from - 1, file, Target(st.threads[u]), st.threads[u].delta))
    && Shift(mid.shared.log, file, k, start) ==
       if from == start then 0 else Counted(mid.shared.log[from - 1], k)
  }

  lemma SettledNow(st: State, file: string, k: int)
    requires Inv(st) && forall u :: !Pending(st, u, file)
    ensures SettledAt(st, st, file, k, st.shared.nextLogId, st.shared.nextLogId)
  {
    assert LogOk(st.shared);
    ShiftOfOld(st.shared.log, file, k, st.shared.nextLogId);
    hide Shift, Content, ThreadOk, SentenceLocksOk, HeldOk, MutexOk, CommitLocksOk;
  }

  /** The log step settles it. */
  lemma SettledNext(st: State, e: Event, u: nat, file: string, k: int, start: int)
    requires Inv(st) && Enabled(st, e) && Pending(st, u, file) && Logs(st, e, file)
    requires NoneSince(st.shared.log, file, start) && 0 <= start <= st.shared.nextLogId
    ensures SettledAt(st, Next(st, e), file, k, start, Next(st, e).shared.nextLogId)
    ensures !Saves(st, e, file) && !Reverts(st, e, file)
  {
    hide Inv, Next, Shift, NoneSince, Content, Logs, Saves, Reverts;
    var next := Next(st, e);
    StepKeepsInv(st, e);
    SettleStep(st, e, u, file);
    LogTip(st, e);
    AllPendingAre(st, u, file);
    ShiftOfNone(st.shared.log, file, k, start);
    var th := st.threads[u];
    ShiftSnoc(st.shared.log, LogEntry(st.shared.nextLogId, file, Target(th), th.delta), file, k, start);
    hide Pending;
  }

  lemma AllPendingAre(st: State, u: nat, file: string)
    requires Inv(st) && Pending(st, u, file)
    ensures forall v | Pending(st, v, file) :: v == u
  {
    OnePending(st, u, file);
  }

  /** What is settled after a step of waiting is settled. */
  lemma SettledLater(st: State, e: Event, u: nat, mid: State, file: string, k: int, start: int, from: int)
    requires Inv(st) && Enabled(st, e) && Pending(st, u, file) && !Logs(st, e, file)
    requires NoneSince(st.shared.log, file, start) && 0 <= start <= st.shared.nextLogId
    requires SettledAt(Next(st, e), mid, file, k, start, from)
    ensures SettledAt(st, mid, file, k, start, from)
  {
    WaitStep(st, e, u, file, start);
    AllPendingAre(st, u, file);
    hide Inv, Next, Shift, NoneSince, Content, Logs, Saves, Reverts;
  }

  /** A run, split. */
  ghost predicate Splits(st: State, evs: seq<Event>, i: nat) {
    && i <= |evs| && Run(st, evs) && Run(st, evs[..i]) && Run(After(st, evs[..i]), evs[i..])
    && After(After(st, evs[..i]), evs[i..]) == After(st, evs)
  }

  lemma SplitsOne(st: State, evs: seq<Event>, i: nat)
    requires Run(st, evs) && evs != [] && Splits(Next(st, evs[0]), evs[1..], i)
    ensures Splits(st, evs, i + 1) && i + 1 <= |evs| && Run(st, evs[..i + 1])
    ensures After(st, evs[..i + 1]) == After(Next(st, evs[0]), evs[1..][..i]) && evs[i + 1..] == evs[1..][i..]
  {
    assert evs[..i + 1][1..] == evs[1..][..i] && evs[1..][i..] == evs[i + 1..];
    hide Next;
  }

  /** The rest of the run is as careful as the whole, and has no undo if the whole has none. */
  ghost predicate TailAsGood(st: State, evs: seq<Event>, i: nat, file: string, k: int)
    requires Splits(st, evs, i)
  {
    var mid := After(st, evs[..i]);
    && (CarefulRun(st, evs, file, k) ==> CarefulRun(mid, evs[i..], file, k))
    && (NoRevert(st, evs, file) ==> NoRevert(mid, evs[i..], file))
  }

  lemma TailOne(st: State, evs: seq<Event>, i: nat, file: string, k: int)
    requires Run(st, evs) && evs != [] && !Saves(st, evs[0], file)
    requires Splits(Next(st, evs[0]), evs[1..], i) && TailAsGood(Next(st, evs[0]), evs[1..], i, file, k)
    ensures Splits(st, evs, i + 1) && TailAsGood(st, evs, i + 1, file, k)
  {
    SplitsOne(st, evs, i);
    assert NextPos(st, evs[0], file, k) == k;
    hide Next, Splits, After, Careful, Saves, Reverts;
  }

  lemma TailNow(st: State, evs: seq<Event>, file: string, k: int)
    requires Run(st, evs)
    ensures Splits(st, evs, 0) && TailAsGood(st, evs, 0, file, k) && After(st, evs[..0]) == st
  {
    assert evs[..0] == [] && evs[0..] == evs;
  }

  lemma RunGoesOn(st: State, u: nat, evs: seq<Event>, file: string)
    requires Run(st, evs) && Pending(st, u, file) && !Pending(After(st, evs), u, file)
    ensures evs != [] && Enabled(st, evs[0]) && Run(Next(st, evs[0]), evs[1..])
    ensures After(st, evs) == After(Next(st, evs[0]), evs[1..])
  {
  }

  /** If the change is logged in the end, it is logged at some point; until then the run is
      as good as nothing for the file. */
  lemma {:induction false} SettleRun(st: State, u: nat, evs: seq<Event>, file: string, k: int, start: int)
    returns (i: nat, from: int)
    requires Inv(st) && Run(st, evs) && Pending(st, u, file) && !Pending(After(st, evs), u, file)
    requires NoneSince(st.shared.log, file, start) && 0 <= start <= st.shared.nextLogId
    ensures Splits(st, evs, i) && TailAsGood(st, evs, i, file, k)
    ensures SettledAt(st, After(st, evs[..i]), file, k, start, from)
    decreases |evs|
  {
    hide Inv, Run, After, Next, Pending, SettledAt, Splits, TailAsGood, NoneSince, Saves, Logs;
    RunGoesOn(st, u, evs, file);
    var e, next := evs[0], Next(st, evs[0]);
    StepKeepsInv(st, e);
    if Logs(st, e, file) {
      SettledNext(st, e, u, file, k, start);
      TailNow(next, evs[1..], file, k);
      TailOne(st, evs, 0, file, k);
      i, from := 1, next.shared.nextLogId;
      SplitsOne(st, evs, 0);
    } else {
      WaitStep(st, e, u, file, start);
      var j: nat;
      j, from := SettleRun(next, u, evs[1..], file, k, start);
      TailOne(st, evs, j, file, k);
      SplitsOne(st, evs, j);
      SettledLater(st, e, u, After(st, evs[..j + 1]), file, k, start, from);
      i := j + 1;
    }
  }

  lemma NoneSinceTip(st: State, file: string)
    requires Inv(st)
    ensures 0 <= st.shared.nextLogId && NoneSince(st.shared.log, file, st.shared.nextLogId)
  {
    hide ThreadOk, SentenceLocksOk, HeldOk, MutexOk, CommitLocksOk;
  }

  /** A run after which nothing is left to log has a point where that is so and the file is
      still as it was. */
  lemma Settle(st: State, evs: seq<Event>, file: string, k: int) returns (i: nat, from: int)
    requires Inv(st) && Run(st, evs) && forall u :: !Pending(After(st, evs), u, file)
    ensures i <= |evs| && Run(st, evs[..i])
    ensures Splits(st, evs, i) && TailAsGood(st, evs, i, file, k)
    ensures SettledAt(st, After(st, evs[..i]), file, k, st.shared.nextLogId, from)
  {
    hide Inv, After, Run, TailAsGood, SettledAt, NoneSince, Pending;
    NoneSinceTip(st, file);
    if u :| Pending(st, u, file) {
      i, from := SettleRun(st, u, evs, file, k, st.shared.nextLogId);
    } else {
      TailNow(st, evs, file, k);
      SettledNow(st, file, k);
      i, from := 0, st.shared.nextLogId;
    }
  }

  /** What lies between `start` and `from` in the log stays as it is. */
  lemma GapStep(st: State, e: Event, file: string, k: int, start: int, from: int)
    requires Inv(st) && Enabled(st, e) && start <= from <= st.shared.nextLogId
    ensures from <= Next(st, e).shared.nextLogId
    ensures Shift(Next(st, e).shared.log, file, k, start) - Shift(Next(st, e).shared.log, file, k, from) ==
            Shift(st.shared.log, file, k, start) - Shift(st.shared.log, file, k, from)
  {
    LogChanges(st, e, file);
    LogTip(st, e);
    if g: string :| Logs(st, e, g) {
      var th := st.threads[e.t];
      var entry := LogEntry(st.shared.nextLogId, th.file, Target(th), th.delta);
      ShiftSnoc(st.shared.log, entry, file, k, start);
      ShiftSnoc(st.shared.log, entry, file, k, from);
    }
    hide Inv, Next, Shift;
  }

  lemma {:induction false} GapRun(st: State, evs: seq<Event>, file: string, k: int, start: int, from: int)
    requires Inv(st) && Run(st, evs) && start <= from <= st.shared.nextLogId
    ensures Shift(After(st, evs).shared.log, file, k, start) - Shift(After(st, evs).shared.log, file, k, from) ==
            Shift(st.shared.log, file, k, start) - Shift(st.shared.log, file, k, from)
    ensures |After(st, evs).shared.log| >= |st.shared.log|
    ensures After(st, evs).shared.log[..|st.shared.log|] == st.shared.log
    decreases |evs|
  {
    if evs != [] {
      GapStep(st, evs[0], file, k, start, from);
      LogTip(st, evs[0]);
      StepKeepsInv(st, evs[0]);
      hide Inv, Next, Shift;
      GapRun(Next(st, evs[0]), evs[1..], file, k, start, from);
    }
  }

  /** The session reads the log tip; the file and what is still to be logged stay. */
  lemma BeginStep(st: State, t: nat)
    requires Inv(st) && t in st.threads && st.threads[t].job.Write?
    requires st.threads[t].pc == GetId && st.threads[t].inMutex
    ensures var next, file := Next(st, Step(t)), st.threads[t].file;
            && Inv(next) && next.shared == st.shared
            && (forall u :: Pending(next, u, file) <==> Pending(st, u, file))
            && (forall u | Pending(st, u, file) :: u in next.threads && next.threads[u] == st.threads[u])
            && t in next.threads && next.threads[t].startId == st.shared.nextLogId && next.threads[t].pc == TryLock
            && next.threads[t].job == st.threads[t].job && next.threads[t].file == file
  {
    StepKeepsInv(st, Step(t));
    hide Inv;
  }

  lemma NonePendingAtLoop(st: State, t: nat)
    requires Inv(st) && t in st.threads && st.threads[t].pc == Apply
    ensures forall u :: !Pending(st, u, st.threads[t].file)
  {
    OnePending(st, t, st.threads[t].file);
  }

  /** The change, if any, that was in the file when session `t` began and was logged only
      later, is the log's entry before `from`. */
  ghost predicate LoggedLate(st: State, t: nat, log: seq<LogEntry>, from: int)
    requires t in st.threads
  {
    var file, start := st.threads[t].file, st.shared.nextLogId;
    && 0 <= start <= from <= |log|
    && ((forall u :: !Pending(st, u, file)) ==> from == start)
    && forall u | Pending(st, u, file) ::
         && start < from && st.threads[u].job.Write?
         && log[from - 1] == LogEntry(from - 1, file, Target(st.threads[u]), st.threads[u].delta)
  }

  /** What that change adds to the session's shift, though the file already had it. */
  function Early(log: seq<LogEntry>, start: int, from: int, k: int): int
    requires 0 <= start <= from <= |log|
  {
    if from == start then 0 else Counted(log[from - 1], k)
  }

  lemma LateEntry(st: State, t: nat, next: State, mid: State, end: State, k: int, from: int)
    requires t in st.threads && next.shared == st.shared
    requires forall u :: Pending(next, u, st.threads[t].file) <==> Pending(st, u, st.threads[t].file)
    requires forall u | Pending(st, u, st.threads[t].file) :: u in next.threads && next.threads[u] == st.threads[u]
    requires SettledAt(next, mid, st.threads[t].file, k, st.shared.nextLogId, from)
    requires |end.shared.log| >= |mid.shared.log| && end.shared.log[..|mid.shared.log|] == mid.shared.log
    ensures 0 <= st.shared.nextLogId <= from <= |end.shared.log| && LoggedLate(st, t, end.shared.log, from)
    ensures Shift(mid.shared.log, st.threads[t].file, k, st.shared.nextLogId) ==
            Early(end.shared.log, st.shared.nextLogId, from, k)
  {
    hide Inv, Shift, Pending, Content;
    assert from > 0 ==> end.shared.log[from - 1] == mid.shared.log[from - 1];
  }

  /** A session reads the log tip. Whatever the other sessions then do, as long as each of
      their commits is careful, the sentence it asked for is still in the file when it
      commits, with its text, where the log from some point on says. That point is the log
      tip, or just behind the entry of a commit that had written but not yet logged when the
      session began. Such an entry, if below the number asked for, is counted too much. Apart
      from that the commit never aims past the sentence, and aims at it exactly when no
      logged change fell between the index asked for and the place the sentence had by then. */
  lemma SessionEditsItsSentence(st: State, t: nat, evs: seq<Event>) returns (from: int)
    requires Inv(st) && t in st.threads && st.threads[t].job.Write?
    requires st.threads[t].pc == GetId && st.threads[t].inMutex
    requires 0 <= st.threads[t].job.num < |Sentences(Content(st.shared, st.threads[t].file))|
    requires Run(Next(st, Step(t)), evs)
    requires CarefulRun(Next(st, Step(t)), evs, st.threads[t].file, st.threads[t].job.num)
    requires t in After(Next(st, Step(t)), evs).threads
    requires After(Next(st, Step(t)), evs).threads[t].pc == Apply
    ensures LoggedLate(st, t, After(Next(st, Step(t)), evs).shared.log, from)
    ensures var end := After(Next(st, Step(t)), evs);
            Tracks(st, t, end, from, Early(end.shared.log, st.shared.nextLogId, from, st.threads[t].job.num))
  {
    hide Inv, Next, Run, After, Sentences, Tracked, CarefulRun, NoRevert, FinalPos, Track, Shift, Overtaken,
         Pending, Splits, SettledAt, TailAsGood, LoggedLate, Tracks, Early, Content;
    var file, num, start := st.threads[t].file, st.threads[t].job.num, st.shared.nextLogId;
    var text := Sentences(Content(st.shared, file))[num];
    var next := Next(st, Step(t));
    var end := After(next, evs);
    BeginStep(st, t);
    RunKeepsInv(next, evs);
    ThreadKeepsRun(next, evs, t);
    NonePendingAtLoop(end, t);
    var i: nat;
    i, from := Settle(next, evs, file, num);
    var mid := After(next, evs[..i]);
    TrackFromMid(next, evs, i, file, num, start, from, text);
    LateEntry(st, t, next, mid, end, num, from);
    var pos := FinalPos(mid, evs[i..], file, num);
    TrackedTarget(end, t, from, pos, text);
    AimsAt(st, t, end, from, pos, text);
  }

  /** The second part of the run, from where the file is settled. */
  lemma TrackFromMid(st: State, evs: seq<Event>, i: nat, file: string, k: int, start: int, from: int, text: string)
    requires Splits(st, evs, i) && TailAsGood(st, evs, i, file, k) && CarefulRun(st, evs, file, k)
    requires SettledAt(st, After(st, evs[..i]), file, k, start, from) && Reads(st, file, k, text)
    ensures var mid := After(st, evs[..i]);
            && Run(mid, evs[i..]) && After(mid, evs[i..]) == After(st, evs)
            && Tracked(After(st, evs), file, k, from, FinalPos(mid, evs[i..], file, k), text)
            && Inv(After(st, evs))
            && |After(st, evs).shared.log| >= |mid.shared.log|
            && After(st, evs).shared.log[..|mid.shared.log|] == mid.shared.log
            && Shift(After(st, evs).shared.log, file, k, start) ==
               Shift(mid.shared.log, file, k, start) + Shift(After(st, evs).shared.log, file, k, from)
  {
    var mid := After(st, evs[..i]);
    NoOldEntries(mid, file, k);
    assert Tracked(mid, file, k, from, k, text) by {
      hide Inv, Sentences;
    }
    assert Inv(mid) && start <= from == mid.shared.nextLogId;
    hide Inv, Run, After, Tracked, CarefulRun, NoRevert, FinalPos, Shift, Track;
    TrackRun(mid, evs[i..], file, k, from, k, text);
    GapRun(mid, evs[i..], file, k, start, from);
  }

  lemma NoOldEntries(st: State, file: string, k: int)
    requires Inv(st)
    ensures Shift(st.shared.log, file, k, st.shared.nextLogId) == 0
    ensures Track(st.shared.log, file, k, st.shared.nextLogId) == k
    ensures Grown(st.shared.log, file, st.shared.nextLogId) == 0
  {
    ShiftOfOld(st.shared.log, file, k, st.shared.nextLogId);
    TrackOfOld(st.shared.log, file, k, st.shared.nextLogId);
    GrownOfOld(st.shared.log, file, st.shared.nextLogId);
  }

  /** Where the sentence that `t` asked for in `st` is at its update loop in `end`, and where
      its commit aims: `early` too far for what was logged late, and otherwise as far as the
      shift, which leaves out the changes that overtook it, allows. */
  ghost predicate Tracks(st: State, t: nat, end: State, from: int, early: int) {
    && t in st.threads && t in end.threads && st.threads[t].job.Write? && end.threads[t].job == st.threads[t].job
    && var file, num, th := st.threads[t].file, st.threads[t].job.num, end.threads[t];
    var log, before := end.shared.log, Sentences(Content(st.shared, st.threads[t].file));
    var place := Track(log, file, num, from);
    && th.content == Content(end.shared, file)
    && 0 <= num < |before| && 0 <= place < |Sentences(th.content)| && Sentences(th.content)[place] == before[num]
    && Target(th) <= place + early
    && (Target(th) == place + early <==> !Overtaken(log, file, num, num, from))
    && (Target(th) == place <==> place - num - Shift(log, file, num, from) == early)
  }

  lemma AimsAt(st: State, t: nat, end: State, from: int, pos: int, text: string)
    requires t in st.threads && st.threads[t].job.Write? && t in end.threads
    requires end.threads[t].job == st.threads[t].job && end.threads[t].file == st.threads[t].file
    requires 0 <= st.threads[t].job.num < |Sentences(Content(st.shared, st.threads[t].file))|
    requires text == Sentences(Content(st.shared, st.threads[t].file))[st.threads[t].job.num]
    requires 0 <= st.shared.nextLogId <= from <= |end.shared.log|
    requires AtLoop(end, t, from, pos, text)
    requires Shift(end.shared.log, st.threads[t].file, st.threads[t].job.num, st.shared.nextLogId) ==
             Early(end.shared.log, st.shared.nextLogId, from, st.threads[t].job.num)
             + Shift(end.shared.log, st.threads[t].file, st.threads[t].job.num, from)
    requires end.threads[t].startId == st.shared.nextLogId
    ensures Tracks(st, t, end, from, Early(end.shared.log, st.shared.nextLogId, from, st.threads[t].job.num))
  {
    hide Sentences, Shift, Track, Overtaken, Content, Early;
  }

  /** At its update loop a session's target is what its shift makes of the index asked for;
      the sentence's place is what the log from `from` on makes of it entry by entry. */
  ghost predicate AtLoop(st: State, t: nat, from: int, pos: int, text: string)
    requires t in st.threads && st.threads[t].job.Write?
  {
    var th, log := st.threads[t], st.shared.log;
    && th.content == Content(st.shared, th.file)
    && pos == Track(log, th.file, th.job.num, from)
    && 0 <= pos < |Sentences(th.content)| && Sentences(th.content)[pos] == text
    && Target(th) == th.job.num + Shift(log, th.file, th.job.num, th.startId)
    && th.job.num + Shift(log, th.file, th.job.num, from) <= pos
    && (th.job.num + Shift(log, th.file, th.job.num, from) == pos <==>
          !Overtaken(log, th.file, th.job.num, th.job.num, from))
  }

  lemma TrackedTarget(st: State, t: nat, from: int, pos: int, text: string)
    requires Inv(st) && t in st.threads && st.threads[t].job.Write? && st.threads[t].pc == Apply
    requires Tracked(st, st.threads[t].file, st.threads[t].job.num, from, pos, text)
    ensures AtLoop(st, t, from, pos, text)
  {
    var th := st.threads[t];
    NonePendingAtLoop(st, t);
    assert ThreadOk(st, t, th) && LogOk(st.shared);
    ShiftArithmetic(st.shared.log, th.file, th.job.num, from);
    hide Inv, Sentences, Shift, ApplyAll, Track, Overtaken;
  }

  // ---------------------------------------------------------------- against the end

  lemma GrownStep(st: State, e: Event, file: string, start: int)
    requires Inv(st) && Enabled(st, e) && start <= st.shared.nextLogId
    ensures start <= Next(st, e).shared.nextLogId
    ensures Grown(Next(st, e).shared.log, file, start) - Grown(st.shared.log, file, start) ==
            Gained(Next(st, e).shared.log, file) - Gained(st.shared.log, file)
  {
    StepKeepsInv(st, e);
    LogChanges(st, e, file);
    if g: string :| Logs(st, e, g) {
      var th := st.threads[e.t];
      GrownSnoc(st.shared.log, LogEntry(st.shared.nextLogId, th.file, Target(th), th.delta), file, start);
      GainedSnoc(st.shared.log, LogEntry(st.shared.nextLogId, th.file, Target(th), th.delta), file);
    }
    hide Next, Grown, Gained;
  }

  lemma {:induction false} GrownRun(st: State, evs: seq<Event>, file: string, start: int)
    requires Inv(st) && Run(st, evs) && start <= st.shared.nextLogId
    ensures Grown(After(st, evs).shared.log, file, start) - Grown(st.shared.log, file, start) ==
            Gained(After(st, evs).shared.log, file) - Gained(st.shared.log, file)
    decreases |evs|
  {
    if evs != [] {
      GrownStep(st, evs[0], file, start);
      StepKeepsInv(st, evs[0]);
      hide Inv, Next, Grown, Gained;
      GrownRun(Next(st, evs[0]), evs[1..], file, start);
    }
  }

  /** A session that asks for the slot after the last sentence, or for any number: whatever
      the others do, short of an undo, its commit aims no nearer to the end of the file than
      it asked, but for what was logged late and counted too much; and exactly as near, at
      the append slot if that was asked for, exactly when all that was logged from then on
      lies below the number asked for. */
  lemma SessionAgainstEnd(st: State, t: nat, evs: seq<Event>) returns (from: int)
    requires Inv(st) && t in st.threads && st.threads[t].job.Write?
    requires st.threads[t].pc == GetId && st.threads[t].inMutex
    requires Run(Next(st, Step(t)), evs) && NoRevert(Next(st, Step(t)), evs, st.threads[t].file)
    requires t in After(Next(st, Step(t)), evs).threads
    requires After(Next(st, Step(t)), evs).threads[t].pc == Apply
    ensures LoggedLate(st, t, After(Next(st, Step(t)), evs).shared.log, from)
    ensures var end := After(Next(st, Step(t)), evs);
            AimsFromEnd(st, t, end, from, Early(end.shared.log, st.shared.nextLogId, from, st.threads[t].job.num))
  {
    hide Inv, Next, Run, After, Sentences, CarefulRun, NoRevert, Grown, Gained, Shift, AllBelow,
         Pending, Splits, SettledAt, TailAsGood, LoggedLate, AimsFromEnd, Early, Content;
    var file, num, start := st.threads[t].file, st.threads[t].job.num, st.shared.nextLogId;
    var next := Next(st, Step(t));
    var end := After(next, evs);
    BeginStep(st, t);
    RunKeepsInv(next, evs);
    ThreadKeepsRun(next, evs, t);
    NonePendingAtLoop(end, t);
    var i: nat;
    i, from := Settle(next, evs, file, num);
    var mid := After(next, evs[..i]);
    GrowFromMid(next, evs, i, file, num, start, from);
    LateEntry(st, t, next, mid, end, num, from);
    EndTarget(end, t, from);
    AimsEnd(st, t, end, from);
  }

  ghost predicate AimsFromEnd(st: State, t: nat, end: State, from: int, early: int) {
    && t in st.threads && t in end.threads && st.threads[t].job.Write? && end.threads[t].job == st.threads[t].job
    && var file, num, th := st.threads[t].file, st.threads[t].job.num, end.threads[t];
    var asked := |Sentences(Content(st.shared, file))| - num;
    && th.content == Content(end.shared, file)
    && |Sentences(th.content)| - Target(th) >= asked - early
    && (|Sentences(th.content)| - Target(th) == asked - early <==> AllBelow(end.shared.log, file, num, from))
  }

  lemma GrowFromMid(st: State, evs: seq<Event>, i: nat, file: string, k: int, start: int, from: int)
    requires Splits(st, evs, i) && TailAsGood(st, evs, i, file, k) && NoRevert(st, evs, file)
    requires SettledAt(st, After(st, evs[..i]), file, k, start, from)
    requires forall u :: !Pending(After(st, evs), u, file)
    ensures var mid, end := After(st, evs[..i]), After(st, evs);
            && |Sentences(Content(end.shared, file))| ==
               |Sentences(Content(st.shared, file))| + Grown(end.shared.log, file, from)
            && |end.shared.log| >= |mid.shared.log| && end.shared.log[..|mid.shared.log|] == mid.shared.log
            && Shift(end.shared.log, file, k, start) ==
               Shift(mid.shared.log, file, k, start) + Shift(end.shared.log, file, k, from)
  {
    var mid := After(st, evs[..i]);
    NoOldEntries(mid, file, k);
    var base := |Sentences(Content(mid.shared, file))| - Gained(mid.shared.log, file);
    assert Balanced(mid, file, base);
    assert Inv(mid) && start <= from == mid.shared.nextLogId;
    hide Inv, Run, After, NoRevert, Shift, Grown, Gained, Sentences, Content, Pending;
    BalanceRun(mid, evs[i..], file, base);
    GrownRun(mid, evs[i..], file, from);
    GapRun(mid, evs[i..], file, k, start, from);
  }

  lemma EndTarget(st: State, t: nat, from: int)
    requires Inv(st) && t in st.threads && st.threads[t].job.Write? && st.threads[t].pc == Apply
    ensures var th, log := st.threads[t], st.shared.log;
            && th.content == Content(st.shared, th.file)
            && Target(th) == th.job.num + Shift(log, th.file, th.job.num, th.startId)
            && Shift(log, th.file, th.job.num, from) <= Grown(log, th.file, from)
            && (Shift(log, th.file, th.job.num, from) == Grown(log, th.file, from) <==>
                  AllBelow(log, th.file, th.job.num, from))
  {
    var th := st.threads[t];
    assert ThreadOk(st, t, th) && LogOk(st.shared);
    ShiftAgainstGrown(st.shared.log, th.file, th.job.num, from);
    hide Inv, Sentences, Shift, ApplyAll, Grown, AllBelow;
  }

  lemma AimsEnd(st: State, t: nat, end: State, from: int)
    requires t in st.threads && st.threads[t].job.Write? && t in end.threads
    requires end.threads[t].job == st.threads[t].job && end.threads[t].file == st.threads[t].file
    requires 0 <= st.shared.nextLogId <= from <= |end.shared.log| && end.threads[t].startId == st.shared.nextLogId
    requires var th, log := end.threads[t], end.shared.log;
             && th.content == Content(end.shared, th.file)
             && Target(th) == th.job.num + Shift(log, th.file, th.job.num, th.startId)
             && Shift(log, th.file, th.job.num, from) <= Grown(log, th.file, from)
             && (Shift(log, th.file, th.job.num, from) == Grown(log, th.file, from) <==>
                   AllBelow(log, th.file, th.job.num, from))
             && |Sentences(Content(end.shared, th.file))| ==
                |Sentences(Content(st.shared, th.file))| + Grown(log, th.file, from)
             && Shift(log, th.file, th.job.num, th.startId) ==
                Early(log, st.shared.nextLogId, from, th.job.num) + Shift(log, th.file, th.job.num, from)
    ensures AimsFromEnd(st, t, end, from, Early(end.shared.log, st.shared.nextLogId, from, st.threads[t].job.num))
  {
    hide Sentences, Shift, Grown, AllBelow, Content, Early;
  }
}
