/** Commits are all or nothing, and an undo goes back to just before the latest commit
    attempt, once. */
module UndoFacts {
  import opened Text
  import opened EditQueue
  import opened StorageState
  import opened WriteProtocol
  import opened Invariants
  import opened Preservation
  import opened FileEffects

  /** A commit that has run its update loop either wrote the file with all its updates
      applied to what it read, or left the file as it read it; and what it read was the
      file at that time, since nobody else could write it. */
  lemma CommitAllOrNothing(st: State, evs: seq<Event>, t: nat)
    requires Initial(st) && Run(st, evs)
    requires var end := After(st, evs);
             t in end.threads && end.threads[t].job.Write? && (end.threads[t].pc.Log? || end.threads[t].pc.ReleaseFile?)
    ensures var end := After(st, evs);
            var th := end.threads[t];
            var now := Content(end.shared, th.file);
            if th.outcome == Saved then ApplyAll(th.content, Target(th), th.queue) == Some(now)
            else now == th.content
  {
    ReachableInv(st, evs);
    hide ApplyAll;
    assert ThreadOk(After(st, evs), t, After(st, evs).threads[t]);
  }

  /** Neither a commit starts on the file nor an undo of it runs. */
  predicate BackupIdle(st: State, evs: seq<Event>, file: string)
    requires Run(st, evs)
    decreases |evs|
  {
    evs == [] ||
    (&& !Attempts(st, evs[0], file) && !Acts(st, evs[0], file, PerformUndo)
     && BackupIdle(Next(st, evs[0]), evs[1..], file))
  }

  lemma {:induction false} BackupStays(st: State, evs: seq<Event>, file: string)
    requires Inv(st) && Run(st, evs) && BackupIdle(st, evs, file)
    ensures Slot(After(st, evs).shared.undo, file) == Slot(st.shared.undo, file)
    decreases |evs|
  {
    if evs != [] {
      BackupChanges(st, evs[0], file);
      StepKeepsInv(st, evs[0]);
      BackupStays(Next(st, evs[0]), evs[1..], file);
    }
  }

  /** What one undo does. */
  lemma UndoStep(st: State, e: Event, file: string)
    requires Inv(st) && Enabled(st, e) && Acts(st, e, file, PerformUndo)
    ensures var after := Next(st, e);
            && Slot(after.shared.files, file) ==
               (if file in st.shared.undo then Slot(st.shared.undo, file) else Slot(st.shared.files, file))
            && after.threads[e.t].outcome == (if file in st.shared.undo then Undone else NoHistory)
            && file !in after.shared.undo
  {
    FileChanges(st, e, file);
    BackupChanges(st, e, file);
    hide Inv, ApplyAll;
  }

  /** An undo restores the file as it was when the latest commit attempt began, whether
      that attempt succeeded or not; where there was no file then, the undo is refused
      and nothing changes. Afterwards there is nothing left to undo. */
  lemma UndoRestores(st: State, attempt: Event, evs: seq<Event>, undo: Event, file: string)
    requires Inv(st) && Enabled(st, attempt) && Attempts(st, attempt, file)
    requires Run(Next(st, attempt), evs) && BackupIdle(Next(st, attempt), evs, file)
    requires var end := After(Next(st, attempt), evs);
             Enabled(end, undo) && Acts(end, undo, file, PerformUndo)
    ensures var end := After(Next(st, attempt), evs);
            var after := Next(end, undo);
            && Slot(after.shared.files, file) ==
               (if file in st.shared.files then Slot(st.shared.files, file) else Slot(end.shared.files, file))
            && after.threads[undo.t].outcome == (if file in st.shared.files then Undone else NoHistory)
            && file !in after.shared.undo
  {
    var next := Next(st, attempt);
    var end := After(next, evs);
    StepKeepsInv(st, attempt);
    RunKeepsInv(next, evs);
    BackupChanges(st, attempt, file);
    BackupStays(next, evs, file);
    UndoStep(end, undo, file);
    hide Inv, Next, After, BackupIdle;
  }

  /** Two undos with no commit attempt between them cannot both succeed. */
  lemma SecondUndoRefused(st: State, first: Event, evs: seq<Event>, second: Event, file: string)
    requires Inv(st) && Enabled(st, first) && Acts(st, first, file, PerformUndo)
    requires Run(Next(st, first), evs) && BackupIdle(Next(st, first), evs, file)
    requires var end := After(Next(st, first), evs);
             Enabled(end, second) && Acts(end, second, file, PerformUndo)
    ensures var end := After(Next(st, first), evs);
            && Next(end, second).threads[second.t].outcome == NoHistory
            && Slot(Next(end, second).shared.files, file) == Slot(end.shared.files, file)
  {
    var next := Next(st, first);
    var end := After(next, evs);
    StepKeepsInv(st, first);
    RunKeepsInv(next, evs);
    BackupChanges(st, first, file);
    BackupStays(next, evs, file);
    UndoStep(end, second, file);
    hide Inv, Next, After, BackupIdle;
  }
}
