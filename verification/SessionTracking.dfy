/** A sentence keeps its text through the commits of others, and the log knows where it is. */
module SessionTracking {
  import opened FileParser
  import opened EditFacts
  import opened EditQueue
  import opened ModificationLog
  import opened StorageState
  import opened WriteProtocol
  import opened Invariants
  import opened Preservation
  import opened FileEffects
  import opened SentenceLedger

  /** Sentence `pos` of the file reads `text`. */
  predicate Reads(st: State, file: string, pos: int, text: string) {
    var ss := Sentences(Content(st.shared, file));
    0 <= pos < |ss| && ss[pos] == text
  }

  /** Sentence `pos` reads `text`, and the log, with the change that may be pending, leads
      from the index asked for to `pos`. */
  ghost predicate Tracked(st: State, file: string, k: int, start: int, pos: int, text: string) {
    var logged := Track(st.shared.log, file, k, start);
    && start <= st.shared.nextLogId
    && Reads(st, file, pos, text)
    && (forall u | Pending(st, u, file) ::
          st.threads[u].job.Write? &&
          pos == logged + if Target(st.threads[u]) < logged then st.threads[u].delta else 0)
    && ((forall u :: !Pending(st, u, file)) ==> pos == logged)
  }

  /** What other sessions may do to the file while the sentence at `pos` is being tracked:
      no undo; commits not at the sentence itself, not at the slot after an unfinished last
      sentence, and closed when before it. */
  predicate Careful(st: State, e: Event, file: string, pos: int) {
    && !Reverts(st, e, file)
    && (Saves(st, e, file) && st.threads[e.t].queue != [] ==>
          var j, queue := Target(st.threads[e.t]), st.threads[e.t].queue;
          && j != pos
          && Editable(Content(st.shared, file), j)
          && (j < pos ==> ClosedQueue(Content(st.shared, file), j, queue)))
  }

  /** Where the sentence is after the event. */
  function NextPos(st: State, e: Event, file: string, pos: int): int {
    if Saves(st, e, file) && Target(st.threads[e.t]) < pos then pos + Growth(st, e) else pos
  }

  predicate CarefulRun(st: State, evs: seq<Event>, file: string, pos: int)
    requires Run(st, evs)
    decreases |evs|
  {
    evs == [] ||
    (&& Careful(st, evs[0], file, pos)
     && CarefulRun(Next(st, evs[0]), evs[1..], file, NextPos(st, evs[0], file, pos)))
  }

  function FinalPos(st: State, evs: seq<Event>, file: string, pos: int): int
    requires Run(st, evs)
    decreases |evs|
  {
    if evs == [] then pos
    else FinalPos(Next(st, evs[0]), evs[1..], file, NextPos(st, evs[0], file, pos))
  }

  /** A sentence that a queue leaves alone, before and after. */
  lemma NeighbourText(c: string, j: int, queue: seq<Update>, pos: nat)
    requires ApplyAll(c, j, queue).Some? && Inserting(queue) && pos < |Sentences(c)|
    requires queue != [] ==> j != pos && Editable(c, j) && (j < pos ==> ClosedQueue(c, j, queue))
    ensures var before, after := Sentences(c), Sentences(ApplyAll(c, j, queue).value);
            var growth := |after| - |before|;
            var q := if j < pos then pos + growth else pos;
            growth >= 0 && q < |after| && after[q] == before[pos]
  {
    QueueCountKept(c, j, queue);
    if queue != [] {
      QueueNeighbours(c, j, queue, pos);
    }
  }

  /** The text of a file after a step that is no undo of it. */
  lemma ContentAfter(st: State, e: Event, file: string)
    requires Inv(st) && Enabled(st, e) && !Reverts(st, e, file)
    ensures Content(Next(st, e).shared, file) ==
            if Saves(st, e, file) then NewContent(st, e).value else Content(st.shared, file)
    ensures Saves(st, e, file) ==> Inserting(st.threads[e.t].queue)
  {
    FileChanges(st, e, file);
    if Saves(st, e, file) {
      assert ThreadOk(st, e.t, st.threads[e.t]);
    }
    hide Inv, Next, ApplyAll, Inserting;
  }

  /** The tracked sentence is in what another session's commit writes. */
  lemma SavedText(st: State, e: Event, file: string, pos: int, text: string)
    requires Saves(st, e, file) && Inserting(st.threads[e.t].queue)
    requires Careful(st, e, file, pos) && Reads(st, file, pos, text)
    ensures var ss, q := Sentences(NewContent(st, e).value), NextPos(st, e, file, pos);
            0 <= q < |ss| && ss[q] == text
  {
    hide Sentences, Editable, ClosedQueue, ApplyAll, Inserting, Content;
    var c, th := Content(st.shared, file), st.threads[e.t];
    assert NewContent(st, e) == ApplyAll(c, Target(th), th.queue);
    hide NewContent, Target;
    NeighbourText(c, Target(th), th.queue, pos);
  }

  /** It keeps its text through any careful step. */
  lemma TextStep(st: State, e: Event, file: string, pos: int, text: string)
    requires Inv(st) && Enabled(st, e) && Careful(st, e, file, pos) && Reads(st, file, pos, text)
    ensures Reads(Next(st, e), file, NextPos(st, e, file, pos), text)
  {
    ContentAfter(st, e, file);
    hide Inv, Next, Sentences, Inserting, Content, NewContent;
    if Saves(st, e, file) {
      hide Saves, NextPos;
      SavedText(st, e, file, pos, text);
    }
  }

  /** The log's account of the sentence changes only by the file's own log step. */
  lemma LoggedStep(st: State, e: Event, file: string, k: int, start: int)
    requires Inv(st) && Enabled(st, e) && start <= st.shared.nextLogId
    ensures start <= Next(st, e).shared.nextLogId
    ensures var logged := Track(st.shared.log, file, k, start);
            Track(Next(st, e).shared.log, file, k, start) ==
            logged + if Logs(st, e, file) && st.threads[e.t].job.Write? && Target(st.threads[e.t]) < logged
                     then st.threads[e.t].delta else 0
  {
    StepKeepsInv(st, e);
    LogChanges(st, e, file);
    if g: string :| Logs(st, e, g) {
      var th := st.threads[e.t];
      TrackSnoc(st.shared.log, LogEntry(st.shared.nextLogId, th.file, Target(th), th.delta), file, k, start);
    }
    hide Next, Track;
  }

  lemma TrackStep(st: State, e: Event, file: string, k: int, start: int, pos: int, text: string)
    requires Inv(st) && Enabled(st, e) && Tracked(st, file, k, start, pos, text)
    requires Careful(st, e, file, pos)
    ensures Tracked(Next(st, e), file, k, start, NextPos(st, e, file, pos), text)
  {
    var next := Next(st, e);
    TextStep(st, e, file, pos, text);
    LoggedStep(st, e, file, k, start);
    PendingSteps(st, e, file);
    hide Inv, Next, Sentences, ApplyAll, Track, Reads, Editable, ClosedQueue, Pending;
  }

  lemma {:induction false} TrackRun(st: State, evs: seq<Event>, file: string, k: int, start: int, pos: int,
                                    text: string)
    requires Inv(st) && Run(st, evs) && Tracked(st, file, k, start, pos, text)
    requires CarefulRun(st, evs, file, pos)
    ensures Inv(After(st, evs))
    ensures Tracked(After(st, evs), file, k, start, FinalPos(st, evs, file, pos), text)
    decreases |evs|
  {
    if evs != [] {
      hide Inv, Tracked, Careful, NextPos;
      TrackStep(st, evs[0], file, k, start, pos, text);
      StepKeepsInv(st, evs[0]);
      TrackRun(Next(st, evs[0]), evs[1..], file, k, start, NextPos(st, evs[0], file, pos), text);
    }
  }

  lemma {:induction false} ThreadKeepsRun(st: State, evs: seq<Event>, t: nat)
    requires Run(st, evs) && t in st.threads && st.threads[t].pc != GetId
    ensures var end := After(st, evs);
            && t in end.threads
            && end.threads[t].job == st.threads[t].job
            && end.threads[t].file == st.threads[t].file
            && end.threads[t].startId == st.threads[t].startId
    decreases |evs|
  {
    if evs != [] {
      ThreadKeeps(st, evs[0], t);
      ThreadKeepsRun(Next(st, evs[0]), evs[1..], t);
    }
  }
}
