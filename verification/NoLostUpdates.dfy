/** Word accounting over runs: every word a successful session inserted is in the file,
    and nothing else changed. */
module NoLostUpdates {
  import opened Text
  import opened FileParser
  import opened EditQueue
  import opened StorageState
  import opened WriteProtocol
  import opened Invariants
  import opened Preservation
  import opened FileEffects

  /** The words a file should hold, and those its backup should hold. */
  datatype Ledger = Ledger(words: multiset<string>, saved: Option<multiset<string>>)

  function WordsOfSlot(s: Option<string>): Option<multiset<string>> {
    match s case None => None case Some(c) => Some(multiset(Words(c)))
  }

  /** The ledger of the state a run starts in. */
  function Opening(st: State, file: string): Ledger {
    Ledger(multiset(Words(Content(st.shared, file))), WordsOfSlot(Slot(st.shared.undo, file)))
  }

  /** A successful commit adds the words of its queue; starting a commit notes the present
      words, unless the file is missing; a successful undo goes back to the noted words. */
  function Entered(led: Ledger, st: State, e: Event, file: string): Ledger {
    if Attempts(st, e, file) then
      led.(saved := if file in st.shared.files then Some(led.words) else None)
    else if Saves(st, e, file) then led.(words := led.words + QueueWords(st.threads[e.t].queue))
    else if Reverts(st, e, file) && led.saved.Some? then Ledger(led.saved.value, None)
    else led
  }

  function Closing(led: Ledger, st: State, evs: seq<Event>, file: string): Ledger
    requires Run(st, evs)
    decreases |evs|
  {
    if evs == [] then led
    else Closing(Entered(led, st, evs[0], file), Next(st, evs[0]), evs[1..], file)
  }

  lemma LedgerStep(st: State, e: Event, file: string)
    requires Inv(st) && Enabled(st, e)
    ensures Opening(Next(st, e), file) == Entered(Opening(st, file), st, e, file)
  {
    FileChanges(st, e, file);
    BackupChanges(st, e, file);
    if Saves(st, e, file) {
      var th := st.threads[e.t];
      QueueMeaning(Content(st.shared, file), Target(th), th.queue);
    }
    hide Inv, Next, Words, ApplyAll, QueueWords;
  }

  /** Over any run of any number of WRITE and UNDO requests, however interleaved, the
      words of a file and of its backup are those the ledger says. */
  lemma {:induction false} NoWordLost(st: State, evs: seq<Event>, file: string)
    requires Inv(st) && Run(st, evs)
    ensures Opening(After(st, evs), file) == Closing(Opening(st, file), st, evs, file)
    decreases |evs|
  {
    if evs != [] {
      LedgerStep(st, evs[0], file);
      StepKeepsInv(st, evs[0]);
      NoWordLost(Next(st, evs[0]), evs[1..], file);
    }
  }

  /** No undo of the file succeeds during the run. */
  predicate NoRevert(st: State, evs: seq<Event>, file: string)
    requires Run(st, evs)
    decreases |evs|
  {
    evs == [] || (!Reverts(st, evs[0], file) && NoRevert(Next(st, evs[0]), evs[1..], file))
  }

  /** The words of all successful commits on the file, in the order they were made. */
  function CommittedWords(st: State, evs: seq<Event>, file: string): multiset<string>
    requires Run(st, evs)
    decreases |evs|
  {
    if evs == [] then multiset{}
    else
      (if Saves(st, evs[0], file) then QueueWords(st.threads[evs[0].t].queue) else multiset{})
      + CommittedWords(Next(st, evs[0]), evs[1..], file)
  }

  /** Without undo: exactly the words committed are added, and the earlier text's words
      stay, in their order. */
  lemma {:induction false} WordsOnlyGrow(st: State, evs: seq<Event>, file: string)
    requires Inv(st) && Run(st, evs) && NoRevert(st, evs, file)
    ensures var before, after := Content(st.shared, file), Content(After(st, evs).shared, file);
            && multiset(Words(after)) == multiset(Words(before)) + CommittedWords(st, evs, file)
            && Subsequence(Words(before), Words(after))
    decreases |evs|
  {
    var before := Words(Content(st.shared, file));
    if evs == [] {
      SubsequenceReflexive(before);
    } else {
      var next := Next(st, evs[0]);
      GrowStep(st, evs[0], file);
      StepKeepsInv(st, evs[0]);
      WordsOnlyGrow(next, evs[1..], file);
      SubsequenceTransitive(before, Words(Content(next.shared, file)),
                            Words(Content(After(next, evs[1..]).shared, file)));
    }
  }

  lemma GrowStep(st: State, e: Event, file: string)
    requires Inv(st) && Enabled(st, e) && !Reverts(st, e, file)
    ensures var before, after := Words(Content(st.shared, file)), Words(Content(Next(st, e).shared, file));
            && multiset(after) == multiset(before) +
                 (if Saves(st, e, file) then QueueWords(st.threads[e.t].queue) else multiset{})
            && Subsequence(before, after)
  {
    FileChanges(st, e, file);
    if Saves(st, e, file) {
      var th := st.threads[e.t];
      QueueMeaning(Content(st.shared, file), Target(th), th.queue);
    } else {
      SubsequenceReflexive(Words(Content(st.shared, file)));
    }
    hide Inv, Next, Words, ApplyAll, QueueWords;
  }
}
