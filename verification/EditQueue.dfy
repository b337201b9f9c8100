/** The update queue of one WRITE session, applied first to last at one sentence index. */
module EditQueue {
  import opened Text
  import opened FileParser
  import opened EditFacts

  datatype Update = Update(wordIdx: int, text: string)

  /** The commit loop: every update at index `k`, or None at the first that is refused. */
  function ApplyAll(c: string, k: int, updates: seq<Update>): Option<string>
    decreases |updates|
  {
    if updates == [] then Some(c)
    else
      match ApplyUpdate(c, k, updates[0].wordIdx, updates[0].text)
      case None => None
      case Some(d) => ApplyAll(d, k, updates[1..])
  }

  method ApplyUpdates(content: string, sentNum: int, updates: seq<Update>) returns (r: Option<string>)
    ensures r == ApplyAll(content, sentNum, updates)
  {
    var current := content;
    assert updates[0..] == updates;
    for i := 0 to |updates|
      invariant ApplyAll(current, sentNum, updates[i..]) == ApplyAll(content, sentNum, updates)
    {
      assert updates[i..][0] == updates[i] && updates[i..][1..] == updates[i + 1..];
      var updated := ApplySingleUpdate(current, sentNum, updates[i].wordIdx, updates[i].text);
      if updated.None? {
        return None;
      }
      current := updated.value;
    }
    r := Some(current);
  }

  // ---------------------------------------------------------------- words

  /** All words the queue inserts. */
  function QueueWords(updates: seq<Update>): multiset<string> {
    if updates == [] then multiset{} else multiset(Words(updates[0].text)) + QueueWords(updates[1..])
  }

  lemma SpliceMultiset<T>(a: seq<T>, at: nat, x: seq<T>)
    requires at <= |a|
    ensures multiset(Spliced(a, at, x)) == multiset(a) + multiset(x)
  {
    assert a == a[..at] + a[at..];
  }

  lemma SpliceSubsequence<T>(a: seq<T>, at: nat, x: seq<T>)
    requires at <= |a|
    ensures Subsequence(a, Spliced(a, at, x))
  {
    SubsequenceInsert(a[..at], x, a[at..]);
    assert a == a[..at] + a[at..];
  }

  /** A queue that goes through adds exactly its own words, and keeps all earlier words
      in order. */
  lemma {:induction false} QueueMeaning(c: string, k: int, updates: seq<Update>)
    requires ApplyAll(c, k, updates).Some?
    ensures var d := ApplyAll(c, k, updates).value;
            && multiset(Words(d)) == multiset(Words(c)) + QueueWords(updates)
            && Subsequence(Words(c), Words(d))
    decreases |updates|
  {
    if updates == [] {
      SubsequenceReflexive(Words(c));
    } else {
      var u := updates[0];
      EditMeaning(c, k, u.wordIdx, u.text);
      var d := ApplyUpdate(c, k, u.wordIdx, u.text).value;
      SpliceMultiset(Words(c), WordOffset(c, k, u.wordIdx), Words(u.text));
      SpliceSubsequence(Words(c), WordOffset(c, k, u.wordIdx), Words(u.text));
      QueueMeaning(d, k, updates[1..]);
      SubsequenceTransitive(Words(c), Words(d), Words(ApplyAll(c, k, updates).value));
    }
  }

  // ---------------------------------------------------------------- sentences

  /** Each update of the queue inserts something: what the session's line parser ensures. */
  predicate Inserting(updates: seq<Update>) {
    forall i | 0 <= i < |updates| :: Tokens(updates[i].text, ' ') != []
  }

  /** Every update is closed at the point where it is applied. */
  predicate ClosedQueue(c: string, k: int, updates: seq<Update>)
    decreases |updates|
  {
    if updates == [] then true
    else
      var u := updates[0];
      InRange(c, k, u.wordIdx) ==>
        && ClosedEdit(c, k, u.wordIdx, u.text)
        && ClosedQueue(ApplyUpdate(c, k, u.wordIdx, u.text).value, k, updates[1..])
  }

  /** A queue never lowers the number of sentences. */
  lemma {:induction false} QueueCountKept(c: string, k: int, updates: seq<Update>)
    requires ApplyAll(c, k, updates).Some? && Inserting(updates)
    ensures |Sentences(ApplyAll(c, k, updates).value)| >= |Sentences(c)|
    decreases |updates|
  {
    if updates != [] {
      var u := updates[0];
      EditMeaning(c, k, u.wordIdx, u.text);
      SentenceCountKept(c, k, u.wordIdx, u.text);
      QueueCountKept(ApplyUpdate(c, k, u.wordIdx, u.text).value, k, updates[1..]);
    }
  }

  /** An edit leaves its index editable. */
  lemma EditableKept(c: string, k: int, w: int, text: string)
    requires InRange(c, k, w) && Editable(c, k) && Tokens(text, ' ') != []
    ensures Editable(ApplyUpdate(c, k, w, text).value, k)
    ensures k < |Sentences(c)| ==> k < |Sentences(ApplyUpdate(c, k, w, text).value)|
  {
    SentencesBeforeKept(c, k, w, text);
    SentenceCountKept(c, k, w, text);
    EditableFront(c, k);
    var after := Sentences(ApplyUpdate(c, k, w, text).value);
    if k == |after| > 0 {
      assert after[k - 1] == after[..k][k - 1] == Sentences(c)[..k][k - 1];
    }
  }

  /** All sentences before the index keep their text through the whole queue. */
  lemma {:induction false} QueueBeforeKept(c: string, k: int, updates: seq<Update>)
    requires ApplyAll(c, k, updates).Some? && Editable(c, k) && Inserting(updates)
    ensures var d := ApplyAll(c, k, updates).value;
            k <= |Sentences(d)| && Sentences(d)[..k] == Sentences(c)[..k]
    decreases |updates|
  {
    if updates != [] {
      var u := updates[0];
      EditMeaning(c, k, u.wordIdx, u.text);
      SentencesBeforeKept(c, k, u.wordIdx, u.text);
      EditableKept(c, k, u.wordIdx, u.text);
      QueueBeforeKept(ApplyUpdate(c, k, u.wordIdx, u.text).value, k, updates[1..]);
    }
  }

  lemma EditAfterKept(c: string, k: int, w: int, text: string)
    requires InRange(c, k, w) && k < |Sentences(c)| && ClosedEdit(c, k, w, text) && Tokens(text, ' ') != []
    ensures var d := ApplyUpdate(c, k, w, text).value;
            k < |Sentences(d)| && EndsWith(Sentences(d)[k + 1..], Sentences(c)[k + 1..])
  {
    SentencesAfterKept(c, k, w, text);
    SentenceCountKept(c, k, w, text);
    hide Sentences, ApplyUpdate;
  }

  /** All sentences after the index keep their text through a closed queue. */
  lemma {:induction false} QueueAfterKept(c: string, k: int, updates: seq<Update>)
    requires ApplyAll(c, k, updates).Some? && 0 <= k < |Sentences(c)|
    requires Inserting(updates) && ClosedQueue(c, k, updates)
    ensures var d := ApplyAll(c, k, updates).value;
            k < |Sentences(d)| && EndsWith(Sentences(d)[k + 1..], Sentences(c)[k + 1..])
    decreases |updates|
  {
    hide Sentences, ApplyUpdate, ClosedEdit, InRange, Tokens;
    if updates != [] {
      var u := updates[0];
      EditMeaning(c, k, u.wordIdx, u.text);
      var d := ApplyUpdate(c, k, u.wordIdx, u.text).value;
      EditAfterKept(c, k, u.wordIdx, u.text);
      QueueAfterKept(d, k, updates[1..]);
      EndsWithTransitive(Sentences(ApplyAll(d, k, updates[1..]).value)[k + 1..],
                         Sentences(d)[k + 1..], Sentences(c)[k + 1..]);
    }
  }

  lemma EndsWithTransitive<T>(a: seq<T>, b: seq<T>, c: seq<T>)
    requires EndsWith(a, b) && EndsWith(b, c)
    ensures EndsWith(a, c)
  {
    assert a[|a| - |b|..][|b| - |c|..] == a[|a| - |c|..];
  }

  /** The neighbours of the edited index, by position: those before stay where they are,
      those after move by the growth of the list. */
  lemma QueueNeighbours(c: string, k: int, updates: seq<Update>, p: nat)
    requires ApplyAll(c, k, updates).Some? && Editable(c, k) && Inserting(updates)
    requires p < |Sentences(c)| && p != k
    requires p < k || ClosedQueue(c, k, updates)
    ensures var before, after := Sentences(c), Sentences(ApplyAll(c, k, updates).value);
            var q := if p < k then p else p + |after| - |before|;
            0 <= q < |after| && after[q] == before[p]
  {
    var before, after := Sentences(c), Sentences(ApplyAll(c, k, updates).value);
    if p < k {
      QueueBeforeKept(c, k, updates);
      assert after[p] == after[..k][p] == before[..k][p];
    } else {
      QueueAfterKept(c, k, updates);
      hide Sentences, ApplyAll;
      var tail := after[k + 1..];
      var n := |before| - (k + 1);
      assert tail[|tail| - n..][p - (k + 1)] == before[k + 1..][p - (k + 1)] == before[p];
    }
  }
}
