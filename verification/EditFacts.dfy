/** What one edit, and a queue of edits at one index, does to a document: its words,
    the sentences around the edited one, and their number. */
module EditFacts {
  import opened Text
  import opened FileParser
  import opened WordFacts
  import opened SentenceFacts

  predicate InRange(c: string, k: int, w: int) {
    0 <= k <= |Sentences(c)| && 0 <= w <= |Words(Slots(c, k)[k])|
  }

  /** The new text of the edited slot, before re-parsing. */
  function Edited(c: string, k: int, w: int, text: string): string
    requires InRange(c, k, w)
  {
    var words := Words(Slots(c, k)[k]);
    JoinWords(words[..w] + Tokens(text, ' ') + words[w..])
  }

  function Spliced<T>(a: seq<T>, at: nat, x: seq<T>): seq<T>
    requires at <= |a|
  {
    a[..at] + x + a[at..]
  }

  /** Where word `w` of sentence `k` stands in the word stream of the document. */
  function WordOffset(c: string, k: int, w: int): int
    requires 0 <= k <= |Sentences(c)|
  {
    |AllWords(Sentences(c)[..k])| + w
  }

  lemma EditedWords(c: string, k: int, w: int, text: string)
    requires InRange(c, k, w)
    ensures Words(Edited(c, k, w, text)) == Spliced(Words(Slots(c, k)[k]), w, Words(text))
  {
    var slot := Slots(c, k)[k];
    var words, tokens := Words(slot), Tokens(text, ' ');
    WordsAreWords(slot);
    AllWordsOfWords(words[..w]);
    AllWordsOfWords(words[w..]);
    WordsOfTokens(text);
    AllWordsConcat(words[..w] + tokens, words[w..]);
    AllWordsConcat(words[..w], tokens);
    WordsOfJoinWords(words[..w] + tokens + words[w..]);
  }

  /** Replacing one piece replaces its words in the stream of the pieces. */
  lemma AllWordsUpdate(pieces: seq<string>, k: nat, p: string)
    requires k < |pieces|
    ensures AllWords(pieces) == AllWords(pieces[..k]) + Words(pieces[k]) + AllWords(pieces[k + 1..])
    ensures AllWords(pieces[k := p]) == AllWords(pieces[..k]) + Words(p) + AllWords(pieces[k + 1..])
  {
    assert pieces == pieces[..k] + pieces[k..] && pieces[k..][1..] == pieces[k + 1..];
    AllWordsConcat(pieces[..k], pieces[k..]);
    Regroup(AllWords(pieces[..k]), Words(pieces[k]), AllWords(pieces[k + 1..]));
    var q := pieces[k := p];
    assert q == pieces[..k] + q[k..] && q[k..][1..] == pieces[k + 1..];
    AllWordsConcat(pieces[..k], q[k..]);
    Regroup(AllWords(pieces[..k]), Words(p), AllWords(pieces[k + 1..]));
  }

  lemma SlotWords(c: string, k: int)
    requires 0 <= k <= |Sentences(c)|
    ensures AllWords(Slots(c, k)) == Words(c)
    ensures Slots(c, k)[..k] == Sentences(c)[..k]
  {
    WordsOfSentences(c);
    if k == |Sentences(c)| {
      AllWordsConcat(Sentences(c), [""]);
      assert AllWords([""]) == Words("") + AllWords([]);
    }
  }

  lemma SpliceInside<T>(before: seq<T>, words: seq<T>, after: seq<T>, w: nat, x: seq<T>)
    requires w <= |words|
    ensures before + Spliced(words, w, x) + after == Spliced(before + words + after, |before| + w, x)
  {
    var all := before + words + after;
    assert all[..|before| + w] == before + words[..w];
    assert all[|before| + w..] == words[w..] + after;
  }

  /** The edit as a whole, two scanners and two printers deep, is one insertion of the
      words of `text` into the word stream; it is refused exactly out of range. */
  lemma EditMeaning(c: string, k: int, w: int, text: string)
    ensures ApplyUpdate(c, k, w, text).Some? <==> InRange(c, k, w)
    ensures InRange(c, k, w) ==>
              && 0 <= WordOffset(c, k, w) <= |Words(c)|
              && Words(ApplyUpdate(c, k, w, text).value) == Spliced(Words(c), WordOffset(c, k, w), Words(text))
  {
    hide Words, Sentences, JoinSentences, AllWords, JoinWords, Tokens;
    if InRange(c, k, w) {
      var slots, edited := Slots(c, k), Edited(c, k, w, text);
      var joined := JoinSentences(slots[k := edited]);
      WordsOfSentences(joined);
      WordsOfJoinSentences(Sentences(joined));
      WordsOfJoinSentences(slots[k := edited]);
      AllWordsUpdate(slots, k, edited);
      SlotWords(c, k);
      EditedWords(c, k, w, text);
      SpliceInside(AllWords(slots[..k]), Words(slots[k]), AllWords(slots[k + 1..]), w, Words(text));
    }
  }

  /** Every result of an edit is settled: splitting and joining it changes nothing. */
  lemma EditSettles(c: string, k: int, w: int, text: string)
    requires InRange(c, k, w)
    ensures var r := ApplyUpdate(c, k, w, text).value;
            && JoinSentences(Sentences(r)) == r
            && Sentences(r) == Sentences(JoinSentences(Slots(c, k)[k := Edited(c, k, w, text)]))
  {
    SplitJoinIdempotent(JoinSentences(Slots(c, k)[k := Edited(c, k, w, text)]));
  }

  // ---------------------------------------------------------------- neighbours

  /** `k` names a sentence, or the append slot after a finished sentence. */
  predicate Editable(c: string, k: int) {
    var ss := Sentences(c);
    0 <= k <= |ss| && (k == |ss| > 0 ==> Terminated(ss[k - 1]))
  }

  lemma EditableFront(c: string, k: int)
    requires Editable(c, k)
    ensures AllTerminated(Sentences(c)[..k]) && WordStarts(Sentences(c)[..k], 1)
  {
    SentencesWellFormed(c);
  }

  /** The sentences of the result: those before `k`, then what the edited slot and
      everything after it scan to. */
  lemma EditFront(c: string, k: int, w: int, text: string)
    requires InRange(c, k, w) && Editable(c, k)
    ensures var r := ApplyUpdate(c, k, w, text).value;
            var tail := JoinSentences([Edited(c, k, w, text)] + Slots(c, k)[k + 1..]);
            Sentences(r) == Sentences(c)[..k] + Sentences(if k == 0 then tail else SkipSpaces(tail))
  {
    hide Words, Sentences, JoinSentences, JoinWords, Tokens, SkipSpaces;
    var edited, slots := Edited(c, k, w, text), Slots(c, k);
    EditSettles(c, k, w, text);
    EditableFront(c, k);
    assert slots[k := edited] == Sentences(c)[..k] + ([edited] + slots[k + 1..]);
    SentencesOfJoin(Sentences(c)[..k], [edited] + slots[k + 1..]);
  }

  /** The edit cannot run into the next sentence: there is none, or the text goes before
      the final delimiter, or it has no words, or its last word is a delimiter. */
  predicate ClosedEdit(c: string, k: int, w: int, text: string)
    requires InRange(c, k, w)
  {
    || k + 1 >= |Sentences(c)|
    || w < |Words(Sentences(c)[k])|
    || Words(text) == []
    || EndsInDelimiter(Words(text))
  }

  lemma ClosedEditWords(c: string, k: int, w: int, text: string)
    requires InRange(c, k, w) && k + 1 < |Sentences(c)|
    ensures EndsInDelimiter(Words(Edited(c, k, w, text))) <==> ClosedEdit(c, k, w, text)
    ensures Words(Edited(c, k, w, text)) != []
  {
    SentencesWellFormed(c);
    TerminatedWords(Sentences(c)[k]);
    EditedWords(c, k, w, text);
    hide Words, Sentences, Edited, FirstDelimiter;
    SpliceEnd(Words(Sentences(c)[k]), w, Words(text));
  }

  lemma SpliceEnd(a: seq<string>, w: nat, x: seq<string>)
    requires w <= |a| && EndsInDelimiter(a)
    ensures EndsInDelimiter(Spliced(a, w, x)) <==> w < |a| || x == [] || EndsInDelimiter(x)
    ensures Spliced(a, w, x) != []
  {
  }

  predicate EndsWith<T(==)>(a: seq<T>, b: seq<T>) {
    |b| <= |a| && a[|a| - |b|..] == b
  }

  /** Unterminated text in front of a list becomes the front of its first sentence. */
  lemma FragmentBefore(rest: string, post: seq<string>)
    requires Fragment(rest) && WellFormed(post) && post != [] && WordStarts(post, 0)
    ensures Sentences(rest + (" " + JoinSentences(post))) == [rest + " " + post[0]] + post[1..]
  {
    var joined, merged := JoinSentences(post), [rest + " " + post[0]] + post[1..];
    FirstDelimiterConcat(rest + " ", post[0]);
    FirstDelimiterConcat(rest, " ");
    assert FirstDelimiter(" ") == 1;
    assert merged[1..] == post[1..] && WellFormed(merged);
    SentenceRoundTrip(merged);
    assert JoinSentences(merged) == rest + (" " + joined) by {
      if |post| > 1 {
        Regroup(rest + " ", post[0], SentenceGap(post[1]));
        Regroup(rest + " ", post[0] + SentenceGap(post[1]), JoinSentences(post[1..]));
        Regroup(rest, " ", joined);
      } else {
        Regroup(rest, " ", post[0]);
      }
    }
  }

  /** The first finished sentences of `b`, then either the list `post` untouched or its
      head with the rest of `b` in front. */
  lemma ScanInto(b: string, post: seq<string>)
    requires b != "" && WellFormed(post) && post != [] && WordStarts(post, 0)
    ensures Sentences(b + " " + JoinSentences(post)) ==
            Complete(b) + (if Closed(b) then post else [Rest(b) + " " + post[0]] + post[1..])
  {
    var joined := JoinSentences(post);
    Regroup(b, " ", joined);
    SentencesConcat(b, " " + joined);
    if Closed(b) {
      SkipGap(" ", joined);
      JoinStart(post);
      SentenceRoundTrip(post);
    } else {
      NonEmptyClosed(b);
      CompleteShape(b);
      FragmentBefore(Rest(b), post);
    }
  }

  lemma JoinBefore(s: string, post: seq<string>)
    requires post != [] && WordStarts(post, 0)
    ensures JoinSentences([s] + post) == s + " " + JoinSentences(post)
  {
    assert ([s] + post)[1..] == post;
  }

  /** What is scanned from the edited sentence on, when another sentence follows. */
  lemma EditedTail(edited: string, post: seq<string>, first: bool) returns (b: string)
    requires Words(edited) != [] && post != [] && WordStarts(post, 0)
    ensures b != "" && Words(b) == Words(edited)
    ensures var tail := JoinSentences([edited] + post);
            (if first then tail else SkipSpaces(tail)) == b + " " + JoinSentences(post)
  {
    b := if first then edited else SkipSpaces(edited);
    WordsOfSkipSpaces(edited);
    assert Words("") == [];
    JoinBefore(edited, post);
    hide Words, JoinSentences;
    SkipSpacesConcat(edited, " " + JoinSentences(post));
    Regroup(edited, " ", JoinSentences(post));
    Regroup(b, " ", JoinSentences(post));
  }

  /** The sentences after an edit with a next sentence, in full. */
  lemma EditInside(c: string, k: int, w: int, text: string) returns (b: string)
    requires InRange(c, k, w) && k + 1 < |Sentences(c)|
    ensures b != "" && (Closed(b) <==> ClosedEdit(c, k, w, text)) && (Closed(b) || Rest(b) != "")
    ensures Words(b) == Words(Edited(c, k, w, text))
    ensures var r := ApplyUpdate(c, k, w, text).value;
            var post := Sentences(c)[k + 1..];
            Sentences(r) == Sentences(c)[..k] + Complete(b) +
                            (if Closed(b) then post else [Rest(b) + " " + post[0]] + post[1..])
  {
    var edited, post := Edited(c, k, w, text), Sentences(c)[k + 1..];
    SentencesWellFormed(c);
    assert WellFormed(post) && WordStarts(post, 0) && Editable(c, k);
    EditFront(c, k, w, text);
    ClosedEditWords(c, k, w, text);
    hide Words, Sentences, JoinSentences, SkipSpaces, Complete, Rest, Edited, ClosedEdit, ApplyUpdate;
    b := EditedTail(edited, post, k == 0);
    ClosedWords(b);
    NonEmptyClosed(b);
    ScanInto(b, post);
    Regroup(Sentences(c)[..k], Complete(b), if Closed(b) then post else [Rest(b) + " " + post[0]] + post[1..]);
  }

  /** All sentences after the edited one keep their text, exactly when the edit is closed. */
  lemma SentencesAfterKept(c: string, k: int, w: int, text: string)
    requires InRange(c, k, w) && k < |Sentences(c)|
    ensures EndsWith(Sentences(ApplyUpdate(c, k, w, text).value), Sentences(c)[k + 1..])
            <==> ClosedEdit(c, k, w, text)
  {
    if k + 1 < |Sentences(c)| {
      var b := EditInside(c, k, w, text);
      var r, post := ApplyUpdate(c, k, w, text).value, Sentences(c)[k + 1..];
      var front := Sentences(c)[..k] + Complete(b);
      var new_ := if Closed(b) then post else [Rest(b) + " " + post[0]] + post[1..];
      assert Sentences(r)[|Sentences(r)| - |post|..] == new_;
      if !Closed(b) {
        assert |new_[0]| > |post[0]|;
      }
    }
  }

  // ---------------------------------------------------------------- the number of sentences

  /** Only an edit that inserts nothing into a blank document can lose a sentence. */
  predicate BlankErasure(c: string, k: int, text: string) {
    k == 0 && c != "" && Words(c) == [] && Tokens(text, ' ') == []
  }

  lemma {:induction false} BlankText(s: string)
    requires Words(s) == []
    ensures SkipSpaces(s) == "" && Sentences(s) == One(s)
  {
    if s != "" {
      BlankText(s[1..]);
      var d := FirstDelimiter(s);
      FirstDelimiterFacts(s);
      if d < |s| {
        WordsAtDelimiter(s);
        FirstDelimiterIs(s[..d + 1], d);
        TerminatedWords(s[..d + 1]);
      }
    }
  }

  lemma {:induction false} TokensNonEmpty(s: string, sep: char)
    ensures forall t | t in Tokens(s, sep) :: t != "" && t[0] != sep
    decreases |s|
  {
    if s == "" {
    } else if s[0] == sep {
      TokensNonEmpty(s[1..], sep);
    } else {
      TokensNonEmpty(s[FirstOf(s, sep)..], sep);
    }
  }

  lemma {:induction false} WordsNonEmpty(s: string)
    ensures forall t | t in Words(s) :: t != "" && !IsSpace(t[0])
    decreases |s|
  {
    if s == "" {
    } else if !IsOrdinary(s[0]) {
      WordsNonEmpty(s[1..]);
    } else {
      WordsNonEmpty(s[WordLength(s)..]);
    }
  }

  lemma SentencesNonEmpty(s: string)
    ensures s != "" <==> Sentences(s) != []
  {
  }

  /** The edited slot is empty only when there is nothing to print, and never begins with a blank. */
  lemma EditedStart(c: string, k: int, w: int, text: string)
    requires InRange(c, k, w)
    ensures Edited(c, k, w, text) == "" <==> Words(Slots(c, k)[k]) == [] && Tokens(text, ' ') == []
    ensures !StartsWith(Edited(c, k, w, text), ' ')
  {
    var words, tokens := Words(Slots(c, k)[k]), Tokens(text, ' ');
    WordsNonEmpty(Slots(c, k)[k]);
    TokensNonEmpty(text, ' ');
    var all := words[..w] + tokens + words[w..];
    if all != [] {
      assert all[0] in words || all[0] in tokens;
      JoinWordsHead(all);
    }
  }

  /** Unfinished text followed by more is no sentence of its own. */
  lemma FragmentRunsOn(last: string, rest: string)
    requires Fragment(last)
    ensures var ss := Sentences(last + " " + rest); ss != [] && |ss[0]| > |last|
  {
    Regroup(last, " ", rest);
    FirstDelimiterConcat(last, " " + rest);
    assert (" " + rest)[1..] == rest;
  }

  /** Scanning a printed list that ends with unfinished text and one more string. */
  lemma SentencesOfAppended(pre: seq<string>, last: string, edited: string)
    requires AllTerminated(pre) && WordStarts(pre, 1) && last != ""
    requires pre != [] ==> !IsSpace(last[0])
    requires !StartsWith(edited, ' ')
    ensures Sentences(JoinSentences(pre + [last, edited])) == pre + Sentences(last + " " + edited)
  {
    SentencesOfJoin(pre, [last, edited]);
    assert [last, edited][1..] == [edited];
    assert JoinSentences([last, edited]) == last + " " + edited;
    hide AllTerminated, WordStarts, Sentences, JoinSentences;
  }

  lemma AppendInRange(c: string)
    ensures InRange(c, |Sentences(c)|, 0)
  {
  }

  lemma AppendSlot(c: string, edited: string)
    requires Sentences(c) != []
    ensures var ss, n := Sentences(c), |Sentences(c)|;
            Slots(c, n)[n := edited] == ss[..n - 1] + [ss[n - 1], edited]
  {
  }

  lemma UnfinishedFront(c: string)
    requires var n := |Sentences(c)|; n > 0 && Fragment(Sentences(c)[n - 1])
    ensures var ss, n := Sentences(c), |Sentences(c)|;
            && AllTerminated(ss[..n - 1]) && WordStarts(ss[..n - 1], 1) && ss[n - 1] != ""
            && (ss[..n - 1] != [] ==> !IsSpace(ss[n - 1][0]))
  {
    SentencesWellFormed(c);
    hide Sentences;
  }

  /** The sentences after an append to an unfinished document. */
  lemma AppendedSentences(c: string, text: string)
    requires var n := |Sentences(c)|; n > 0 && Fragment(Sentences(c)[n - 1])
    ensures var n := |Sentences(c)|;
            Sentences(ApplyUpdate(c, n, 0, text).value) ==
            Sentences(c)[..n - 1] + Sentences(Sentences(c)[n - 1] + " " + Edited(c, n, 0, text))
  {
    hide InRange, AllTerminated, WordStarts, Fragment, Slots, Words, Sentences, JoinSentences, Tokens,
         ApplyUpdate, Edited;
    var ss, n := Sentences(c), |Sentences(c)|;
    UnfinishedFront(c);
    AppendInRange(c);
    EditSettles(c, n, 0, text);
    EditedStart(c, n, 0, text);
    AppendSlot(c, Edited(c, n, 0, text));
    SentencesOfAppended(ss[..n - 1], ss[n - 1], Edited(c, n, 0, text));
  }

  /** Appending after an unfinished last sentence runs into it. */
  lemma AppendToFragment(c: string, text: string)
    requires var n := |Sentences(c)|; n > 0 && !Terminated(Sentences(c)[n - 1])
    ensures var n, r := |Sentences(c)|, ApplyUpdate(c, |Sentences(c)|, 0, text).value;
            |Sentences(r)| >= n && Sentences(r)[n - 1] != Sentences(c)[n - 1]
  {
    var n := |Sentences(c)|;
    SentencesWellFormed(c);
    AppendedSentences(c, text);
    hide Sentences, ApplyUpdate, Edited;
    FragmentRunsOn(Sentences(c)[n - 1], Edited(c, n, 0, text));
  }

  /** All sentences before the edited one keep their text, exactly when the edit is not an
      append to an unfinished document. */
  lemma SentencesBeforeKept(c: string, k: int, w: int, text: string)
    requires InRange(c, k, w)
    ensures var r := ApplyUpdate(c, k, w, text).value;
            k <= |Sentences(r)| && Sentences(r)[..k] == Sentences(c)[..k] <==> Editable(c, k)
  {
    if Editable(c, k) {
      EditFront(c, k, w, text);
    } else {
      AppendToFragment(c, text);
      var r := ApplyUpdate(c, k, w, text).value;
      assert k <= |Sentences(r)| ==> Sentences(r)[..k][k - 1] == Sentences(r)[k - 1];
    }
  }

  /** No edit lowers the number of sentences, with one exception. */
  lemma SentenceCountKept(c: string, k: int, w: int, text: string)
    requires InRange(c, k, w)
    ensures |Sentences(ApplyUpdate(c, k, w, text).value)| >= |Sentences(c)|
            <==> !BlankErasure(c, k, text)
  {
    var ss, r := Sentences(c), ApplyUpdate(c, k, w, text).value;
    SentencesWellFormed(c);
    WordsOfSentences(c);
    if k + 1 < |ss| {
      var b := EditInside(c, k, w, text);
      EditedKeepsDelimiter(c, k, w, text, b);
      assert Words(c) != [] by {
        TerminatedWords(ss[0]);
      }
    } else if k == |ss| {
      if Editable(c, k) {
        EditFront(c, k, w, text);
      } else {
        AppendToFragment(c, text);
      }
    } else {
      EditLast(c, k, w, text);
    }
  }

  lemma SpliceKeepsLast(a: seq<string>, w: nat, x: seq<string>)
    requires w <= |a| && a != []
    ensures a[|a| - 1] in Spliced(a, w, x)
  {
    var r := Spliced(a, w, x);
    assert r[if w < |a| then |r| - 1 else |a| - 1] == a[|a| - 1];
  }

  /** The delimiter of an edited finished sentence is still there. */
  lemma EditedKeepsDelimiter(c: string, k: int, w: int, text: string, b: string)
    requires InRange(c, k, w) && k + 1 < |Sentences(c)|
    requires Words(b) == Words(Edited(c, k, w, text))
    ensures Complete(b) != []
  {
    SentencesWellFormed(c);
    TerminatedWords(Sentences(c)[k]);
    EditedWords(c, k, w, text);
    SpliceKeepsLast(Words(Sentences(c)[k]), w, Words(text));
    hide Words, Sentences, Edited;
    if Complete(b) == [] {
      CompleteShape(b);
      NoDelimiterWords(b);
    }
  }

  lemma {:induction false} NoDelimiterWords(b: string)
    requires FirstDelimiter(b) == |b|
    ensures forall t | t in Words(b) :: t != "" && !IsDelimiter(t[0])
    decreases |b|
  {
    if b == "" {
    } else if IsSpace(b[0]) {
      NoDelimiterWords(b[1..]);
    } else {
      var n := WordLength(b);
      FirstDelimiterFacts(b);
      FirstDelimiterIs(b[n..], |b| - n);
      NoDelimiterWords(b[n..]);
    }
  }

  lemma EditLast(c: string, k: int, w: int, text: string)
    requires InRange(c, k, w) && k + 1 == |Sentences(c)|
    ensures |Sentences(ApplyUpdate(c, k, w, text).value)| > k <==> !BlankErasure(c, k, text)
  {
    var edited := Edited(c, k, w, text);
    EditFront(c, k, w, text);
    assert JoinSentences([edited] + []) == edited;
    SentencesNonEmpty(if k == 0 then edited else SkipSpaces(edited));
    if k > 0 {
      EditLastWords(c, k, w, text);
    } else {
      EditedStart(c, k, w, text);
      WordsOfSentences(c);
      assert AllWords(Sentences(c)) == Words(Sentences(c)[0]) + AllWords([]);
    }
  }

  /** A last sentence that is not the first has a word, and keeps it. */
  lemma EditLastWords(c: string, k: int, w: int, text: string)
    requires InRange(c, k, w) && 0 < k == |Sentences(c)| - 1
    ensures SkipSpaces(Edited(c, k, w, text)) != ""
  {
    SentencesWellFormed(c);
    StartsWithWord(Sentences(c)[k]);
    EditedWords(c, k, w, text);
    WordsOfSkipSpaces(Edited(c, k, w, text));
    assert Words("") == [];
  }
}
