/** What the sentence scanner makes of a text, and of two texts put together. */
module SentenceFacts {
  import opened Text
  import opened FileParser
  import opened WordFacts

  /** Ends in a delimiter and holds no other. */
  predicate Terminated(t: string) {
    t != "" && FirstDelimiter(t) == |t| - 1
  }

  /** Unterminated text. */
  predicate Fragment(t: string) {
    t != "" && FirstDelimiter(t) == |t|
  }

  /** Sentence lists as the scanner yields them: only the last sentence may be
      unterminated and only the first may begin with white space. */
  predicate WellFormed(ss: seq<string>) {
    && (forall i | 0 <= i < |ss| :: Terminated(ss[i]) || (i == |ss| - 1 && Fragment(ss[i])))
    && WordStarts(ss, 1)
  }

  /** From position `from` on no sentence begins with white space. */
  predicate WordStarts(ss: seq<string>, from: nat) {
    forall i | from <= i < |ss| :: ss[i] != "" && !IsSpace(ss[i][0])
  }

  predicate AllTerminated(ss: seq<string>) {
    forall i | 0 <= i < |ss| :: Terminated(ss[i])
  }

  /** The terminated sentences of a text, without an unterminated rest. */
  function Complete(s: string): seq<string>
    decreases |s|
  {
    var d := FirstDelimiter(s);
    if d < |s| then [s[..d + 1]] + Complete(SkipSpaces(s[d + 1..])) else []
  }

  /** The unterminated rest of a text. */
  function Rest(s: string): string
    decreases |s|
  {
    var d := FirstDelimiter(s);
    if d < |s| then Rest(SkipSpaces(s[d + 1..])) else s
  }

  /** A text that ends, but for white space, in a delimiter. */
  predicate Closed(s: string) {
    Complete(s) != [] && Rest(s) == ""
  }

  function One(t: string): seq<string> {
    if t == "" then [] else [t]
  }

  lemma {:induction false} SentencesAre(s: string)
    ensures Sentences(s) == Complete(s) + One(Rest(s))
    decreases |s|
  {
    var d := FirstDelimiter(s);
    if d < |s| {
      SentencesAre(SkipSpaces(s[d + 1..]));
      Regroup([s[..d + 1]], Complete(SkipSpaces(s[d + 1..])), One(Rest(s)));
    }
  }

  lemma SkipSpacesStart(s: string)
    ensures SkipSpaces(s) == "" || !IsSpace(SkipSpaces(s)[0])
  {
    SkipSpacesFacts(s);
  }

  lemma {:induction false} CompleteShape(s: string)
    ensures AllTerminated(Complete(s)) && WordStarts(Complete(s), 1)
    ensures Rest(s) == "" || Fragment(Rest(s))
    ensures Complete(s) != [] ==> (Rest(s) == "" || !IsSpace(Rest(s)[0])) && Complete(s)[0][0] == s[0]
    ensures Complete(s) == [] ==> Rest(s) == s
    decreases |s|
  {
    var d := FirstDelimiter(s);
    FirstDelimiterFacts(s);
    if d < |s| {
      var tail := SkipSpaces(s[d + 1..]);
      SkipSpacesStart(s[d + 1..]);
      CompleteShape(tail);
      FirstDelimiterIs(s[..d + 1], d);
      assert Complete(s) == [s[..d + 1]] + Complete(tail);
    }
  }

  /** The scanner always yields a well-formed list. */
  lemma SentencesWellFormed(s: string)
    ensures WellFormed(Sentences(s))
    ensures s != "" && !IsSpace(s[0]) ==> WordStarts(Sentences(s), 0)
  {
    SentencesAre(s);
    CompleteShape(s);
  }

  lemma {:induction false} FirstDelimiterConcat(s: string, u: string)
    ensures FirstDelimiter(s + u) ==
            if FirstDelimiter(s) < |s| then FirstDelimiter(s) else |s| + FirstDelimiter(u)
  {
    if s == "" {
      assert s + u == u;
    } else if !IsDelimiter(s[0]) {
      assert (s + u)[1..] == s[1..] + u;
      FirstDelimiterConcat(s[1..], u);
    }
  }

  lemma {:induction false} SkipSpacesConcat(s: string, u: string)
    ensures SkipSpaces(s + u) == if SkipSpaces(s) == "" then SkipSpaces(u) else SkipSpaces(s) + u
  {
    if s == "" {
      assert s + u == u;
    } else if IsSpace(s[0]) {
      assert (s + u)[1..] == s[1..] + u;
      SkipSpacesConcat(s[1..], u);
    }
  }

  /** Scanning a text followed by another: the terminated sentences stand, and the
      rest runs on into what follows. */
  lemma {:induction false} SentencesConcat(s: string, u: string)
    ensures Sentences(s + u) ==
            Complete(s) + (if Closed(s) then Sentences(SkipSpaces(u)) else Sentences(Rest(s) + u))
    decreases |s|
  {
    var d := FirstDelimiter(s);
    FirstDelimiterConcat(s, u);
    if d < |s| {
      var tail := SkipSpaces(s[d + 1..]);
      assert (s + u)[..d + 1] == s[..d + 1];
      assert (s + u)[d + 1..] == s[d + 1..] + u;
      SkipSpacesConcat(s[d + 1..], u);
      if tail == "" {
        assert Complete(tail) == [] && Rest(tail) == "";
        assert [s[..d + 1]] + [] == [s[..d + 1]];
      } else {
        SentencesConcat(tail, u);
        NonEmptyClosed(tail);
        Regroup([s[..d + 1]], Complete(tail),
                if Closed(tail) then Sentences(SkipSpaces(u)) else Sentences(Rest(tail) + u));
      }
    } else {
      assert [] + Sentences(s + u) == Sentences(s + u);
    }
  }

  lemma NonEmptyClosed(s: string)
    requires s != ""
    ensures Closed(s) <==> Rest(s) == ""
  {
    CompleteShape(s);
  }

  lemma {:induction false} TerminatedParts(t: string)
    requires Terminated(t)
    ensures Complete(t) == [t] && Rest(t) == "" && Closed(t)
  {
    var d := FirstDelimiter(t);
    assert t[..d + 1] == t && t[d + 1..] == "";
  }

  // ---------------------------------------------------------------- joined lists

  lemma JoinStart(ss: seq<string>)
    requires ss != [] && ss[0] != ""
    ensures JoinSentences(ss) != "" && JoinSentences(ss)[0] == ss[0][0]
  {
  }

  /** Terminated sentences at the front of a joined list are found again. */
  lemma {:induction false} SentencesOfJoin(pre: seq<string>, rest: seq<string>)
    requires AllTerminated(pre) && WordStarts(pre, 1)
    ensures Sentences(JoinSentences(pre + rest)) ==
            pre + Sentences(if pre == [] then JoinSentences(rest) else SkipSpaces(JoinSentences(rest)))
    decreases |pre|
  {
    if pre == [] {
      assert pre + rest == rest && [] + Sentences(JoinSentences(rest)) == Sentences(JoinSentences(rest));
    } else {
      var t, more := pre[0], pre[1..] + rest;
      assert (pre + rest)[1..] == more && pre == [t] + pre[1..];
      TerminatedParts(t);
      if more == [] {
        SentencesAre(t);
        assert rest == [] && pre + rest == [t];
        assert pre + [] == pre == [t] + [];
      } else {
        var gap := SentenceGap(more[0]);
        var joined := JoinSentences(more);
        assert JoinSentences(pre + rest) == t + (gap + joined) by {
          Regroup(t, gap, joined);
        }
        SentencesConcat(t, gap + joined);
        SkipGap(gap, joined);
        SentencesOfJoin(pre[1..], rest);
        if pre[1..] == [] {
          assert more == rest;
          assert pre + Sentences(SkipSpaces(joined)) == [t] + Sentences(SkipSpaces(joined));
        } else {
          JoinStart(more);
          assert SkipSpaces(joined) == joined;
          Regroup([t], pre[1..], Sentences(SkipSpaces(JoinSentences(rest))));
        }
      }
    }
  }

  lemma SkipGap(gap: string, s: string)
    requires gap == "" || gap == " "
    ensures SkipSpaces(gap + s) == SkipSpaces(s)
  {
    if gap == "" {
      assert gap + s == s;
    } else {
      assert (gap + s)[1..] == s;
    }
  }

  /** Scanning the joined form of a well-formed list gives the list back. */
  lemma SentenceRoundTrip(ss: seq<string>)
    requires WellFormed(ss)
    ensures Sentences(JoinSentences(ss)) == ss
  {
    if ss == [] || Terminated(ss[|ss| - 1]) {
      SentencesOfJoin(ss, []);
      assert ss + [] == ss;
    } else {
      var pre, last := ss[..|ss| - 1], ss[|ss| - 1];
      SentencesOfJoin(pre, [last]);
      assert pre + [last] == ss;
    }
  }

  /** Splitting and joining settles after one round. */
  lemma SplitJoinIdempotent(s: string)
    ensures var t := JoinSentences(Sentences(s));
            Sentences(t) == Sentences(s) && JoinSentences(Sentences(t)) == t
  {
    SentencesWellFormed(s);
    SentenceRoundTrip(Sentences(s));
  }

  // ---------------------------------------------------------------- counting

  function DelimiterCount(s: string): nat {
    if s == "" then 0 else (if IsDelimiter(s[0]) then 1 else 0) + DelimiterCount(s[1..])
  }

  lemma {:induction false} DelimiterCountConcat(s: string, u: string)
    ensures DelimiterCount(s + u) == DelimiterCount(s) + DelimiterCount(u)
  {
    if s == "" {
      assert s + u == u;
    } else {
      assert (s + u)[1..] == s[1..] + u;
      DelimiterCountConcat(s[1..], u);
    }
  }

  lemma {:induction false} NoDelimiters(s: string)
    requires FirstDelimiter(s) == |s|
    ensures DelimiterCount(s) == 0
  {
    if s != "" {
      NoDelimiters(s[1..]);
    }
  }

  lemma {:induction false} DelimiterCountSkip(s: string)
    ensures DelimiterCount(SkipSpaces(s)) == DelimiterCount(s)
  {
    if s != "" && IsSpace(s[0]) {
      DelimiterCountSkip(s[1..]);
    }
  }

  /** The number of sentences: one per delimiter, and one more for a non-empty rest. */
  lemma {:induction false} SentenceCount(s: string)
    ensures |Sentences(s)| == DelimiterCount(s) + if Rest(s) == "" then 0 else 1
    decreases |s|
  {
    var d := FirstDelimiter(s);
    if d < |s| {
      SentenceCount(SkipSpaces(s[d + 1..]));
      DelimiterCountSkip(s[d + 1..]);
      DelimiterCountConcat(s[..d], s[d..]);
      assert s == s[..d] + s[d..] && s[d..][1..] == s[d + 1..];
      FirstDelimiterFacts(s);
      FirstDelimiterIs(s[..d], d);
      NoDelimiters(s[..d]);
    } else {
      NoDelimiters(s);
    }
  }

  // ---------------------------------------------------------------- words and closing

  /** The last word is a delimiter. */
  predicate EndsInDelimiter(ws: seq<string>) {
    ws != [] && ws[|ws| - 1] != "" && IsDelimiter(ws[|ws| - 1][0])
  }

  lemma {:induction false} FragmentWords(t: string)
    requires FirstDelimiter(t) == |t|
    ensures !EndsInDelimiter(Words(t))
    decreases |t|
  {
    if t == "" {
    } else if IsSpace(t[0]) {
      FragmentWords(t[1..]);
    } else {
      var n := WordLength(t);
      FirstDelimiterFacts(t);
      FirstDelimiterIs(t[n..], |t| - n);
      FragmentWords(t[n..]);
      assert Words(t) == [t[..n]] + Words(t[n..]);
    }
  }

  lemma StartsWithWord(s: string)
    requires s != "" && !IsSpace(s[0])
    ensures Words(s) != []
  {
  }

  /** A text is closed exactly when its last word is a delimiter. */
  lemma {:induction false} ClosedWords(s: string)
    ensures Closed(s) <==> EndsInDelimiter(Words(s))
    decreases |s|
  {
    var d := FirstDelimiter(s);
    if d < |s| {
      var tail := SkipSpaces(s[d + 1..]);
      WordsAtDelimiter(s);
      assert Complete(s) == [s[..d + 1]] + Complete(tail) && Rest(s) == Rest(tail);
      if tail == "" {
        FirstDelimiterFacts(s);
        FirstDelimiterIs(s[..d + 1], d);
        TerminatedWords(s[..d + 1]);
        assert Words(s) == Words(s[..d + 1]) && Rest(tail) == "";
      } else {
        ClosedWords(tail);
        NonEmptyClosed(tail);
        SkipSpacesStart(s[d + 1..]);
        StartsWithWord(tail);
        hide Words;
        assert Words(s)[|Words(s)| - 1] == Words(tail)[|Words(tail)| - 1];
      }
    } else {
      FragmentWords(s);
    }
  }

  lemma TerminatedWords(t: string)
    requires Terminated(t)
    ensures EndsInDelimiter(Words(t)) && Words(t)[|Words(t)| - 1] == [t[|t| - 1]]
  {
    FirstDelimiterFacts(t);
    var d := |t| - 1;
    assert t == t[..d] + t[d..];
    WordsConcat(t[..d], t[d..]);
    assert t[d..][1..] == "" && t[d..] == [t[d]];
  }
}
