/** What the printers write between words and between sentences, told by characters alone. */
module Spacing {
  import opened Text
  import opened FileParser
  import opened WordFacts
  import opened SentenceFacts
  import opened EditFacts

  predicate White(c: char) {
    c == ' ' || 9 <= c as int <= 13
  }

  predicate Stop(c: char) {
    c == '.' || c == '!' || c == '?'
  }

  /** A stop by itself, or characters that are neither white nor stops. */
  predicate Proper(w: string) {
    || (|w| == 1 && Stop(w[0]))
    || (w != "" && forall i | 0 <= i < |w| :: !White(w[i]) && !Stop(w[i]))
  }

  /** `b` may stand right after `a`: white space is one blank, and before a letter; after a
      stop comes a blank or another stop. */
  predicate Follows(a: char, b: char) {
    && (White(a) ==> !White(b) && !Stop(b))
    && (White(b) ==> b == ' ')
    && (Stop(a) ==> b == ' ' || Stop(b))
  }

  predicate Neighbours(t: string) {
    forall i | 0 <= i < |t| - 1 :: Follows(t[i], t[i + 1])
  }

  /** No white space at the ends, and every neighbour in its place. */
  predicate Tidy(t: string) {
    (t != "" ==> !White(t[0]) && !White(t[|t| - 1])) && Neighbours(t)
  }

  lemma SameCharacters(c: char)
    ensures White(c) <==> IsSpace(c)
    ensures Stop(c) <==> IsDelimiter(c)
  {
  }

  // ---------------------------------------------------------------- words

  /** The words of any text are proper. */
  lemma {:induction false} WordsProper(s: string)
    ensures forall w | w in Words(s) :: Proper(w)
    decreases |s|
  {
    if s == "" {
    } else if !IsOrdinary(s[0]) {
      SameCharacters(s[0]);
      WordsProper(s[1..]);
    } else {
      WordLengthFacts(s);
      WordsProper(s[WordLength(s)..]);
      assert Proper(s[..WordLength(s)]);
    }
  }

  lemma NeighboursConcat(a: string, b: string)
    requires Neighbours(a) && Neighbours(b) && (a != "" && b != "" ==> Follows(a[|a| - 1], b[0]))
    ensures Neighbours(a + b)
  {
    var t := a + b;
    forall i | 0 <= i < |t| - 1 ensures Follows(t[i], t[i + 1]) {
      if i + 1 < |a| {
        assert t[i] == a[i] && t[i + 1] == a[i + 1];
      } else if i >= |a| {
        assert t[i] == b[i - |a|] && t[i + 1] == b[i - |a| + 1];
      }
    }
  }

  lemma ProperTidy(w: string)
    requires Proper(w)
    ensures Tidy(w)
  {
  }

  /** A word, what `join_words` puts behind it, and tidy text that begins with the next word. */
  lemma WordBefore(w: string, rest: string)
    requires Proper(w) && Tidy(rest) && rest != ""
    ensures Tidy(w + (if Stop(rest[0]) then "" else " ") + rest)
  {
    ProperTidy(w);
    if Stop(rest[0]) {
      NeighboursConcat(w, rest);
      assert w + "" + rest == w + rest;
    } else {
      assert Neighbours(" ");
      NeighboursConcat(w, " ");
      NeighboursConcat(w + " ", rest);
    }
  }

  /** Printing proper words gives tidy text. */
  lemma {:induction false} JoinWordsTidy(ws: seq<string>)
    requires forall w | w in ws :: Proper(w)
    ensures Tidy(JoinWords(ws))
    ensures ws != [] ==> ws[0] != "" && JoinWords(ws) != "" && JoinWords(ws)[0] == ws[0][0]
  {
    if |ws| == 1 {
      assert ws[0] in ws;
      ProperTidy(ws[0]);
    } else if |ws| > 1 {
      assert ws[0] in ws && ws[1] in ws;
      JoinWordsTidy(ws[1..]);
      SameCharacters(ws[1][0]);
      WordBefore(ws[0], JoinWords(ws[1..]));
    }
  }

  /** Tidy text without its first word, and without the blank behind that. */
  lemma TidyRest(s: string, n: nat)
    requires Tidy(s) && 0 < n < |s| && (White(s[n]) || Stop(s[n]) || Stop(s[n - 1]))
    ensures var rest := if s[n] == ' ' then s[n + 1..] else s[n..];
            && rest != "" && Tidy(rest) && !White(rest[0])
            && (s[n] == ' ' <==> !Stop(rest[0]))
            && s == s[..n] + (if Stop(rest[0]) then "" else " ") + rest
  {
    assert Follows(s[n - 1], s[n]);
    if s[n] == ' ' {
      assert n + 1 < |s| && Follows(s[n], s[n + 1]);
      assert s == s[..n] + " " + s[n + 1..];
    } else {
      assert s == s[..n] + "" + s[n..];
    }
    var rest := if s[n] == ' ' then s[n + 1..] else s[n..];
    forall i | 0 <= i < |rest| - 1 ensures Follows(rest[i], rest[i + 1]) {
      var k := i + |s| - |rest|;
      assert rest[i] == s[k] && rest[i + 1] == s[k + 1] && Follows(s[k], s[k + 1]);
    }
  }

  /** Where the first word of a text ends. */
  function FirstWord(s: string): (n: nat)
    requires s != "" && !IsSpace(s[0])
    ensures 0 < n <= |s|
  {
    if IsDelimiter(s[0]) then 1 else WordLength(s)
  }

  lemma FirstWordFacts(s: string)
    requires s != "" && !IsSpace(s[0])
    ensures var n := FirstWord(s);
            && Words(s) == [s[..n]] + Words(s[n..])
            && (n < |s| ==> White(s[n]) || Stop(s[n]) || Stop(s[n - 1]))
  {
    if IsDelimiter(s[0]) {
      SameCharacters(s[0]);
      assert s[..1] == [s[0]];
    } else {
      WordLengthFacts(s);
      if WordLength(s) < |s| {
        SameCharacters(s[WordLength(s)]);
      }
    }
  }

  /** Tidy text is what printing its words gives. */
  lemma {:induction false} TidyIsPrinted(s: string)
    requires Tidy(s)
    ensures JoinWords(Words(s)) == s
    ensures s != "" ==> Words(s) != [] && Words(s)[0] != "" && Words(s)[0][0] == s[0]
    decreases |s|
  {
    if s != "" {
      SameCharacters(s[0]);
      FirstWordFacts(s);
      var n := FirstWord(s);
      if n == |s| {
        assert s[..n] == s && s[n..] == "" && Words("") == [];
      } else {
        TidyRest(s, n);
        var rest := if s[n] == ' ' then s[n + 1..] else s[n..];
        assert Words(s[n..]) == Words(rest) by {
          if s[n] == ' ' {
            assert s[n..][1..] == rest;
          }
        }
        TidyIsPrinted(rest);
        SameCharacters(rest[0]);
        hide Words, Tidy;
        var ws := [s[..n]] + Words(rest);
        assert ws[1..] == Words(rest) && ws[1] == Words(rest)[0];
      }
    }
  }

  /** Splitting into words and printing leaves exactly the tidy texts as they are. */
  lemma PrintedIffTidy(s: string)
    ensures JoinWords(Words(s)) == s <==> Tidy(s)
  {
    WordsProper(s);
    JoinWordsTidy(Words(s));
    if Tidy(s) {
      TidyIsPrinted(s);
    }
  }

  /** One more word, of any kind, is printed with a blank in front unless it is the first or
      begins with a stop. */
  lemma {:induction false} JoinWordsAppends(ws: seq<string>, w: string)
    ensures JoinWords(ws + [w]) ==
            if ws == [] then w
            else JoinWords(ws) + (if w != "" && (w[0] == '.' || w[0] == '!' || w[0] == '?') then "" else " ") + w
  {
    var all := ws + [w];
    if ws == [] {
      assert all == [w];
    } else if |ws| == 1 {
      assert all[1..] == [w] && all[0] == ws[0];
    } else {
      assert all[1..] == ws[1..] + [w] && all[0] == ws[0] && all[1] == ws[1];
      JoinWordsAppends(ws[1..], w);
      var gap := if w != "" && (w[0] == '.' || w[0] == '!' || w[0] == '?') then "" else " ";
      hide JoinWords;
      assert JoinWords(all) == ws[0] + WordGap(ws[1]) + JoinWords(all[1..]) by {
        JoinWordsStep(all);
      }
      JoinWordsStep(ws);
      Regroup(ws[0] + WordGap(ws[1]), JoinWords(ws[1..]) + gap, w);
      Regroup(ws[0] + WordGap(ws[1]), JoinWords(ws[1..]), gap);
    }
  }

  lemma JoinWordsStep(ws: seq<string>)
    requires |ws| > 1
    ensures JoinWords(ws) == ws[0] + WordGap(ws[1]) + JoinWords(ws[1..])
  {
  }

  // ---------------------------------------------------------------- sentences

  /** After every stop but the last character: one blank, and then no white space. */
  predicate Spaced(s: string) {
    forall i | 0 <= i < |s| - 1 && Stop(s[i]) :: s[i + 1] == ' ' && i + 2 < |s| && !White(s[i + 2])
  }

  lemma SpacedAfter(s: string, d: nat, rest: string)
    requires d < |s| && s == s[..d + 1] + (" " + rest) && Stop(s[d])
    requires forall i | 0 <= i < d :: !Stop(s[i])
    requires rest != "" && !White(rest[0])
    ensures Spaced(s) <==> Spaced(rest)
  {
    assert |s| == d + 2 + |rest| && s[d + 1] == ' ';
    assert forall i | 0 <= i < |rest| :: s[d + 2 + i] == rest[i];
    if Spaced(rest) {
      forall i | 0 <= i < |s| - 1 && Stop(s[i]) ensures s[i + 1] == ' ' && i + 2 < |s| && !White(s[i + 2]) {
        if i > d {
          assert i != d + 1;
          assert s[i] == rest[i - d - 2];
        }
      }
    }
    if Spaced(s) {
      forall i | 0 <= i < |rest| - 1 && Stop(rest[i])
        ensures rest[i + 1] == ' ' && i + 2 < |rest| && !White(rest[i + 2])
      {
        assert s[d + 2 + i] == rest[i] && Stop(s[d + 2 + i]);
      }
    }
  }

  lemma NoStops(s: string)
    ensures var d := FirstDelimiter(s);
            && (forall i | 0 <= i < d :: !Stop(s[i])) && (d < |s| ==> Stop(s[d]))
  {
    FirstDelimiterFacts(s);
    var d := FirstDelimiter(s);
    forall i | 0 <= i < d ensures !Stop(s[i]) {
      SameCharacters(s[i]);
    }
  }

  /** The printed list of a text that begins without white space begins with its first character. */
  lemma PrintedStart(s: string)
    requires s != "" && !White(s[0])
    ensures Sentences(s) != [] && Sentences(s)[0] != "" && Sentences(s)[0][0] == s[0]
    ensures JoinSentences(Sentences(s)) != "" && JoinSentences(Sentences(s))[0] == s[0]
  {
    FirstDelimiterFacts(s);
  }

  /** Scanning sentences and printing them leaves a text as it is exactly when it is spaced. */
  lemma {:induction false} PrintedIffSpaced(s: string)
    ensures JoinSentences(Sentences(s)) == s <==> Spaced(s)
    decreases |s|
  {
    var d := FirstDelimiter(s);
    NoStops(s);
    if d == |s| {
      assert Sentences(s) == if s == "" then [] else [s];
    } else {
      var first, tail := s[..d + 1], s[d + 1..];
      var rest := SkipSpaces(tail);
      SkipSpacesFacts(tail);
      assert s == first + tail && s[..d + 1] == first;
      assert Sentences(s) == [first] + Sentences(rest);
      if rest == "" {
        LastPrinted(s, d, tail);
      } else {
        SameCharacters(rest[0]);
        PrintedStart(rest);
        PrintedIffSpaced(rest);
        SplitPrinted(s, d, tail, rest);
      }
    }
  }

  /** Nothing but white space behind the only stop. */
  lemma LastPrinted(s: string, d: nat, tail: string)
    requires d < |s| && s == s[..d + 1] + tail && SkipSpaces(tail) == "" && Stop(s[d])
    requires forall i | 0 <= i < d :: !Stop(s[i])
    ensures s[..d + 1] == s <==> Spaced(s)
    ensures JoinSentences([s[..d + 1]] + Sentences("")) == s[..d + 1]
  {
    assert [s[..d + 1]] + Sentences("") == [s[..d + 1]];
    if tail != "" {
      AllWhite(tail);
      assert s[d + 1] == tail[0];
      if |tail| > 1 {
        assert s[d + 2] == tail[1];
      }
    }
  }

  lemma {:induction false} AllWhite(s: string)
    requires SkipSpaces(s) == ""
    ensures forall i | 0 <= i < |s| :: White(s[i])
  {
    if s != "" {
      SameCharacters(s[0]);
      AllWhite(s[1..]);
      assert forall i | 1 <= i < |s| :: s[i] == s[1..][i - 1];
    }
  }

  /** The first sentence and the rest. */
  lemma SplitPrinted(s: string, d: nat, tail: string, rest: string)
    requires d < |s| && s == s[..d + 1] + tail && Stop(s[d])
    requires forall i | 0 <= i < d :: !Stop(s[i])
    requires rest == SkipSpaces(tail) != "" && !White(rest[0])
    requires Sentences(rest) != [] && Sentences(rest)[0] != "" && Sentences(rest)[0][0] == rest[0]
    requires var p := JoinSentences(Sentences(rest)); p != "" && p[0] == rest[0] && (p == rest <==> Spaced(rest))
    ensures JoinSentences([s[..d + 1]] + Sentences(rest)) == s <==> Spaced(s)
  {
    var first, p := s[..d + 1], JoinSentences(Sentences(rest));
    var list := [first] + Sentences(rest);
    assert list[1..] == Sentences(rest) && list[1] == Sentences(rest)[0];
    assert JoinSentences(list) == first + " " + p;
    Regroup(first, " ", p);
    hide Sentences, JoinSentences, Spaced;
    assert first + (" " + p) == s <==> " " + p == tail by {
      if first + (" " + p) == s {
        assert s[d + 1..] == " " + p && s[d + 1..] == tail;
      }
    }
    if " " + p == tail {
      SkipOne(p);
      assert rest == p;
      SpacedAfter(s, d, rest);
    }
    SpacedTail(s, d, tail, rest);
  }

  lemma SkipOne(p: string)
    requires p != "" && !White(p[0])
    ensures SkipSpaces(" " + p) == p
  {
    SameCharacters(p[0]);
    assert (" " + p)[1..] == p;
  }

  lemma SpacedTail(s: string, d: nat, tail: string, rest: string)
    requires d < |s| && s == s[..d + 1] + tail && Stop(s[d])
    requires forall i | 0 <= i < d :: !Stop(s[i])
    requires rest == SkipSpaces(tail) != "" && !White(rest[0])
    ensures Spaced(s) ==> tail == " " + rest && Spaced(rest)
  {
    if Spaced(s) {
      assert tail != "";
      assert d < |s| - 1 && s[d + 1] == ' ' && d + 2 < |s| && !White(s[d + 2]);
      assert tail[0] == s[d + 1] && tail[1] == s[d + 2];
      assert tail == " " + tail[1..];
      SkipOne(tail[1..]);
      SpacedAfter(s, d, rest);
    }
  }

  /** One more sentence is printed with a blank in front unless it is the first or begins
      with one. */
  lemma {:induction false} JoinSentencesAppends(ss: seq<string>, s: string)
    ensures JoinSentences(ss + [s]) ==
            if ss == [] then s
            else JoinSentences(ss) + (if s != "" && s[0] == ' ' then "" else " ") + s
  {
    var all := ss + [s];
    if ss == [] {
      assert all == [s];
    } else if |ss| == 1 {
      assert all[1..] == [s] && all[0] == ss[0];
    } else {
      assert all[1..] == ss[1..] + [s] && all[0] == ss[0] && all[1] == ss[1];
      JoinSentencesAppends(ss[1..], s);
      var gap := if s != "" && s[0] == ' ' then "" else " ";
      hide JoinSentences;
      JoinSentencesStep(all);
      JoinSentencesStep(ss);
      Regroup(ss[0] + SentenceGap(ss[1]), JoinSentences(ss[1..]) + gap, s);
      Regroup(ss[0] + SentenceGap(ss[1]), JoinSentences(ss[1..]), gap);
    }
  }

  lemma JoinSentencesStep(ss: seq<string>)
    requires |ss| > 1
    ensures JoinSentences(ss) == ss[0] + SentenceGap(ss[1]) + JoinSentences(ss[1..])
  {
  }

  /** Whatever was edited, the whole text is spaced afterwards. */
  lemma EditedSpaced(c: string, k: int, w: int, text: string)
    requires InRange(c, k, w)
    ensures ApplyUpdate(c, k, w, text).Some? && Spaced(ApplyUpdate(c, k, w, text).value)
  {
    EditMeaning(c, k, w, text);
    EditSettles(c, k, w, text);
    PrintedIffSpaced(ApplyUpdate(c, k, w, text).value);
  }

  /** The edited sentence: the words before, the pieces of the new text and the words after,
      printed; tidy, if the pieces are proper words. */
  lemma EditedTidy(c: string, k: int, w: int, text: string)
    requires InRange(c, k, w)
    requires forall t | t in Tokens(text, ' ') :: Proper(t)
    ensures Tidy(Edited(c, k, w, text))
    ensures Words(Edited(c, k, w, text)) == Words(Slots(c, k)[k])[..w] + Tokens(text, ' ') + Words(Slots(c, k)[k])[w..]
  {
    var words, pieces := Words(Slots(c, k)[k]), Tokens(text, ' ');
    WordsProper(Slots(c, k)[k]);
    WordsAreWords(Slots(c, k)[k]);
    var all := words[..w] + pieces + words[w..];
    forall x | x in all ensures Proper(x) {
      assert x in words || x in pieces;
    }
    forall i | 0 <= i < |all| ensures Words(all[i]) == [all[i]] {
      assert all[i] in all;
      ProperIsWord(all[i]);
    }
    hide Words, Tokens, Proper;
    JoinWordsTidy(all);
    WordsOfJoinWords(all);
    AllWordsOfWords(all);
  }

  lemma ProperIsWord(w: string)
    requires Proper(w)
    ensures Words(w) == [w]
  {
    if |w| == 1 && Stop(w[0]) {
      SameCharacters(w[0]);
      assert w[1..] == "" && w == [w[0]];
    } else {
      forall i | 0 <= i < |w| ensures IsOrdinary(w[i]) {
        SameCharacters(w[i]);
      }
      OrdinaryRunIsWord(w);
    }
  }
}
