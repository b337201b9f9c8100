/** Splitting into words is a homomorphism: whatever the printers put between two
    pieces, the words of the whole are the words of the pieces. */
module WordFacts {
  import opened Text
  import opened FileParser

  /** The words of every piece, in order. */
  function AllWords(pieces: seq<string>): seq<string> {
    if pieces == [] then [] else Words(pieces[0]) + AllWords(pieces[1..])
  }

  /** No word runs across the seam between `x` and `y`. */
  predicate Seam(x: string, y: string) {
    x == "" || y == "" || !IsOrdinary(x[|x| - 1]) || !IsOrdinary(y[0])
  }

  lemma {:induction false} WordsConcat(x: string, y: string)
    requires Seam(x, y)
    ensures Words(x + y) == Words(x) + Words(y)
    decreases |x|
  {
    if x == "" {
      assert x + y == y;
    } else if !IsOrdinary(x[0]) {
      assert (x + y)[1..] == x[1..] + y;
      WordsConcat(x[1..], y);
      Regroup([[x[0]]], Words(x[1..]), Words(y));
    } else {
      var n := WordLength(x);
      WordLengthFacts(x);
      assert (x + y)[..n] == x[..n] && (x + y)[n..] == x[n..] + y;
      assert n == |x| && y != "" ==> (x + y)[n] == y[0];
      assert n < |x| ==> (x + y)[n] == x[n];
      WordLengthIs(x + y, n);
      WordsConcat(x[n..], y);
      Regroup([x[..n]], Words(x[n..]), Words(y));
    }
  }

  /** A word is itself a single word. */
  lemma {:induction false} WordsAreWords(s: string)
    ensures forall i | 0 <= i < |Words(s)| :: Words(Words(s)[i]) == [Words(s)[i]]
    decreases |s|
  {
    if s == "" {
    } else if !IsOrdinary(s[0]) {
      WordsAreWords(s[1..]);
    } else {
      var n := WordLength(s);
      WordsAreWords(s[n..]);
      OrdinaryRunIsWord(s[..n]) by {
        WordLengthFacts(s);
      }
    }
  }

  lemma OrdinaryRunIsWord(w: string)
    requires w != "" && forall i | 0 <= i < |w| :: IsOrdinary(w[i])
    ensures Words(w) == [w]
  {
    WordLengthIs(w, |w|);
    assert w[..|w|] == w && w[|w|..] == "";
  }

  lemma {:induction false} AllWordsConcat(a: seq<string>, b: seq<string>)
    ensures AllWords(a + b) == AllWords(a) + AllWords(b)
  {
    if a == [] {
      assert a + b == b;
    } else {
      assert (a + b)[1..] == a[1..] + b;
      AllWordsConcat(a[1..], b);
    }
  }

  /** A list of single words is its own word list. */
  lemma {:induction false} AllWordsOfWords(ws: seq<string>)
    requires forall i | 0 <= i < |ws| :: Words(ws[i]) == [ws[i]]
    ensures AllWords(ws) == ws
  {
    if ws != [] {
      AllWordsOfWords(ws[1..]);
    }
  }

  lemma {:induction false} WordsOfJoinWords(ws: seq<string>)
    ensures Words(JoinWords(ws)) == AllWords(ws)
  {
    if |ws| == 1 {
      assert AllWords(ws) == Words(ws[0]) + AllWords([]);
    } else if |ws| > 1 {
      var rest := JoinWords(ws[1..]);
      WordsOfJoinWords(ws[1..]);
      if WordGap(ws[1]) == "" {
        JoinWordsHead(ws[1..]);
        assert ws[0] + "" + rest == ws[0] + rest;
        WordsConcat(ws[0], rest);
      } else {
        assert ws[0] + " " + rest == ws[0] + (" " + rest);
        WordsConcat(ws[0], " " + rest);
        assert (" " + rest)[1..] == rest;
      }
    }
  }

  lemma JoinWordsHead(ws: seq<string>)
    requires ws != [] && ws[0] != ""
    ensures JoinWords(ws) != "" && JoinWords(ws)[0] == ws[0][0]
  {
  }

  lemma {:induction false} WordsOfJoinSentences(ss: seq<string>)
    ensures Words(JoinSentences(ss)) == AllWords(ss)
  {
    if |ss| == 1 {
      assert AllWords(ss) == Words(ss[0]) + AllWords([]);
    } else if |ss| > 1 {
      var rest := JoinSentences(ss[1..]);
      WordsOfJoinSentences(ss[1..]);
      if SentenceGap(ss[1]) == "" {
        assert ss[0] + "" + rest == ss[0] + rest;
        assert rest[0] == ss[1][0];
        WordsConcat(ss[0], rest);
      } else {
        assert ss[0] + " " + rest == ss[0] + (" " + rest);
        WordsConcat(ss[0], " " + rest);
        assert (" " + rest)[1..] == rest;
      }
    }
  }

  lemma {:induction false} WordsOfSkipSpaces(s: string)
    ensures Words(SkipSpaces(s)) == Words(s)
  {
    if s != "" && IsSpace(s[0]) {
      WordsOfSkipSpaces(s[1..]);
    }
  }

  /** The first sentence of a text takes the words up to its delimiter. */
  lemma WordsAtDelimiter(s: string)
    requires FirstDelimiter(s) < |s|
    ensures var d := FirstDelimiter(s);
            Words(s) == Words(s[..d + 1]) + Words(SkipSpaces(s[d + 1..]))
  {
    var d := FirstDelimiter(s);
    FirstDelimiterFacts(s);
    WordsConcat(s[..d + 1], s[d + 1..]);
    assert s == s[..d + 1] + s[d + 1..];
    WordsOfSkipSpaces(s[d + 1..]);
  }

  /** Splitting a text into sentences first changes none of its words. */
  lemma {:induction false} WordsOfSentences(s: string)
    ensures AllWords(Sentences(s)) == Words(s)
    decreases |s|
  {
    var d := FirstDelimiter(s);
    if d < |s| {
      WordsOfSentences(SkipSpaces(s[d + 1..]));
      WordsAtDelimiter(s);
    } else if s != "" {
      assert AllWords([s]) == Words(s) + AllWords([]);
    }
  }

  /** Splitting at blanks first changes no words. */
  lemma {:induction false} WordsOfTokens(s: string)
    ensures AllWords(Tokens(s, ' ')) == Words(s)
    decreases |s|
  {
    if s == "" {
    } else if s[0] == ' ' {
      WordsOfTokens(s[1..]);
    } else {
      var n := FirstOf(s, ' ');
      FirstOfFacts(s, ' ');
      WordsOfTokens(s[n..]);
      WordsConcat(s[..n], s[n..]);
      assert s == s[..n] + s[n..];
      assert Tokens(s, ' ') == [s[..n]] + Tokens(s[n..], ' ');
    }
  }

  /** A word list survives printing and scanning unchanged. */
  lemma WordRoundTrip(s: string)
    ensures Words(JoinWords(Words(s))) == Words(s)
  {
    WordsAreWords(s);
    AllWordsOfWords(Words(s));
    WordsOfJoinWords(Words(s));
  }
}
