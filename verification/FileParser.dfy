/** The sentence and word scanners, printers and the edit of `file_parser.c`.

    The functions say what each routine yields; the methods are the routines
    themselves, loops and all, proved to yield exactly that. */
module FileParser {
  import opened Text

  /** The sentences of a text: each runs through the next delimiter, the white
      space after a delimiter is dropped, and unterminated text is the last one. */
  function Sentences(s: string): seq<string>
    decreases |s|
  {
    var d := FirstDelimiter(s);
    if d < |s| then [s[..d + 1]] + Sentences(SkipSpaces(s[d + 1..]))
    else if s == "" then []
    else [s]
  }

  /** The words of a text: runs of ordinary characters, and every delimiter as a
      word of its own. */
  function Words(s: string): seq<string>
    decreases |s|
  {
    if s == "" then []
    else if IsSpace(s[0]) then Words(s[1..])
    else if IsDelimiter(s[0]) then [[s[0]]] + Words(s[1..])
    else [s[..WordLength(s)]] + Words(s[WordLength(s)..])
  }

  /** What `join_words` puts before word `next`: nothing when it begins with a delimiter. */
  function WordGap(next: string): string {
    if next != "" && IsDelimiter(next[0]) then "" else " "
  }

  function JoinWords(words: seq<string>): string {
    if words == [] then ""
    else if |words| == 1 then words[0]
    else words[0] + WordGap(words[1]) + JoinWords(words[1..])
  }

  /** What `join_sentences` puts before sentence `next`: nothing when it begins with a blank. */
  function SentenceGap(next: string): string {
    if StartsWith(next, ' ') then "" else " "
  }

  function JoinSentences(sentences: seq<string>): string {
    if sentences == [] then ""
    else if |sentences| == 1 then sentences[0]
    else sentences[0] + SentenceGap(sentences[1]) + JoinSentences(sentences[1..])
  }

  /** Position of the first `sep` in `s`, or `|s|`. */
  function FirstOf(s: string, sep: char): (n: nat)
    ensures n <= |s|
    ensures s != "" && s[0] != sep ==> n > 0
  {
    if s == "" || s[0] == sep then 0 else 1 + FirstOf(s[1..], sep)
  }

  lemma {:induction false} FirstOfIs(s: string, sep: char, n: nat)
    requires n <= |s|
    requires forall i | 0 <= i < n :: s[i] != sep
    requires n < |s| ==> s[n] == sep
    ensures FirstOf(s, sep) == n
  {
    if n > 0 {
      FirstOfIs(s[1..], sep, n - 1);
    }
  }

  lemma {:induction false} FirstOfFacts(s: string, sep: char)
    ensures forall i | 0 <= i < FirstOf(s, sep) :: s[i] != sep
    ensures FirstOf(s, sep) < |s| ==> s[FirstOf(s, sep)] == sep
  {
    if s != "" && s[0] != sep {
      FirstOfFacts(s[1..], sep);
    }
  }

  /** `split_string` with a one-character separator: the maximal pieces of `s`
      without `sep`; empty pieces collapse, as `strtok_r` makes them. */
  function Tokens(s: string, sep: char): seq<string>
    decreases |s|
  {
    if s == "" then []
    else if s[0] == sep then Tokens(s[1..], sep)
    else [s[..FirstOf(s, sep)]] + Tokens(s[FirstOf(s, sep)..], sep)
  }

  /** The sentence list with the edited slot present: index `|ss|` is the append slot. */
  function Slots(c: string, k: int): seq<string> {
    var ss := Sentences(c);
    if k == |ss| then ss + [""] else ss
  }

  /** `apply_single_update`: insert the words of `text` before word `w` of sentence
      `k`; None where the routine returns NULL. */
  function ApplyUpdate(c: string, k: int, w: int, text: string): Option<string> {
    var slots := Slots(c, k);
    if k < 0 || k >= |slots| then None
    else
      var words := Words(slots[k]);
      if w < 0 || w > |words| then None
      else
        var edited := JoinWords(words[..w] + Tokens(text, ' ') + words[w..]);
        Some(JoinSentences(Sentences(JoinSentences(slots[k := edited]))))
  }

  // ---------------------------------------------------------------- the routines

  /** One turn of the sentence scanner: a delimiter at `p` closes the sentence begun at `start`. */
  lemma SentenceCut(content: string, start: nat, p: nat)
    requires start <= p < |content| && IsDelimiter(content[p])
    requires forall i | start <= i < p :: !IsDelimiter(content[i])
    ensures Sentences(content[start..]) == [content[start..p + 1]] + Sentences(SkipSpaces(content[p + 1..]))
  {
    var rest := content[start..];
    assert rest[p - start] == content[p];
    FirstDelimiterIs(rest, p - start);
    assert rest[..p - start + 1] == content[start..p + 1];
    assert rest[p - start + 1..] == content[p + 1..];
  }

  lemma SentenceEnd(content: string, start: nat)
    requires start <= |content|
    requires forall i | start <= i < |content| :: !IsDelimiter(content[i])
    ensures Sentences(content[start..]) == if start == |content| then [] else [content[start..]]
  {
    FirstDelimiterIs(content[start..], |content| - start);
  }

  method SplitIntoSentences(content: string) returns (sentences: seq<string>)
    ensures sentences == Sentences(content)
  {
    hide Sentences;
    sentences := [];
    var start, p := 0, 0;
    ghost var todo := Sentences(content);
    assert content[0..] == content;
    while p < |content|
      invariant 0 <= p <= |content| && 0 <= start <= |content|
      invariant forall i | p <= i < start :: IsSpace(content[i])
      invariant forall i | start <= i < p :: !IsDelimiter(content[i])
      invariant todo == Sentences(content[start..])
      invariant sentences + todo == Sentences(content)
    {
      if IsDelimiter(content[p]) {
        SentenceCut(content, start, p);
        sentences := sentences + [content[start..p + 1]];
        start := SkipSpacesFrom(content, p + 1);
        todo := todo[1..];
      }
      p := p + 1;
    }
    SentenceEnd(content, start);
    assert sentences + [] == sentences && content[start..p] == content[start..];
    if start < p {
      sentences := sentences + [content[start..p]];
    }
  }

  /** The inner loop of the sentence scanner. */
  method SkipSpacesFrom(content: string, from: nat) returns (start: nat)
    requires from <= |content|
    ensures from <= start <= |content|
    ensures forall i | from <= i < start :: IsSpace(content[i])
    ensures content[start..] == SkipSpaces(content[from..])
  {
    start := from;
    while start < |content| && IsSpace(content[start])
      invariant from <= start <= |content|
      invariant forall i | from <= i < start :: IsSpace(content[i])
      invariant SkipSpaces(content[start..]) == SkipSpaces(content[from..])
    {
      assert content[start..][1..] == content[start + 1..];
      start := start + 1;
    }
  }

  /** One turn of the word scanner: the run from `start` stops at `p`. */
  lemma WordCut(sentence: string, start: nat, p: nat)
    requires start <= p <= |sentence|
    requires forall i | start <= i < p :: IsOrdinary(sentence[i])
    requires p < |sentence| ==> !IsOrdinary(sentence[p])
    ensures Words(sentence[start..]) == (if start < p then [sentence[start..p]] else []) + Words(sentence[p..])
    ensures p == |sentence| ==> Words(sentence[p..]) == []
  {
    if start < p {
      var rest := sentence[start..];
      assert p < |sentence| ==> rest[p - start] == sentence[p];
      WordLengthIs(rest, p - start);
      assert rest[..p - start] == sentence[start..p];
      assert rest[p - start..] == sentence[p..];
    }
  }

  lemma WordSkip(sentence: string, p: nat)
    requires p < |sentence| && !IsOrdinary(sentence[p])
    ensures Words(sentence[p..]) ==
            (if IsDelimiter(sentence[p]) then [[sentence[p]]] else []) + Words(sentence[p + 1..])
  {
    assert sentence[p..][1..] == sentence[p + 1..];
  }

  method SplitIntoWords(sentence: string) returns (words: seq<string>)
    ensures words == Words(sentence)
  {
    hide Words;
    words := [];
    var start, p, inWord := 0, 0, false;
    assert sentence[0..] == sentence;
    while p < |sentence|
      invariant 0 <= start <= p <= |sentence|
      invariant inWord == (start < p)
      invariant forall i | start <= i < p :: IsOrdinary(sentence[i])
      invariant words + Words(sentence[start..]) == Words(sentence)
    {
      if IsSpace(sentence[p]) || IsDelimiter(sentence[p]) {
        WordTurn(sentence, start, p, words);
        if inWord {
          words := words + [sentence[start..p]];
          inWord := false;
        }
        if IsDelimiter(sentence[p]) {
          words := words + [[sentence[p]]];
        }
        p := p + 1;
        start := p;
      } else {
        inWord := true;
        p := p + 1;
      }
    }
    WordCut(sentence, start, p);
    assert Words(sentence[p..]) == [] && words + [] == words;
    if inWord {
      words := words + [sentence[start..p]];
    }
  }

  /** The word pending at `p` and a delimiter there move from the text to the list. */
  lemma WordTurn(sentence: string, start: nat, p: nat, words: seq<string>)
    requires start <= p < |sentence| && !IsOrdinary(sentence[p])
    requires forall i | start <= i < p :: IsOrdinary(sentence[i])
    ensures words + Words(sentence[start..]) ==
            (if start < p then words + [sentence[start..p]] else words)
            + (if IsDelimiter(sentence[p]) then [[sentence[p]]] else [])
            + Words(sentence[p + 1..])
  {
    hide Words;
    WordCut(sentence, start, p);
    WordSkip(sentence, p);
    var pending := if start < p then [sentence[start..p]] else [];
    var delimiter := if IsDelimiter(sentence[p]) then [[sentence[p]]] else [];
    Regroup4(words, pending, delimiter, Words(sentence[p + 1..]));
    Regroup(pending, delimiter, Words(sentence[p + 1..]));
    assert words + [] == words;
  }

  lemma JoinWordsTurn(words: seq<string>, i: nat)
    requires i < |words|
    ensures JoinWords(words[i..]) ==
            words[i] + (if i + 1 < |words| then WordGap(words[i + 1]) else "") + JoinWords(words[i + 1..])
  {
    assert words[i..][0] == words[i] && words[i..][1..] == words[i + 1..];
  }

  method JoinWordsLoop(words: seq<string>) returns (sentence: string)
    ensures sentence == JoinWords(words)
  {
    hide JoinWords;
    sentence := "";
    assert words[0..] == words;
    for i := 0 to |words|
      invariant sentence + JoinWords(words[i..]) == JoinWords(words)
    {
      JoinWordsTurn(words, i);
      ghost var gap := if i < |words| - 1 then WordGap(words[i + 1]) else "";
      Regroup4(sentence, words[i], gap, JoinWords(words[i + 1..]));
      sentence := sentence + words[i];
      if i < |words| - 1 {
        var next := words[i + 1];
        if !(next != "" && IsDelimiter(next[0])) {
          sentence := sentence + " ";
        } else {
          assert sentence + gap == sentence;
        }
      } else {
        assert sentence + gap == sentence;
      }
    }
    JoinNothing();
    assert words[|words|..] == [] && sentence + "" == sentence;
  }

  lemma JoinSentencesTurn(sentences: seq<string>, i: nat)
    requires i < |sentences|
    ensures JoinSentences(sentences[i..]) ==
            sentences[i] + (if i + 1 < |sentences| then SentenceGap(sentences[i + 1]) else "")
            + JoinSentences(sentences[i + 1..])
  {
    assert sentences[i..][0] == sentences[i] && sentences[i..][1..] == sentences[i + 1..];
  }

  lemma JoinNothing()
    ensures JoinWords([]) == "" && JoinSentences([]) == ""
  {
  }

  method JoinSentencesLoop(sentences: seq<string>) returns (content: string)
    ensures content == JoinSentences(sentences)
  {
    hide JoinSentences;
    content := "";
    assert sentences[0..] == sentences;
    for i := 0 to |sentences|
      invariant content + JoinSentences(sentences[i..]) == JoinSentences(sentences)
    {
      JoinSentencesTurn(sentences, i);
      ghost var gap := if i < |sentences| - 1 then SentenceGap(sentences[i + 1]) else "";
      Regroup4(content, sentences[i], gap, JoinSentences(sentences[i + 1..]));
      content := content + sentences[i];
      if i < |sentences| - 1 {
        if !StartsWith(sentences[i + 1], ' ') {
          content := content + " ";
        } else {
          assert content + gap == content;
        }
      } else {
        assert content + gap == content;
      }
    }
    JoinNothing();
    assert sentences[|sentences|..] == [] && content + "" == content;
  }

  /** One turn of `strtok_r`: the piece from `start` stops at `end`. */
  lemma TokenCut(s: string, sep: char, start: nat, end: nat)
    requires start <= end <= |s|
    requires forall i | start <= i < end :: s[i] != sep
    requires end < |s| ==> s[end] == sep
    ensures Tokens(s[start..], sep) == (if start < end then [s[start..end]] else []) + Tokens(s[end..], sep)
  {
    if start < end {
      var tail := s[start..];
      assert end < |s| ==> tail[end - start] == s[end];
      FirstOfIs(tail, sep, end - start);
      assert tail[..end - start] == s[start..end];
      assert tail[end - start..] == s[end..];
    }
  }

  /** `split_string`: the `strtok_r` loop, whose cursor skips separators and then
      runs to the end of the piece. */
  method SplitString(s: string, sep: char) returns (pieces: seq<string>)
    ensures pieces == Tokens(s, sep)
  {
    pieces := [];
    var rest := 0;
    assert s[0..] == s;
    while rest < |s|
      invariant 0 <= rest <= |s|
      invariant pieces + Tokens(s[rest..], sep) == Tokens(s, sep)
    {
      var start, end := NextToken(s, sep, rest);
      TokenCut(s, sep, start, end);
      if start < end {
        pieces := pieces + [s[start..end]];
      }
      rest := end;
    }
  }

  method NextToken(s: string, sep: char, rest: nat) returns (start: nat, end: nat)
    requires rest < |s|
    ensures rest <= start <= end <= |s| && rest < end
    ensures Tokens(s[rest..], sep) == Tokens(s[start..], sep)
    ensures forall i | start <= i < end :: s[i] != sep
    ensures end < |s| ==> s[end] == sep
  {
    start := rest;
    while start < |s| && s[start] == sep
      invariant rest <= start <= |s|
      invariant Tokens(s[rest..], sep) == Tokens(s[start..], sep)
    {
      assert s[start..][1..] == s[start + 1..];
      start := start + 1;
    }
    end := start;
    while end < |s| && s[end] != sep
      invariant start <= end <= |s|
      invariant forall i | start <= i < end :: s[i] != sep
    {
      end := end + 1;
    }
  }

  /** The three copying loops of `apply_single_update`. */
  method InsertWords(words: seq<string>, newWords: seq<string>, wordIdx: nat) returns (r: seq<string>)
    requires wordIdx <= |words|
    ensures r == words[..wordIdx] + newWords + words[wordIdx..]
  {
    r := [];
    for i := 0 to wordIdx
      invariant r == words[..i]
    {
      r := r + [words[i]];
    }
    for i := 0 to |newWords|
      invariant r == words[..wordIdx] + newWords[..i]
    {
      r := r + [newWords[i]];
    }
    for i := wordIdx to |words|
      invariant r == words[..wordIdx] + newWords + words[wordIdx..i]
    {
      r := r + [words[i]];
    }
  }

  method ApplySingleUpdate(content: string, sentNum: int, wordIdx: int, newContent: string)
    returns (r: Option<string>)
    ensures r == ApplyUpdate(content, sentNum, wordIdx, newContent)
  {
    var sentences := SplitIntoSentences(content);
    if sentNum < 0 || sentNum > |sentences| {
      return None;
    }
    if sentNum == |sentences| {
      sentences := sentences + [""];
    }
    assert sentences == Slots(content, sentNum);
    var words := SplitIntoWords(sentences[sentNum]);
    if wordIdx < 0 || wordIdx > |words| {
      return None;
    }
    var newWords := SplitString(newContent, ' ');
    var finalWords := InsertWords(words, newWords, wordIdx);
    var newSentence := JoinWordsLoop(finalWords);
    sentences := sentences[sentNum := newSentence];
    var joined := JoinSentencesLoop(sentences);
    var reparsed := SplitIntoSentences(joined);
    var final := JoinSentencesLoop(reparsed);
    r := Some(final);
  }
}
