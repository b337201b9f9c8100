/** The one-pass word counter of `common.c` against the word splitter. */
module WordCount {
  import opened Text
  import opened FileParser
  import opened EditFacts
  import opened EditQueue

  /** The words that are not delimiters. */
  function PlainCount(ws: seq<string>): nat {
    if ws == [] then 0
    else (if ws[0] != "" && IsDelimiter(ws[0][0]) then 0 else 1) + PlainCount(ws[1..])
  }

  /** `get_word_count`: the words other than delimiters that the splitter finds. */
  method GetWordCount(content: string) returns (count: nat)
    ensures count == PlainCount(Words(content))
    ensures count == |Words(content)| - Stops(Words(content))
  {
    WordsAndStops(content);
    hide Words, Stops;
    count := 0;
    var inWord := false;
    ghost var start := 0;
    assert content[0..] == content;
    for i := 0 to |content|
      invariant 0 <= start <= i && inWord == (start < i)
      invariant forall j | start <= j < i :: IsOrdinary(content[j])
      invariant count + PlainCount(Words(content[start..])) == PlainCount(Words(content))
    {
      var c := content[i];
      if IsSpace(c) || c == '.' || c == '!' || c == '?' {
        CountTurn(content, start, i);
        if inWord {
          count := count + 1;
          inWord := false;
        }
        start := i + 1;
      } else {
        inWord := true;
      }
    }
    CountEnd(content, start);
    if inWord {
      count := count + 1;
    }
  }

  /** How often the three delimiters occur among the words. */
  function Stops(ws: seq<string>): int {
    var m := multiset(ws);
    m["."] + m["!"] + m["?"]
  }

  lemma StopsStep(first: string, rest: seq<string>)
    ensures Stops([first] + rest) ==
            Stops(rest) + if first == "." || first == "!" || first == "?" then 1 else 0
    ensures PlainCount([first] + rest) ==
            PlainCount(rest) + if first != "" && IsDelimiter(first[0]) then 0 else 1
  {
    assert ([first] + rest)[1..] == rest;
    assert multiset([first] + rest) == multiset{first} + multiset(rest);
  }

  /** Every word is either plain or one of the three. */
  lemma {:induction false} WordsAndStops(s: string)
    ensures PlainCount(Words(s)) == |Words(s)| - Stops(Words(s))
    decreases |s|
  {
    if s == "" {
    } else if IsSpace(s[0]) {
      WordsAndStops(s[1..]);
    } else {
      var n := if IsDelimiter(s[0]) then 1 else WordLength(s);
      WordLengthFacts(s);
      WordsAndStops(s[n..]);
      FirstWord(s, n);
      hide Words, Stops, PlainCount, WordLength;
      StopsStep(s[..n], Words(s[n..]));
    }
  }

  lemma FirstWord(s: string, n: nat)
    requires s != "" && !IsSpace(s[0]) && n == if IsDelimiter(s[0]) then 1 else WordLength(s)
    ensures 0 < n <= |s| && Words(s) == [s[..n]] + Words(s[n..]) && s[..n][0] == s[0]
    ensures IsDelimiter(s[0]) ==> s[..n] == "." || s[..n] == "!" || s[..n] == "?"
  {
    WordLengthFacts(s);
    if IsDelimiter(s[0]) {
      assert s[..1] == [s[0]];
    }
  }

  lemma {:induction false} PlainCountConcat(a: seq<string>, b: seq<string>)
    ensures PlainCount(a + b) == PlainCount(a) + PlainCount(b)
  {
    if a == [] {
      assert a + b == b;
    } else {
      assert (a + b)[1..] == a[1..] + b;
      PlainCountConcat(a[1..], b);
    }
  }

  lemma CountTurn(content: string, start: nat, p: nat)
    requires start <= p < |content| && !IsOrdinary(content[p])
    requires forall j | start <= j < p :: IsOrdinary(content[j])
    ensures PlainCount(Words(content[start..])) ==
            (if start < p then 1 else 0) + PlainCount(Words(content[p + 1..]))
  {
    WordCut(content, start, p);
    WordSkip(content, p);
  }

  lemma CountEnd(content: string, start: nat)
    requires start <= |content|
    requires forall j | start <= j < |content| :: IsOrdinary(content[j])
    ensures PlainCount(Words(content[start..])) == if start < |content| then 1 else 0
  {
    WordCut(content, start, |content|);
    assert PlainCount([content[start..]]) == (if start < |content| then 1 else 0) + PlainCount([])
           || start == |content|;
  }

  lemma PlainCountSpliced(ws: seq<string>, at: int, x: seq<string>)
    requires 0 <= at <= |ws|
    ensures PlainCount(Spliced(ws, at, x)) == PlainCount(ws) + PlainCount(x)
  {
    PlainCountConcat(ws[..at] + x, ws[at..]);
    PlainCountConcat(ws[..at], x);
    PlainCountConcat(ws[..at], ws[at..]);
    assert ws == ws[..at] + ws[at..];
  }

  function QueuePlainCount(updates: seq<Update>): nat {
    if updates == [] then 0 else PlainCount(Words(updates[0].text)) + QueuePlainCount(updates[1..])
  }

  /** The word count a commit reports grows by exactly the plain words of its queue. */
  lemma {:induction false} QueueGrowsCount(c: string, k: int, updates: seq<Update>)
    requires ApplyAll(c, k, updates).Some?
    ensures PlainCount(Words(ApplyAll(c, k, updates).value)) ==
            PlainCount(Words(c)) + QueuePlainCount(updates)
    decreases |updates|
  {
    if updates != [] {
      var u := updates[0];
      hide Words, ApplyUpdate, PlainCount, InRange, WordOffset, Spliced;
      EditMeaning(c, k, u.wordIdx, u.text);
      PlainCountSpliced(Words(c), WordOffset(c, k, u.wordIdx), Words(u.text));
      QueueGrowsCount(ApplyUpdate(c, k, u.wordIdx, u.text).value, k, updates[1..]);
    }
  }
}
