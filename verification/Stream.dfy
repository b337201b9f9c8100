/** The word-by-word transmission of a file by STREAM. */
module Stream {
  import opened Text
  import opened FileParser

  /** The word buffer holds 256 bytes, one of them for the NUL. */
  const WORD_BUFFER := 256

  function Cropped(w: string): string {
    if |w| > WORD_BUFFER - 1 then w[..WORD_BUFFER - 1] else w
  }

  /** The messages sent: every word, cropped to the buffer, and every other character alone. */
  function Chunks(s: string): seq<string>
    decreases |s|
  {
    if s == "" then []
    else if !IsOrdinary(s[0]) then [[s[0]]] + Chunks(s[1..])
    else [Cropped(s[..WordLength(s)])] + Chunks(s[WordLength(s)..])
  }

  lemma ChunkTurn(s: string, start: nat, p: nat)
    requires start <= p <= |s|
    requires forall i | start <= i < p :: IsOrdinary(s[i])
    requires p < |s| ==> !IsOrdinary(s[p])
    ensures Chunks(s[start..]) ==
            (if start < p then [Cropped(s[start..p])] else [])
            + (if p < |s| then [[s[p]]] + Chunks(s[p + 1..]) else [])
  {
    if start < p {
      var rest := s[start..];
      assert p < |s| ==> rest[p - start] == s[p];
      WordLengthIs(rest, p - start);
      assert rest[..p - start] == s[start..p] && rest[p - start..] == s[p..];
    }
    if p < |s| {
      assert s[p..][1..] == s[p + 1..];
    }
  }

  /** `handle_ss_stream`: each message is one character outside words, or a run of letters
      of a word, at most 255; and if no word is longer, the messages glued together are the
      file. */
  method StreamFile(content: string) returns (sent: seq<string>)
    ensures sent == Chunks(content)
    ensures forall m | m in sent :: Message(m)
    ensures (forall w | w in Words(content) :: |w| <= 255) ==> Glued(sent) == content
  {
    ChunksAreMessages(content);
    StreamIsFaithful(content);
    hide Chunks, Words, Glued, Message;
    sent := [];
    var word := "";
    ghost var start := 0;
    assert content[0..] == content;
    for i := 0 to |content|
      invariant 0 <= start <= i
      invariant forall j | start <= j < i :: IsOrdinary(content[j])
      invariant word == Cropped(content[start..i])
      invariant sent + Chunks(content[start..]) == Chunks(content)
    {
      var c := content[i];
      if IsSpace(c) || IsDelimiter(c) {
        ChunkTurn(content, start, i);
        Regroup4(sent, if start < i then [word] else [], [[c]], Chunks(content[i + 1..]));
        Regroup(if start < i then [word] else [], [[c]], Chunks(content[i + 1..]));
        if |word| > 0 {
          sent := sent + [word];
          word := "";
        } else {
          assert sent + [] == sent;
        }
        sent := sent + [[c]];
        start := i + 1;
      } else {
        assert content[start..i + 1] == content[start..i] + [c];
        if |word| < WORD_BUFFER - 1 {
          word := word + [c];
        }
      }
    }
    ChunkTurn(content, start, |content|);
    if |word| > 0 {
      sent := sent + [word];
    } else {
      assert sent + [] == sent;
    }
  }

  function Glued(pieces: seq<string>): string {
    if pieces == [] then "" else pieces[0] + Glued(pieces[1..])
  }

  predicate WordsFit(s: string) {
    forall w | w in Words(s) :: |w| < WORD_BUFFER
  }

  /** What arrives is the file, exactly when no word is longer than the buffer. */
  lemma StreamIsFaithful(s: string)
    ensures Glued(Chunks(s)) == s <==> WordsFit(s)
  {
    StreamLength(s);
  }

  predicate Letter(c: char) {
    c != ' ' && !(9 <= c as int <= 13) && c != '.' && c != '!' && c != '?'
  }

  predicate Message(m: string) {
    || (|m| == 1 && !Letter(m[0]))
    || (1 <= |m| <= 255 && forall i | 0 <= i < |m| :: Letter(m[i]))
  }

  lemma {:induction false} ChunksAreMessages(s: string)
    ensures forall m | m in Chunks(s) :: Message(m)
    decreases |s|
  {
    if s == "" {
    } else if !IsOrdinary(s[0]) {
      ChunksAreMessages(s[1..]);
    } else {
      WordLengthFacts(s);
      ChunksAreMessages(s[WordLength(s)..]);
      assert Message(Cropped(s[..WordLength(s)]));
    }
  }

  /** What is sent of a file: a character outside words by itself, */
  lemma CharacterSent(c: char, rest: string)
    requires !Letter(c)
    ensures Chunks([c] + rest) == [[c]] + Chunks(rest)
  {
    assert ([c] + rest)[1..] == rest;
  }

  /** and a whole word, or of a longer one its first 255 letters, in one message. */
  lemma WordSent(w: string, rest: string)
    requires w != "" && (forall i | 0 <= i < |w| :: Letter(w[i])) && (rest != "" ==> !Letter(rest[0]))
    ensures Chunks(w + rest) == [if |w| <= 255 then w else w[..255]] + Chunks(rest)
  {
    WordLengthIs(w + rest, |w|);
    assert (w + rest)[..|w|] == w && (w + rest)[|w|..] == rest;
  }

  /** A word of 256 letters does not arrive. */
  lemma LongWordCropped()
    ensures var w: string := seq(256, _ => 'x'); Glued(Chunks(w)) != w
  {
    var w: string := seq(256, _ => 'x');
    WordLengthIs(w, 256);
    assert w[..256] == w && Words(w) == [w] + Words(w[256..]);
    assert w in Words(w);
    StreamIsFaithful(w);
  }

  lemma GluedTurn(first: string, rest: seq<string>)
    ensures Glued([first] + rest) == first + Glued(rest)
  {
    assert ([first] + rest)[1..] == rest;
  }

  lemma FitTurn(s: string)
    requires s != ""
    ensures WordsFit(s) <==>
            if !IsOrdinary(s[0]) then WordsFit(s[1..])
            else WordLength(s) < WORD_BUFFER && WordsFit(s[WordLength(s)..])
  {
    if IsOrdinary(s[0]) {
      var n := WordLength(s);
      assert Words(s) == [s[..n]] + Words(s[n..]);
      hide Words;
      assert s[..n] in Words(s);
      assert forall w | w in Words(s[n..]) :: w in Words(s);
    } else if IsDelimiter(s[0]) {
      assert Words(s) == [[s[0]]] + Words(s[1..]);
      hide Words;
      assert forall w | w in Words(s[1..]) :: w in Words(s);
    }
  }

  lemma FirstChunk(s: string)
    requires s != ""
    ensures var n := if IsOrdinary(s[0]) then WordLength(s) else 1;
            && 0 < n <= |s|
            && Chunks(s) == [if IsOrdinary(s[0]) then Cropped(s[..n]) else [s[0]]] + Chunks(s[n..])
  {
    WordLengthFacts(s);
  }

  lemma {:induction false} StreamLength(s: string)
    ensures |Glued(Chunks(s))| <= |s|
    ensures WordsFit(s) ==> Glued(Chunks(s)) == s
    ensures !WordsFit(s) ==> |Glued(Chunks(s))| < |s|
    decreases |s|
  {
    if s == "" {
      assert Chunks(s) == [] && Glued([]) == "";
    } else {
      hide Chunks, WordLength, Words, Glued, WordsFit;
      var n := if IsOrdinary(s[0]) then WordLength(s) else 1;
      var first := if IsOrdinary(s[0]) then Cropped(s[..n]) else [s[0]];
      FirstChunk(s);
      FitTurn(s);
      GluedTurn(first, Chunks(s[n..]));
      StreamLength(s[n..]);
      assert s == s[..n] + s[n..];
      assert n == 1 && !IsOrdinary(s[0]) ==> first == s[..n];
    }
  }
}
