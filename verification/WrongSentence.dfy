/** A run in which a session edits the wrong sentence, and one in which two sessions edit the
    same one. */
module WrongSentence {
  import opened Text
  import opened FileParser
  import opened SentenceFacts
  import opened EditFacts
  import opened EditQueue
  import opened ModificationLog
  import opened Decimal
  import opened StorageState
  import opened WriteProtocol
  import opened CommitSteps
  import opened SoloSession
  import opened LockGaps

  // ---------------------------------------------------------------- one-letter sentences

  /** A sentence of one letter and a full stop. */
  predicate Letter(t: string) {
    |t| == 2 && IsOrdinary(t[0]) && t[1] == '.'
  }

  predicate Letters(ss: seq<string>) {
    forall i | 0 <= i < |ss| :: Letter(ss[i])
  }

  lemma LetterSplits(t: string)
    requires Letter(t)
    ensures Terminated(t) && !IsSpace(t[0])
    ensures Words(t) == [t[..1], "."] && Tokens(t, ' ') == [t]
  {
    var rest := t[1..];
    assert rest == "." && rest[1..] == "";
    assert FirstDelimiter(rest) == 0 && FirstDelimiter(t) == 1;
    assert WordLength(rest) == 0 && WordLength(t) == 1;
    assert FirstOf(rest[1..], ' ') == 0 && FirstOf(rest, ' ') == 1 && FirstOf(t, ' ') == 2;
    assert t[..2] == t && t[2..] == "";
  }

  /** Written in front of another, it stays a sentence of its own. */
  lemma LetterInFront(s: string, t: string)
    requires Letter(s) && Letter(t)
    ensures JoinWords([s] + Words(t)) == s + " " + t
  {
    LetterSplits(t);
    var ws := [t[..1], "."];
    assert ws[1..] == ["."] && ["."][1..] == [];
    assert JoinWords(["."]) == "." && JoinWords(ws) == t[..1] + "" + ".";
    assert JoinWords(ws) == t;
    assert ([s] + ws)[1..] == ws;
  }

  lemma {:induction false} JoinApart(pre: seq<string>, s: string, t: string, post: seq<string>)
    requires Letters(pre) && Letter(s) && Letter(t)
    ensures JoinSentences(pre + [s + " " + t] + post) == JoinSentences(pre + [s, t] + post)
    decreases |pre|
  {
    if pre == [] {
      var rest := [t] + post;
      var gap := if post == [] then "" else SentenceGap(post[0]) + JoinSentences(post);
      assert ([s + " " + t] + post)[1..] == post && rest[1..] == post && ([s, t] + post)[1..] == rest;
      assert [] + [s + " " + t] + post == [s + " " + t] + post && [] + [s, t] + post == [s, t] + post;
      Regroup(s + " ", t, gap);
      if post != [] {
        Regroup(t, SentenceGap(post[0]), JoinSentences(post));
        Regroup(s + " " + t, SentenceGap(post[0]), JoinSentences(post));
      } else {
        assert t + "" == t && s + " " + t + "" == s + " " + t;
      }
    } else {
      var a, b := pre[1..] + [s + " " + t] + post, pre[1..] + [s, t] + post;
      assert (pre + [s + " " + t] + post)[1..] == a && (pre + [s, t] + post)[1..] == b;
      JoinApart(pre[1..], s, t, post);
      assert a[0][0] == b[0][0];
    }
  }

  lemma LetterEdited(c: string, k: nat, s: string)
    requires k < |Sentences(c)| && Letter(Sentences(c)[k]) && Letter(s)
    ensures InRange(c, k, 0) && Edited(c, k, 0, s) == s + " " + Sentences(c)[k]
  {
    var t := Sentences(c)[k];
    LetterSplits(s);
    LetterInFront(s, t);
    hide Sentences, Words, Tokens, JoinWords;
    assert Words(t)[..0] + [s] + Words(t)[0..] == [s] + Words(t);
  }

  lemma LettersInserted(ss: seq<string>, k: nat, s: string)
    requires Letters(ss) && k <= |ss| && Letter(s)
    ensures Letters(ss[..k] + [s] + ss[k..])
  {
    var after := ss[..k] + [s] + ss[k..];
    forall i | 0 <= i < |after| ensures Letter(after[i]) {
      assert i < k ==> after[i] == ss[i];
      assert i > k ==> after[i] == ss[i - 1];
    }
  }

  /** Printed, it makes no difference whether the two are one item or two. */
  lemma JoinInserted(ss: seq<string>, k: nat, s: string)
    requires Letters(ss) && k < |ss| && Letter(s)
    ensures JoinSentences(ss[k := s + " " + ss[k]]) == JoinSentences(ss[..k] + [s] + ss[k..])
  {
    var pre, t, post := ss[..k], ss[k], ss[k + 1..];
    JoinApart(pre, s, t, post);
    hide JoinSentences, Letters, Letter;
    assert ss[k := s + " " + t] == pre + [s + " " + t] + post;
    assert pre + [s] + ss[k..] == pre + [s, t] + post;
  }

  /** Inserting one sentence in front of another adds just that sentence to the list. */
  lemma LetterInserted(c: string, k: nat, s: string)
    requires Letters(Sentences(c)) && k < |Sentences(c)| && Letter(s)
    ensures ApplyUpdate(c, k, 0, s).Some?
    ensures Sentences(ApplyUpdate(c, k, 0, s).value) == Sentences(c)[..k] + [s] + Sentences(c)[k..]
  {
    LetterEdited(c, k, s);
    EditSettles(c, k, 0, s);
    EditMeaning(c, k, 0, s);
    JoinInserted(Sentences(c), k, s);
    LettersInserted(Sentences(c), k, s);
    LettersAreSentences(Sentences(c)[..k] + [s] + Sentences(c)[k..]);
    assert Slots(c, k) == Sentences(c);
    hide Sentences, JoinSentences, Edited, Letters, Letter, ApplyUpdate, InRange, Words, Slots;
  }

  lemma LettersAreSentences(ss: seq<string>)
    requires Letters(ss)
    ensures Sentences(JoinSentences(ss)) == ss
  {
    forall i | 0 <= i < |ss| ensures Terminated(ss[i]) && !IsSpace(ss[i][0]) {
      LetterSplits(ss[i]);
    }
    SentenceRoundTrip(ss);
  }

  lemma SwallowedWords()
    ensures Words("A.") == ["A", "."] && Tokens("x", ' ') == ["x"]
    ensures JoinWords(["A", ".", "x"]) == "A. x" && JoinSentences(["A. x", "B."]) == "A. x B."
    ensures JoinSentences(["A.", "x B."]) == "A. x B." && JoinSentences(["A.", "B."]) == "A. B."
  {
    LetterSplits("A.");
    assert "A."[..1] == "A";
    assert FirstOf("x"[1..], ' ') == 0 && FirstOf("x", ' ') == 1 && "x"[..1] == "x" && "x"[1..] == "";
    assert ["A", ".", "x"][1..] == [".", "x"] && [".", "x"][1..] == ["x"] && ["x"][1..] == [];
    assert JoinWords(["x"]) == "x" && JoinWords([".", "x"]) == "." + " " + "x";
    assert JoinWords(["A", ".", "x"]) == "A" + "" + (". x");
    assert ["A. x", "B."][1..] == ["B."] && ["A.", "x B."][1..] == ["x B."] && ["A.", "B."][1..] == ["B."];
    assert JoinSentences(["B."]) == "B." && JoinSentences(["x B."]) == "x B.";
  }

  lemma SwallowedScan()
    ensures Sentences("A. B.") == ["A.", "B."] && Sentences("A. x B.") == ["A.", "x B."]
  {
    SwallowedWords();
    LettersAreSentences(["A.", "B."]);
    var t := "x B.";
    assert t[1..] == " B." && t[1..][1..] == "B." && t[1..][1..][1..] == ".";
    assert FirstDelimiter(".") == 0 && FirstDelimiter("B.") == 1;
    assert FirstDelimiter(" B.") == 2 && FirstDelimiter(t) == 3;
    LetterSplits("A.");
    assert Terminated("A.") && Terminated(t);
    hide Sentences, JoinSentences, Words, FirstDelimiter;
    SentenceRoundTrip(["A.", t]);
  }

  /** "x" written behind "A." swallows the next sentence. */
  lemma NextSwallowed()
    ensures Sentences("A. B.") == ["A.", "B."]
    ensures ApplyUpdate("A. B.", 0, 2, "x").Some?
    ensures Sentences(ApplyUpdate("A. B.", 0, 2, "x").value) == ["A.", "x B."]
  {
    SwallowedScan();
    SwallowedWords();
    hide Sentences, JoinSentences, Words, Tokens, JoinWords;
    assert InRange("A. B.", 0, 2) && Slots("A. B.", 0) == ["A.", "B."];
    assert ["A", "."][..2] + ["x"] + ["A", "."][2..] == ["A", ".", "x"];
    assert Edited("A. B.", 0, 2, "x") == "A. x";
    assert ["A.", "B."][0 := "A. x"] == ["A. x", "B."];
    EditSettles("A. B.", 0, 2, "x");
  }

  // ---------------------------------------------------------------- sessions that insert

  function Inserts(pieces: seq<string>): seq<Update> {
    if pieces == [] then [] else [Update(0, pieces[0])] + Inserts(pieces[1..])
  }

  /** The sentences after inserting the pieces one after another in front of number `k`. */
  function WithPieces(ss: seq<string>, k: nat, pieces: seq<string>): seq<string>
    requires k < |ss|
    decreases |pieces|
  {
    if pieces == [] then ss else WithPieces(ss[..k] + [pieces[0]] + ss[k..], k, pieces[1..])
  }

  lemma {:induction false} QueueInserted(c: string, k: nat, pieces: seq<string>)
    requires Letters(Sentences(c)) && k < |Sentences(c)| && Letters(pieces)
    ensures var r := ApplyAll(c, k, Inserts(pieces));
            && r.Some? && Sentences(r.value) == WithPieces(Sentences(c), k, pieces)
            && |Sentences(r.value)| == |Sentences(c)| + |pieces|
    decreases |pieces|
  {
    if pieces != [] {
      var s, ss := pieces[0], Sentences(c);
      LetterInserted(c, k, s);
      var next := ApplyUpdate(c, k, 0, s).value;
      hide Sentences, ApplyUpdate;
      LettersInserted(ss, k, s);
      assert Inserts(pieces)[1..] == Inserts(pieces[1..]);
      QueueInserted(next, k, pieces[1..]);
    }
  }

  lemma LetterLine(s: string)
    requires Letter(s)
    ensures ParsedLine("0 " + s) == Some(Update(0, s))
  {
    var line := "0 " + s;
    LetterSplits(s);
    assert line[1..] == " " + s && line[2..] == s && (" " + s)[1..] == s;
    assert FirstOf(line[1..], ' ') == 0 && FirstOf(line, ' ') == 1;
    assert line[..1] == "0" && Tokens(" " + s, ' ') == Tokens(s, ' ');
    assert Tokens(line, ' ') == ["0"] + [s];
    assert "0"[1..] == "" && SkipSpaces("0") == "0" && DigitsValue("0", 0) == 0;
  }

  function Lines(pieces: seq<string>): seq<string> {
    if pieces == [] then [] else ["0 " + pieces[0]] + Lines(pieces[1..])
  }

  lemma {:induction false} LinesInsert(pieces: seq<string>)
    requires Letters(pieces)
    ensures Updates(Lines(pieces)) == Inserts(pieces) && "ETIRW" !in Lines(pieces)
  {
    if pieces != [] {
      LetterLine(pieces[0]);
      LinesInsert(pieces[1..]);
      hide ParsedLine;
      var line := "0 " + pieces[0];
      assert Lines(pieces)[1..] == Lines(pieces[1..]) && line[0] == '0';
    }
  }

  // ---------------------------------------------------------------- the server

  const FILE := "f"

  /** Between two sessions: the log is in order and a session's shift starts at nothing. */
  predicate Quiet(sh: Shared) {
    && FILE in sh.files && Letters(Sentences(sh.files[FILE]))
    && (sh.fileLocks == [] || sh.fileLocks == [FileLock(FILE, 0)])
    && forall i | 0 <= i < |sh.log| :: sh.log[i].id < sh.nextLogId
  }

  /** A session that begins and commits with nothing logged in between. */
  lemma PromptResult(sh: Shared, file: string, num: int, queue: seq<Update>, written: string)
    requires file in sh.files && Shift(sh.log, file, num, sh.nextLogId) == 0
    requires ApplyAll(sh.files[file], num, queue) == Some(written)
    requires |Sentences(written)| > |Sentences(sh.files[file])|
    ensures SessionResult(sh, file, num, queue).1
    ensures SessionResult(sh, file, num, queue).0 ==
            sh.(files := sh.files[file := written], undo := sh.undo[file := sh.files[file]],
                log := sh.log + [LogEntry(sh.nextLogId, file, num, |Sentences(written)| - |Sentences(sh.files[file])|)],
                nextLogId := sh.nextLogId + 1, fileLocks := WithCommitLock(sh.fileLocks, file))
  {
    hide Sentences, ApplyAll, Shift, WithCommitLock;
  }

  /** A session that inserts one-letter sentences, as it changes the shared state. */
  lemma InsertResult(sh: Shared, num: nat, pieces: seq<string>)
    requires Quiet(sh) && num < |Sentences(sh.files[FILE])| && Letters(pieces) && pieces != []
    ensures var (after, ok) := SessionResult(sh, FILE, num, Inserts(pieces));
            && ok && FILE in after.files
            && Sentences(after.files[FILE]) == WithPieces(Sentences(sh.files[FILE]), num, pieces)
            && after.log == sh.log + [LogEntry(sh.nextLogId, FILE, num, |pieces|)]
            && after.nextLogId == sh.nextLogId + 1
            && after.sentenceLocks == sh.sentenceLocks && after.fileLocks == [FileLock(FILE, 0)]
  {
    QueueInserted(sh.files[FILE], num, pieces);
    ShiftOfOld(sh.log, FILE, num, sh.nextLogId);
    assert WithCommitLock(sh.fileLocks, FILE) == [FileLock(FILE, 0)];
    hide Letters, Sentences, ApplyAll, Shift, WithPieces, Inserts, WithCommitLock, SessionResult;
    PromptResult(sh, FILE, num, Inserts(pieces), ApplyAll(sh.files[FILE], num, Inserts(pieces)).value);
  }

  /** What such a session leaves. */
  predicate Inserted(st: State, end: State, u: nat, num: nat, sentences: seq<string>, growth: nat) {
    && end.mutex == None && end.held == map[]
    && end.threads.Keys == st.threads.Keys + {u}
    && (forall t | t in st.threads :: end.threads[t] == st.threads[t])
    && FILE in end.shared.files && Sentences(end.shared.files[FILE]) == sentences
    && end.shared.log == st.shared.log + [LogEntry(st.shared.nextLogId, FILE, num, growth)]
    && end.shared.nextLogId == st.shared.nextLogId + 1
    && end.shared.sentenceLocks == st.shared.sentenceLocks && end.shared.fileLocks == [FileLock(FILE, 0)]
  }

  /** Such a session served alone. */
  lemma InsertSession(st: State, u: nat, num: nat, pieces: seq<string>) returns (evs: seq<Event>, end: State)
    requires st.mutex == None && st.held == map[] && u !in st.threads && Quiet(st.shared)
    requires num < |Sentences(st.shared.files[FILE])| && Letters(pieces) && pieces != []
    requires SentenceLock(FILE, num) !in st.shared.sentenceLocks
    ensures Leads(st, evs, end)
    ensures Inserted(st, end, u, num, WithPieces(Sentences(st.shared.files[FILE]), num, pieces), |pieces|)
  {
    hide Leads, Sentences, MaxValidIndex, SessionResult, Lines, Inserts, WithPieces, Letters;
    ValidationIsEditable(Content(st.shared, FILE), num);
    InsertResult(st.shared, num, pieces);
    LinesInsert(pieces);
    var done: Thread;
    evs, done := WholeSession(st, u, num, FILE, Lines(pieces));
    end := Alone(Scene(st.threads, st.held, u), done, SessionResult(st.shared, FILE, num, Inserts(pieces)).0);
  }

  function Fresh(content: string): State {
    State(Shared(map[FILE := content], map[], [], 0, [], []), None, map[], map[])
  }

  const DOCUMENT := "A. B. C."

  lemma DocumentSentences()
    ensures Sentences(DOCUMENT) == ["A.", "B.", "C."] && Letters(Sentences(DOCUMENT))
  {
    var ss := ["A.", "B.", "C."];
    assert Letters(ss);
    LettersAreSentences(ss);
    hide Sentences, Letters, IsOrdinary, Letter;
    assert ss[1..] == ["B.", "C."] && ["B.", "C."][1..] == ["C."] && ["C."][1..] == [];
    assert JoinSentences(["C."]) == "C.";
    assert JoinSentences(["B.", "C."]) == "B." + " " + "C.";
    assert JoinSentences(ss) == "A." + " " + ("B." + " " + "C.");
    assert "A." + " " + ("B." + " " + "C.") == DOCUMENT;
  }

  lemma TwoPieces(ss: seq<string>, a: string, b: string)
    requires ss != []
    ensures WithPieces(ss, 0, [a, b]) == [b, a] + ss
  {
    var one := ss[..0] + [a] + ss[0..];
    assert [a, b][1..] == [b] && [b][1..] == [];
    assert one == [a] + ss && one[..0] + [b] + one[0..] == [b, a] + ss;
    assert WithPieces(one, 0, [b]) == WithPieces([b, a] + ss, 0, []);
  }

  lemma OnePiece(ss: seq<string>, k: nat, a: string)
    requires k < |ss|
    ensures WithPieces(ss, k, [a]) == ss[..k] + [a] + ss[k..]
  {
    assert [a][1..] == [];
  }

  /** Session 1 waits for its client's lines, with sentence 1 locked; another session has
      come and gone. */
  predicate Moved(st: State) {
    && st.mutex == None && st.held == map[] && st.threads.Keys == {1, 2}
    && st.threads[1] == Begun(1, FILE, 0, true)
    && FILE in st.shared.files && Sentences(st.shared.files[FILE]) == ["X.", "Y."] + Sentences(DOCUMENT)
    && st.shared.log == [LogEntry(0, FILE, 0, 2)] && st.shared.nextLogId == 1
    && st.shared.sentenceLocks == [SentenceLock(FILE, 1)] && st.shared.fileLocks == [FileLock(FILE, 0)]
  }

  /** Session 1 waits and nobody else has come. */
  predicate Waiting(st: State) {
    && st.mutex == None && st.held == map[] && st.threads == map[1 := Begun(1, FILE, 0, true)]
    && st.shared == Shared(map[FILE := DOCUMENT], map[], [], 0, [SentenceLock(FILE, 1)], [])
  }

  lemma FirstAsks() returns (evs: seq<Event>, st: State)
    ensures Leads(Fresh(DOCUMENT), evs, st) && Waiting(st)
  {
    var st0 := Fresh(DOCUMENT);
    DocumentSentences();
    ValidationIsEditable(DOCUMENT, 1);
    hide Leads, Sentences, MaxValidIndex;
    evs := BeginAlone(st0, 1, 1, FILE);
    st := Alone(Scene(st0.threads, st0.held, 1), Begun(1, FILE, 0, true),
                st0.shared.(sentenceLocks := [SentenceLock(FILE, 1)] + st0.shared.sentenceLocks));
  }

  lemma SecondPieces()
    ensures Letters(["Y.", "X."])
  {
  }

  lemma WaitingQuiet(st: State)
    requires Waiting(st)
    ensures st.mutex == None && st.held == map[] && 2 !in st.threads && Quiet(st.shared)
    ensures st.shared.files[FILE] == DOCUMENT && |Sentences(DOCUMENT)| == 3
    ensures SentenceLock(FILE, 0) !in st.shared.sentenceLocks
  {
    DocumentSentences();
    hide Sentences, Letters;
  }

  lemma MovedFrom(st: State, end: State)
    requires Waiting(st) && Inserted(st, end, 2, 0, ["X.", "Y."] + Sentences(DOCUMENT), 2)
    ensures Moved(end)
  {
    hide Sentences, Begun;
  }

  lemma SecondWrites(st: State) returns (evs: seq<Event>, end: State)
    requires Waiting(st)
    ensures Leads(st, evs, end) && Moved(end)
  {
    hide Leads, Sentences, WithPieces, Letters, Waiting, Moved, Inserted, Quiet;
    WaitingQuiet(st);
    TwoPieces(Sentences(DOCUMENT), "Y.", "X.");
    SecondPieces();
    evs, end := InsertSession(st, 2, 0, ["Y.", "X."]);
    MovedFrom(st, end);
  }

  /** Session 1 asks for sentence 1 of "A. B. C." and waits; session 2 then writes two new
      sentences in front of sentence 0. */
  lemma MovedWhileWaiting() returns (evs: seq<Event>, st: State)
    ensures Initial(Fresh(DOCUMENT)) && Leads(Fresh(DOCUMENT), evs, st) && Moved(st)
  {
    assert Initial(Fresh(DOCUMENT));
    hide Leads, Waiting, Moved, Fresh, Initial;
    var x, mid := FirstAsks();
    var y: seq<Event>;
    y, st := SecondWrites(mid);
    LeadsOn(Fresh(DOCUMENT), x, mid, y, st);
    evs := x + y;
  }

  /** The third session has come and gone too. */
  predicate MovedAgain(st: State) {
    && st.mutex == None && st.held == map[] && 1 in st.threads
    && st.threads[1] == Begun(1, FILE, 0, true)
    && FILE in st.shared.files && Sentences(st.shared.files[FILE]) == ["X.", "Y.", "Z."] + Sentences(DOCUMENT)
    && st.shared.log == [LogEntry(0, "f", 0, 2), LogEntry(1, "f", 2, 1)]
    && st.shared.fileLocks == [FileLock(FILE, 0)]
  }

  lemma ThirdPiece(ss: seq<string>)
    requires Letters(ss) && ss != []
    ensures Letters(["X.", "Y."] + ss) && Letters(["Z."])
    ensures WithPieces(["X.", "Y."] + ss, 2, ["Z."]) == ["X.", "Y.", "Z."] + ss
  {
    var five := ["X.", "Y."] + ss;
    OnePiece(five, 2, "Z.");
    assert five[..2] + ["Z."] + five[2..] == ["X.", "Y.", "Z."] + ss;
  }

  lemma MovedQuiet(st: State)
    requires Moved(st)
    ensures st.mutex == None && st.held == map[] && 3 !in st.threads && Quiet(st.shared)
    ensures Sentences(st.shared.files[FILE]) == ["X.", "Y."] + Sentences(DOCUMENT)
    ensures SentenceLock(FILE, 2) !in st.shared.sentenceLocks
  {
    hide Sentences, Letters, Begun;
    DocumentSentences();
    ThirdPiece(Sentences(DOCUMENT));
  }

  lemma MovedAgainFrom(st: State, end: State)
    requires Moved(st) && Inserted(st, end, 3, 2, ["X.", "Y.", "Z."] + Sentences(DOCUMENT), 1)
    ensures MovedAgain(end)
  {
    hide Sentences, Begun;
  }

  lemma ThirdWrites(st: State) returns (evs: seq<Event>, end: State)
    requires Moved(st)
    ensures Leads(st, evs, end) && MovedAgain(end)
  {
    DocumentSentences();
    hide Leads, Sentences, WithPieces, Letters, Moved, MovedAgain, Inserted, Quiet;
    MovedQuiet(st);
    ThirdPiece(Sentences(DOCUMENT));
    evs, end := InsertSession(st, 3, 2, ["Z."]);
    MovedAgainFrom(st, end);
  }

  /** Session 1 at its update loop. */
  function Looping(st: State, id: nat): State
    requires 1 in st.threads && st.threads[1].job.Write?
  {
    var sh, th := Resolved(st.shared, FILE), st.threads[1];
    Alone(Scene(st.threads, st.held[id := 1], 1), Ready(sh, th.(lockId := id)), BackedUp(sh, FILE))
  }

  lemma FirstLoops(st: State) returns (evs: seq<Event>, id: nat)
    requires MovedAgain(st)
    ensures Leads(st, evs, Looping(st, id))
  {
    var sc, th := Scene(st.threads, st.held, 1), st.threads[1];
    assert st == Alone(sc, th, st.shared) by {
      assert st.threads[1 := th] == st.threads;
    }
    hide Leads, Sentences, Ready, BackedUp;
    evs, id := LoopAlone(sc, th, st.shared);
  }

  /** What session 1 is about to edit, and where the sentence it asked for is. */
  ghost predicate AimsWrong(st: State) {
    && 1 in st.threads && st.threads[1].job == Write(1) && st.threads[1].pc == Apply
    && Sentences(st.threads[1].content) == ["X.", "Y.", "Z.", "A.", "B.", "C."]
    && Target(st.threads[1]) == 3
  }

  lemma LoopingWrong(st: State, id: nat)
    requires MovedAgain(st)
    ensures AimsWrong(Looping(st, id))
  {
    DocumentSentences();
    ShiftCanMiss();
    hide Sentences, Shift;
    assert ["X.", "Y.", "Z."] + ["A.", "B.", "C."] == ["X.", "Y.", "Z.", "A.", "B.", "C."];
  }

  /** Session 3 asks for sentence 2, which is "A.", and writes one in front of it. Session 1
      then comes to its update loop aiming at sentence 3, while the "B." it asked for is
      sentence 4: it will edit "A.". */
  lemma ShiftMisses() returns (evs: seq<Event>, end: State)
    ensures Sentences(DOCUMENT) == ["A.", "B.", "C."]
    ensures Initial(Fresh(DOCUMENT)) && Leads(Fresh(DOCUMENT), evs, end) && AimsWrong(end)
  {
    DocumentSentences();
    var x, st := MovedWhileWaiting();
    hide Moved, MovedAgain, Leads, Sentences, AimsWrong, Looping, Fresh;
    var y, st3 := ThirdWrites(st);
    var z, id := FirstLoops(st3);
    assert 1 in st3.threads && st3.threads[1].job.Write? by {
      FirstWaits(st3);
    }
    LoopingWrong(st3, id);
    end := Looping(st3, id);
    LeadsOn(Fresh(DOCUMENT), x, st, y, st3);
    LeadsOn(Fresh(DOCUMENT), x + y, st3, z, end);
    evs := x + y + z;
  }

  lemma FirstWaits(st: State)
    requires MovedAgain(st)
    ensures 1 in st.threads && st.threads[1].job.Write?
  {
  }

  /** Sessions 1 and 3 have their sentence locks and aim at the same "B.". */
  ghost predicate AimAlike(st: State) {
    && 1 in st.threads && st.threads[1].job == Write(1) && st.threads[1].pc == Receive
    && 3 in st.threads && st.threads[3].job == Write(3) && st.threads[3].pc == Receive
    && Aim(st, 1) == Aim(st, 3) == 3
    && var ss := Sentences(Content(st.shared, FILE)); |ss| > 3 && ss[3] == "B."
  }

  lemma WaitsElsewhere(st: State)
    requires Moved(st)
    ensures 1 in st.threads && Aim(st, 1) == 3 && 3 <= MaxValidIndex(Content(st.shared, FILE))
    ensures var ss := Sentences(Content(st.shared, FILE)); |ss| > 3 && ss[3] == "B."
  {
    DocumentSentences();
    ValidationIsEditable(Content(st.shared, FILE), 3);
    var log := st.shared.log;
    hide Sentences, MaxValidIndex;
    assert log == [log[0]] + [] && log[1..] == [];
    assert Shift(log[1..], FILE, 1, 0) == 0 && Shift(log, FILE, 1, 0) == 2;
    assert (["X.", "Y."] + ["A.", "B.", "C."])[3] == "B.";
  }

  /** Session 3 asks for sentence 3, where the "B." is that session 1 waits to edit, and
      waits too. */
  lemma ThirdAsks(st0: State, run: seq<Event>, st: State) returns (evs: seq<Event>, end: State)
    requires Initial(st0) && Leads(st0, run, st) && Moved(st)
    ensures Leads(st, evs, end) && AimAlike(end)
  {
    WaitsElsewhere(st);
    assert SentenceLock(FILE, 3) !in st.shared.sentenceLocks;
    hide Sentences, Shift, MaxValidIndex, Run, After, Aim, Content;
    evs := SecondSession(st0, run, st, 1, 3, 3);
    end := After(st, evs);
    assert Content(end.shared, FILE) == Content(st.shared, FILE) by {
      SameContent(st.shared, end.shared);
    }
  }

  lemma SameContent(a: Shared, b: Shared)
    requires a.files == b.files
    ensures Content(a, FILE) == Content(b, FILE)
  {
  }

  /** So two sessions can be about to edit one sentence, each with its lock in hand. */
  lemma TwoSessionsOneSentence() returns (evs: seq<Event>, end: State)
    ensures Sentences(DOCUMENT) == ["A.", "B.", "C."]
    ensures Initial(Fresh(DOCUMENT)) && Leads(Fresh(DOCUMENT), evs, end) && AimAlike(end)
  {
    DocumentSentences();
    var x, st := MovedWhileWaiting();
    hide Moved, Leads, AimAlike, Sentences, Fresh;
    var y: seq<Event>;
    y, end := ThirdAsks(Fresh(DOCUMENT), x, st);
    LeadsOn(Fresh(DOCUMENT), x, st, y, end);
    evs := x + y;
  }
}
