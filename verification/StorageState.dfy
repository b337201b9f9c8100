/** The state every session of a storage server shares, and what each routine does to it. */
module StorageState {
  import opened Text
  import opened FileParser
  import opened SentenceFacts
  import opened EditFacts
  import opened EditQueue
  import opened ModificationLog
  import opened Decimal

  datatype SentenceLock = SentenceLock(file: string, num: int)

  /** A node of the commit-lock list; `id` is the node's identity, its place in the order
      of creation. */
  datatype FileLock = FileLock(file: string, id: nat)

  datatype Shared = Shared(
    files: map<string, string>,
    undo: map<string, string>,
    log: seq<LogEntry>,
    nextLogId: int,
    sentenceLocks: seq<SentenceLock>,
    fileLocks: seq<FileLock>)

  /** `get_file_content`, with "" for a missing file as the session code has it. */
  function Content(sh: Shared, file: string): string {
    if file in sh.files then sh.files[file] else ""
  }

  /** `log_modification`. */
  function Logged(sh: Shared, file: string, index: int, delta: int): Shared {
    if delta == 0 then sh
    else sh.(log := sh.log + [LogEntry(sh.nextLogId, file, index, delta)], nextLogId := sh.nextLogId + 1)
  }

  /** `create_undo_backup`: the old backup goes, and the file, when there is one, is copied. */
  function BackedUp(sh: Shared, file: string): Shared {
    if file in sh.files then sh.(undo := sh.undo[file := sh.files[file]])
    else sh.(undo := sh.undo - {file})
  }

  /** `perform_undo`: the backup is renamed over the file. */
  function Reverted(sh: Shared, file: string): Shared {
    if file in sh.undo then sh.(files := sh.files[file := sh.undo[file]], undo := sh.undo - {file})
    else sh
  }

  function Written(sh: Shared, file: string, content: string): Shared {
    sh.(files := sh.files[file := content])
  }

  function Without(locks: seq<SentenceLock>, l: SentenceLock): seq<SentenceLock> {
    if locks == [] then []
    else if locks[0] == l then locks[1..]
    else [locks[0]] + Without(locks[1..], l)
  }

  /** The node at `i` is not the one sought: it stays. */
  lemma WithoutTurn(locks: seq<SentenceLock>, i: nat, l: SentenceLock)
    requires i < |locks|
    ensures Without(locks[i..], l) ==
            if locks[i] == l then locks[i + 1..] else [locks[i]] + Without(locks[i + 1..], l)
  {
    assert locks[i..][0] == locks[i] && locks[i..][1..] == locks[i + 1..];
  }

  lemma WithoutNothing(l: SentenceLock)
    ensures Without([], l) == []
  {
  }

  function CommitLock(locks: seq<FileLock>, file: string): Option<nat> {
    if locks == [] then None
    else if locks[0].file == file then Some(locks[0].id)
    else CommitLock(locks[1..], file)
  }

  /** `get_file_commit_lock`: the list afterwards. */
  function WithCommitLock(locks: seq<FileLock>, file: string): seq<FileLock> {
    if CommitLock(locks, file).Some? then locks else [FileLock(file, |locks|)] + locks
  }

  /** A whole commit by itself: the shared state afterwards, and whether it succeeded. */
  function CommitResult(sh: Shared, file: string, num: int, start: int, queue: seq<Update>): (Shared, bool) {
    var backed := BackedUp(sh, file);
    var before := Content(backed, file);
    var index := num + Shift(backed.log, file, num, start);
    match ApplyAll(before, index, queue)
    case None => (backed, false)
    case Some(after) =>
      (Logged(Written(backed, file, after), file, index, |Sentences(after)| - |Sentences(before)|), true)
  }

  // ---------------------------------------------------------------- validation

  /** The last character of `s` that is not white space. */
  function LastInk(s: string): Option<char> {
    if s == "" then None
    else if IsSpace(s[|s| - 1]) then LastInk(s[..|s| - 1])
    else Some(s[|s| - 1])
  }

  /** The highest sentence index a WRITE may ask for. */
  function MaxValidIndex(content: string): int {
    var ss := Sentences(content);
    if ss == [] then 0
    else
      var ink := LastInk(ss[|ss| - 1]);
      if ink.Some? && IsDelimiter(ink.value) then |ss| else |ss| - 1
  }

  lemma {:induction false} LastInkOfFragment(s: string)
    requires forall i | 0 <= i < |s| :: !IsDelimiter(s[i])
    ensures LastInk(s).Some? ==> !IsDelimiter(LastInk(s).value)
  {
    if s != "" && IsSpace(s[|s| - 1]) {
      LastInkOfFragment(s[..|s| - 1]);
    }
  }

  /** The check at session start admits exactly the indices at which an edit leaves every
      earlier sentence alone. */
  lemma ValidationIsEditable(content: string, k: int)
    ensures 0 <= k <= MaxValidIndex(content) <==> Editable(content, k)
  {
    var ss := Sentences(content);
    if ss != [] {
      var last := ss[|ss| - 1];
      SentencesWellFormed(content);
      FirstDelimiterFacts(last);
      if !Terminated(last) {
        LastInkOfFragment(last);
      }
    }
  }

  // ---------------------------------------------------------------- queue lines

  /** A line of a WRITE session: a word index and, after the first blank, the text. */
  function ParsedLine(line: string): Option<Update> {
    var parts := Tokens(line, ' ');
    if |parts| < 2 || FirstOf(line, ' ') >= |line| then None
    else Some(Update(Atoi(parts[0]), line[FirstOf(line, ' ') + 1..]))
  }

  lemma NoBlankOnePart(line: string)
    requires FirstOf(line, ' ') == |line|
    ensures |Tokens(line, ' ')| <= 1
  {
    if line != "" {
      assert Tokens(line, ' ') == [line[..|line|]] + Tokens(line[|line|..], ' ');
    }
  }

  /** A line with two parts has a blank, so the second test of `ParsedLine` never decides. */
  lemma TwoPartsHaveBlank(line: string)
    requires |Tokens(line, ' ')| >= 2
    ensures FirstOf(line, ' ') < |line|
  {
    if FirstOf(line, ' ') == |line| {
      NoBlankOnePart(line);
    }
  }

  /** Every queued update inserts something. */
  lemma ParsedLineInserts(line: string)
    requires ParsedLine(line).Some?
    ensures Tokens(ParsedLine(line).value.text, ' ') != []
  {
    var n := FirstOf(line, ' ');
    if n == 0 {
      assert line[0] == ' ' by {
        FirstOfFacts(line, ' ');
      }
    } else {
      assert line[0] != ' ';
      assert Tokens(line, ' ') == [line[..n]] + Tokens(line[n..], ' ');
      FirstOfFacts(line, ' ');
      assert line[n..][0] == ' ' && line[n..][1..] == line[n + 1..];
    }
  }

  /** A number, a blank and any text with something in it: the update says what the line
      says. */
  lemma LineQueued(n: int, text: string)
    requires Tokens(text, ' ') != []
    ensures ParsedLine(PrintInt(n) + " " + text) == Some(Update(n, text))
  {
    NumberFirst(n, text);
    AtoiOfPrintInt(n);
    hide Tokens, PrintInt, Atoi, FirstOf;
  }

  lemma NumberFirst(n: int, text: string)
    ensures var line := PrintInt(n) + " " + text;
            && Tokens(line, ' ') == [PrintInt(n)] + Tokens(text, ' ')
            && FirstOf(line, ' ') == |PrintInt(n)| < |line| && line[|PrintInt(n)| + 1..] == text
  {
    var number := PrintInt(n);
    var line := number + " " + text;
    assert forall i | 0 <= i < |number| :: number[i] != ' ';
    hide PrintInt;
    FirstOfIs(line, ' ', |number|);
    assert line[..|number|] == number && line[|number|..] == " " + text && (" " + text)[1..] == text;
    assert line[0] == number[0];
    assert Tokens(line, ' ') == [number] + Tokens(" " + text, ' ');
  }

  /** A line that begins with a blank: the number is taken for the index all the same, but
      the text then begins with it. */
  lemma LeadingBlank(n: int, text: string)
    requires Tokens(text, ' ') != []
    ensures ParsedLine(" " + (PrintInt(n) + " " + text)) == Some(Update(n, PrintInt(n) + " " + text))
  {
    var line := PrintInt(n) + " " + text;
    NumberFirst(n, text);
    AtoiOfPrintInt(n);
    assert (" " + line)[1..] == line && Tokens(" " + line, ' ') == Tokens(line, ' ') && FirstOf(" " + line, ' ') == 0;
    hide Tokens, PrintInt, Atoi, FirstOf;
  }

  /** A commit on a file that is not there starts from nothing. */
  lemma MissingFileIsEmpty(sh: Shared, file: string)
    requires file !in sh.files
    ensures Sentences(Content(sh, file)) == [] && Words(Content(sh, file)) == []
  {
  }
}
