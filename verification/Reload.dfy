/** What a restart makes of the saved file, line by line as `fgets` hands them out. */
module Reload {
  import opened Text
  import opened FileParser
  import opened Decimal
  import opened AccessList
  import opened HashTable
  import opened Persistence

  // ---------------------------------------------------------------- lines and chunks

  /** A line comes back in pieces that fit the buffer. */
  function Chunks(line: string): seq<string>
    decreases |line|
  {
    if |line| < BUFFER - 1 then [line] else [line[..BUFFER - 1]] + Chunks(line[BUFFER - 1..])
  }

  lemma {:induction false} TrimmedClean(s: string)
    requires Free(s, '\n') && Free(s, '\r')
    ensures Trimmed(s) == s && Trimmed(s + "\n") == s
  {
    if s == "" {
      assert s + "\n" == "\n";
    } else {
      assert (s + "\n")[1..] == s[1..] + "\n";
      TrimmedClean(s[1..]);
    }
  }

  lemma {:induction false} LinesOfLine(s: string, rest: string)
    requires Free(s, '\n') && Free(s, '\r')
    ensures TextLines(s + "\n" + rest) == Chunks(s) + TextLines(rest)
    decreases |s|
  {
    var text := s + "\n" + rest;
    Regroup(s, "\n", rest);
    FirstOfConcat(s, '\n', "\n" + rest);
    assert FirstOf("\n" + rest, '\n') == 0;
    if |s| < BUFFER - 1 {
      assert LineLength(text) == |s| + 1;
      assert text[..|s| + 1] == s + "\n" && text[|s| + 1..] == rest;
      TrimmedClean(s);
    } else {
      var head, tail := s[..BUFFER - 1], s[BUFFER - 1..];
      assert LineLength(text) == BUFFER - 1;
      assert text[..BUFFER - 1] == head && text[BUFFER - 1..] == tail + "\n" + rest;
      TrimmedClean(head);
      LinesOfLine(tail, rest);
      hide TextLines;
      assert TextLines(text) == [head] + TextLines(tail + "\n" + rest) by {
        TextLinesStep(text);
      }
      Regroup([head], Chunks(tail), TextLines(rest));
    }
  }

  function Bars(s: string): nat {
    if s == "" then 0 else (if s[0] == '|' then 1 else 0) + Bars(s[1..])
  }

  lemma {:induction false} BarsConcat(s: string, t: string)
    ensures Bars(s + t) == Bars(s) + Bars(t)
  {
    if s == "" {
      assert s + t == t;
    } else {
      assert (s + t)[1..] == s[1..] + t;
      BarsConcat(s[1..], t);
    }
  }

  lemma {:induction false} BarsFree(s: string)
    ensures Bars(s) == 0 <==> Free(s, '|')
  {
    if s != "" {
      BarsFree(s[1..]);
      assert forall i | 1 <= i < |s| :: s[i] == s[1..][i - 1];
    }
  }

  lemma FreeTail(s: string, from: nat, i: nat)
    requires from <= |s| && i < |s| && Free(s[from..], '|')
    ensures from <= i ==> s[i] != '|'
  {
    if from <= i {
      assert s[from..][i - from] == s[i];
    }
  }

  /** Bars only separate. */
  lemma {:induction false} TokensBound(s: string)
    ensures |Tokens(s, '|')| <= Bars(s) + 1
    ensures s != "" && s[0] == '|' ==> |Tokens(s, '|')| <= Bars(s)
    decreases |s|
  {
    if s == "" {
    } else if s[0] == '|' {
      TokensBound(s[1..]);
    } else {
      var n := FirstOf(s, '|');
      FirstOfFacts(s, '|');
      TokensBound(s[n..]);
      assert s[..n] + s[n..] == s;
      BarsConcat(s[..n], s[n..]);
      if n == |s| {
        assert Tokens(s[n..], '|') == [];
      }
    }
  }

  lemma {:induction false} BarsOfBarred(fields: seq<string>)
    requires fields != [] && forall i | 0 <= i < |fields| :: Free(fields[i], '|')
    ensures Bars(Barred(fields)) == |fields| - 1
  {
    BarsFree(fields[0]);
    if |fields| > 1 {
      BarsOfBarred(fields[1..]);
      BarsConcat(fields[0] + "|", Barred(fields[1..]));
      BarsConcat(fields[0], "|");
    }
  }

  /** Text with too few bars makes no record, whatever its chunks. */
  lemma {:induction false} ChunksMakeNothing(b: seq<seq<FileMeta>>, s: string, rest: seq<string>)
    requires |b| == SIZE && Bars(s) <= 7
    ensures Loaded(b, Chunks(s) + rest) == Loaded(b, rest)
    decreases |s|
  {
    hide ParsedRecord, Loaded;
    if |s| < BUFFER - 1 {
      FewBars(s);
      LoadedNothing(b, s, rest);
    } else {
      var head, tail := s[..BUFFER - 1], s[BUFFER - 1..];
      assert s == head + tail;
      BarsConcat(head, tail);
      FewBars(head);
      Regroup([head], Chunks(tail), rest);
      LoadedNothing(b, head, Chunks(tail) + rest);
      ChunksMakeNothing(b, tail, rest);
    }
  }

  lemma FewBars(s: string)
    requires Bars(s) <= 7
    ensures ParsedRecord(s) == None
  {
    TokensBound(s);
  }

  lemma LoadedNothing(b: seq<seq<FileMeta>>, line: string, rest: seq<string>)
    requires |b| == SIZE && ParsedRecord(line) == None
    ensures Loaded(b, [line] + rest) == Loaded(b, rest)
  {
    assert ([line] + rest)[1..] == rest;
  }

  // ---------------------------------------------------------------- one record

  /** The line fits the read buffer. */
  predicate FitsLine(m: FileMeta) {
    |RecordLine(m)| <= 4095
  }

  /** What loading makes of a record's line: its first chunk, parsed. */
  function Reread(m: FileMeta): Option<FileMeta> {
    ParsedRecord(Clip(RecordLine(m), BUFFER - 1))
  }

  function WithRecord(b: seq<seq<FileMeta>>, m: Option<FileMeta>): (r: seq<seq<FileMeta>>)
    requires |b| == SIZE
    ensures |r| == SIZE
  {
    match m case None => b case Some(x) => Inserted(b, x)
  }

  lemma ChunksStep(line: string)
    ensures Chunks(line) ==
            if |line| < BUFFER - 1 then [line] else [line[..BUFFER - 1]] + Chunks(line[BUFFER - 1..])
  {
  }

  /** Behind the first chunk there is a bar less. */
  lemma LongRest(line: string, bar: nat)
    requires Bars(line) <= 8 && bar < BUFFER - 1 <= |line| && line[bar] == '|'
    ensures Bars(line[BUFFER - 1..]) <= 7
  {
    var head, tail := line[..BUFFER - 1], line[BUFFER - 1..];
    assert line == head + tail && head[bar] == '|';
    BarsConcat(head, tail);
    BarsFree(head);
  }

  /** A line with eight bars, one of them early, is loaded as its first chunk says. */
  lemma LoadedLine(b: seq<seq<FileMeta>>, line: string, bar: nat, rest: seq<string>)
    requires |b| == SIZE && Bars(line) <= 8 && bar < |line| && bar <= 255 && line[bar] == '|'
    ensures Loaded(b, Chunks(line) + rest) == Loaded(WithRecord(b, ParsedRecord(Clip(line, BUFFER - 1))), rest)
  {
    ChunksStep(line);
    hide ParsedRecord, Loaded, Inserted, Chunks, Bars, WithRecord;
    if |line| < BUFFER - 1 {
      LoadedStep(b, line, rest);
    } else {
      LongRest(line, bar);
      var head, tail := line[..BUFFER - 1], line[BUFFER - 1..];
      assert Clip(line, BUFFER - 1) == head;
      hide Clip;
      Regroup([head], Chunks(tail), rest);
      LoadedStep(b, head, Chunks(tail) + rest);
      ChunksMakeNothing(WithRecord(b, ParsedRecord(head)), tail, rest);
    }
  }

  lemma LoadedStep(b: seq<seq<FileMeta>>, line: string, rest: seq<string>)
    requires |b| == SIZE
    ensures Loaded(b, [line] + rest) == Loaded(WithRecord(b, ParsedRecord(line)), rest)
  {
    assert ([line] + rest)[1..] == rest;
  }

  lemma LineStart(m: FileMeta)
    ensures RecordLine(m) == m.name + "|" + Barred(Fields(m)[1..])
    ensures |RecordLine(m)| > |m.name| && RecordLine(m)[|m.name|] == '|'
  {
    hide PrintInt, AccessText;
  }

  /** However long its line, a clean record is loaded as its first chunk says. */
  lemma LoadedRecord(b: seq<seq<FileMeta>>, m: FileMeta, rest: string)
    requires |b| == SIZE && Clean(m)
    ensures Loaded(b, TextLines(RecordLine(m) + "\n" + rest)) == Loaded(WithRecord(b, Reread(m)), TextLines(rest))
  {
    FieldsFree(m);
    BarredFree(Fields(m), '\n');
    BarredFree(Fields(m), '\r');
    BarsOfBarred(Fields(m));
    LineStart(m);
    hide Barred, ParsedRecord, Loaded, Fields, TextLines, Bars, WithRecord, Chunks;
    LinesOfLine(RecordLine(m), rest);
    LoadedLine(b, RecordLine(m), |m.name|, TextLines(rest));
  }

  lemma {:induction false} BarredLast(f: seq<string>, x: string)
    requires f != []
    ensures Barred(f + [x]) == Barred(f) + "|" + x
  {
    if |f| == 1 {
      assert (f + [x])[1..] == [x] && (f + [x])[0] == f[0];
    } else {
      assert (f + [x])[1..] == f[1..] + [x] && (f + [x])[0] == f[0];
      BarredLast(f[1..], x);
      Regroup(f[0] + "|", Barred(f[1..]), "|" + x);
      Regroup(Barred(f[1..]), "|", x);
      Regroup(f[0] + "|" + Barred(f[1..]), "|", x);
    }
  }

  /** A number cut short is another number. */
  lemma {:induction false} DigitsCut(n: nat, i: nat)
    requires i <= |PrintNat(n)|
    ensures DigitsValue(PrintNat(n)[..i], 0) <= n
    ensures 0 < i < |PrintNat(n)| ==> DigitsValue(PrintNat(n)[..i], 0) < n
  {
    DigitsOfPrintNat(n);
    if i == |PrintNat(n)| {
      assert PrintNat(n)[..i] == PrintNat(n);
    } else if n >= 10 {
      assert PrintNat(n)[..i] == PrintNat(n / 10)[..i];
      DigitsCut(n / 10, i);
    }
  }

  lemma NumberCut(n: int, i: nat)
    requires 0 < i < |PrintInt(n)|
    ensures Atoi(PrintInt(n)[..i]) != n
  {
    var p := PrintInt(n)[..i];
    if n < 0 {
      assert p[1..] == PrintNat(-n)[..i - 1];
      DigitsCut(-n, i - 1);
      assert i == 1 ==> p[1..] == "";
    } else {
      DigitsCut(n, i);
    }
  }

  /** A line too long for the buffer gives no record, or one with another time. */
  lemma LongLine(m: FileMeta)
    requires Clean(m) && !FitsLine(m)
    ensures Reread(m).Some? ==> Reread(m).value.modified != m.modified
    ensures m.access == [] ==> Reread(m) == None
  {
    var line, f := RecordLine(m), Fields(m);
    var cut, tail := line[..BUFFER - 1], line[BUFFER - 1..];
    FieldsFree(m);
    BarsOfBarred(f);
    assert line == cut + tail;
    BarsConcat(cut, tail);
    TokensBound(cut);
    hide Barred, Clean, Bars, Tokens;
    if Bars(tail) == 0 {
      CutInTime(m);
    }
  }

  /** The cut is inside the last field. */
  lemma CutInTime(m: FileMeta)
    requires Clean(m) && !FitsLine(m) && Bars(RecordLine(m)[BUFFER - 1..]) == 0
    ensures Reread(m).Some? ==> Reread(m).value.modified != m.modified
    ensures m.access == [] ==> Reread(m) == None
  {
    var line, f := RecordLine(m), Fields(m);
    var last := PrintInt(m.modified);
    var head := Barred(f[..8]);
    var cut := line[..BUFFER - 1];
    FieldsFree(m);
    assert f == f[..8] + [last];
    BarredLast(f[..8], last);
    BarsFree(line[BUFFER - 1..]);
    hide Barred, Clean, Bars, Fields, PrintInt, RecordLine;
    assert line == head + "|" + last && line[|head|] == '|';
    FreeTail(line, BUFFER - 1, |head|);
    var i := BUFFER - 1 - |head| - 1;
    assert cut == head + "|" + last[..i];
    BarredLast(f[..8], last[..i]);
    TimeLost(m, f[..8] + [last[..i]], last[..i]);
    if i > 0 {
      NumberCut(m.modified, i);
    }
  }

  /** A line with all fields but the last. */
  lemma TimeLost(m: FileMeta, g: seq<string>, time: string)
    requires Clean(m) && g == Fields(m)[..8] + [time] && Free(time, '|')
    ensures var r := ParsedRecord(Barred(g));
            && (r.Some? ==> time != "" && r.value.modified == Atoi(time))
            && (m.access == [] ==> r == None)
  {
    FieldsFree(m);
    TokensOfBarred(g);
    assert forall i | 0 <= i < 8 :: g[i] == Fields(m)[i];
    NonEmptyNineTime(g);
    hide Barred, Tokens, NonEmpty, Fields, Clean, Atoi, WithEntries;
  }

  lemma NonEmptyNineTime(g: seq<string>)
    requires |g| == 9 && forall i | 0 <= i < 8 && i != 4 :: g[i] != ""
    ensures |NonEmpty(g)| >= 9 ==> NonEmpty(g) == g && g[4] != "" && g[8] != ""
  {
    NonEmptyShort(g);
  }

  lemma {:induction false} NonEmptyShort(g: seq<string>)
    ensures |NonEmpty(g)| <= |g|
    ensures |NonEmpty(g)| == |g| ==> NonEmpty(g) == g && forall i | 0 <= i < |g| :: g[i] != ""
  {
    if g != [] {
      NonEmptyShort(g[1..]);
      if |NonEmpty(g)| == |g| {
        assert g == [g[0]] + g[1..];
      }
    }
  }

  /** A clean record is read back, with its access list as it is read, exactly when that
      list is not empty and the line fits the buffer. */
  lemma RecordReread(m: FileMeta)
    requires Clean(m)
    ensures Reread(m) == Some(AsRead(m)) <==> m.access != [] && FitsLine(m)
    ensures Reread(m) == Some(Restored(m)) <==> m.access != [] && FitsLine(m) && ReadsAlike(m)
    ensures m.access == [] ==> Reread(m) == None
    ensures Reread(m).Some? ==> Reread(m).value.name == m.name
  {
    RereadName(m);
    if FitsLine(m) {
      RecordParses(m);
    } else {
      LongLine(m);
    }
    hide Clean, ParsedRecord, RecordLine, Reloaded, AllRead;
  }

  lemma RereadName(m: FileMeta)
    requires Clean(m)
    ensures Reread(m).Some? ==> Reread(m).value.name == m.name
  {
    var line := RecordLine(m);
    var cut := Clip(line, BUFFER - 1);
    LineStart(m);
    hide RecordLine;
    var rest := cut[|m.name|..];
    assert cut == m.name + rest && rest[0] == '|';
    TokensHead(m.name, '|', rest);
    hide Tokens, WithEntries;
  }

  // ---------------------------------------------------------------- the whole file

  /** Loading the lines of clean records. */
  lemma {:induction false} LoadedFinds(b: seq<seq<FileMeta>>, ms: seq<FileMeta>, n: string)
    requires TableOk(b) && DistinctNames(ms)
    requires forall i | 0 <= i < |ms| :: Clean(ms[i])
    ensures TableOk(Loaded(b, TextLines(Saved(ms))))
    ensures Lookup(Loaded(b, TextLines(Saved(ms))), n) ==
            if Lookup(b, n).Some? then Lookup(b, n)
            else match Find(ms, n) case None => None case Some(m) => Reread(m)
    decreases |ms|
  {
    if ms != [] {
      var m := ms[0];
      RecordReread(m);
      LoadedRecord(b, m, Saved(ms[1..]));
      if n == m.name {
        FindNamed(ms[1..], n);
      }
      hide RecordLine, Reread, Lookup, Clean, TextLines, Loaded;
      if Reread(m).Some? {
        InsertRefines(b, Reread(m).value);
      }
      hide Inserted, TableOk;
      LoadedFinds(WithRecord(b, Reread(m)), ms[1..], n);
    }
  }

  /** Saving a table of clean records and loading it into an empty one: a record is back
      under its name with all its fields, its access list as it is read, exactly when that
      list is not empty and its line fits the buffer; and with every access decision the
      same when the list reads alike. */
  lemma SaveLoadRoundTrip(b: seq<seq<FileMeta>>, empty: seq<seq<FileMeta>>, n: string)
    requires TableOk(b) && TableOk(empty) && forall x :: Lookup(empty, x) == None
    requires forall m | m in Records(b) :: Clean(m) && Distinct(m.access)
    ensures var loaded := Loaded(empty, TextLines(Saved(Records(b))));
            && TableOk(loaded)
            && match Lookup(b, n)
               case None => Lookup(loaded, n) == None
               case Some(m) =>
                 && (Lookup(loaded, n) == Some(AsRead(m)) <==> m.access != [] && FitsLine(m))
                 && (Lookup(loaded, n) == Some(Restored(m)) <==> m.access != [] && FitsLine(m) && ReadsAlike(m))
                 && (m.access == [] ==> Lookup(loaded, n) == None)
                 && SameDecisions(m, Restored(m))
  {
    var ms := Records(b);
    RecordsFind(b, n);
    LoadedFinds(empty, ms, n);
    hide TextLines, Saved, Loaded, Clean, TableOk, Find, Reread, FitsLine, AsRead, Restored, ReadsAlike, SameDecisions;
    if Lookup(b, n).Some? {
      var m := Lookup(b, n).value;
      FindNamed(ms, n);
      RecordReread(m);
      RestoredDecides(m);
    }
  }

  /** The two records differ in nothing but the order of their access lists, and decide alike. */
  ghost predicate SameDecisions(m: FileMeta, r: FileMeta) {
    && r.(access := m.access) == m
    && forall user, required ::
         Allowed(r.owner, r.access, user, required) <==> Allowed(m.owner, m.access, user, required)
  }

  lemma RestoredDecides(m: FileMeta)
    requires Distinct(m.access)
    ensures SameDecisions(m, Restored(m))
  {
    forall user, required
      ensures Allowed(m.owner, Reloaded(m.owner, m.access), user, required)
              <==> Allowed(m.owner, m.access, user, required)
    {
      DecisionsKept(m.owner, m.access, user, required);
    }
    hide Allowed, Reloaded;
  }

  // ---------------------------------------------------------------- what can come out of a file

  /** Every record a file can hold. */
  predicate Readable(m: FileMeta) {
    && Field(m.name) && |m.name| <= 255
    && Field(m.owner) && |m.owner| <= 255
    && Field(m.ip) && |m.ip| <= 15
    && ReadableEntries(m.owner, m.access)
  }

  predicate ReadableEntries(owner: string, list: seq<AccessEntry>) {
    forall e | e in list :: Item([e.perm]) && (e.user == owner || Item(e.user))
  }

  /** Tokens are pieces of the text without the separator. */
  lemma {:induction false} TokensFree(s: string, sep: char)
    ensures forall t | t in Tokens(s, sep) :: t != "" && Free(t, sep)
    ensures forall t, c | t in Tokens(s, sep) && Free(s, c) :: Free(t, c)
    decreases |s|
  {
    if s == "" {
    } else if s[0] == sep {
      TokensFree(s[1..], sep);
      assert forall c | Free(s, c) :: Free(s[1..], c);
    } else {
      var n := FirstOf(s, sep);
      FirstOfFacts(s, sep);
      TokensFree(s[n..], sep);
      assert Tokens(s, sep) == [s[..n]] + Tokens(s[n..], sep);
      assert forall c | Free(s, c) :: Free(s[n..], c) && Free(s[..n], c);
    }
  }

  lemma {:induction false} AddedEntries(list: seq<AccessEntry>, user: string, perm: char)
    ensures forall e | e in Added(list, user, perm) :: e == AccessEntry(user, perm) || e in list
  {
    ChangedEntries(list, user, perm);
  }

  lemma {:induction false} ChangedEntries(list: seq<AccessEntry>, user: string, perm: char)
    ensures forall e | e in Changed(list, user, perm) :: e == AccessEntry(user, perm) || e in list
  {
    if list != [] {
      ChangedEntries(list[1..], user, perm);
    }
  }

  lemma {:induction false} EntriesReadable(owner: string, list: seq<AccessEntry>, pieces: seq<string>)
    requires ReadableEntries(owner, list)
    requires forall t | t in pieces :: Free(t, '|') && Free(t, '\n') && Free(t, '\r') && Free(t, ';')
    ensures ReadableEntries(owner, WithEntries(list, pieces))
    decreases |pieces|
  {
    if pieces != [] {
      var pair := Tokens(pieces[0], ',');
      TokensFree(pieces[0], ',');
      hide Tokens;
      if |pair| == 2 && pair[1] != "" {
        assert pair[0] in pair && pair[1] in pair && pieces[0] in pieces;
        assert Item(pair[0]) && Item([pair[1][0]]);
        AddedEntries(list, pair[0], pair[1][0]);
        EntriesReadable(owner, Added(list, pair[0], pair[1][0]), pieces[1..]);
      } else {
        EntriesReadable(owner, list, pieces[1..]);
      }
    }
  }

  lemma ParsedReadable(line: string)
    requires Free(line, '\n') && Free(line, '\r')
    ensures ParsedRecord(line).Some? ==> Readable(ParsedRecord(line).value)
  {
    var p := Tokens(line, '|');
    TokensFree(line, '|');
    hide Tokens, WithEntries, Atoi, Free;
    if |p| >= 9 {
      assert p[0] in p && p[1] in p && p[2] in p && p[4] in p;
      FieldClipped(p[0], 255);
      FieldClipped(p[1], 255);
      FieldClipped(p[2], 15);
      EntriesParsedReadable(Clip(p[1], 255), p[4]);
    }
  }

  lemma FieldClipped(s: string, n: nat)
    requires s != "" && Free(s, '|') && Free(s, '\n') && Free(s, '\r') && n > 0
    ensures Field(Clip(s, n)) && |Clip(s, n)| <= n
  {
  }

  lemma EntriesParsedReadable(owner: string, field: string)
    requires Free(field, '|') && Free(field, '\n') && Free(field, '\r')
    ensures ReadableEntries(owner, WithEntries(Added([], owner, 'W'), Tokens(field, ';')))
  {
    TokensFree(field, ';');
    AddedEntries([], owner, 'W');
    EntriesReadable(owner, Added([], owner, 'W'), Tokens(field, ';'));
  }

  lemma {:induction false} TrimmedFree(s: string)
    ensures Free(Trimmed(s), '\n') && Free(Trimmed(s), '\r')
  {
    if s != "" {
      TrimmedFree(s[1..]);
    }
  }

  lemma {:induction false} LinesFree(text: string)
    ensures forall l | l in TextLines(text) :: Free(l, '\n') && Free(l, '\r')
    decreases |text|
  {
    if text != "" {
      TrimmedFree(text[..LineLength(text)]);
      LinesFree(text[LineLength(text)..]);
      TextLinesStep(text);
    }
  }

  /** Whatever the file, a loaded record is one that a line can hold. */
  lemma {:induction false} LoadedReadable(b: seq<seq<FileMeta>>, lines: seq<string>, n: string)
    requires TableOk(b) && forall l | l in lines :: Free(l, '\n') && Free(l, '\r')
    requires forall x {:trigger Lookup(b, x)} | Lookup(b, x).Some? :: Readable(Lookup(b, x).value)
    ensures Lookup(Loaded(b, lines), n).Some? ==> Readable(Lookup(Loaded(b, lines), n).value)
    decreases |lines|
  {
    if lines != [] {
      assert lines[0] in lines;
      ParsedReadable(lines[0]);
      hide Readable, ParsedRecord, Lookup, TableOk, Inserted;
      match ParsedRecord(lines[0])
      case None => LoadedReadable(b, lines[1..], n);
      case Some(m) =>
        InsertRefines(b, m);
        LoadedReadable(Inserted(b, m), lines[1..], n);
    }
  }

  lemma {:induction false} AddedKeeps(list: seq<AccessEntry>, user: string, perm: char)
    ensures AccessEntry(user, perm) in Added(list, user, perm)
    ensures forall e | e in list && e.user != user :: e in Added(list, user, perm)
  {
    if Names(list, user) {
      ChangedKeeps(list, user, perm);
    } else {
      assert Added(list, user, perm)[0] == AccessEntry(user, perm);
    }
  }

  lemma {:induction false} ChangedKeeps(list: seq<AccessEntry>, user: string, perm: char)
    requires Names(list, user)
    ensures AccessEntry(user, perm) in Changed(list, user, perm)
    ensures forall e | e in list && e.user != user :: e in Changed(list, user, perm)
  {
    var r := Changed(list, user, perm);
    if list[0].user == user {
      assert r[0] == AccessEntry(user, perm);
    } else {
      NamesStep(list, user);
      ChangedKeeps(list[1..], user, perm);
      assert r == [list[0]] + Changed(list[1..], user, perm);
    }
  }

  /** Every saved entry is among the reloaded ones. */
  lemma {:induction false} AddedAllKeeps(list: seq<AccessEntry>, more: seq<AccessEntry>)
    requires Distinct(more)
    ensures forall e | e in more :: e in AddedAll(list, more)
    ensures forall e | e in list && !Names(more, e.user) :: e in AddedAll(list, more)
    decreases |more|
  {
    if more != [] {
      var first, rest := more[0], more[1..];
      AddedKeeps(list, first.user, first.perm);
      AddedAllKeeps(Added(list, first.user, first.perm), rest);
      assert !Names(rest, first.user);
      forall e | e in list && !Names(more, e.user) ensures !Names(rest, e.user) && e.user != first.user {
        NamesStep(more, e.user);
      }
    }
  }

  /** A record that a file can hold is clean, and every entry but its owner's is plain. */
  lemma ReadableIsClean(m: FileMeta)
    requires Distinct(m.access) && Readable(Restored(m))
    ensures Clean(m)
    ensures forall i | 0 <= i < |m.access| && m.access[i].user != m.owner :: PlainEntry(m.access[i])
    ensures Free(m.owner, ';') && Free(m.owner, ',') ==> forall i | 0 <= i < |m.access| :: PlainEntry(m.access[i])
  {
    AddedAllKeeps(Added([], m.owner, 'W'), m.access);
    forall i | 0 <= i < |m.access| ensures m.access[i] in Restored(m).access {
    }
  }

  /** What a clean record is read as is what a file can hold. */
  lemma AsReadIsReadable(m: FileMeta)
    requires Clean(m)
    ensures Readable(AsRead(m))
  {
    AccessTextSafe(m.access);
    EntriesParsed(Added([], m.owner, 'W'), Tokens(AccessText(m.access), ';'));
    AccessRead(m.access);
    hide AccessText, AllRead, PiecesRead, WithEntries, Tokens;
    EntriesParsedReadable(m.owner, AccessText(m.access));
  }

  /** A clean record reads alike only if every entry but its owner's is plain, and if its
      owner has no comma or semicolon exactly if all entries are. */
  lemma ReadsAlikeWhenPlain(m: FileMeta)
    requires Clean(m) && Distinct(m.access)
    ensures (forall i | 0 <= i < |m.access| :: PlainEntry(m.access[i])) ==> ReadsAlike(m)
    ensures ReadsAlike(m) ==>
              forall i | 0 <= i < |m.access| && m.access[i].user != m.owner :: PlainEntry(m.access[i])
    ensures Free(m.owner, ';') && Free(m.owner, ',') ==>
              (ReadsAlike(m) <==> forall i | 0 <= i < |m.access| :: PlainEntry(m.access[i]))
  {
    if forall i | 0 <= i < |m.access| :: PlainEntry(m.access[i]) {
      PlainRead(m.access);
    }
    if ReadsAlike(m) {
      AsReadIsReadable(m);
      ReadableIsClean(m);
    }
    hide PlainEntry, AllRead, Reloaded, Readable;
  }

  /** Text without the separator is one token. */
  lemma OneToken(s: string, sep: char)
    requires s != "" && Free(s, sep)
    ensures Tokens(s, sep) == [s]
  {
    TokensHead(s, sep, "");
    assert s + "" == s;
  }

  lemma SemicolonTokens()
    ensures Tokens("a;b,W", ';') == ["a", "b,W"]
    ensures Tokens("a", ',') == ["a"] && Tokens("b,W", ',') == ["b", "W"]
  {
    var last := "b,W";
    assert "a;b,W" == "a" + (";" + last) && last == "b" + ("," + "W");
    TokensApart("a", ';', last);
    OneToken("a", ';');
    OneToken(last, ';');
    OneToken("a", ',');
    TokensApart("b", ',', "W");
    OneToken("b", ',');
    OneToken("W", ',');
  }

  lemma SemicolonEntry()
    ensures EntryRead(AccessEntry("a;b", 'W')) == [AccessEntry("b", 'W')]
  {
    assert EntryText(AccessEntry("a;b", 'W')) == "a;b,W";
    hide Tokens, EntryText;
    SemicolonTokens();
    LastPiece("a", "b,W");
  }

  lemma LastPiece(first: string, last: string)
    requires |Tokens(first, ',')| == 1 && Tokens(last, ',') == ["b", "W"]
    ensures PiecesRead([first, last]) == [AccessEntry("b", 'W')]
  {
    hide Tokens;
    assert [first, last][1..] == [last] && [last][1..] == [];
    assert PiecesRead([last]) == [AccessEntry("b", 'W')] + PiecesRead([]);
  }

  /** An owner with a semicolon: the rest of the name is read as another user, who may then
      write. */
  lemma SemicolonOwner(m: FileMeta)
    requires m.owner == "a;b" && m.access == [AccessEntry("a;b", 'W')]
    ensures AsRead(m).access == [AccessEntry("b", 'W'), AccessEntry("a;b", 'W')] && !ReadsAlike(m)
    ensures !Allowed(m.owner, m.access, "b", 'W') && Allowed(m.owner, AsRead(m).access, "b", 'W')
  {
    SemicolonEntry();
    hide EntryRead;
    var own, read := AccessEntry("a;b", 'W'), AccessEntry("b", 'W');
    assert m.access == [own] && [own][1..] == [];
    assert AllRead([own]) == [read] + AllRead([]) && [read] + [] == [read];
    assert Added([], "a;b", 'W') == [own];
    AddedOne([own], read);
    AddedOne([own], own);
    OnlyOne("a;b");
    hide Added, AddedAll, AllRead;
    assert Reloaded("a;b", [read]) == [read, own] && Reloaded("a;b", [own]) == [own];
    assert Granted([own], "b") == '\0' && Granted([read, own], "b") == 'W';
  }

  lemma AddedOne(list: seq<AccessEntry>, e: AccessEntry)
    ensures AddedAll(list, [e]) == Added(list, e.user, e.perm)
  {
    hide Added;
    assert [e][1..] == [];
    assert AddedAll(Added(list, e.user, e.perm), []) == Added(list, e.user, e.perm);
  }

  lemma OnlyOne(user: string)
    requires user != "b"
    ensures Added([AccessEntry(user, 'W')], "b", 'W') == [AccessEntry("b", 'W'), AccessEntry(user, 'W')]
    ensures Added([AccessEntry(user, 'W')], user, 'W') == [AccessEntry(user, 'W')]
  {
    var list := [AccessEntry(user, 'W')];
    assert list[0].user == user && list[1..] == [];
  }

  /** The loaded table has exactly the records of the saved one. */
  ghost predicate AllRestored(b: seq<seq<FileMeta>>, loaded: seq<seq<FileMeta>>)
    requires |b| == SIZE && |loaded| == SIZE
  {
    forall n {:trigger Lookup(b, n)} {:trigger Lookup(loaded, n)} ::
      Lookup(loaded, n) == match Lookup(b, n) case None => None case Some(m) => Some(Restored(m))
  }

  /** The record comes back as it was. */
  predicate Durable(m: FileMeta) {
    Clean(m) && m.access != [] && FitsLine(m) && ReadsAlike(m)
  }

  /** Everything survives a restart, for any names whatever, exactly when every record is
      clean, has a non-empty access list that reads alike, and fits the read buffer. */
  lemma SaveLoadExact(b: seq<seq<FileMeta>>, empty: seq<seq<FileMeta>>)
    requires TableOk(b) && TableOk(empty) && forall x :: Lookup(empty, x) == None
    requires forall m | m in Records(b) :: Distinct(m.access)
    ensures AllRestored(b, Loaded(empty, TextLines(Saved(Records(b))))) <==> forall m | m in Records(b) :: Durable(m)
  {
    var ms := Records(b);
    var loaded := Loaded(empty, TextLines(Saved(ms)));
    hide Loaded, TextLines, Saved, TableOk, Clean, FitsLine, Records, Distinct, AsRead, Restored,
         ReadsAlike, Readable, Lookup;
    RecordsFind(b, "");
    if AllRestored(b, loaded) {
      forall m | m in ms ensures Clean(m) {
        LinesFree(Saved(ms));
        LoadedReadable(empty, TextLines(Saved(ms)), m.name);
        assert Lookup(b, m.name) == Some(m);
        ReadableIsClean(m);
      }
      forall m | m in ms ensures Durable(m) {
        SaveLoadRoundTrip(b, empty, m.name);
        assert Lookup(b, m.name) == Some(m);
      }
    }
    if forall m | m in ms :: Durable(m) {
      forall n ensures Lookup(loaded, n) ==
                       match Lookup(b, n) case None => None case Some(m) => Some(Restored(m))
      {
        SaveLoadRoundTrip(b, empty, n);
        LookedUpIsRecord(b, n);
      }
    }
  }

  /** The same for one record of any kind by itself. */
  lemma RecordRoundTrip(m: FileMeta, empty: seq<seq<FileMeta>>)
    requires TableOk(empty) && forall x :: Lookup(empty, x) == None
    requires Distinct(m.access)
    ensures Lookup(Loaded(empty, TextLines(Saved([m]))), m.name) == Some(Restored(m)) <==> Durable(m)
  {
    var lines := TextLines(Saved([m]));
    assert Find([m], m.name) == Some(m);
    hide Loaded, TextLines, Saved, TableOk, Clean, FitsLine, Distinct, AsRead, Restored, ReadsAlike,
         Readable, Lookup, Reread;
    if Lookup(Loaded(empty, lines), m.name) == Some(Restored(m)) {
      LinesFree(Saved([m]));
      LoadedReadable(empty, lines, m.name);
      ReadableIsClean(m);
    }
    if Clean(m) {
      LoadedFinds(empty, [m], m.name);
      RecordReread(m);
    }
  }

  lemma LookedUpIsRecord(b: seq<seq<FileMeta>>, n: string)
    requires TableOk(b)
    ensures Lookup(b, n).Some? ==> Lookup(b, n).value in Records(b) && Lookup(b, n).value.name == n
  {
    RecordsFind(b, n);
    FindNamed(Records(b), n);
  }
}
