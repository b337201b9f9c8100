/** Saving and loading the file table: a line per record, fields separated by bars, the
    access list by semicolons and commas. */
module Persistence {
  import opened Text
  import opened FileParser
  import opened Decimal
  import opened AccessList
  import opened HashTable

  /** `BUFFER_SIZE`; `fgets` reads one character less. */
  const BUFFER := 4096

  // ---------------------------------------------------------------- saving

  function EntryText(e: AccessEntry): string {
    e.user + "," + [e.perm]
  }

  function AccessText(list: seq<AccessEntry>): string {
    if list == [] then "" else EntryText(list[0]) + ";" + AccessText(list[1..])
  }

  function Fields(m: FileMeta): seq<string> {
    [m.name, m.owner, m.ip, PrintInt(m.port), AccessText(m.access),
     PrintInt(m.size), PrintInt(m.words), PrintInt(m.chars), PrintInt(m.modified)]
  }

  function Barred(fields: seq<string>): string {
    if fields == [] then ""
    else if |fields| == 1 then fields[0]
    else fields[0] + "|" + Barred(fields[1..])
  }

  /** The line of one record, without its newline. */
  function RecordLine(m: FileMeta): string {
    Barred(Fields(m))
  }

  function Saved(ms: seq<FileMeta>): string {
    if ms == [] then "" else RecordLine(ms[0]) + "\n" + Saved(ms[1..])
  }

  /** The records in the order the table is walked. */
  function Records(b: seq<seq<FileMeta>>): seq<FileMeta> {
    if b == [] then [] else b[0] + Records(b[1..])
  }

  // ---------------------------------------------------------------- loading

  /** What one `fgets` takes. */
  function LineLength(text: string): (n: nat)
    requires text != ""
    ensures 0 < n <= |text|
  {
    var n := FirstOf(text, '\n');
    var full := if n < |text| then n + 1 else n;
    if full > BUFFER - 1 then BUFFER - 1 else full
  }

  /** `trim_newline`: up to the first carriage return or newline. */
  function Trimmed(s: string): string {
    if s == "" || s[0] == '\n' || s[0] == '\r' then "" else [s[0]] + Trimmed(s[1..])
  }

  function TextLines(text: string): seq<string>
    decreases |text|
  {
    if text == "" then []
    else [Trimmed(text[..LineLength(text)])] + TextLines(text[LineLength(text)..])
  }

  lemma TextLinesStep(text: string)
    requires text != ""
    ensures TextLines(text) == [Trimmed(text[..LineLength(text)])] + TextLines(text[LineLength(text)..])
  {
  }

  function Clip(s: string, n: nat): string {
    if |s| > n then s[..n] else s
  }

  /** Adding the entries of an access field, one by one, to the list so far. */
  function WithEntries(list: seq<AccessEntry>, pieces: seq<string>): seq<AccessEntry>
    decreases |pieces|
  {
    if pieces == [] then list
    else
      var pair := Tokens(pieces[0], ',');
      WithEntries(if |pair| == 2 && pair[1] != "" then Added(list, pair[0], pair[1][0]) else list, pieces[1..])
  }

  function ParsedRecord(line: string): Option<FileMeta> {
    var p := Tokens(line, '|');
    if |p| < 9 then None
    else
      var owner := Clip(p[1], 255);
      Some(FileMeta(Clip(p[0], 255), owner,
                    WithEntries(Added([], owner, 'W'), Tokens(p[4], ';')),
                    Clip(p[2], 15), Atoi(p[3]),
                    Atoi(p[5]), Atoi(p[6]), Atoi(p[7]), Atoi(p[8])))
  }

  function Loaded(b: seq<seq<FileMeta>>, lines: seq<string>): (r: seq<seq<FileMeta>>)
    requires |b| == SIZE
    ensures |r| == SIZE
    decreases |lines|
  {
    if lines == [] then b
    else
      match ParsedRecord(lines[0])
      case None => Loaded(b, lines[1..])
      case Some(m) => Loaded(Inserted(b, m), lines[1..])
  }

  // ---------------------------------------------------------------- clean records

  predicate Free(s: string, c: char) {
    forall i | 0 <= i < |s| :: s[i] != c
  }

  /** Does not break the line into more fields or lines. */
  predicate LineSafe(s: string) {
    Free(s, '|') && Free(s, '\n') && Free(s, '\r')
  }

  /** What can be one field of a line. */
  predicate Field(s: string) {
    s != "" && LineSafe(s)
  }

  /** What can be a user or a permission in an access field. */
  predicate Item(s: string) {
    Field(s) && Free(s, ';') && Free(s, ',')
  }

  predicate PlainEntry(e: AccessEntry) {
    Item(e.user) && Item([e.perm])
  }

  /** Every text of the record keeps to its field and fits its buffer. */
  predicate Clean(m: FileMeta) {
    && Field(m.name) && |m.name| <= 255
    && Field(m.owner) && |m.owner| <= 255
    && Field(m.ip) && |m.ip| <= 15
    && (forall i | 0 <= i < |m.access| :: LineSafe(m.access[i].user) && LineSafe([m.access[i].perm]))
  }

  function Sample(): FileMeta {
    FileMeta("f", "u", [AccessEntry("v", 'R')], "h", 9, 8, 2, 7, 6)
  }

  lemma SampleFields()
    ensures Fields(Sample()) == ["f", "u", "h", "9"] + (["v,R;"] + ["8", "2", "7", "6"])
  {
    var list := [AccessEntry("v", 'R')];
    assert list[1..] == [] && AccessText(list) == "v,R;";
    OneDigit();
    hide AccessText, PrintInt;
  }

  lemma OneDigit()
    ensures PrintInt(9) == "9" && PrintInt(8) == "8" && PrintInt(2) == "2" && PrintInt(7) == "7" && PrintInt(6) == "6"
  {
  }

  /** The line of a sample record. */
  lemma SampleLine()
    ensures RecordLine(Sample()) == "f|u|h|9|" + ("v,R;|" + "8|2|7|6")
  {
    hide Barred, Fields, Sample;
    SampleFields();
    var tail := ["8", "2", "7", "6"];
    FourBarred("8", "2", "7", "6");
    BarredPair("v,R;", tail);
    FourBefore("f", "u", "h", "9", ["v,R;"] + tail);
    assert "8" + "|" + ("2" + "|" + ("7" + "|" + "6")) == "8|2|7|6";
    var rest := "v,R;" + "|" + "8|2|7|6";
    assert rest == "v,R;|" + "8|2|7|6";
    assert "f" + "|" + ("u" + "|" + ("h" + "|" + ("9" + "|" + rest))) == "f|u|h|9|" + rest;
  }

  lemma FourBefore(a: string, b: string, c: string, d: string, rest: seq<string>)
    requires rest != []
    ensures Barred([a, b, c, d] + rest) == a + "|" + (b + "|" + (c + "|" + (d + "|" + Barred(rest))))
  {
    hide Barred;
    BarredPair(d, rest);
    BarredPair(c, [d] + rest);
    BarredPair(b, [c] + ([d] + rest));
    BarredPair(a, [b] + ([c] + ([d] + rest)));
    assert [a, b, c, d] + rest == [a] + ([b] + ([c] + ([d] + rest)));
  }

  lemma FourBarred(a: string, b: string, c: string, d: string)
    ensures Barred([a, b, c, d]) == a + "|" + (b + "|" + (c + "|" + d))
  {
    assert [a, b, c, d][1..] == [b, c, d] && [b, c, d][1..] == [c, d] && [c, d][1..] == [d];
    assert Barred([c, d]) == c + "|" + Barred([d]) && Barred([b, c, d]) == b + "|" + Barred([c, d]);
  }

  lemma BarredPair(first: string, rest: seq<string>)
    requires rest != []
    ensures Barred([first] + rest) == first + "|" + Barred(rest)
  {
    assert ([first] + rest)[1..] == rest;
  }

  // ---------------------------------------------------------------- tokens of joined text

  lemma {:induction false} FirstOfConcat(s: string, c: char, rest: string)
    requires Free(s, c)
    ensures FirstOf(s + rest, c) == |s| + FirstOf(rest, c)
  {
    if s == "" {
      assert s + rest == rest;
    } else {
      assert (s + rest)[1..] == s[1..] + rest;
      FirstOfConcat(s[1..], c, rest);
    }
  }

  function NonEmpty(pieces: seq<string>): seq<string> {
    if pieces == [] then []
    else (if pieces[0] == "" then [] else [pieces[0]]) + NonEmpty(pieces[1..])
  }

  /** A piece up to a separator is one token, or none when it is empty. */
  lemma TokensHead(s: string, sep: char, rest: string)
    requires Free(s, sep) && (rest == "" || rest[0] == sep)
    ensures Tokens(s + rest, sep) == (if s == "" then [] else [s]) + Tokens(rest, sep)
  {
    if s == "" {
      assert s + rest == rest;
    } else {
      FirstOfConcat(s, sep, rest);
      assert FirstOf(rest, sep) == 0;
      assert (s + rest)[..|s|] == s && (s + rest)[|s|..] == rest;
    }
  }

  lemma TokensSkip(sep: char, rest: string)
    ensures Tokens([sep] + rest, sep) == Tokens(rest, sep)
  {
    assert ([sep] + rest)[1..] == rest;
  }

  /** Splitting at bars gives back the fields, less the empty ones. */
  lemma {:induction false} TokensOfBarred(fields: seq<string>)
    requires forall i | 0 <= i < |fields| :: Free(fields[i], '|')
    ensures Tokens(Barred(fields), '|') == NonEmpty(fields)
  {
    if |fields| == 1 {
      TokensHead(fields[0], '|', "");
      assert fields[0] + "" == fields[0] && NonEmpty(fields) == NonEmpty([fields[0]]);
      assert NonEmpty(fields[1..]) == [];
    } else if |fields| > 1 {
      var rest := Barred(fields[1..]);
      Regroup(fields[0], "|", rest);
      TokensHead(fields[0], '|', "|" + rest);
      TokensSkip('|', rest);
      TokensOfBarred(fields[1..]);
    }
  }

  /** Two pieces with a separator in between. */
  lemma {:induction false} TokensApart(a: string, sep: char, b: string)
    ensures Tokens(a + ([sep] + b), sep) == Tokens(a, sep) + Tokens(b, sep)
    decreases |a|
  {
    var rest := [sep] + b;
    if a == "" {
      assert a + rest == rest;
      TokensSkip(sep, b);
    } else if a[0] == sep {
      assert (a + rest)[1..] == a[1..] + rest;
      TokensApart(a[1..], sep, b);
    } else {
      var n := FirstOf(a, sep);
      FirstOfFacts(a, sep);
      var first, tail := a[..n], a[n..];
      assert a + rest == first + (tail + rest);
      TokensHead(first, sep, tail + rest);
      TokensHead(first, sep, tail);
      assert first + tail == a;
      TokensApart(tail, sep, b);
      Regroup([first], Tokens(tail, sep), Tokens(b, sep));
    }
  }

  /** The text of a plain entry is read as that entry. */
  lemma EntryTokens(e: AccessEntry)
    requires PlainEntry(e)
    ensures Tokens(EntryText(e), ',') == [e.user, [e.perm]] && Tokens(EntryText(e), ';') == [EntryText(e)]
  {
    Regroup(e.user, ",", [e.perm]);
    TokensHead(e.user, ',', "," + [e.perm]);
    TokensSkip(',', [e.perm]);
    TokensHead([e.perm], ',', "");
    assert [e.perm] + "" == [e.perm];
    TokensHead(EntryText(e), ';', "");
    assert EntryText(e) + "" == EntryText(e);
  }

  lemma {:induction false} AccessTextSafe(list: seq<AccessEntry>)
    requires forall i | 0 <= i < |list| :: LineSafe(list[i].user) && LineSafe([list[i].perm])
    ensures LineSafe(AccessText(list)) && (AccessText(list) == "" <==> list == [])
  {
    if list != [] {
      AccessTextSafe(list[1..]);
      assert LineSafe(list[0].user) && LineSafe([list[0].perm]);
      assert [list[0].perm][0] == list[0].perm;
    }
  }

  // ---------------------------------------------------------------- access lists

  function AddedAll(list: seq<AccessEntry>, more: seq<AccessEntry>): seq<AccessEntry>
    decreases |more|
  {
    if more == [] then list else AddedAll(Added(list, more[0].user, more[0].perm), more[1..])
  }

  /** The entries that the pieces of an access field are read as. */
  function PiecesRead(pieces: seq<string>): seq<AccessEntry> {
    if pieces == [] then [] else PieceRead(pieces[0]) + PiecesRead(pieces[1..])
  }

  function PieceRead(piece: string): seq<AccessEntry> {
    var pair := Tokens(piece, ',');
    if |pair| == 2 && pair[1] != "" then [AccessEntry(pair[0], pair[1][0])] else []
  }

  /** What a saved entry is read as: itself when its user has no comma or semicolon. */
  function EntryRead(e: AccessEntry): seq<AccessEntry> {
    PiecesRead(Tokens(EntryText(e), ';'))
  }

  function AllRead(list: seq<AccessEntry>): seq<AccessEntry> {
    if list == [] then [] else EntryRead(list[0]) + AllRead(list[1..])
  }

  lemma {:induction false} EntriesParsed(list: seq<AccessEntry>, pieces: seq<string>)
    ensures WithEntries(list, pieces) == AddedAll(list, PiecesRead(pieces))
    decreases |pieces|
  {
    if pieces != [] {
      var pair := Tokens(pieces[0], ',');
      hide Tokens, Added;
      if |pair| == 2 && pair[1] != "" {
        EntriesParsed(Added(list, pair[0], pair[1][0]), pieces[1..]);
        assert PiecesRead(pieces)[1..] == PiecesRead(pieces[1..]);
      } else {
        EntriesParsed(list, pieces[1..]);
        assert [] + PiecesRead(pieces[1..]) == PiecesRead(pieces[1..]);
      }
    }
  }

  lemma {:induction false} PiecesConcat(a: seq<string>, b: seq<string>)
    ensures PiecesRead(a + b) == PiecesRead(a) + PiecesRead(b)
  {
    hide Tokens;
    if a == [] {
      assert a + b == b && [] + PiecesRead(b) == PiecesRead(b);
    } else {
      assert (a + b)[0] == a[0] && (a + b)[1..] == a[1..] + b;
      PiecesConcat(a[1..], b);
      Regroup(PieceRead(a[0]), PiecesRead(a[1..]), PiecesRead(b));
    }
  }

  /** An access field is read entry by entry, whatever the names in it. */
  lemma {:induction false} AccessRead(list: seq<AccessEntry>)
    ensures PiecesRead(Tokens(AccessText(list), ';')) == AllRead(list)
  {
    if list == [] {
      assert Tokens("", ';') == [];
    } else {
      var first, rest := EntryText(list[0]), AccessText(list[1..]);
      assert AccessText(list) == first + (";" + rest) by {
        Regroup(first, ";", rest);
      }
      TokensApart(first, ';', rest);
      PiecesConcat(Tokens(first, ';'), Tokens(rest, ';'));
      hide AccessText, EntryText, Tokens;
      AccessRead(list[1..]);
    }
  }

  lemma {:induction false} PlainRead(list: seq<AccessEntry>)
    requires forall i | 0 <= i < |list| :: PlainEntry(list[i])
    ensures AllRead(list) == list
  {
    if list != [] {
      EntryTokens(list[0]);
      PlainRead(list[1..]);
      assert [EntryText(list[0])][1..] == [] && PiecesRead([]) == [];
      assert list == [list[0]] + list[1..];
      hide Tokens, EntryText;
      assert PiecesRead([EntryText(list[0])]) == [list[0]] + [];
    }
  }

  lemma {:induction false} AddedAllGrants(list: seq<AccessEntry>, more: seq<AccessEntry>, user: string)
    requires Distinct(list) && Distinct(more)
    ensures Distinct(AddedAll(list, more))
    ensures Granted(AddedAll(list, more), user) ==
            if Names(more, user) then Granted(more, user) else Granted(list, user)
    decreases |more|
  {
    if more != [] {
      var first := more[0];
      AddedGrants(list, first.user, first.perm);
      AddedAllGrants(Added(list, first.user, first.perm), more[1..], user);
      NamesStep(more, user);
      if user == first.user {
        assert !Names(more[1..], user);
      }
    }
  }

  lemma NamesStep(list: seq<AccessEntry>, user: string)
    requires list != []
    ensures Names(list, user) <==> list[0].user == user || Names(list[1..], user)
  {
    if i: int :| 0 <= i < |list| && list[i].user == user {
      assert i == 0 || list[1..][i - 1].user == user;
    }
  }

  /** What a saved access list is after loading: the owner's entry first, then the saved
      entries added in order, so the order of the list changes. */
  function Reloaded(owner: string, access: seq<AccessEntry>): seq<AccessEntry> {
    AddedAll(Added([], owner, 'W'), access)
  }

  /** Every access decision survives saving and loading. */
  lemma DecisionsKept(owner: string, access: seq<AccessEntry>, user: string, required: char)
    requires Distinct(access)
    ensures Allowed(owner, Reloaded(owner, access), user, required) <==> Allowed(owner, access, user, required)
  {
    AddedAllGrants(Added([], owner, 'W'), access, user);
    if user != owner && !Names(access, user) {
      GrantedUnlisted(access, user);
    }
  }

  function Restored(m: FileMeta): FileMeta {
    m.(access := Reloaded(m.owner, m.access))
  }

  /** The record as its line is read. */
  function AsRead(m: FileMeta): FileMeta {
    m.(access := Reloaded(m.owner, AllRead(m.access)))
  }

  /** Adding the entries as they are read comes to the same as adding them as they were. */
  predicate ReadsAlike(m: FileMeta) {
    AsRead(m) == Restored(m)
  }

  // ---------------------------------------------------------------- one record

  lemma PrintedFree(n: int)
    ensures PrintInt(n) != "" && Free(PrintInt(n), '|') && Free(PrintInt(n), '\n') && Free(PrintInt(n), '\r')
  {
  }

  lemma FieldsFree(m: FileMeta)
    requires Clean(m)
    ensures forall i | 0 <= i < 9 ::
              Free(Fields(m)[i], '|') && Free(Fields(m)[i], '\n') && Free(Fields(m)[i], '\r')
    ensures forall i | 0 <= i < 9 :: Fields(m)[i] == "" <==> i == 4 && m.access == []
  {
    PrintedFree(m.port);
    PrintedFree(m.size);
    PrintedFree(m.words);
    PrintedFree(m.chars);
    PrintedFree(m.modified);
    AccessTextSafe(m.access);
    hide PrintInt, AccessText;
  }

  lemma NonEmptyNine(f: seq<string>)
    requires |f| == 9 && forall i | 0 <= i < 9 && i != 4 :: f[i] != ""
    ensures NonEmpty(f) == if f[4] == "" then f[..4] + f[5..] else f
  {
    var front, back := f[..4], f[5..];
    assert f[..4] + f[4..] == f && f[4..] == [f[4]] + back;
    NonEmptyAll(front, f[4..]);
    NonEmptyStep(f[4], back);
    NonEmptyWhole(back);
    hide NonEmpty;
    if f[4] != "" {
      assert front + ([f[4]] + back) == f;
    } else {
      assert [] + back == back;
    }
  }

  lemma NonEmptyStep(first: string, rest: seq<string>)
    ensures NonEmpty([first] + rest) == (if first == "" then [] else [first]) + NonEmpty(rest)
  {
    assert ([first] + rest)[1..] == rest;
  }

  lemma NonEmptyWhole(a: seq<string>)
    requires forall i | 0 <= i < |a| :: a[i] != ""
    ensures NonEmpty(a) == a
  {
    NonEmptyAll(a, []);
    assert a + [] == a && NonEmpty([]) == [];
  }

  lemma {:induction false} NonEmptyAll(a: seq<string>, b: seq<string>)
    requires forall i | 0 <= i < |a| :: a[i] != ""
    ensures NonEmpty(a + b) == a + NonEmpty(b)
  {
    if a == [] {
      assert a + b == b && [] + NonEmpty(b) == NonEmpty(b);
    } else {
      assert (a + b)[1..] == a[1..] + b;
      NonEmptyAll(a[1..], b);
      assert [a[0]] + (a[1..] + NonEmpty(b)) == a + NonEmpty(b);
    }
  }

  /** A line read whole gives the record back, with its access list as it is read, or
      nothing when that list is empty. */
  lemma RecordParses(m: FileMeta)
    requires Clean(m)
    ensures ParsedRecord(RecordLine(m)) == if m.access == [] then None else Some(AsRead(m))
  {
    var f := Fields(m);
    FieldsFree(m);
    TokensOfBarred(f);
    NonEmptyNine(f);
    hide Tokens, Barred, NonEmpty, PrintInt, AccessText, Atoi, WithEntries, AddedAll, AllRead, PiecesRead;
    if m.access != [] {
      EntriesParsed(Added([], m.owner, 'W'), Tokens(AccessText(m.access), ';'));
      AccessRead(m.access);
      AtoiOfPrintInt(m.port);
      AtoiOfPrintInt(m.size);
      AtoiOfPrintInt(m.words);
      AtoiOfPrintInt(m.chars);
      AtoiOfPrintInt(m.modified);
    }
  }

  lemma {:induction false} BarredFree(fields: seq<string>, c: char)
    requires c != '|' && forall i | 0 <= i < |fields| :: Free(fields[i], c)
    ensures Free(Barred(fields), c)
  {
    if |fields| > 1 {
      BarredFree(fields[1..], c);
    }
  }

  // ---------------------------------------------------------------- the table walk

  lemma {:induction false} FindConcat(a: seq<FileMeta>, b: seq<FileMeta>, n: string)
    ensures Find(a + b, n) == if Find(a, n).Some? then Find(a, n) else Find(b, n)
  {
    if a == [] {
      assert a + b == b;
    } else {
      assert (a + b)[1..] == a[1..] + b;
      FindConcat(a[1..], b, n);
    }
  }

  lemma {:induction false} RecordsFrom(b: seq<seq<FileMeta>>, i: nat, n: string)
    requires TableOk(b) && i <= SIZE
    ensures Find(Records(b[i..]), n) == if Bucket(n) >= i then Lookup(b, n) else None
    ensures DistinctNames(Records(b[i..]))
    ensures forall m | m in Records(b[i..]) :: Bucket(m.name) >= i && m in b[Bucket(m.name)]
    decreases SIZE - i
  {
    hide Bucket;
    if i < SIZE {
      RecordsFrom(b, i + 1, n);
      assert b[i..][1..] == b[i + 1..];
      FindConcat(b[i], Records(b[i + 1..]), n);
      FindNamed(b[i], n);
    }
  }

  /** The records come bucket by bucket, each chain in its order. */
  lemma {:induction false} RecordsConcat(a: seq<seq<FileMeta>>, chain: seq<FileMeta>)
    ensures Records(a + [chain]) == Records(a) + chain
  {
    if a == [] {
      assert a + [chain] == [chain] && [chain][1..] == [] && chain + [] == chain;
      assert Records([chain]) == chain + Records([]);
    } else {
      assert (a + [chain])[0] == a[0] && (a + [chain])[1..] == a[1..] + [chain];
      RecordsConcat(a[1..], chain);
    }
  }

  lemma RecordsFind(b: seq<seq<FileMeta>>, n: string)
    requires TableOk(b)
    ensures Find(Records(b), n) == Lookup(b, n) && DistinctNames(Records(b))
    ensures forall m | m in Records(b) :: Lookup(b, m.name) == Some(m)
  {
    RecordsFrom(b, 0, n);
    assert b[0..] == b;
    forall m | m in Records(b) ensures Lookup(b, m.name) == Some(m) {
      var i :| 0 <= i < |b[Bucket(m.name)]| && b[Bucket(m.name)][i] == m;
      FindMember(b[Bucket(m.name)], i);
    }
  }
}
