/** The name server's metadata store: the file table and the name trie together, saved and
    loaded as one file. */
module NameServer {
  import opened Text
  import opened FileParser
  import opened Decimal
  import opened AccessList
  import opened HashTable
  import opened TrieShape
  import opened Trie
  import opened Persistence

  /** `nm_save_files`: the text of the metadata file. */
  method SaveFiles(table: Table) returns (text: string)
    requires table.Valid()
    ensures text == Saved(Records(table.buckets[..]))
  {
    hide Saved, Records, RecordLine, Bucket;
    text := "";
    ghost var b := table.buckets[..];
    assert b[0..] == b;
    for i := 0 to SIZE
      invariant text + Saved(Records(b[i..])) == Saved(Records(b))
    {
      var chain := table.buckets[i];
      ghost var rest := Records(b[i + 1..]);
      RecordsTurn(b, i);
      assert chain[0..] == chain;
      for j := 0 to |chain|
        invariant text + Saved(chain[j..] + rest) == Saved(Records(b))
      {
        SavedTurn(chain, j, rest);
        var line := SaveRecord(chain[j]);
        Regroup(text, line, Saved(chain[j + 1..] + rest));
        text := text + line;
      }
      assert chain[|chain|..] + rest == rest;
    }
    SavedNothing();
    assert b[SIZE..] == [] && text + "" == text;
  }

  lemma RecordsTurn(b: seq<seq<FileMeta>>, i: nat)
    requires i < |b|
    ensures Records(b[i..]) == b[i] + Records(b[i + 1..])
  {
    assert b[i..][1..] == b[i + 1..];
  }

  lemma SavedNothing()
    ensures Saved(Records([])) == ""
  {
  }

  lemma SavedTurn(chain: seq<FileMeta>, j: nat, rest: seq<FileMeta>)
    requires j < |chain|
    ensures Saved(chain[j..] + rest) == (RecordLine(chain[j]) + "\n") + Saved(chain[j + 1..] + rest)
  {
    assert (chain[j..] + rest)[0] == chain[j] && (chain[j..] + rest)[1..] == chain[j + 1..] + rest;
  }

  /** The `fprintf` calls for one record. */
  method SaveRecord(m: FileMeta) returns (line: string)
    ensures line == RecordLine(m) + "\n"
  {
    var access := SaveAccess(m.access);
    var stats := access + "|" + (PrintInt(m.size) + "|" + (PrintInt(m.words) + "|" +
                 (PrintInt(m.chars) + "|" + PrintInt(m.modified))));
    line := m.name + "|" + (m.owner + "|" + (m.ip + "|" + (PrintInt(m.port) + "|" + stats)));
    hide AccessText, PrintInt, Barred;
    BarredNine(Fields(m));
    line := line + "\n";
  }

  lemma BarredTurn(f: seq<string>, i: nat)
    requires i < |f|
    ensures Barred(f[i..]) == if i + 1 == |f| then f[i] else f[i] + "|" + Barred(f[i + 1..])
  {
    assert f[i..][1..] == f[i + 1..];
  }

  lemma BarredNine(f: seq<string>)
    requires |f| == 9
    ensures Barred(f) == f[0] + "|" + (f[1] + "|" + (f[2] + "|" + (f[3] + "|" + (f[4] + "|" +
                         (f[5] + "|" + (f[6] + "|" + (f[7] + "|" + f[8])))))))
  {
    hide Barred;
    assert f[0..] == f;
    BarredTurn(f, 0);
    BarredTurn(f, 1);
    BarredTurn(f, 2);
    BarredTurn(f, 3);
    BarredTurn(f, 4);
    BarredTurn(f, 5);
    BarredTurn(f, 6);
    BarredTurn(f, 7);
    BarredTurn(f, 8);
  }

  method SaveAccess(list: seq<AccessEntry>) returns (text: string)
    ensures text == AccessText(list)
  {
    text := "";
    assert list[0..] == list;
    for i := 0 to |list|
      invariant text + AccessText(list[i..]) == AccessText(list)
    {
      assert list[i..][0] == list[i] && list[i..][1..] == list[i + 1..];
      ghost var entry := EntryText(list[i]) + ";";
      Regroup(text, entry, AccessText(list[i + 1..]));
      text := text + (list[i].user + "," + [list[i].perm] + ";");
    }
    assert list[|list|..] == [] && text + "" == text;
  }

  /** The names of a list of lines that parse. */
  function LoadedNames(lines: seq<string>): seq<string> {
    if lines == [] then []
    else
      match ParsedRecord(lines[0])
      case None => LoadedNames(lines[1..])
      case Some(m) => [m.name] + LoadedNames(lines[1..])
  }

  function InsertAll(s: Shape, names: seq<string>): Shape
    decreases |names|
  {
    if names == [] then s else InsertAll(TrieShape.Insert(s, names[0]), names[1..])
  }

  /** `nm_load_files`: every line that parses goes into the table and into the trie. */
  method LoadFiles(text: string, table: Table, trie: NameTrie)
    requires table.Valid() && trie.Valid()
    modifies table.buckets, trie, trie.nodes.Values
    ensures table.Valid() && trie.Valid() && fresh(trie.nodes.Values - old(trie.nodes.Values))
    ensures table.buckets[..] == Loaded(old(table.buckets[..]), TextLines(text))
    ensures trie.Shape() == InsertAll(old(trie.Shape()), LoadedNames(TextLines(text)))
  {
    hide Loaded, InsertAll, LoadedNames, TextLines, ParsedRecord, TrieShape.Insert, Inserted, Lookup, Trimmed;
    var pos := 0;
    assert text[0..] == text;
    while pos < |text|
      invariant 0 <= pos <= |text|
      invariant table.Valid() && trie.Valid() && fresh(trie.nodes.Values - old(trie.nodes.Values))
      invariant Loaded(table.buckets[..], TextLines(text[pos..])) == Loaded(old(table.buckets[..]), TextLines(text))
      invariant InsertAll(trie.Shape(), LoadedNames(TextLines(text[pos..]))) ==
                InsertAll(old(trie.Shape()), LoadedNames(TextLines(text)))
    {
      var n := LineLength(text[pos..]);
      LoadTurn(table.buckets[..], trie.Shape(), text, pos);
      LoadLine(Trimmed(text[pos..pos + n]), table, trie);
      pos := pos + n;
    }
    LoadNothing(table.buckets[..], trie.Shape());
    assert text[pos..] == "";
  }

  method LoadLine(line: string, table: Table, trie: NameTrie)
    requires table.Valid() && trie.Valid()
    modifies table.buckets, trie, trie.nodes.Values
    ensures table.Valid() && trie.Valid() && fresh(trie.nodes.Values - old(trie.nodes.Values))
    ensures table.buckets[..] == WithLine(old(table.buckets[..]), line)
    ensures trie.Shape() == WithName(old(trie.Shape()), line)
  {
    hide ParsedRecord, Inserted, Lookup, TrieShape.Insert, TableOk;
    var m := ParseRecord(line);
    if m.Some? {
      var _ := table.Insert(m.value);
      trie.Insert(m.value.name);
    }
  }

  function WithLine(b: seq<seq<FileMeta>>, line: string): (r: seq<seq<FileMeta>>)
    requires |b| == SIZE
    ensures |r| == SIZE
  {
    match ParsedRecord(line) case None => b case Some(m) => Inserted(b, m)
  }

  function WithName(s: Shape, line: string): Shape {
    match ParsedRecord(line) case None => s case Some(m) => TrieShape.Insert(s, m.name)
  }

  /** One turn of the loading loop. */
  lemma LoadTurn(b: seq<seq<FileMeta>>, s: Shape, text: string, pos: nat)
    requires |b| == SIZE && pos < |text|
    ensures var n := LineLength(text[pos..]);
            var line, rest := Trimmed(text[pos..pos + n]), TextLines(text[pos + n..]);
            && Loaded(b, TextLines(text[pos..])) == Loaded(WithLine(b, line), rest)
            && InsertAll(s, LoadedNames(TextLines(text[pos..]))) == InsertAll(WithName(s, line), LoadedNames(rest))
  {
    hide TextLines, ParsedRecord, TrieShape.Insert, Inserted, Trimmed, LineLength;
    TextLinesStep(text[pos..]);
    var n, lines := LineLength(text[pos..]), TextLines(text[pos..]);
    assert text[pos..][..n] == text[pos..pos + n] && text[pos..][n..] == text[pos + n..];
    assert lines[1..] == TextLines(text[pos + n..]);
    if ParsedRecord(lines[0]).Some? {
      assert LoadedNames(lines)[1..] == LoadedNames(lines[1..]);
    }
  }

  lemma LoadNothing(b: seq<seq<FileMeta>>, s: Shape)
    requires |b| == SIZE
    ensures Loaded(b, TextLines("")) == b && InsertAll(s, LoadedNames(TextLines(""))) == s
  {
  }

  /** The field loops of the loader. */
  method ParseRecord(line: string) returns (m: Option<FileMeta>)
    ensures m == ParsedRecord(line)
  {
    var p := SplitString(line, '|');
    if |p| < 9 {
      return None;
    }
    var owner := Clip(p[1], 255);
    var acl := new AccessControl();
    acl.AddAccess(owner, 'W');
    var pieces := SplitString(p[4], ';');
    assert pieces[0..] == pieces;
    for i := 0 to |pieces|
      invariant WithEntries(acl.entries, pieces[i..]) == WithEntries(Added([], owner, 'W'), pieces)
    {
      assert pieces[i..][0] == pieces[i] && pieces[i..][1..] == pieces[i + 1..];
      var pair := SplitString(pieces[i], ',');
      if |pair| == 2 && pair[1] != "" {
        acl.AddAccess(pair[0], pair[1][0]);
      }
    }
    assert pieces[|pieces|..] == [];
    m := Some(FileMeta(Clip(p[0], 255), owner, acl.entries, Clip(p[2], 15), Atoi(p[3]),
                       Atoi(p[5]), Atoi(p[6]), Atoi(p[7]), Atoi(p[8])));
  }

  // ---------------------------------------------------------------- table and trie together

  /** The trie holds exactly the names of the table. */
  ghost predicate InStep(b: seq<seq<FileMeta>>, s: Shape) {
    TableOk(b) && ShapeOk(s) && forall n :: n in Keys(s) <==> Lookup(b, n).Some?
  }

  /** Loading keeps them in step. */
  lemma {:induction false} LoadKeepsInStep(b: seq<seq<FileMeta>>, s: Shape, lines: seq<string>)
    requires InStep(b, s)
    ensures InStep(Loaded(b, lines), InsertAll(s, LoadedNames(lines)))
    decreases |lines|
  {
    if lines != [] {
      match ParsedRecord(lines[0])
      case None => LoadKeepsInStep(b, s, lines[1..]);
      case Some(m) =>
        CreateKeepsInStep(b, s, m);
        hide InStep, Inserted, TrieShape.Insert;
        LoadKeepsInStep(Inserted(b, m), TrieShape.Insert(s, m.name), lines[1..]);
        assert LoadedNames(lines)[1..] == LoadedNames(lines[1..]);
    }
  }

  /** So does CREATE, */
  lemma CreateKeepsInStep(b: seq<seq<FileMeta>>, s: Shape, m: FileMeta)
    requires InStep(b, s)
    ensures InStep(Inserted(b, m), TrieShape.Insert(s, m.name))
  {
    InsertRefines(b, m);
    InsertAddsKey(s, m.name);
    hide Inserted, TrieShape.Insert, TableOk, ShapeOk, Lookup;
  }

  /** but DELETE keeps them in step exactly when the name has extensions, or is alone under
      its cut. */
  lemma DeleteInStep(b: seq<seq<FileMeta>>, s: Shape, name: string)
    requires InStep(b, s) && name in Keys(s)
    ensures InStep(Deleted(b, name), TrieShape.Delete(s, name)) <==>
            || HasChild(s, name) || name == ""
            || forall k | k in Keys(s) && Extends(k, Cut(s, name)) :: k == name
  {
    DeleteRefines(b, name);
    DeleteIsExact(s, name);
    DeleteLeavesNoDeadBranch(s, name);
    hide Deleted, TrieShape.Delete, TableOk, ShapeOk, Lookup, Cut, HasChild, Extends;
    var after := Keys(TrieShape.Delete(s, name));
    assert InStep(Deleted(b, name), TrieShape.Delete(s, name)) <==> after == Keys(s) - {name};
  }
}
