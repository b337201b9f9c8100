/** The name server stopped after any requests and started again on the file it saved. */
module Restarts {
  import opened Text
  import opened FileParser
  import opened AccessList
  import opened ServerRotation
  import opened HashTable
  import opened TrieShape
  import opened Persistence
  import opened Reload
  import opened NameServer
  import opened Requests

  // ---------------------------------------------------------------- whatever the file says

  lemma {:induction false} EntriesDistinct(list: seq<AccessEntry>, pieces: seq<string>)
    requires Distinct(list)
    ensures Distinct(WithEntries(list, pieces))
    decreases |pieces|
  {
    if pieces != [] {
      var pair := Tokens(pieces[0], ',');
      hide Tokens, Distinct;
      if |pair| == 2 && pair[1] != "" {
        AddedGrants(list, pair[0], pair[1][0]);
        EntriesDistinct(Added(list, pair[0], pair[1][0]), pieces[1..]);
      } else {
        EntriesDistinct(list, pieces[1..]);
      }
    }
  }

  lemma ParsedOk(line: string)
    ensures ParsedRecord(line).Some? ==>
              RecordOk(ParsedRecord(line).value.name, ParsedRecord(line).value)
  {
    var p := Tokens(line, '|');
    if |p| >= 9 {
      EntriesDistinct(Added([], Clip(p[1], 255), 'W'), Tokens(p[4], ';'));
    }
    hide Tokens, WithEntries;
  }

  /** Loading any file keeps a good store good, and the trie in step with the table. */
  lemma {:induction false} LoadKeepsStoreOk(s: Store, lines: seq<string>)
    requires StoreOk(s) && InStep(s.table, s.trie)
    ensures var t := s.(table := Loaded(s.table, lines), trie := InsertAll(s.trie, LoadedNames(lines)));
            StoreOk(t) && InStep(t.table, t.trie)
    decreases |lines|
  {
    if lines != [] {
      ParsedOk(lines[0]);
      match ParsedRecord(lines[0])
      case None => LoadKeepsStoreOk(s, lines[1..]);
      case Some(m) =>
        CreateKeepsStoreOk(s, m, m.name, s.next);
        CreateKeepsInStep(s.table, s.trie, m);
        assert LoadedNames(lines)[1..] == LoadedNames(lines[1..]);
        hide StoreOk, InStep, Inserted, TrieShape.Insert;
        LoadKeepsStoreOk(s.(table := Inserted(s.table, m), trie := TrieShape.Insert(s.trie, m.name)), lines[1..]);
    }
  }

  /** Whatever the metadata file holds, the server starts with a good store whose trie has
      exactly the names of its table. */
  lemma RestartedOk(text: string)
    ensures StoreOk(Restarted(text)) && InStep(Restarted(text).table, Restarted(text).trie)
  {
    NewStoreOk();
    hide StoreOk, InStep;
    LoadKeepsStoreOk(NewStore(), TextLines(text));
  }

  // ---------------------------------------------------------------- clean stores

  predicate CleanServers(servers: seq<ServerInfo>) {
    forall i | 0 <= i < |servers| :: Field(servers[i].ip) && |servers[i].ip| <= 15
  }

  predicate CleanRequest(r: Request) {
    && Field(r.file) && |r.file| <= 255
    && Field(r.user) && |r.user| <= 255
    && (r.Grant? || r.Revoke? ==> LineSafe(r.target))
  }

  ghost predicate CleanTable(b: seq<seq<FileMeta>>)
    requires |b| == SIZE
  {
    forall n {:trigger Lookup(b, n)} | Lookup(b, n).Some? :: Clean(Lookup(b, n).value)
  }

  ghost predicate CleanStore(s: Store) {
    |s.table| == SIZE && CleanServers(s.servers) && CleanTable(s.table)
  }

  lemma TableStaysClean(b: seq<seq<FileMeta>>, m: FileMeta)
    requires TableOk(b) && CleanTable(b)
    ensures Clean(m) ==> CleanTable(Inserted(b, m)) && CleanTable(Updated(b, m))
    ensures CleanTable(HashTable.Deleted(b, m.name))
  {
    InsertRefines(b, m);
    ChangeRefines(b, m);
    DeleteRefines(b, m.name);
    hide Lookup, TableOk, Clean, Inserted, HashTable.Deleted, HashTable.Updated;
  }

  lemma AddedClean(m: FileMeta, user: string, perm: char)
    requires Clean(m) && LineSafe(user) && LineSafe([perm])
    ensures Clean(m.(access := Added(m.access, user, perm)))
  {
    var added := Added(m.access, user, perm);
    AddedEntries(m.access, user, perm);
    forall i | 0 <= i < |added| ensures LineSafe(added[i].user) && LineSafe([added[i].perm]) {
      assert added[i] in added;
    }
  }

  lemma RemovedClean(m: FileMeta, user: string)
    requires Clean(m) && Distinct(m.access)
    ensures Clean(m.(access := Removed(m.access, user)))
  {
    var removed := Removed(m.access, user);
    RemovedMembers(m.access, user);
    forall i | 0 <= i < |removed| ensures LineSafe(removed[i].user) && LineSafe([removed[i].perm]) {
      assert removed[i] in removed;
    }
  }

  lemma NewFileClean(r: Request, server: ServerInfo)
    requires CleanRequest(r) && r.Create? && Field(server.ip) && |server.ip| <= 15
    ensures Clean(NewFile(r.user, r.file, r.now, server))
  {
    AddedEntries([], r.user, 'W');
  }

  lemma RequestKeepsClean(s: Store, r: Request)
    requires StoreOk(s) && CleanStore(s) && CleanRequest(r)
    ensures CleanStore(Handled(s, r).0)
  {
    var found := Lookup(s.table, r.file);
    assert found.Some? ==> Clean(found.value) && RecordOk(r.file, found.value);
    hide Lookup, StoreOk, Clean, Inserted, HashTable.Deleted, HashTable.Updated, CleanTable,
         TrieShape.Insert, TrieShape.Delete;
    assert TableOk(s.table) by {
      GoodTable(s);
    }
    match r
    case Create(user, file, now) =>
      if found.None? && s.servers != [] {
        var server := s.servers[Chosen(s.next, |s.servers|)];
        NewFileClean(r, server);
        TableStaysClean(s.table, NewFile(user, file, now, server));
      }
    case Delete(user, file) =>
      if found.Some? {
        TableStaysClean(s.table, found.value);
      }
    case Grant(user, flag, file, target) =>
      if found.Some? && FlagPerm(flag).Some? {
        var perm := FlagPerm(flag).value;
        AddedClean(found.value, target, perm);
        TableStaysClean(s.table, found.value.(access := Added(found.value.access, target, perm)));
      }
    case Revoke(user, file, target) =>
      if found.Some? {
        RemovedClean(found.value, target);
        TableStaysClean(s.table, found.value.(access := Removed(found.value.access, target)));
      }
  }

  lemma GoodTable(s: Store)
    requires StoreOk(s)
    ensures TableOk(s.table)
  {
  }

  lemma {:induction false} RunKeepsClean(s: Store, rs: seq<Request>)
    requires StoreOk(s) && CleanStore(s) && forall i | 0 <= i < |rs| :: CleanRequest(rs[i])
    ensures StoreOk(AfterAll(s, rs)) && CleanStore(AfterAll(s, rs))
    decreases |rs|
  {
    if rs != [] {
      RequestKeepsStoreOk(s, rs[0]);
      RequestKeepsClean(s, rs[0]);
      hide StoreOk, CleanStore, Handled;
      RunKeepsClean(Handled(s, rs[0]).0, rs[1..]);
    }
  }

  // ---------------------------------------------------------------- stop and start

  /** What is found under a name after a restart, against what was there before. */
  ghost predicate Survives(before: Option<FileMeta>, after: Option<FileMeta>) {
    match before
    case None => after == None
    case Some(m) =>
      && (after == Some(AsRead(m)) <==> m.access != [] && FitsLine(m))
      && (after == Some(Restored(m)) <==> m.access != [] && FitsLine(m) && ReadsAlike(m))
      && (m.access == [] ==> after == None)
      && SameDecisions(m, Restored(m))
  }

  /** The store of a server that was stopped with store `s` and started again. */
  function AfterRestart(s: Store): Store
    requires |s.table| == SIZE
  {
    Restarted(Saved(Records(s.table)))
  }

  lemma RestartFinds(s: Store, n: string)
    requires StoreOk(s) && CleanStore(s)
    ensures Survives(Lookup(s.table, n), Lookup(AfterRestart(s).table, n))
  {
    NewStoreOk();
    RecordsFind(s.table, n);
    forall m | m in Records(s.table) ensures Clean(m) && Distinct(m.access) {
      assert Lookup(s.table, m.name) == Some(m);
    }
    hide Lookup, TableOk, ShapeOk, Clean, Records, Distinct, TextLines, Saved, Loaded, SameDecisions,
         FitsLine, AsRead, Restored, ReadsAlike, NewStore;
    SaveLoadRoundTrip(s.table, NewStore().table, n);
  }

  /** From a new store on, after any requests whose names have no bar or line end, a restart
      keeps every file as its line is read, but for those with an empty access list, which
      are forgotten, and those whose line is too long; with all access decisions when its
      list reads alike; and it brings the trie back in step. */
  lemma RestartKeepsDecisions(servers: seq<ServerInfo>, next: nat, rs: seq<Request>)
    requires CleanServers(servers) && forall i | 0 <= i < |rs| :: CleanRequest(rs[i])
    ensures var s := AfterAll(NewStore().(servers := servers, next := next), rs);
            var after := AfterRestart(s);
            && StoreOk(after) && InStep(after.table, after.trie)
            && forall n {:trigger Lookup(after.table, n)} :: Survives(Lookup(s.table, n), Lookup(after.table, n))
  {
    var s0 := NewStore().(servers := servers, next := next);
    NewStoreOk();
    assert StoreOk(s0) && CleanStore(s0);
    hide StoreOk, CleanStore, InStep, Survives, AfterAll, NewStore;
    RunKeepsClean(s0, rs);
    var s := AfterAll(s0, rs);
    RestartedOk(Saved(Records(s.table)));
    forall n ensures Survives(Lookup(s.table, n), Lookup(AfterRestart(s).table, n)) {
      RestartFinds(s, n);
    }
  }

  /** From a new store on, after any requests whatever, a restart keeps everything exactly
      when every record comes back by itself. */
  lemma RestartExact(servers: seq<ServerInfo>, next: nat, rs: seq<Request>)
    ensures var s := AfterAll(NewStore().(servers := servers, next := next), rs);
            && |AfterRestart(s).table| == SIZE
            && (AllRestored(s.table, AfterRestart(s).table) <==> forall m | m in Records(s.table) :: Durable(m))
  {
    var s0 := NewStore().(servers := servers, next := next);
    NewStoreOk();
    assert StoreOk(s0);
    hide StoreOk, InStep, AfterAll, NewStore, Durable;
    RunKeepsStoreOk(s0, rs);
    var s := AfterAll(s0, rs);
    RestartedOk(Saved(Records(s.table)));
    GoodTable(s);
    DistinctRecords(s);
    hide TableOk, Lookup, Loaded, TextLines, Saved, Records, Distinct;
    SaveLoadExact(s.table, NewStore().table);
  }

  lemma DistinctRecords(s: Store)
    requires StoreOk(s)
    ensures forall m | m in Records(s.table) :: Distinct(m.access)
  {
    RecordsFind(s.table, "");
    forall m | m in Records(s.table) ensures Distinct(m.access) {
      assert Lookup(s.table, m.name) == Some(m);
    }
    hide TableOk, Lookup, Records, Distinct;
  }

  /** A user creates a file and revokes the user's own entry; the next restart forgets it. */
  lemma LostAtRestart(server: ServerInfo, now: int)
    requires Field(server.ip) && |server.ip| <= 15
    ensures var s := AfterAll(NewStore().(servers := [server]), [Create("u", "f", now), Revoke("u", "f", "u")]);
            && |s.table| == |AfterRestart(s).table| == SIZE
            && Lookup(s.table, "f").Some? && Lookup(AfterRestart(s).table, "f") == None
  {
    var s0, rs := NewStore().(servers := [server]), [Create("u", "f", now), Revoke("u", "f", "u")];
    assert NewStore().(servers := [server], next := 0) == s0;
    hide AfterAll, Handled, NewStore, Lookup, StoreOk, InStep, FitsLine, SameDecisions, AsRead, Restored, ReadsAlike;
    NewServerOk(server);
    RevokedAtOnce(s0, now);
    TwoRequests(s0, rs[0], rs[1]);
    RestartKeepsDecisions([server], 0, rs);
  }

  lemma NewServerOk(server: ServerInfo)
    ensures var s := NewStore().(servers := [server]);
            StoreOk(s) && |s.table| == SIZE && Lookup(s.table, "f") == None && |s.servers| == 1 && s.next == 0
  {
    NewStoreOk();
    hide Lookup, TableOk, ShapeOk;
  }

  lemma TwoRequests(s: Store, a: Request, b: Request)
    requires |s.table| == SIZE && |Handled(s, a).0.table| == SIZE && |Handled(Handled(s, a).0, b).0.table| == SIZE
    ensures AfterAll(s, [a, b]) == Handled(Handled(s, a).0, b).0
  {
    var one, two := Handled(s, a).0, Handled(Handled(s, a).0, b).0;
    hide Handled;
    assert [a, b][1..] == [b] && [b][1..] == [];
    assert AfterAll(two, []) == two;
    assert AfterAll(one, [b]) == two;
  }

  lemma RevokedAtOnce(s: Store, now: int)
    requires StoreOk(s) && |s.table| == SIZE && Lookup(s.table, "f") == None && |s.servers| == 1 && s.next == 0
    ensures var after := Handled(Handled(s, Create("u", "f", now)).0, Revoke("u", "f", "u")).0;
            && |Handled(s, Create("u", "f", now)).0.table| == |after.table| == SIZE
            && Lookup(after.table, "f").Some? && Lookup(after.table, "f").value.access == []
  {
    var m := NewFile("u", "f", now, s.servers[0]);
    InsertRefines(s.table, m);
    ChangeRefines(Inserted(s.table, m), m.(access := []));
    assert m.access == [AccessEntry("u", 'W')] && m.access[1..] == [];
    hide Lookup, Inserted, Updated, TableOk, ShapeOk, TrieShape.Insert;
  }

  lemma RemovedEmpty(list: seq<AccessEntry>, user: string)
    requires Distinct(list)
    ensures Removed(list, user) == [] <==> forall e | e in list :: e.user == user
  {
    if list != [] && list[0].user == user && |list| > 1 {
      assert list[1] in list && list[1].user != user;
    }
  }

  /** After a successful revocation a restart forgets the file exactly when nobody but the
      target was listed; that can be the owner, who alone is listed at first. */
  lemma RevokedFileForgotten(s: Store, r: Request)
    requires StoreOk(s) && CleanStore(s) && r.Revoke? && Handled(s, r).1 == AccessChanged
    ensures var m, after := Lookup(s.table, r.file).value, Handled(s, r).0;
            FitsLine(m.(access := Removed(m.access, r.target))) ==>
              (Lookup(AfterRestart(after).table, r.file).None? <==> forall e | e in m.access :: e.user == r.target)
  {
    var m, after := Lookup(s.table, r.file).value, Handled(s, r).0;
    var left := m.(access := Removed(m.access, r.target));
    RequestKeepsStoreOk(s, r);
    RemovedClean(m, r.target);
    ChangeRefines(s.table, left);
    RemovedEmpty(m.access, r.target);
    hide Lookup, TableOk, ShapeOk, Clean, HashTable.Updated, FitsLine, AsRead, Restored, ReadsAlike,
         SameDecisions, Removed, AfterRestart;
    assert CleanStore(after) && Lookup(after.table, r.file) == Some(left);
    RestartFinds(after, r.file);
  }
}
