/** The name server's CREATE, DELETE, ADDACCESS and REMACCESS requests, one at a time. */
module Requests {
  import opened Text
  import opened AccessList
  import opened ServerRotation
  import opened HashTable
  import opened TrieShape
  import opened Trie
  import opened Persistence
  import opened NameServer

  datatype Request =
    | Create(user: string, file: string, now: int)
    | Delete(user: string, file: string)
    | Grant(user: string, flag: string, file: string, target: string)
    | Revoke(user: string, file: string, target: string)

  datatype Reply = FileCreated | Conflict | NoServer | NotFound | NotOwner | FileDeleted | BadFlag | AccessChanged

  datatype Store = Store(table: seq<seq<FileMeta>>, trie: Shape, servers: seq<ServerInfo>, next: nat)

  /** The store before anything is loaded. */
  function NewStore(): Store {
    Store(seq(SIZE, _ => []), map["" := false], [], 0)
  }

  /** The store of a server started on a metadata file that reads `text`. */
  function Restarted(text: string): Store {
    NewStore().(table := Loaded(NewStore().table, TextLines(text)),
                trie := InsertAll(NewStore().trie, LoadedNames(TextLines(text))))
  }

  function NewFile(user: string, file: string, now: int, server: ServerInfo): FileMeta {
    FileMeta(Clip(file, 255), Clip(user, 255), Added([], user, 'W'), Clip(server.ip, 15), server.port, 0, 0, 0, now)
  }

  /** The permission an ADDACCESS flag asks for. */
  function FlagPerm(flag: string): Option<char> {
    if flag == "-R" then Some('R') else if flag == "-W" then Some('W') else None
  }

  function Handled(s: Store, r: Request): (Store, Reply)
    requires |s.table| == SIZE
  {
    if r.Grant? && FlagPerm(r.flag).None? then (s, BadFlag)
    else
      var found := Lookup(s.table, r.file);
      match r
      case Create(user, file, now) =>
        if found.Some? then (s, Conflict)
        else if s.servers == [] then (s, NoServer)
        else
          var i := Chosen(s.next, |s.servers|);
          (s.(table := Inserted(s.table, NewFile(user, file, now, s.servers[i])),
              trie := TrieShape.Insert(s.trie, file), next := i + 1), FileCreated)
      case Delete(user, file) =>
        if found.None? then (s, NotFound)
        else if found.value.owner != user then (s, NotOwner)
        else (s.(table := HashTable.Deleted(s.table, file), trie := TrieShape.Delete(s.trie, file)), FileDeleted)
      case Grant(user, flag, _, target) =>
        if found.None? then (s, NotFound)
        else if found.value.owner != user then (s, NotOwner)
        else
          var m := found.value;
          (s.(table := HashTable.Updated(s.table, m.(access := Added(m.access, target, FlagPerm(flag).value)))),
           AccessChanged)
      case Revoke(user, _, target) =>
        if found.None? then (s, NotFound)
        else if found.value.owner != user then (s, NotOwner)
        else
          var m := found.value;
          (s.(table := HashTable.Updated(s.table, m.(access := Removed(m.access, target)))), AccessChanged)
  }

  // ---------------------------------------------------------------- the handlers

  class Server {
    const table: Table
    const trie: NameTrie
    const registry: Registry

    ghost predicate Valid()
      reads table.buckets, trie, trie.nodes.Values
    {
      table.Valid() && trie.Valid()
    }

    ghost function State(): Store
      reads table.buckets, trie, trie.nodes.Values, registry
    {
      Store(table.buckets[..], trie.Shape(), registry.servers, registry.nextIndex)
    }

    /** A server that has read the metadata file; "" stands for a missing one. */
    constructor (text: string)
      ensures Valid() && State() == Restarted(text)
      ensures fresh(table.buckets) && fresh(trie) && fresh(trie.nodes.Values) && fresh(registry)
    {
      table := new Table();
      trie := new NameTrie();
      registry := new Registry();
      new;
      hide Loaded, LoadedNames, InsertAll, TextLines;
      assert table.buckets[..] == NewStore().table;
      LoadFiles(text, table, trie);
    }

    method HandleCreate(user: string, file: string, now: int) returns (reply: Reply)
      requires Valid()
      modifies table.buckets, trie, trie.nodes.Values, registry`nextIndex
      ensures Valid() && (State(), reply) == Handled(old(State()), Create(user, file, now))
    {
      hide Inserted, TrieShape.Insert, Lookup, NewFile, TableOk, Table.Valid, NameTrie.Valid;
      var found := table.Get(file);
      if found.Some? {
        return Conflict;
      }
      var server := registry.ServerForNewFile();
      if server.None? {
        return NoServer;
      }
      Enter(user, file, now, server.value);
      return FileCreated;
    }

    /** The new record goes into the table, its name into the trie. */
    method Enter(user: string, file: string, now: int, server: ServerInfo)
      requires Valid()
      modifies table.buckets, trie, trie.nodes.Values
      ensures Valid() && registry.servers == old(registry.servers) && registry.nextIndex == old(registry.nextIndex)
      ensures table.buckets[..] == Inserted(old(table.buckets[..]), NewFile(user, file, now, server))
      ensures trie.Shape() == TrieShape.Insert(old(trie.Shape()), file)
    {
      hide Inserted, TrieShape.Insert, Lookup, NewFile, TableOk;
      var meta := NewRecord(user, file, now, server);
      var _ := table.Insert(meta);
      trie.Insert(file);
    }

    method NewRecord(user: string, file: string, now: int, server: ServerInfo) returns (meta: FileMeta)
      ensures meta == NewFile(user, file, now, server)
    {
      var acl := new AccessControl();
      acl.AddAccess(user, 'W');
      meta := FileMeta(Clip(file, 255), Clip(user, 255), acl.entries, Clip(server.ip, 15), server.port, 0, 0, 0, now);
    }

    method HandleDelete(user: string, file: string) returns (reply: Reply)
      requires Valid()
      modifies table.buckets, trie, trie.nodes.Values
      ensures Valid() && (State(), reply) == Handled(old(State()), Request.Delete(user, file))
    {
      hide HashTable.Deleted, TrieShape.Delete, Lookup;
      var found := table.Get(file);
      if found.None? {
        return NotFound;
      }
      if found.value.owner != user {
        return NotOwner;
      }
      table.Delete(file);
      trie.Delete(file);
      return FileDeleted;
    }

    method HandleAccess(request: Request) returns (reply: Reply)
      requires Valid() && (request.Grant? || request.Revoke?)
      modifies table.buckets
      ensures Valid() && (State(), reply) == Handled(old(State()), request)
    {
      hide HashTable.Updated, Lookup, Added, Removed, TableOk, NameTrie.Valid;
      var perm := '\0';
      if request.Grant? {
        if request.flag == "-R" {
          perm := 'R';
        }
        if request.flag == "-W" {
          perm := 'W';
        }
        if perm == '\0' {
          return BadFlag;
        }
      }
      var found := table.Get(request.file);
      if found.None? {
        return NotFound;
      }
      if found.value.owner != request.user {
        return NotOwner;
      }
      ghost var before := table.buckets[..];
      assert before == old(table.buckets[..]) && TableOk(before);
      LookedUpName(before, request.file);
      var acl := new AccessControl();
      acl.entries := found.value.access;
      if request.Grant? {
        acl.AddAccess(request.target, perm);
      } else {
        acl.RemoveAccess(request.target);
      }
      assert table.buckets[..] == before;
      table.Change(found.value.(access := acl.entries));
      return AccessChanged;
    }
  }

  // ---------------------------------------------------------------- one request

  /** The replies, and what each is for; only the three good news change anything. */
  lemma RepliesAre(s: Store, r: Request)
    requires |s.table| == SIZE
    ensures var (after, reply) := Handled(s, r);
            var there := Lookup(s.table, r.file).Some?;
            var flagOk := r.Grant? ==> r.flag == "-R" || r.flag == "-W";
            && (reply == BadFlag <==> !flagOk)
            && (reply == Conflict <==> r.Create? && there)
            && (reply == NoServer <==> r.Create? && !there && s.servers == [])
            && (reply == FileCreated <==> r.Create? && !there && s.servers != [])
            && (reply == NotFound <==> flagOk && !r.Create? && !there)
            && (reply == NotOwner <==>
                  flagOk && !r.Create? && there && Lookup(s.table, r.file).value.owner != r.user)
            && (reply == FileDeleted <==>
                  r.Delete? && there && Lookup(s.table, r.file).value.owner == r.user)
            && (reply == AccessChanged <==>
                  flagOk && (r.Grant? || r.Revoke?) && there && Lookup(s.table, r.file).value.owner == r.user)
            && (reply != FileCreated && reply != FileDeleted && reply != AccessChanged ==> after == s)
  {
    hide Lookup, Inserted, HashTable.Deleted, Updated, TrieShape.Insert, TrieShape.Delete;
  }

  /** A created file: its record field by field, on the server whose turn it is, and nobody
      but its creator may do anything with it. */
  lemma CreatedRecord(s: Store, user: string, file: string, now: int)
    requires TableOk(s.table) && |file| <= 255 && |user| <= 255
    requires Handled(s, Create(user, file, now)).1 == FileCreated
    ensures s.servers != []
    ensures var after := Handled(s, Create(user, file, now)).0;
            var server := if s.next < |s.servers| then s.servers[s.next] else s.servers[0];
            && after.next == (if s.next < |s.servers| then s.next + 1 else 1)
            && Lookup(after.table, file).Some?
            && var m := Lookup(after.table, file).value;
            && m.name == file && m.owner == user
            && m.port == server.port && (|server.ip| <= 15 ==> m.ip == server.ip)
            && m.size == m.words == m.chars == 0 && m.modified == now
            && m.access == [AccessEntry(user, 'W')]
            && forall u, required :: Allowed(m.owner, m.access, u, required) <==> u == user
  {
    RepliesAre(s, Create(user, file, now));
    var server := if s.next < |s.servers| then s.servers[s.next] else s.servers[0];
    var m := NewFile(user, file, now, server);
    InsertRefines(s.table, m);
    OwnerOnly(user);
    hide Lookup, TableOk, Inserted, TrieShape.Insert, Allowed, Added;
  }

  lemma OwnerOnly(user: string)
    ensures forall u, required :: Allowed(user, Added([], user, 'W'), u, required) <==> u == user
  {
    var list := [AccessEntry(user, 'W')];
    assert Added([], user, 'W') == list;
    forall u | u != user ensures Granted(list, u) == '\0' {
      assert list[1..] == [];
    }
  }

  /** A deleted file is gone from the table. */
  lemma DeletedRecord(s: Store, user: string, file: string)
    requires TableOk(s.table) && Handled(s, Request.Delete(user, file)).1 == FileDeleted
    ensures Lookup(Handled(s, Request.Delete(user, file)).0.table, file) == None
  {
    RepliesAre(s, Request.Delete(user, file));
    DeleteRefines(s.table, file);
    hide Lookup, TableOk, HashTable.Deleted, TrieShape.Delete;
  }

  /** A request leaves the records of all other names alone, the list of servers, and but for
      CREATE their turn. */
  lemma OthersUntouched(s: Store, r: Request, n: string)
    requires TableOk(s.table) && n != r.file && (r.Create? ==> |r.file| <= 255)
    ensures var after := Handled(s, r).0;
            && |after.table| == SIZE && Lookup(after.table, n) == Lookup(s.table, n)
            && after.servers == s.servers && (after.next == s.next || r.Create?)
  {
    var found := Lookup(s.table, r.file);
    LookedUpName(s.table, r.file);
    hide Lookup, TableOk, Inserted, HashTable.Deleted, Updated, TrieShape.Insert, TrieShape.Delete;
    match r
    case Create(user, file, now) =>
      if found.None? && s.servers != [] {
        InsertRefines(s.table, NewFile(user, file, now, s.servers[Chosen(s.next, |s.servers|)]));
      }
    case Delete(user, file) =>
      DeleteRefines(s.table, file);
    case Grant(user, flag, file, target) =>
      if found.Some? && FlagPerm(flag).Some? {
        ChangeRefines(s.table, found.value.(access := Added(found.value.access, target, FlagPerm(flag).value)));
      }
    case Revoke(user, file, target) =>
      if found.Some? {
        ChangeRefines(s.table, found.value.(access := Removed(found.value.access, target)));
      }
  }

  lemma LookedUpName(b: seq<seq<FileMeta>>, name: string)
    requires TableOk(b)
    ensures Lookup(b, name).Some? ==> Lookup(b, name).value.name == name
  {
    FindNamed(b[Bucket(name)], name);
  }

  // ---------------------------------------------------------------- over runs

  function AfterAll(s: Store, rs: seq<Request>): (t: Store)
    requires |s.table| == SIZE
    ensures |t.table| == SIZE
    decreases |rs|
  {
    if rs == [] then s else AfterAll(Handled(s, rs[0]).0, rs[1..])
  }

  /** The table is a table, with names that fit their buffer and access lists that name
      nobody twice, and the trie a tree without dead branches. */
  ghost predicate StoreOk(s: Store) {
    && TableOk(s.table) && ShapeOk(s.trie)
    && (forall n {:trigger Lookup(s.table, n)} | Lookup(s.table, n).Some? :: RecordOk(n, Lookup(s.table, n).value))
  }

  predicate RecordOk(n: string, m: FileMeta) {
    m.name == n && |n| <= 255 && Distinct(m.access)
  }

  /** The trie names no file that the table lacks. */
  ghost predicate Indexed(s: Store)
    requires |s.table| == SIZE
  {
    forall n | n in Keys(s.trie) :: Lookup(s.table, n).Some?
  }

  /** A new store is a good one. */
  lemma NewStoreOk()
    ensures StoreOk(NewStore()) && InStep(NewStore().table, NewStore().trie)
    ensures forall n :: Lookup(NewStore().table, n) == None
  {
  }

  /** Every request keeps the store good. */
  lemma RequestKeepsStoreOk(s: Store, r: Request)
    requires StoreOk(s)
    ensures StoreOk(Handled(s, r).0)
  {
    assert |s.table| == SIZE;
    var found := Lookup(s.table, r.file);
    hide Lookup, TableOk, ShapeOk, Inserted, HashTable.Deleted, HashTable.Updated;
    match r
    case Create(user, file, now) =>
      if found.None? && s.servers != [] {
        CreateKeepsStoreOk(s, NewFile(user, file, now, s.servers[Chosen(s.next, |s.servers|)]), file,
                           Chosen(s.next, |s.servers|) + 1);
      }
    case Delete(user, file) =>
      DeleteKeepsStoreOk(s, file);
    case Grant(user, flag, file, target) =>
      if found.Some? && FlagPerm(flag).Some? {
        AddedGrants(found.value.access, target, FlagPerm(flag).value);
        AccessKeepsStoreOk(s, found.value.(access := Added(found.value.access, target, FlagPerm(flag).value)));
      }
    case Revoke(user, file, target) =>
      if found.Some? {
        RemovedMembers(found.value.access, target);
        AccessKeepsStoreOk(s, found.value.(access := Removed(found.value.access, target)));
      }
  }

  lemma CreateKeepsStoreOk(s: Store, m: FileMeta, file: string, next: nat)
    requires StoreOk(s) && |m.name| <= 255 && Distinct(m.access)
    ensures StoreOk(s.(table := Inserted(s.table, m), trie := TrieShape.Insert(s.trie, file), next := next))
  {
    InsertRefines(s.table, m);
    InsertAddsKey(s.trie, file);
    hide Lookup, TableOk, ShapeOk, Inserted, TrieShape.Insert, Distinct;
  }

  lemma DeleteKeepsStoreOk(s: Store, file: string)
    requires StoreOk(s)
    ensures StoreOk(s.(table := HashTable.Deleted(s.table, file), trie := TrieShape.Delete(s.trie, file)))
  {
    DeleteRefines(s.table, file);
    DeleteLeavesNoDeadBranch(s.trie, file);
    hide Lookup, TableOk, ShapeOk, HashTable.Deleted, TrieShape.Delete, RecordOk;
  }

  lemma AccessKeepsStoreOk(s: Store, m: FileMeta)
    requires StoreOk(s) && |m.name| <= 255 && Distinct(m.access)
    ensures StoreOk(s.(table := HashTable.Updated(s.table, m)))
  {
    ChangeRefines(s.table, m);
    hide Lookup, TableOk, ShapeOk, HashTable.Updated, Distinct;
  }

  lemma {:induction false} RunKeepsStoreOk(s: Store, rs: seq<Request>)
    requires StoreOk(s)
    ensures StoreOk(AfterAll(s, rs))
    decreases |rs|
  {
    if rs != [] {
      RequestKeepsStoreOk(s, rs[0]);
      hide StoreOk, Handled;
      RunKeepsStoreOk(Handled(s, rs[0]).0, rs[1..]);
    }
  }

  // ---------------------------------------------------------------- the trie against the table

  /** The request creates a file whose name is cut in the record but not in the trie. */
  predicate CreatesLongName(s: Store, r: Request)
    requires |s.table| == SIZE
  {
    r.Create? && Handled(s, r).1 == FileCreated && |r.file| > 255
  }

  /** One request at a time: it leaves a name in the trie that the table lacks exactly when
      it creates a file under a name too long for its record. */
  lemma RequestKeepsIndexed(s: Store, r: Request)
    requires StoreOk(s) && Indexed(s)
    ensures Indexed(Handled(s, r).0) <==> !CreatesLongName(s, r)
  {
    assert |s.table| == SIZE;
    RequestKeepsStoreOk(s, r);
    var found := Lookup(s.table, r.file);
    hide Lookup, TableOk, ShapeOk, Inserted, HashTable.Deleted, HashTable.Updated, TrieShape.Insert, TrieShape.Delete;
    match r
    case Create(user, file, now) =>
      if found.None? && s.servers != [] {
        CreateIndexes(s, NewFile(user, file, now, s.servers[Chosen(s.next, |s.servers|)]), file);
      }
    case Delete(user, file) =>
      DeleteRefines(s.table, file);
      DeleteShrinksKeys(s.trie, file);
    case Grant(user, flag, file, target) =>
      if found.Some? && FlagPerm(flag).Some? {
        ChangeRefines(s.table, found.value.(access := Added(found.value.access, target, FlagPerm(flag).value)));
      }
    case Revoke(user, file, target) =>
      if found.Some? {
        ChangeRefines(s.table, found.value.(access := Removed(found.value.access, target)));
      }
  }

  lemma CreateIndexes(s: Store, m: FileMeta, file: string)
    requires StoreOk(s) && Indexed(s) && m.name == Clip(file, 255)
    ensures var table, trie := Inserted(s.table, m), TrieShape.Insert(s.trie, file);
            (forall n | n in Keys(trie) :: Lookup(table, n).Some?) <==> |file| <= 255
  {
    InsertRefines(s.table, m);
    InsertAddsKey(s.trie, file);
    hide Lookup, TableOk, ShapeOk, Inserted, TrieShape.Insert;
    assert file in Keys(TrieShape.Insert(s.trie, file));
    assert |file| > 255 ==> Lookup(s.table, file).None?;
  }

  /** Created under 256 letters, a file is in the trie under a name that the table lacks. */
  lemma LongNameAhead(server: ServerInfo, user: string, now: int)
    ensures var name := seq(256, _ => 'x');
            var s := Handled(NewStore().(servers := [server]), Create(user, name, now)).0;
            name in Keys(s.trie) && |s.table| == SIZE && Lookup(s.table, name) == None
  {
    var s, name := NewStore().(servers := [server]), seq(256, _ => 'x');
    NewStoreOk();
    InsertRefines(s.table, NewFile(user, name, now, server));
    InsertAddsKey(s.trie, name);
    hide Lookup, TableOk, ShapeOk, Inserted, TrieShape.Insert, NewStore, Keys;
  }

  lemma DeleteShrinksKeys(s: Shape, key: string)
    requires ShapeOk(s)
    ensures ShapeOk(TrieShape.Delete(s, key))
    ensures Keys(TrieShape.Delete(s, key)) <= Keys(s) - {key}
  {
    DeleteKeys(s, key);
    DeleteLeavesNoDeadBranch(s, key);
    if key in Keys(s) && !HasChild(s, key) && key != "" {
      CutIsPrefix(s, key);
    }
  }

  // ---------------------------------------------------------------- who changes what

  /** One request at a time: whatever requests others make, only its owner can change or
      remove a file's record: owner, place, and every user's permissions stay. */
  lemma {:induction false} OnlyOwnerChanges(s: Store, rs: seq<Request>, file: string)
    requires StoreOk(s) && Lookup(s.table, file).Some?
    requires forall i | 0 <= i < |rs| :: rs[i].user != Lookup(s.table, file).value.owner
    ensures Lookup(AfterAll(s, rs).table, file) == Lookup(s.table, file)
    decreases |rs|
  {
    if rs != [] {
      RequestKeepsStoreOk(s, rs[0]);
      RequestByOther(s, rs[0], file);
      hide StoreOk, Handled, Lookup;
      OnlyOwnerChanges(Handled(s, rs[0]).0, rs[1..], file);
    }
  }

  lemma RequestByOther(s: Store, r: Request, file: string)
    requires StoreOk(s) && Lookup(s.table, file).Some?
    requires r.user != Lookup(s.table, file).value.owner
    ensures Lookup(Handled(s, r).0.table, file) == Lookup(s.table, file)
  {
    assert |s.table| == SIZE;
    hide Lookup, TableOk, ShapeOk, Inserted, HashTable.Deleted, HashTable.Updated;
    var found := Lookup(s.table, r.file);
    match r
    case Create(user, f, now) =>
      if found.None? && s.servers != [] {
        InsertRefines(s.table, NewFile(user, f, now, s.servers[Chosen(s.next, |s.servers|)]));
      }
    case Delete(user, f) =>
      DeleteRefines(s.table, f);
    case Grant(user, flag, f, target) =>
      if found.Some? && FlagPerm(flag).Some? {
        ChangeRefines(s.table, found.value.(access := Added(found.value.access, target, FlagPerm(flag).value)));
      }
    case Revoke(user, f, target) =>
      if found.Some? {
        ChangeRefines(s.table, found.value.(access := Removed(found.value.access, target)));
      }
  }

  /** An owner's grant is what the target's access decisions then follow; nobody else's change. */
  lemma GrantTakesEffect(s: Store, r: Request, user: string, required: char)
    requires StoreOk(s) && r.Grant? && Handled(s, r).1 == AccessChanged
    ensures var m, after := Lookup(s.table, r.file).value, Lookup(Handled(s, r).0.table, r.file);
            && after.Some? && after.value.owner == m.owner == r.user
            && (Allowed(m.owner, after.value.access, user, required) <==>
                  if user == r.target && user != m.owner then
                    (required == 'R' || (required == 'W' && r.flag == "-W"))
                  else Allowed(m.owner, m.access, user, required))
  {
    var m, perm := Lookup(s.table, r.file).value, FlagPerm(r.flag).value;
    AddedGrants(m.access, r.target, perm);
    ChangeRefines(s.table, m.(access := Added(m.access, r.target, perm)));
    hide Lookup, TableOk, ShapeOk, HashTable.Updated, Added, Granted;
  }

  /** A successful revocation came from the owner, leaves the target with nothing unless
      the target is the owner, who keeps every right, and changes nobody else's decisions. */
  lemma RevokeTakesEffect(s: Store, r: Request, user: string, required: char)
    requires StoreOk(s) && r.Revoke? && Handled(s, r).1 == AccessChanged
    ensures var m, after := Lookup(s.table, r.file).value, Lookup(Handled(s, r).0.table, r.file);
            && after.Some? && after.value.owner == m.owner == r.user
            && (Allowed(m.owner, after.value.access, user, required) <==>
                  if user == m.owner then true
                  else user != r.target && Allowed(m.owner, m.access, user, required))
  {
    var m := Lookup(s.table, r.file).value;
    RemovedGrants(m.access, r.target, user);
    ChangeRefines(s.table, m.(access := Removed(m.access, r.target)));
    hide Lookup, TableOk, ShapeOk, HashTable.Updated, Removed, Granted;
  }
}
