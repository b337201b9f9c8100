/** The name server with many connections at once: a request is a few steps, each under one
    short lock, and steps of different requests alternate freely. */
module RequestSteps {
  import opened Text
  import opened AccessList
  import opened ServerRotation
  import opened HashTable
  import opened TrieShape
  import opened Requests

  /** What a request does next. */
  datatype Phase =
    | LookUp        // ht_get and the owner test
    | PickServer    // get_ss_for_new_file
    | EnterTable    // ht_insert
    | EnterTrie     // trie_insert
    | RemoveTable   // ht_delete
    | RemoveTrie    // trie_delete
    | EditAccess    // add_access or remove_access, under the record's lock
    | Replied

  /** A request being served; `born` is the record its look-up found. */
  datatype Conn = Conn(request: Request, phase: Phase, born: nat, server: ServerInfo, reply: Option<Reply>)

  /** The store, with the identity of each record: its place in the order of creation. */
  datatype Stock = Stock(store: Store, births: map<string, nat>, nextBirth: nat)

  datatype State = State(stock: Stock, conns: map<nat, Conn>)

  datatype Event = Start(t: nat, request: Request) | Step(t: nat)

  function NewConn(r: Request): Conn {
    Conn(r, LookUp, 0, ServerInfo(0, "", 0), None)
  }

  function Answered(c: Conn, reply: Reply): Conn {
    c.(phase := Replied, reply := Some(reply))
  }

  /** The look-up, and for all but CREATE the owner test. */
  function LookedUp(k: Stock, c: Conn): Conn
    requires |k.store.table| == SIZE
  {
    var r, found := c.request, Lookup(k.store.table, c.request.file);
    if r.Grant? && FlagPerm(r.flag).None? then Answered(c, BadFlag)
    else if r.Create? then
      if found.Some? then Answered(c, Conflict) else c.(phase := PickServer)
    else if found.None? then Answered(c, NotFound)
    else if found.value.owner != r.user then Answered(c, NotOwner)
    else
      c.(phase := if r.Delete? then RemoveTable else EditAccess,
         born := if r.file in k.births then k.births[r.file] else 0)
  }

  function ServerPicked(k: Stock, c: Conn): (Stock, Conn) {
    if k.store.servers == [] then (k, Answered(c, NoServer))
    else
      var i := Chosen(k.store.next, |k.store.servers|);
      (k.(store := k.store.(next := i + 1)), c.(server := k.store.servers[i], phase := EnterTable))
  }

  /** `ht_insert`, whose answer the handler does not look at. */
  function TableEntered(k: Stock, m: FileMeta): Stock
    requires |k.store.table| == SIZE
  {
    if Lookup(k.store.table, m.name).Some? then k
    else
      Stock(k.store.(table := Inserted(k.store.table, m)), k.births[m.name := k.nextBirth], k.nextBirth + 1)
  }

  function TableRemoved(k: Stock, file: string): Stock
    requires |k.store.table| == SIZE
  {
    k.(store := k.store.(table := HashTable.Deleted(k.store.table, file)), births := k.births - {file})
  }

  /** The new access list of a record. */
  function AccessAfter(access: seq<AccessEntry>, r: Request): seq<AccessEntry>
    requires r.Grant? || r.Revoke?
  {
    if r.Revoke? then Removed(access, r.target)
    else Added(access, r.target, if FlagPerm(r.flag).Some? then FlagPerm(r.flag).value else 'R')
  }

  /** The change goes to the record that was found, if that is still there. */
  function AccessChangedIn(k: Stock, c: Conn): Stock
    requires |k.store.table| == SIZE && (c.request.Grant? || c.request.Revoke?)
  {
    var file, found := c.request.file, Lookup(k.store.table, c.request.file);
    if found.Some? && file in k.births && k.births[file] == c.born then
      var m := found.value.(access := AccessAfter(found.value.access, c.request));
      k.(store := k.store.(table := Updated(k.store.table, m)))
    else k
  }

  function RecordOf(c: Conn): FileMeta
    requires c.request.Create?
  {
    NewFile(c.request.user, c.request.file, c.request.now, c.server)
  }

  predicate PhaseOk(c: Conn) {
    match c.phase
    case LookUp => true
    case Replied => true
    case PickServer => c.request.Create?
    case EnterTable => c.request.Create?
    case EnterTrie => c.request.Create?
    case RemoveTable => c.request.Delete?
    case RemoveTrie => c.request.Delete?
    case EditAccess => c.request.Grant? || c.request.Revoke?
  }

  function Moved(k: Stock, c: Conn): (Stock, Conn)
    requires |k.store.table| == SIZE && PhaseOk(c)
  {
    match c.phase
    case LookUp => (k, LookedUp(k, c))
    case PickServer => ServerPicked(k, c)
    case EnterTable => (TableEntered(k, RecordOf(c)), c.(phase := EnterTrie))
    case EnterTrie =>
      (k.(store := k.store.(trie := TrieShape.Insert(k.store.trie, c.request.file))), Answered(c, FileCreated))
    case RemoveTable => (TableRemoved(k, c.request.file), c.(phase := RemoveTrie))
    case RemoveTrie =>
      (k.(store := k.store.(trie := TrieShape.Delete(k.store.trie, c.request.file))), Answered(c, FileDeleted))
    case EditAccess => (AccessChangedIn(k, c), Answered(c, AccessChanged))
    case Replied => (k, c)
  }

  predicate Enabled(st: State, e: Event) {
    match e
    case Start(t, _) => t !in st.conns
    case Step(t) => t in st.conns && st.conns[t].phase != Replied
  }

  /** The table has its buckets, and every request is in a phase of its own kind. */
  ghost predicate Shaped(st: State) {
    |st.stock.store.table| == SIZE && forall t | t in st.conns :: PhaseOk(st.conns[t])
  }

  function Next(st: State, e: Event): (after: State)
    requires Shaped(st) && Enabled(st, e)
    ensures Shaped(after)
  {
    match e
    case Start(t, r) => st.(conns := st.conns[t := NewConn(r)])
    case Step(t) =>
      var (stock, conn) := Moved(st.stock, st.conns[t]);
      State(stock, st.conns[t := conn])
  }

  ghost predicate Run(st: State, evs: seq<Event>)
    requires Shaped(st)
    decreases |evs|
  {
    evs == [] || (Enabled(st, evs[0]) && Run(Next(st, evs[0]), evs[1..]))
  }

  ghost function After(st: State, evs: seq<Event>): (end: State)
    requires Shaped(st) && Run(st, evs)
    ensures Shaped(end)
    decreases |evs|
  {
    if evs == [] then st else After(Next(st, evs[0]), evs[1..])
  }

  // ---------------------------------------------------------------- what every state keeps

  /** A record is there under a name exactly when the name has an identity, which is older
      than the next. */
  ghost predicate BirthsOk(k: Stock)
    requires |k.store.table| == SIZE
  {
    && (forall n :: n in k.births <==> Lookup(k.store.table, n).Some?)
    && (forall n | n in k.births :: k.births[n] < k.nextBirth)
  }

  /** A request past its owner test: the record it found is no newer than the one there now,
      and if it is that one, it belongs to the requesting user. */
  ghost predicate TestedOk(k: Stock, c: Conn)
    requires |k.store.table| == SIZE
  {
    var file := c.request.file;
    c.phase == RemoveTable || c.phase == EditAccess ==>
      && c.born < k.nextBirth
      && (file in k.births ==> c.born <= k.births[file])
      && (file in k.births && k.births[file] == c.born && Lookup(k.store.table, file).Some? ==>
            Lookup(k.store.table, file).value.owner == c.request.user)
  }

  ghost predicate Inv(st: State) {
    && Shaped(st) && StoreOk(st.stock.store) && BirthsOk(st.stock)
    && forall t | t in st.conns :: TestedOk(st.stock, st.conns[t])
  }

  /** The table gained a record under a new name, lost one, or changed an access list; the
      requests past their tests stay right. */
  ghost predicate Grew(k: Stock, after: Stock)
    requires |k.store.table| == SIZE && |after.store.table| == SIZE
  {
    && k.nextBirth <= after.nextBirth
    && forall n | n in after.births ::
         if n in k.births && after.births[n] == k.births[n] then
           && Lookup(k.store.table, n).Some? && Lookup(after.store.table, n).Some?
           && Lookup(after.store.table, n).value.owner == Lookup(k.store.table, n).value.owner
         else after.births[n] >= k.nextBirth
  }

  lemma TestedStays(k: Stock, after: Stock, c: Conn)
    requires |k.store.table| == SIZE && |after.store.table| == SIZE
    requires Grew(k, after) && TestedOk(k, c)
    ensures TestedOk(after, c)
  {
    hide Lookup;
  }

  lemma EnterKeeps(k: Stock, m: FileMeta)
    requires StoreOk(k.store) && BirthsOk(k) && |m.name| <= 255 && Distinct(m.access)
    ensures var after := TableEntered(k, m);
            StoreOk(after.store) && BirthsOk(after) && Grew(k, after)
  {
    hide Lookup, TableOk, ShapeOk, Inserted, Distinct;
    TableSize(k.store);
    InsertRefines(k.store.table, m);
  }

  lemma RemoveKeeps(k: Stock, file: string)
    requires StoreOk(k.store) && BirthsOk(k)
    ensures var after := TableRemoved(k, file);
            StoreOk(after.store) && BirthsOk(after) && Grew(k, after)
  {
    assert |k.store.table| == SIZE;
    DeleteRefines(k.store.table, file);
    hide Lookup, TableOk, ShapeOk, HashTable.Deleted, RecordOk;
  }

  lemma AccessAfterDistinct(access: seq<AccessEntry>, r: Request)
    requires Distinct(access) && (r.Grant? || r.Revoke?)
    ensures Distinct(AccessAfter(access, r))
  {
    if r.Revoke? {
      RemovedMembers(access, r.target);
    } else {
      AddedGrants(access, r.target, if FlagPerm(r.flag).Some? then FlagPerm(r.flag).value else 'R');
    }
  }

  lemma ChangeKeeps(k: Stock, c: Conn)
    requires StoreOk(k.store) && BirthsOk(k) && (c.request.Grant? || c.request.Revoke?)
    ensures var after := AccessChangedIn(k, c);
            StoreOk(after.store) && BirthsOk(after) && Grew(k, after)
  {
    assert |k.store.table| == SIZE;
    var found := Lookup(k.store.table, c.request.file);
    if found.Some? {
      AccessAfterDistinct(found.value.access, c.request);
      ChangeRefines(k.store.table, found.value.(access := AccessAfter(found.value.access, c.request)));
    }
    hide Lookup, TableOk, ShapeOk, Updated, AccessAfter, Distinct;
  }

  lemma TrieKeeps(k: Stock, file: string)
    requires StoreOk(k.store) && BirthsOk(k)
    ensures StoreOk(k.store.(trie := TrieShape.Insert(k.store.trie, file)))
    ensures StoreOk(k.store.(trie := TrieShape.Delete(k.store.trie, file)))
  {
    InsertAddsKey(k.store.trie, file);
    DeleteLeavesNoDeadBranch(k.store.trie, file);
    hide Lookup, TableOk, ShapeOk, RecordOk, TrieShape.Insert, TrieShape.Delete;
  }

  /** Steps that leave the table alone. */
  lemma TableUntouched(k: Stock, after: Stock)
    requires |k.store.table| == SIZE && BirthsOk(k)
    requires after == k.(store := after.store) && after.store.table == k.store.table
    ensures BirthsOk(after) && Grew(k, after)
  {
    hide Lookup;
  }

  lemma LookUpTested(k: Stock, c: Conn)
    requires StoreOk(k.store) && BirthsOk(k) && c.phase == LookUp
    ensures |k.store.table| == SIZE && TestedOk(k, LookedUp(k, c))
  {
    hide Lookup, TableOk, ShapeOk;
    assert |k.store.table| == SIZE by {
      TableSize(k.store);
    }
  }

  lemma TableSize(s: Store)
    requires StoreOk(s)
    ensures |s.table| == SIZE
  {
  }

  lemma PickKeeps(k: Stock, c: Conn)
    requires StoreOk(k.store)
    ensures var (after, conn) := ServerPicked(k, c);
            StoreOk(after.store) && after == k.(store := after.store) && after.store.table == k.store.table
            && conn.phase != RemoveTable && conn.phase != EditAccess
  {
    hide Lookup, TableOk, ShapeOk, RecordOk;
  }

  /** What a step does to the store and to its own request. */
  lemma MoveKeeps(k: Stock, c: Conn)
    requires StoreOk(k.store) && BirthsOk(k) && PhaseOk(c) && c.phase != Replied
    ensures |k.store.table| == SIZE
    ensures var (after, conn) := Moved(k, c);
            StoreOk(after.store) && BirthsOk(after) && Grew(k, after) && TestedOk(after, conn)
  {
    hide StoreOk, BirthsOk, Grew, LookedUp, ServerPicked, TableEntered, TableRemoved, AccessChangedIn,
         TrieShape.Insert, TrieShape.Delete;
    TableSize(k.store);
    var after := Moved(k, c).0;
    match c.phase
    case LookUp =>
      LookUpTested(k, c);
      TableUntouched(k, after);
    case PickServer =>
      PickKeeps(k, c);
      TableUntouched(k, after);
    case EnterTable => EnterKeeps(k, RecordOf(c));
    case RemoveTable => RemoveKeeps(k, c.request.file);
    case EditAccess => ChangeKeeps(k, c);
    case EnterTrie =>
      TrieKeeps(k, c.request.file);
      TableUntouched(k, after);
    case RemoveTrie =>
      TrieKeeps(k, c.request.file);
      TableUntouched(k, after);
  }

  lemma StepKeepsInv(st: State, e: Event)
    requires Inv(st) && Enabled(st, e)
    ensures Inv(Next(st, e))
  {
    hide StoreOk, BirthsOk, Grew, TestedOk, Moved;
    match e
    case Start(t, r) =>
      NewConnOk(st.stock, r);
    case Step(t) =>
      MoveKeeps(st.stock, st.conns[t]);
      var after := Next(st, e);
      forall u | u in after.conns ensures TestedOk(after.stock, after.conns[u]) {
        if u != t {
          TestedStays(st.stock, after.stock, st.conns[u]);
        }
      }
  }

  lemma NewConnOk(k: Stock, r: Request)
    requires |k.store.table| == SIZE
    ensures TestedOk(k, NewConn(r))
  {
  }

  /** Over every interleaving of any number of requests the table is a table, the trie a tree
      without dead branches, and no access list names a user twice. */
  lemma {:induction false} RunKeepsInv(st: State, evs: seq<Event>)
    requires Inv(st) && Run(st, evs)
    ensures Inv(After(st, evs)) && StoreOk(After(st, evs).stock.store)
    decreases |evs|
  {
    if evs != [] {
      StepKeepsInv(st, evs[0]);
      hide Next, StoreOk, BirthsOk, TestedOk;
      RunKeepsInv(Next(st, evs[0]), evs[1..]);
    }
  }

  /** A server just started, with some identity for each record that it loaded. */
  ghost predicate Initial(st: State) {
    st.conns == map[] && StoreOk(st.stock.store) && BirthsOk(st.stock)
  }

  lemma ReachableInv(st: State, evs: seq<Event>)
    requires Initial(st) && Run(st, evs)
    ensures Inv(After(st, evs))
  {
    RunKeepsInv(st, evs);
  }

  // ---------------------------------------------------------------- runs in pieces

  lemma {:induction false} RunConcat(st: State, a: seq<Event>, b: seq<Event>)
    requires Shaped(st) && Run(st, a) && Run(After(st, a), b)
    ensures Run(st, a + b) && After(st, a + b) == After(After(st, a), b)
    decreases |a|
  {
    if a == [] {
      assert a + b == b;
    } else {
      assert (a + b)[0] == a[0] && (a + b)[1..] == a[1..] + b;
      RunConcat(Next(st, a[0]), a[1..], b);
    }
  }

  ghost predicate Leads(st: State, evs: seq<Event>, end: State) {
    Shaped(st) && Run(st, evs) && After(st, evs) == end
  }

  lemma LeadsOn(a: State, x: seq<Event>, b: State, y: seq<Event>, c: State)
    requires Leads(a, x, b) && Leads(b, y, c)
    ensures Leads(a, x + y, c)
  {
    RunConcat(a, x, y);
  }

  lemma OneEvent(st: State, e: Event)
    requires Shaped(st) && Enabled(st, e)
    ensures Leads(st, [e], Next(st, e))
  {
    assert [e][1..] == [];
  }

  /** Connection `t` at `c`, over the others, with the stock `k`. */
  function Scene(conns: map<nat, Conn>, t: nat, c: Conn, k: Stock): State {
    State(k, conns[t := c])
  }

  lemma OneStep(conns: map<nat, Conn>, t: nat, c: Conn, k: Stock)
    requires Shaped(Scene(conns, t, c, k)) && c.phase != Replied
    ensures |k.store.table| == SIZE && PhaseOk(c)
    ensures Leads(Scene(conns, t, c, k), [Step(t)], Scene(conns, t, Moved(k, c).1, Moved(k, c).0))
  {
    var st := Scene(conns, t, c, k);
    assert st.conns[t] == c;
    hide Moved;
    OneEvent(st, Step(t));
    assert conns[t := c][t := Moved(k, c).1] == conns[t := Moved(k, c).1];
  }
}
