/** What requests do to each other: one served alone is the request of `Requests`; exactly
    when another user's can remove a record; exactly when the trie gets ahead of the table. */
module RequestRaces {
  import opened Text
  import opened AccessList
  import opened ServerRotation
  import opened HashTable
  import opened TrieShape
  import opened Persistence
  import opened Requests
  import opened RequestSteps

  // ---------------------------------------------------------------- one request alone

  /** The end of a request that is served with nobody in between. */
  ghost predicate ServedTo(st: State, t: nat, r: Request, end: State)
    requires |st.stock.store.table| == SIZE
  {
    && t in end.conns && end.conns == st.conns[t := end.conns[t]]
    && end.conns[t].phase == Replied && end.conns[t].request == r
    && (end.stock.store, end.conns[t].reply) ==
       (Handled(st.stock.store, r).0, Some(Handled(st.stock.store, r).1))
  }

  /** A new connection after its look-up. */
  lemma LookUpAlone(st: State, t: nat, r: Request) returns (evs: seq<Event>)
    requires Inv(st) && t !in st.conns
    ensures Leads(st, evs, Scene(st.conns, t, LookedUp(st.stock, NewConn(r)), st.stock))
  {
    var c := NewConn(r);
    OneEvent(st, Start(t, r));
    assert Shaped(Scene(st.conns, t, c, st.stock)) && Next(st, Start(t, r)) == Scene(st.conns, t, c, st.stock);
    OneStep(st.conns, t, c, st.stock);
    hide Inv, Leads, Scene, LookedUp;
    evs := [Start(t, r)] + [Step(t)];
    LeadsOn(st, [Start(t, r)], Scene(st.conns, t, c, st.stock), [Step(t)],
            Scene(st.conns, t, LookedUp(st.stock, c), st.stock));
  }

  lemma OneMore(st: State, evs: seq<Event>, conns: map<nat, Conn>, t: nat, c: Conn, k: Stock)
    requires Leads(st, evs, Scene(conns, t, c, k)) && c.phase != Replied
    ensures |k.store.table| == SIZE && PhaseOk(c)
    ensures Leads(st, evs + [Step(t)], Scene(conns, t, Moved(k, c).1, Moved(k, c).0))
  {
    assert Shaped(Scene(conns, t, c, k));
    OneStep(conns, t, c, k);
    hide Leads, Scene, Moved;
    LeadsOn(st, evs, Scene(conns, t, c, k), [Step(t)], Scene(conns, t, Moved(k, c).1, Moved(k, c).0));
  }

  /** The request's record is in the table, its name not yet in the trie. */
  function HalfCreated(k: Stock, r: Request): (Stock, Conn)
    requires |k.store.table| == SIZE && r.Create? && k.store.servers != []
  {
    var i := Chosen(k.store.next, |k.store.servers|);
    var c := Conn(r, EnterTrie, 0, k.store.servers[i], None);
    (TableEntered(k.(store := k.store.(next := i + 1)), RecordOf(c)), c)
  }

  lemma CreateAlone(st: State, t: nat, r: Request) returns (evs: seq<Event>)
    requires Inv(st) && t !in st.conns && r.Create?
    requires |st.stock.store.table| == SIZE && Lookup(st.stock.store.table, r.file).None?
    requires st.stock.store.servers != []
    ensures var (k, c) := HalfCreated(st.stock, r); Leads(st, evs, Scene(st.conns, t, c, k))
  {
    var k := st.stock;
    evs := LookUpAlone(st, t, r);
    var c := LookedUp(k, NewConn(r));
    assert c == NewConn(r).(phase := PickServer);
    hide Inv, Leads, Scene, TableEntered;
    OneMore(st, evs, st.conns, t, c, k);
    var (picked, d) := Moved(k, c);
    OneMore(st, evs + [Step(t)], st.conns, t, d, picked);
    evs := evs + [Step(t)] + [Step(t)];
  }

  /** A request served with nobody in between does exactly what `Handled` says. */
  lemma ServedAlone(st: State, t: nat, r: Request) returns (evs: seq<Event>, end: State)
    requires Inv(st) && t !in st.conns
    ensures |st.stock.store.table| == SIZE
    ensures Leads(st, evs, end) && ServedTo(st, t, r, end)
  {
    var k := st.stock;
    TableSize(k.store);
    var found := Lookup(k.store.table, r.file);
    if r.Create? && found.None? && k.store.servers != [] {
      evs, end := CreateServed(st, t, r);
    } else {
      evs, end := OtherServed(st, t, r);
    }
  }

  lemma CreateServed(st: State, t: nat, r: Request) returns (evs: seq<Event>, end: State)
    requires Inv(st) && t !in st.conns && r.Create?
    requires |st.stock.store.table| == SIZE && Lookup(st.stock.store.table, r.file).None?
    requires st.stock.store.servers != []
    ensures Leads(st, evs, end) && ServedTo(st, t, r, end)
  {
    evs := CreateAlone(st, t, r);
    var (half, d) := HalfCreated(st.stock, r);
    hide Inv, Leads, Lookup, TrieShape.Insert;
    OneMore(st, evs, st.conns, t, d, half);
    end := Scene(st.conns, t, Moved(half, d).1, Moved(half, d).0);
    evs := evs + [Step(t)];
    CreateStore(st.stock, r);
  }

  lemma CreateStore(k: Stock, r: Request)
    requires |k.store.table| == SIZE && r.Create? && Lookup(k.store.table, r.file).None? && k.store.servers != []
    ensures var (half, d) := HalfCreated(k, r);
            && |half.store.table| == SIZE && PhaseOk(d)
            && Moved(half, d).0.store == Handled(k.store, r).0
            && Moved(half, d).1 == Answered(d, FileCreated) && Handled(k.store, r).1 == FileCreated
  {
    hide TrieShape.Insert;
  }

  lemma OtherServed(st: State, t: nat, r: Request) returns (evs: seq<Event>, end: State)
    requires Inv(st) && t !in st.conns && |st.stock.store.table| == SIZE
    requires r.Create? ==> Lookup(st.stock.store.table, r.file).Some? || st.stock.store.servers == []
    ensures Leads(st, evs, end) && ServedTo(st, t, r, end)
  {
    var k, c := st.stock, LookedUp(st.stock, NewConn(r));
    evs := LookUpAlone(st, t, r);
    FoundBorn(st, r.file);
    OtherStore(k, r);
    hide Inv, Leads, LookedUp, Handled, Moved, Scene, ServedTo, Handles;
    end := Scene(st.conns, t, c, k);
    if c.phase == Replied {
      HandledScene(st, t, r, k, c);
    } else {
      OneMore(st, evs, st.conns, t, c, k);
      var (after, d) := Moved(k, c);
      evs := evs + [Step(t)];
      end := Scene(st.conns, t, d, after);
      if d.phase == Replied {
        HandledScene(st, t, r, after, d);
      } else {
        OneMore(st, evs, st.conns, t, d, after);
        evs := evs + [Step(t)];
        end := Scene(st.conns, t, Moved(after, d).1, Moved(after, d).0);
        HandledScene(st, t, r, Moved(after, d).0, Moved(after, d).1);
      }
    }
  }

  lemma HandledScene(st: State, t: nat, r: Request, after: Stock, c: Conn)
    requires |st.stock.store.table| == SIZE && Handles(st.stock, r, after, c)
    ensures ServedTo(st, t, r, Scene(st.conns, t, c, after))
  {
    hide Handled;
  }

  lemma FoundBorn(st: State, file: string)
    requires Inv(st)
    ensures |st.stock.store.table| == SIZE
    ensures file in st.stock.births <==> Lookup(st.stock.store.table, file).Some?
    ensures Lookup(st.stock.store.table, file).Some? ==> Lookup(st.stock.store.table, file).value.name == file
  {
    LookedUpName(st.stock.store.table, file);
    hide Lookup, TableOk, ShapeOk;
  }

  ghost predicate Handles(k: Stock, r: Request, after: Stock, c: Conn)
    requires |k.store.table| == SIZE
  {
    && c.phase == Replied && c.request == r
    && (after.store, c.reply) == (Handled(k.store, r).0, Some(Handled(k.store, r).1))
  }

  /** The two or three moves of such a request, put together. */
  lemma OtherStore(k: Stock, r: Request)
    requires |k.store.table| == SIZE
    requires r.Create? ==> Lookup(k.store.table, r.file).Some? || k.store.servers == []
    requires r.file in k.births <==> Lookup(k.store.table, r.file).Some?
    requires Lookup(k.store.table, r.file).Some? ==> Lookup(k.store.table, r.file).value.name == r.file
    ensures var c := LookedUp(k, NewConn(r));
            PhaseOk(c) &&
            if c.phase == Replied then Handles(k, r, k, c)
            else
              var (after, d) := Moved(k, c);
              |after.store.table| == SIZE && PhaseOk(d) &&
              if d.phase == Replied then Handles(k, r, after, d)
              else Handles(k, r, Moved(after, d).0, Moved(after, d).1)
  {
    hide Lookup, Drop, Swapped, Bucket, TrieShape.Delete, Added, Removed;
  }

  // ---------------------------------------------------------------- whose record

  /** A DELETE of the file by another user, past its owner test. */
  predicate Stale(st: State, t: nat, file: string, owner: string) {
    && t in st.conns && st.conns[t].phase == RemoveTable
    && st.conns[t].request.file == file && st.conns[t].request.user != owner
  }

  /** What it tested was an earlier record of that name. */
  lemma StaleTestedEarlier(st: State, t: nat, file: string)
    requires Inv(st) && |st.stock.store.table| == SIZE && Lookup(st.stock.store.table, file).Some?
    requires Stale(st, t, file, Lookup(st.stock.store.table, file).value.owner)
    ensures file in st.stock.births && st.conns[t].born < st.stock.births[file]
  {
    assert TestedOk(st.stock, st.conns[t]);
    hide Lookup, StoreOk;
  }

  /** The event is a request by, or a step for, somebody other than `owner`. */
  predicate ByOther(st: State, e: Event, owner: string) {
    match e
    case Start(_, r) => r.user != owner
    case Step(t) => t in st.conns && st.conns[t].request.user != owner
  }

  ghost predicate OthersOnly(st: State, evs: seq<Event>, owner: string)
    requires Shaped(st) && Run(st, evs)
    decreases |evs|
  {
    evs == [] || (ByOther(st, evs[0], owner) && OthersOnly(Next(st, evs[0]), evs[1..], owner))
  }

  /** Another user's step past the owner test leaves the record alone, unless it is stale. */
  lemma OtherMove(k: Stock, c: Conn, file: string)
    requires StoreOk(k.store) && BirthsOk(k) && TestedOk(k, c) && PhaseOk(c) && c.phase != Replied
    requires |k.store.table| == SIZE && Lookup(k.store.table, file).Some?
    requires c.request.user != Lookup(k.store.table, file).value.owner
    requires !(c.phase == RemoveTable && c.request.file == file)
    ensures Lookup(Moved(k, c).0.store.table, file) == Lookup(k.store.table, file)
    ensures !(Moved(k, c).1.phase == RemoveTable && c.request.file == file)
    ensures Moved(k, c).1.request == c.request
  {
    hide StoreOk, BirthsOk, Lookup, TrieShape.Insert, TrieShape.Delete;
    assert TableOk(k.store.table) && (file in k.births) by {
      GoodStock(k, file);
    }
    match c.phase
    case EnterTable =>
      InsertRefines(k.store.table, RecordOf(c));
    case RemoveTable =>
      DeleteRefines(k.store.table, c.request.file);
    case EditAccess =>
      var found := Lookup(k.store.table, c.request.file);
      if found.Some? {
        LookedUpName(k.store.table, c.request.file);
        ChangeRefines(k.store.table, found.value.(access := AccessAfter(found.value.access, c.request)));
      }
    case _ =>
  }

  lemma GoodStock(k: Stock, file: string)
    requires StoreOk(k.store) && |k.store.table| == SIZE && BirthsOk(k)
    ensures TableOk(k.store.table) && (file in k.births <==> Lookup(k.store.table, file).Some?)
  {
  }

  lemma OtherStep(st: State, e: Event, file: string)
    requires Inv(st) && Enabled(st, e) && |st.stock.store.table| == SIZE && Lookup(st.stock.store.table, file).Some?
    requires ByOther(st, e, Lookup(st.stock.store.table, file).value.owner)
    requires forall t :: !Stale(st, t, file, Lookup(st.stock.store.table, file).value.owner)
    ensures var owner, after := Lookup(st.stock.store.table, file).value.owner, Next(st, e);
            && Lookup(after.stock.store.table, file) == Lookup(st.stock.store.table, file)
            && forall t :: !Stale(after, t, file, owner)
  {
    var owner, after := Lookup(st.stock.store.table, file).value.owner, Next(st, e);
    hide Lookup, StoreOk, BirthsOk, TestedOk, Moved;
    if e.Step? {
      assert !Stale(st, e.t, file, owner);
      OtherMove(st.stock, st.conns[e.t], file);
    }
    forall t ensures !Stale(after, t, file, owner) {
      assert !Stale(st, t, file, owner);
    }
  }

  lemma {:induction false} OthersRun(st: State, evs: seq<Event>, file: string)
    requires Inv(st) && Run(st, evs) && |st.stock.store.table| == SIZE && Lookup(st.stock.store.table, file).Some?
    requires OthersOnly(st, evs, Lookup(st.stock.store.table, file).value.owner)
    requires forall t :: !Stale(st, t, file, Lookup(st.stock.store.table, file).value.owner)
    ensures Lookup(After(st, evs).stock.store.table, file) == Lookup(st.stock.store.table, file)
    decreases |evs|
  {
    if evs != [] {
      OtherStep(st, evs[0], file);
      StepKeepsInv(st, evs[0]);
      hide Inv, Next, Lookup, Stale, ByOther;
      OthersRun(Next(st, evs[0]), evs[1..], file);
    }
  }

  /** A run in which only others act and after which the file's record is not what it was. */
  ghost predicate Violated(st: State, evs: seq<Event>, file: string)
    requires Shaped(st) && Lookup(st.stock.store.table, file).Some?
  {
    && Run(st, evs) && OthersOnly(st, evs, Lookup(st.stock.store.table, file).value.owner)
    && Lookup(After(st, evs).stock.store.table, file) != Lookup(st.stock.store.table, file)
  }

  /** In every reachable state: others than its owner can change or remove a file's record,
      by whatever requests and in whatever order of steps, exactly when a DELETE of that name
      by another user is already past its owner test. That test was on an earlier record of
      the name (`StaleTestedEarlier`). */
  lemma OthersCanRemove(st: State, file: string)
    requires Inv(st) && |st.stock.store.table| == SIZE && Lookup(st.stock.store.table, file).Some?
    ensures (exists evs :: Violated(st, evs, file)) <==>
            exists t :: Stale(st, t, file, Lookup(st.stock.store.table, file).value.owner)
  {
    var owner := Lookup(st.stock.store.table, file).value.owner;
    if t :| Stale(st, t, file, owner) {
      StaleRemoves(st, t, file);
    } else if evs :| Violated(st, evs, file) {
      hide Inv, Lookup, Stale, OthersOnly, Run, After;
      OthersRun(st, evs, file);
    }
  }

  lemma StaleRemoves(st: State, t: nat, file: string)
    requires Inv(st) && |st.stock.store.table| == SIZE && Lookup(st.stock.store.table, file).Some?
    requires Stale(st, t, file, Lookup(st.stock.store.table, file).value.owner)
    ensures Enabled(st, Step(t)) && Lookup(Next(st, Step(t)).stock.store.table, file) == None
    ensures Violated(st, [Step(t)], file)
  {
    DeleteRefines(st.stock.store.table, file);
    hide Lookup, StoreOk, BirthsOk, HashTable.Deleted;
    OneEvent(st, Step(t));
    assert [Step(t)][1..] == [];
    assert OthersOnly(st, [Step(t)], Lookup(st.stock.store.table, file).value.owner);
  }

  // ---------------------------------------------------------------- the trie against the table

  predicate TableHas(st: State, n: string)
    requires |st.stock.store.table| == SIZE
  {
    Lookup(st.stock.store.table, n).Some?
  }

  /** A DELETE has taken the name from the table and not yet from the trie. */
  ghost predicate RemovalPending(st: State, n: string) {
    exists t :: Removing(st, t, n)
  }

  predicate Removing(st: State, t: nat, n: string) {
    t in st.conns && st.conns[t].phase == RemoveTrie && st.conns[t].request.file == n
  }

  /** The trie names no file that the table lacks, but for those about to be taken out. */
  ghost predicate IndexedBut(st: State)
    requires |st.stock.store.table| == SIZE
  {
    forall n | n in Keys(st.stock.store.trie) :: TableHas(st, n) || RemovalPending(st, n)
  }

  /** A CREATE writes a name into the trie that the table lacks and nobody will take out. */
  ghost predicate GetsAhead(st: State, e: Event)
    requires |st.stock.store.table| == SIZE
  {
    && e.Step? && e.t in st.conns && st.conns[e.t].phase == EnterTrie
    && !TableHas(st, st.conns[e.t].request.file) && !RemovalPending(st, st.conns[e.t].request.file)
  }

  /** The event is the table write of a CREATE that uses, or of a DELETE of, the name. */
  predicate Enters(st: State, e: Event, n: string) {
    && e.Step? && e.t in st.conns && st.conns[e.t].phase == EnterTable
    && Clip(st.conns[e.t].request.file, 255) == n
  }

  predicate Removes(st: State, e: Event, n: string) {
    e.Step? && e.t in st.conns && st.conns[e.t].phase == RemoveTable && st.conns[e.t].request.file == n
  }

  lemma NameStep(st: State, e: Event, n: string)
    requires Inv(st) && Enabled(st, e) && |st.stock.store.table| == SIZE
    ensures TableHas(Next(st, e), n) <==>
            Enters(st, e, n) || (TableHas(st, n) && !Removes(st, e, n))
  {
    hide StoreOk, BirthsOk, TestedOk, Lookup, TrieShape.Insert, TrieShape.Delete, Clip, AccessAfter;
    if e.Step? {
      var k, c := st.stock, st.conns[e.t];
      GoodStock(k, n);
      match c.phase
      case EnterTable => InsertRefines(k.store.table, RecordOf(c));
      case RemoveTable => DeleteRefines(k.store.table, c.request.file);
      case EditAccess =>
        var found := Lookup(k.store.table, c.request.file);
        if found.Some? {
          ChangeRefines(k.store.table, found.value.(access := AccessAfter(found.value.access, c.request)));
        }
      case _ =>
    }
  }

  lemma MovedTrie(k: Stock, c: Conn)
    requires |k.store.table| == SIZE && PhaseOk(c)
    ensures Moved(k, c).0.store.trie ==
            if c.phase == EnterTrie then TrieShape.Insert(k.store.trie, c.request.file)
            else if c.phase == RemoveTrie then TrieShape.Delete(k.store.trie, c.request.file)
            else k.store.trie
  {
    hide Lookup, TrieShape.Insert, TrieShape.Delete, Inserted, Updated, HashTable.Deleted;
  }

  /** What a step does to the names of the trie. */
  lemma KeysStep(st: State, e: Event)
    requires Inv(st) && Enabled(st, e)
    ensures var before, after := Keys(st.stock.store.trie), Keys(Next(st, e).stock.store.trie);
            if e.Step? && st.conns[e.t].phase == EnterTrie then after == before + {st.conns[e.t].request.file}
            else if e.Step? && st.conns[e.t].phase == RemoveTrie then after <= before - {st.conns[e.t].request.file}
            else after == before
  {
    assert ShapeOk(st.stock.store.trie);
    hide StoreOk, BirthsOk, TestedOk, Moved, TrieShape.Insert, TrieShape.Delete, Keys, ShapeOk;
    if e.Step? {
      var c := st.conns[e.t];
      MovedTrie(st.stock, c);
      InsertAddsKey(st.stock.store.trie, c.request.file);
      DeleteShrinksKeys(st.stock.store.trie, c.request.file);
    }
  }

  lemma PendingStep(st: State, e: Event, n: string)
    requires Inv(st) && Enabled(st, e)
    ensures RemovalPending(Next(st, e), n) ==> RemovalPending(st, n) || Removes(st, e, n)
    ensures RemovalPending(st, n) || Removes(st, e, n) ==>
              || RemovalPending(Next(st, e), n)
              || (e.Step? && st.conns[e.t].phase == RemoveTrie && st.conns[e.t].request.file == n)
  {
    var after := Next(st, e);
    hide Lookup, StoreOk, BirthsOk, TestedOk;
    MovedPhases(st, e);
    if t :| Removing(after, t, n) {
      assert Removing(st, t, n) || Removes(st, e, n);
    }
    if t :| Removing(st, t, n) {
      assert Removing(after, t, n) || (e.Step? && e.t == t);
    }
    if Removes(st, e, n) {
      assert Removing(after, e.t, n);
    }
  }

  /** Only the removal from the table leads to the removal from the trie. */
  lemma MovedPhases(st: State, e: Event)
    requires Shaped(st) && Enabled(st, e)
    ensures forall t | t in st.conns && !(e.Step? && e.t == t) ::
              t in Next(st, e).conns && Next(st, e).conns[t] == st.conns[t]
    ensures forall t | t in Next(st, e).conns && t !in st.conns :: Next(st, e).conns[t].phase == LookUp
    ensures e.Step? ==> e.t in Next(st, e).conns
    ensures e.Step? ==>
              (var c, d := st.conns[e.t], Next(st, e).conns[e.t];
               d.request == c.request && (d.phase == RemoveTrie <==> c.phase == RemoveTable))
  {
    hide Lookup;
  }

  /** A step lets the trie get ahead of the table exactly when it is a CREATE's trie write of
      a name that the table lacks and that no DELETE is about to take out of the trie. */
  lemma StepIndexed(st: State, e: Event)
    requires Inv(st) && Enabled(st, e) && |st.stock.store.table| == SIZE && IndexedBut(st)
    ensures IndexedBut(Next(st, e)) <==> !GetsAhead(st, e)
  {
    var after := Next(st, e);
    KeysStep(st, e);
    hide Inv, Next, Keys, TableHas, RemovalPending;
    if e.Step? && st.conns[e.t].phase == EnterTrie {
      var n := st.conns[e.t].request.file;
      NameStep(st, e, n);
      PendingStep(st, e, n);
    }
    if !GetsAhead(st, e) {
      forall n | n in Keys(after.stock.store.trie) ensures TableHas(after, n) || RemovalPending(after, n) {
        NameStep(st, e, n);
        PendingStep(st, e, n);
      }
    }
  }

  /** After the events, was the last table write under the name a removal? */
  ghost predicate GoneAfter(st: State, evs: seq<Event>, n: string, gone: bool)
    requires Shaped(st) && Run(st, evs)
    decreases |evs|
  {
    if evs == [] then gone
    else
      GoneAfter(Next(st, evs[0]), evs[1..], n,
                !Enters(st, evs[0], n) && (Removes(st, evs[0], n) || gone))
  }

  lemma {:induction false} NameAfterRun(st: State, evs: seq<Event>, n: string)
    requires Inv(st) && Run(st, evs)
    ensures TableHas(After(st, evs), n) <==> !GoneAfter(st, evs, n, !TableHas(st, n))
    decreases |evs|
  {
    if evs != [] {
      NameStep(st, evs[0], n);
      StepKeepsInv(st, evs[0]);
      hide Inv, Next, TableHas, Enters, Removes;
      NameAfterRun(Next(st, evs[0]), evs[1..], n);
    }
  }

  lemma {:induction false} ConnStays(st: State, evs: seq<Event>, t: nat)
    requires Shaped(st) && Run(st, evs) && t in st.conns && Step(t) !in evs
    ensures t in After(st, evs).conns && After(st, evs).conns[t] == st.conns[t]
    decreases |evs|
  {
    if evs != [] {
      MovedPhases(st, evs[0]);
      assert evs[0] in evs;
      hide Next;
      ConnStays(Next(st, evs[0]), evs[1..], t);
    }
  }

  /** A CREATE writes its record into the table, others act, and then it writes its name into
      the trie. The trie gets ahead of the table exactly when the name is too long for a
      record, or was removed from the table in between and not entered again, and no DELETE
      is left to take it out of the trie. */
  lemma CreateGetsAhead(st: State, t: nat, evs: seq<Event>)
    requires Inv(st) && t in st.conns && st.conns[t].phase == EnterTable
    requires Run(Next(st, Step(t)), evs) && Step(t) !in evs
    requires IndexedBut(After(Next(st, Step(t)), evs))
    ensures var n, next := st.conns[t].request.file, Next(st, Step(t));
            var end := After(next, evs);
            && Enabled(end, Step(t))
            && (IndexedBut(Next(end, Step(t))) <==>
                  (|n| <= 255 && !GoneAfter(next, evs, n, false)) || RemovalPending(end, n))
  {
    var n, next := st.conns[t].request.file, Next(st, Step(t));
    var end := After(next, evs);
    assert t in next.conns && next.conns[t].phase == EnterTrie && next.conns[t].request.file == n by {
      EnteredConn(st, t);
    }
    NameStep(st, Step(t), n);
    StepKeepsInv(st, Step(t));
    assert Enters(st, Step(t), n) <==> |n| <= 255;
    hide Next, Run, After, TableHas, GoneAfter, RemovalPending, IndexedBut;
    RunKeepsInv(next, evs);
    ConnStays(next, evs, t);
    NameAfterRun(next, evs, n);
    LongNameAbsent(end, n);
    StepIndexed(end, Step(t));
  }

  lemma EnteredConn(st: State, t: nat)
    requires Shaped(st) && t in st.conns && st.conns[t].phase == EnterTable
    ensures var next := Next(st, Step(t));
            t in next.conns && next.conns[t] == st.conns[t].(phase := EnterTrie)
  {
  }

  lemma LongNameAbsent(st: State, n: string)
    requires Inv(st)
    ensures |n| > 255 ==> !TableHas(st, n)
  {
    hide TableOk, ShapeOk, Lookup;
  }

  /** From a server whose trie names no file that the table lacks: after any run without such
      a step, the same is true whenever no DELETE is half done. */
  lemma {:induction false} IndexedAtRest(st: State, evs: seq<Event>)
    requires Inv(st) && Run(st, evs) && IndexedBut(st) && NeverAhead(st, evs)
    ensures IndexedBut(After(st, evs))
    ensures (forall n :: !RemovalPending(After(st, evs), n)) ==> Indexed(After(st, evs).stock.store)
    decreases |evs|
  {
    if evs != [] {
      StepIndexed(st, evs[0]);
      StepKeepsInv(st, evs[0]);
      hide Inv, Next, IndexedBut, GetsAhead, RemovalPending, Indexed;
      IndexedAtRest(Next(st, evs[0]), evs[1..]);
    }
  }

  ghost predicate NeverAhead(st: State, evs: seq<Event>)
    requires Shaped(st) && Run(st, evs)
    decreases |evs|
  {
    evs == [] || (!GetsAhead(st, evs[0]) && NeverAhead(Next(st, evs[0]), evs[1..]))
  }

  // ---------------------------------------------------------------- the table against the trie

  /** A CREATE is about to write the name into the trie. */
  predicate Entering(st: State, t: nat, n: string) {
    t in st.conns && st.conns[t].phase == EnterTrie && st.conns[t].request.file == n
  }

  ghost predicate EntryPending(st: State, n: string) {
    exists t :: Entering(st, t, n)
  }

  /** Every file of the table is in the trie, but for those about to be entered. */
  ghost predicate ListedBut(st: State)
    requires |st.stock.store.table| == SIZE
  {
    forall n | TableHas(st, n) :: n in Keys(st.stock.store.trie) || EntryPending(st, n)
  }

  /** The name is in the trie, and the DELETE's trie write takes it out: it is the name
      itself or, as `TrieShape.DeleteKeys` says, one below the branch that is cut. */
  predicate TakenOut(st: State, e: Event, n: string) {
    && e.Step? && e.t in st.conns && st.conns[e.t].phase == RemoveTrie
    && n in Keys(st.stock.store.trie)
    && n !in Keys(TrieShape.Delete(st.stock.store.trie, st.conns[e.t].request.file))
  }

  /** A DELETE's trie write takes out the name of a file that the table has, or a CREATE
      enters a record under less than the name it will write into the trie. */
  ghost predicate LosesName(st: State, e: Event, n: string)
    requires |st.stock.store.table| == SIZE
  {
    && !EntryPending(st, n)
    && (|| (TakenOut(st, e, n) && TableHas(st, n))
        || (&& Enters(st, e, n) && |st.conns[e.t].request.file| > 255
            && n !in Keys(st.stock.store.trie)))
  }

  lemma TrieNames(st: State, e: Event, n: string)
    requires Inv(st) && Enabled(st, e)
    ensures n in Keys(Next(st, e).stock.store.trie) <==>
            || (e.Step? && Entering(st, e.t, n))
            || (n in Keys(st.stock.store.trie) && !TakenOut(st, e, n))
  {
    assert ShapeOk(st.stock.store.trie);
    hide StoreOk, BirthsOk, TestedOk, Moved, TrieShape.Insert, TrieShape.Delete, Keys, ShapeOk;
    if e.Step? {
      var c := st.conns[e.t];
      MovedTrie(st.stock, c);
      InsertAddsKey(st.stock.store.trie, c.request.file);
      DeleteShrinksKeys(st.stock.store.trie, c.request.file);
    }
  }

  /** Only the table write of a CREATE leads to its trie write. */
  lemma EnteringPhases(st: State, e: Event, n: string)
    requires Shaped(st) && Enabled(st, e)
    ensures EntryPending(Next(st, e), n) ==>
              EntryPending(st, n) ||
              (e.Step? && st.conns[e.t].phase == EnterTable && st.conns[e.t].request.file == n)
    ensures EntryPending(st, n) ==> EntryPending(Next(st, e), n) || (e.Step? && Entering(st, e.t, n))
    ensures e.Step? && st.conns[e.t].phase == EnterTable && st.conns[e.t].request.file == n ==>
              EntryPending(Next(st, e), n)
  {
    var after := Next(st, e);
    MovedPhases(st, e);
    MovedToTrie(st, e);
    hide Next;
    if t :| Entering(after, t, n) {
      assert Entering(st, t, n) || (e.Step? && e.t == t) || t !in st.conns;
    }
    if t :| Entering(st, t, n) {
      assert Entering(after, t, n) || (e.Step? && e.t == t);
    }
    if e.Step? && st.conns[e.t].phase == EnterTable && st.conns[e.t].request.file == n {
      assert Entering(after, e.t, n);
    }
  }

  lemma MovedToTrie(st: State, e: Event)
    requires Shaped(st) && Enabled(st, e)
    ensures e.Step? ==> e.t in Next(st, e).conns
    ensures e.Step? ==> (Next(st, e).conns[e.t].phase == EnterTrie <==> st.conns[e.t].phase == EnterTable)
  {
    hide Lookup;
  }

  /** One name at a time. */
  lemma NameListed(st: State, e: Event, n: string)
    requires Inv(st) && Enabled(st, e) && |st.stock.store.table| == SIZE && ListedBut(st)
    ensures var after := Next(st, e);
            (TableHas(after, n) ==> n in Keys(after.stock.store.trie) || EntryPending(after, n)) <==>
            !LosesName(st, e, n)
  {
    NameStep(st, e, n);
    TrieNames(st, e, n);
    EnteringPhases(st, e, n);
    ShortName(st, e, n);
    hide Inv, Next, Keys, TableHas, EntryPending, TrieShape.Delete;
  }

  lemma ShortName(st: State, e: Event, n: string)
    ensures Enters(st, e, n) && |st.conns[e.t].request.file| <= 255 ==> st.conns[e.t].request.file == n
    ensures Enters(st, e, n) && |st.conns[e.t].request.file| > 255 ==> st.conns[e.t].request.file != n
  {
  }

  /** In every reachable state: a step leaves the table with a file that the trie lacks exactly
      when a DELETE's trie write takes out a name that the table has, be it another name or
      its own entered again since, or when a CREATE enters a record whose name is cut. */
  lemma StepListed(st: State, e: Event)
    requires Inv(st) && Enabled(st, e) && |st.stock.store.table| == SIZE && ListedBut(st)
    ensures ListedBut(Next(st, e)) <==> forall n :: !LosesName(st, e, n)
  {
    forall n ensures var after := Next(st, e);
      (TableHas(after, n) ==> n in Keys(after.stock.store.trie) || EntryPending(after, n)) <==> !LosesName(st, e, n)
    {
      NameListed(st, e, n);
    }
    hide Inv, Next, Keys, TableHas, EntryPending, LosesName;
  }

  // ---------------------------------------------------------------- three runs

  /** A server with one storage server and no files. */
  function Bare(server: ServerInfo): State {
    State(Stock(NewStore().(servers := [server]), map[], 0), map[])
  }

  lemma BareInitial(server: ServerInfo)
    ensures Initial(Bare(server)) && Inv(Bare(server)) && IndexedBut(Bare(server))
    ensures forall n :: !TableHas(Bare(server), n)
  {
    NewStoreOk();
    assert Keys(NewStore().trie) == {};
    hide TableOk, ShapeOk, Lookup, NewStore, Keys;
    assert StoreOk(NewStore().(servers := [server]));
  }

  lemma BareServers(server: ServerInfo)
    ensures Bare(server).stock.store.servers == [server] && Bare(server).conns == map[]
    ensures |Bare(server).stock.store.table| == SIZE
  {
  }

  /** The file's record belongs to `owner`. */
  ghost predicate OwnedBy(st: State, file: string, owner: string)
    requires |st.stock.store.table| == SIZE
  {
    Lookup(st.stock.store.table, file).Some? && Lookup(st.stock.store.table, file).value.owner == owner
  }

  /** A user creates a file, served alone. */
  lemma CreateServedAlone(st: State, t: nat, user: string, file: string) returns (evs: seq<Event>, end: State)
    requires Inv(st) && t !in st.conns && |st.stock.store.table| == SIZE && st.stock.store.servers != []
    requires !TableHas(st, file) && |file| <= 255 && |user| <= 255
    ensures Leads(st, evs, end) && Inv(end) && |end.stock.store.table| == SIZE
    ensures OwnedBy(end, file, user) && end.stock.store.servers == st.stock.store.servers
    ensures t in end.conns && end.conns == st.conns[t := end.conns[t]] && end.conns[t].phase == Replied
  {
    var r := Create(user, file, 0);
    evs, end := ServedAlone(st, t, r);
    RunKeepsInv(st, evs);
    CreateHandled(st.stock.store, user, file);
    hide StoreOk, BirthsOk, TestedOk, Handled, Lookup;
  }

  lemma CreateHandled(s: Store, user: string, file: string)
    requires StoreOk(s) && |s.table| == SIZE && Lookup(s.table, file).None? && s.servers != []
    requires |file| <= 255 && |user| <= 255
    ensures var after := Handled(s, Create(user, file, 0)).0;
            && Lookup(after.table, file).Some? && Lookup(after.table, file).value.owner == user
            && after.servers == s.servers
  {
    var i := Chosen(s.next, |s.servers|);
    InsertRefines(s.table, NewFile(user, file, 0, s.servers[i]));
    hide Lookup, TableOk, ShapeOk, Inserted, TrieShape.Insert;
  }

  /** The owner deletes the file, served alone. */
  lemma DeleteServedAlone(st: State, t: nat, user: string, file: string) returns (evs: seq<Event>, end: State)
    requires Inv(st) && t !in st.conns && |st.stock.store.table| == SIZE && OwnedBy(st, file, user)
    ensures Leads(st, evs, end) && Inv(end) && |end.stock.store.table| == SIZE
    ensures !TableHas(end, file) && end.stock.store.servers == st.stock.store.servers
    ensures t in end.conns && end.conns == st.conns[t := end.conns[t]] && end.conns[t].phase == Replied
  {
    var r := Request.Delete(user, file);
    evs, end := ServedAlone(st, t, r);
    RunKeepsInv(st, evs);
    DeleteRefines(st.stock.store.table, file);
    hide StoreOk, BirthsOk, TestedOk, Lookup, HashTable.Deleted, TrieShape.Delete;
  }

  lemma LooksUpOwn(st: State, b: string, file: string)
    requires |st.stock.store.table| == SIZE && OwnedBy(st, file, b)
    ensures var c := LookedUp(st.stock, NewConn(Request.Delete(b, file)));
            c.phase == RemoveTable && c.request == Request.Delete(b, file)
  {
    hide Lookup;
  }

  /** User `b` creates a file and asks for its deletion; the DELETE stops behind its owner
      test. */
  lemma DeleteStops(server: ServerInfo, b: string, file: string) returns (evs: seq<Event>, st: State)
    requires |b| <= 255 && |file| <= 255
    ensures Initial(Bare(server)) && Leads(Bare(server), evs, st) && Inv(st) && |st.stock.store.table| == SIZE
    ensures OwnedBy(st, file, b) && st.stock.store.servers == [server] && st.conns.Keys == {1, 2}
    ensures st.conns[2].phase == RemoveTable && st.conns[2].request == Request.Delete(b, file)
    ensures st.conns[1].phase == Replied
  {
    hide Inv, Leads, Lookup, Initial, Bare, LookedUp, StoreOk;
    var st0 := Bare(server);
    BareInitial(server);
    BareServers(server);
    var x, st1 := CreateServedAlone(st0, 1, b, file);
    LooksUpOwn(st1, b, file);
    var y := LookUpAlone(st1, 2, Request.Delete(b, file));
    st := Scene(st1.conns, 2, LookedUp(st1.stock, NewConn(Request.Delete(b, file))), st1.stock);
    LeadsOn(st0, x, st1, y, st);
    LeadsInv(st1, y, st);
    evs := x + y;
  }

  /** `b` asks a second time and is served; user `c` creates a file of that name. Now the
      first DELETE goes on and removes it. */
  lemma OtherUserRemoves(server: ServerInfo, b: string, c: string, file: string)
    returns (evs: seq<Event>, st: State, end: State)
    requires b != c && |b| <= 255 && |c| <= 255 && |file| <= 255
    ensures Initial(Bare(server)) && Leads(Bare(server), evs, st) && |st.stock.store.table| == SIZE
    ensures OwnedBy(st, file, c) && Stale(st, 2, file, c)
    ensures st.conns[2].request == Request.Delete(b, file)
    ensures Enabled(st, Step(2)) && Shaped(st) && end == Next(st, Step(2))
    ensures |end.stock.store.table| == SIZE && !TableHas(end, file)
  {
    var st0 := Bare(server);
    hide Inv, Leads, Lookup, Initial, Bare, Next;
    var x, st2 := DeleteStops(server, b, file);
    var y, st3 := DeleteServedAlone(st2, 3, b, file);
    LeadsOn(st0, x, st2, y, st3);
    var z: seq<Event>;
    z, st := CreateServedAlone(st3, 4, c, file);
    LeadsOn(st0, x + y, st3, z, st);
    evs := x + y + z;
    assert st.conns[2] == st2.conns[2];
    LeadsInv(st3, z, st);
    StaleRemoves(st, 2, file);
    end := Next(st, Step(2));
  }

  lemma LeadsInv(st: State, evs: seq<Event>, end: State)
    requires Inv(st) && Leads(st, evs, end)
    ensures Inv(end) && Shaped(end)
  {
    RunKeepsInv(st, evs);
  }

  /** User `b` creates a file of a short name; between the CREATE's two writes a DELETE of it
      is served. When all is done the trie has a name that the table lacks. */
  lemma DeletedBetweenWrites(server: ServerInfo, b: string, file: string) returns (evs: seq<Event>, end: State)
    requires |b| <= 255 && |file| <= 255
    ensures Initial(Bare(server)) && Leads(Bare(server), evs, end) && |end.stock.store.table| == SIZE
    ensures end.conns.Keys == {1, 2} && end.conns[1].phase == Replied && end.conns[2].phase == Replied
    ensures file in Keys(end.stock.store.trie) && !TableHas(end, file)
  {
    hide Inv, Leads, Lookup, Initial, Bare, TableEntered, StoreOk, Moved, Keys;
    var st0, r := Bare(server), Create(b, file, 0);
    BareInitial(server);
    BareServers(server);
    assert !TableHas(st0, file);
    var x1 := CreateAlone(st0, 1, r);
    var (half, c) := HalfCreated(st0.stock, r);
    var st1 := Scene(st0.conns, 1, c, half);
    LeadsInv(st0, x1, st1);
    HalfOwned(st0, r);
    var x2, st2 := DeleteServedAlone(st1, 2, b, file);
    LeadsOn(st0, x1, st1, x2, st2);
    assert st2.conns[1] == c;
    assert Shaped(st2) by {
      LeadsInv(st1, x2, st2);
    }
    OneEvent(st2, Step(1));
    end := Next(st2, Step(1));
    LeadsOn(st0, x1 + x2, st2, [Step(1)], end);
    evs := x1 + x2 + [Step(1)];
    KeysStep(st2, Step(1));
    NameStep(st2, Step(1), file);
    RepliedOnce(st2);
  }

  lemma RepliedOnce(st: State)
    requires Shaped(st) && 1 in st.conns && st.conns[1].phase == EnterTrie
    ensures var end := Next(st, Step(1));
            1 in end.conns && end.conns == st.conns[1 := end.conns[1]] && end.conns[1].phase == Replied
  {
  }

  lemma HalfOwned(st: State, r: Request)
    requires Inv(st) && |st.stock.store.table| == SIZE && r.Create? && st.stock.store.servers != []
    requires !TableHas(st, r.file) && |r.file| <= 255 && |r.user| <= 255
    ensures var (half, c) := HalfCreated(st.stock, r);
            && |half.store.table| == SIZE && half.store.servers == st.stock.store.servers
            && Lookup(half.store.table, r.file).Some? && Lookup(half.store.table, r.file).value.owner == r.user
  {
    var (half, c) := HalfCreated(st.stock, r);
    InsertRefines(st.stock.store.table, RecordOf(c));
    hide Lookup, StoreOk, BirthsOk, TestedOk, Inserted;
  }

  /** User `b` creates a file and deletes it; between the DELETE's two writes `c` creates a
      file of that name. When all is done the table has a file that the trie lacks. */
  lemma CreatedBetweenWrites(server: ServerInfo, b: string, c: string, file: string)
    returns (evs: seq<Event>, end: State)
    requires |b| <= 255 && |c| <= 255 && |file| <= 255
    ensures Initial(Bare(server)) && Leads(Bare(server), evs, end) && |end.stock.store.table| == SIZE
    ensures OwnedBy(end, file, c) && file !in Keys(end.stock.store.trie)
    ensures end.conns.Keys == {1, 2, 3} && forall t | t in end.conns :: end.conns[t].phase == Replied
  {
    hide Inv, Leads, Lookup, Initial, Bare, Next, Keys, Moved;
    var st0 := Bare(server);
    var x, st2 := DeleteStops(server, b, file);
    var y, st3 := RemovesFromTable(st2, b, file);
    LeadsOn(st0, x, st2, y, st3);
    var z, st4 := CreateServedAlone(st3, 3, c, file);
    LeadsOn(st0, x + y, st3, z, st4);
    LeadsInv(st3, z, st4);
    assert st4.conns[2] == st3.conns[2] && st4.conns[1] == st3.conns[1];
    OneEvent(st4, Step(2));
    end := Next(st4, Step(2));
    LeadsOn(st0, x + y + z, st4, [Step(2)], end);
    evs := x + y + z + [Step(2)];
    LastRemoval(st4, file, c);
  }

  lemma RemovesFromTable(st: State, b: string, file: string) returns (evs: seq<Event>, end: State)
    requires Inv(st) && |st.stock.store.table| == SIZE && OwnedBy(st, file, b) && 2 in st.conns
    requires st.conns[2].phase == RemoveTable && st.conns[2].request == Request.Delete(b, file)
    ensures Leads(st, evs, end) && Inv(end) && |end.stock.store.table| == SIZE && !TableHas(end, file)
    ensures end.stock.store.servers == st.stock.store.servers
    ensures 2 in end.conns && end.conns == st.conns[2 := end.conns[2]]
    ensures end.conns[2].phase == RemoveTrie && end.conns[2].request == st.conns[2].request
  {
    DeleteRefines(st.stock.store.table, file);
    StepKeepsInv(st, Step(2));
    OneEvent(st, Step(2));
    hide Inv, Lookup, HashTable.Deleted, Leads;
    evs, end := [Step(2)], Next(st, Step(2));
  }

  lemma LastRemoval(st: State, file: string, c: string)
    requires Inv(st) && |st.stock.store.table| == SIZE && OwnedBy(st, file, c) && 2 in st.conns
    requires st.conns[2].phase == RemoveTrie && st.conns[2].request.file == file
    ensures Enabled(st, Step(2)) && Shaped(st)
    ensures var end := Next(st, Step(2));
            && |end.stock.store.table| == SIZE && OwnedBy(end, file, c) && file !in Keys(end.stock.store.trie)
            && 2 in end.conns && end.conns == st.conns[2 := end.conns[2]] && end.conns[2].phase == Replied
  {
    KeysStep(st, Step(2));
    hide StoreOk, BirthsOk, TestedOk, Lookup, Keys, TrieShape.Delete;
  }
}
