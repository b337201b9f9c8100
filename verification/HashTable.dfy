/** The name server's file table: chained hashing that behaves as a finite map. */
module HashTable {
  import opened Text
  import opened AccessList

  datatype FileMeta = FileMeta(
    name: string,
    owner: string,
    access: seq<AccessEntry>,
    ip: string,
    port: int,
    size: int,
    words: int,
    chars: int,
    modified: int)

  const SIZE := 1024

  /** djb2 in a 64-bit unsigned word. */
  function Djb2(key: string, hash: nat): nat {
    if key == "" then hash
    else Djb2(key[1..], (hash * 32 + hash + key[0] as int) % 0x1_0000_0000_0000_0000)
  }

  function Bucket(key: string): (b: nat)
    ensures b < SIZE
  {
    Djb2(key, 5381) % SIZE
  }

  /** 5381 * 33^n + key[0] * 33^(n-1) + ... + key[n-1]. */
  function Polynomial(key: string): nat {
    if key == "" then 5381 else 33 * Polynomial(key[..|key| - 1]) + key[|key| - 1] as int
  }

  lemma {:induction false} Djb2Snoc(key: string, hash: nat, c: char)
    ensures Djb2(key + [c], hash) == (33 * Djb2(key, hash) + c as int) % 0x1_0000_0000_0000_0000
  {
    if key == "" {
      assert key + [c] == [c] && [c][1..] == "";
    } else {
      assert (key + [c])[1..] == key[1..] + [c];
      Djb2Snoc(key[1..], (hash * 32 + hash + key[0] as int) % 0x1_0000_0000_0000_0000, c);
    }
  }

  /** 1024 divides the word size, so the wrap-around does not show. */
  lemma WordThenSize(a: nat)
    ensures (a % 0x1_0000_0000_0000_0000) % 1024 == a % 1024
  {
    var q := a / 0x1_0000_0000_0000_0000;
    assert a == (a % 0x1_0000_0000_0000_0000) + 1024 * (q * 0x40_0000_0000_0000);
    Multiple(a % 0x1_0000_0000_0000_0000, q * 0x40_0000_0000_0000);
  }

  lemma Multiple(a: int, q: int)
    ensures (a + 1024 * q) % 1024 == a % 1024
  {
  }

  lemma TimesThirtyThree(a: nat, b: nat, c: nat)
    requires a % 1024 == b % 1024
    ensures (33 * a + c) % 1024 == (33 * b + c) % 1024
  {
    var q := a / 1024 - b / 1024;
    assert a == b + 1024 * q;
    assert 33 * a + c == (33 * b + c) + 1024 * (33 * q);
    Multiple(33 * b + c, 33 * q);
  }

  /** The bucket is the polynomial modulo 1024, as if the hash had no bounds. */
  lemma {:induction false} BucketIsPolynomial(key: string)
    ensures Bucket(key) == Polynomial(key) % 1024
  {
    if key != "" {
      var front, c := key[..|key| - 1], key[|key| - 1];
      assert key == front + [c];
      BucketIsPolynomial(front);
      Djb2Snoc(front, 5381, c);
      WordThenSize(33 * Djb2(front, 5381) + c as int);
      TimesThirtyThree(Djb2(front, 5381), Polynomial(front), c as int);
    }
  }

  method HashFunction(key: string) returns (index: nat)
    ensures index == Bucket(key) == Polynomial(key) % 1024
  {
    BucketIsPolynomial(key);
    var hash: nat := 5381;
    assert key[0..] == key;
    for i := 0 to |key|
      invariant Djb2(key[i..], hash) == Djb2(key, 5381)
    {
      assert key[i..][0] == key[i] && key[i..][1..] == key[i + 1..];
      hash := (hash * 32 + hash + key[i] as int) % 0x1_0000_0000_0000_0000;
    }
    index := hash % SIZE;
  }

  // ---------------------------------------------------------------- chains

  function Find(chain: seq<FileMeta>, name: string): Option<FileMeta> {
    if chain == [] then None
    else if chain[0].name == name then Some(chain[0])
    else Find(chain[1..], name)
  }

  function Drop(chain: seq<FileMeta>, name: string): seq<FileMeta> {
    if chain == [] then []
    else if chain[0].name == name then chain[1..]
    else [chain[0]] + Drop(chain[1..], name)
  }

  lemma {:induction false} FindAt(chain: seq<FileMeta>, i: nat, name: string)
    requires i <= |chain| && (i < |chain| ==> chain[i].name == name)
    requires forall j | 0 <= j < i :: chain[j].name != name
    ensures Find(chain, name) == if i < |chain| then Some(chain[i]) else None
    ensures Drop(chain, name) == if i < |chain| then chain[..i] + chain[i + 1..] else chain
  {
    if i > 0 {
      FindAt(chain[1..], i - 1, name);
    }
  }

  predicate DistinctNames(chain: seq<FileMeta>) {
    forall i, j | 0 <= i < j < |chain| :: chain[i].name != chain[j].name
  }

  lemma {:induction false} FindMember(chain: seq<FileMeta>, i: nat)
    requires DistinctNames(chain) && i < |chain|
    ensures Find(chain, chain[i].name) == Some(chain[i])
  {
    FindAt(chain, i, chain[i].name);
  }

  lemma {:induction false} FindNamed(chain: seq<FileMeta>, name: string)
    ensures Find(chain, name).Some? ==>
              Find(chain, name).value in chain && Find(chain, name).value.name == name
    ensures Find(chain, name).None? ==> forall m | m in chain :: m.name != name
  {
    if chain != [] && chain[0].name != name {
      FindNamed(chain[1..], name);
    }
  }

  lemma {:induction false} DropMembers(chain: seq<FileMeta>, name: string)
    requires DistinctNames(chain)
    ensures DistinctNames(Drop(chain, name))
    ensures forall m | m in Drop(chain, name) :: m in chain && m.name != name
  {
    if chain != [] && chain[0].name != name {
      DropMembers(chain[1..], name);
      assert Drop(chain, name)[1..] == Drop(chain[1..], name);
    }
  }

  lemma {:induction false} DropFinds(chain: seq<FileMeta>, name: string, n: string)
    requires DistinctNames(chain)
    ensures Find(Drop(chain, name), n) == if n == name then None else Find(chain, n)
  {
    if chain == [] {
    } else if chain[0].name == name {
      FindNamed(chain[1..], n);
    } else {
      DropFinds(chain[1..], name, n);
      assert Drop(chain, name)[1..] == Drop(chain[1..], name);
    }
  }

  // ---------------------------------------------------------------- tables

  /** Every record sits in the bucket of its own name, and no name occurs twice. */
  predicate TableOk(b: seq<seq<FileMeta>>) {
    && |b| == SIZE
    && (forall i | 0 <= i < SIZE :: DistinctNames(b[i]))
    && (forall i, m | 0 <= i < SIZE && m in b[i] :: Bucket(m.name) == i)
  }

  function Lookup(b: seq<seq<FileMeta>>, name: string): Option<FileMeta>
    requires |b| == SIZE
  {
    Find(b[Bucket(name)], name)
  }

  function Inserted(b: seq<seq<FileMeta>>, meta: FileMeta): seq<seq<FileMeta>>
    requires |b| == SIZE
  {
    var i := Bucket(meta.name);
    if Find(b[i], meta.name).Some? then b else b[i := [meta] + b[i]]
  }

  function Deleted(b: seq<seq<FileMeta>>, name: string): seq<seq<FileMeta>>
    requires |b| == SIZE
  {
    b[Bucket(name) := Drop(b[Bucket(name)], name)]
  }

  /** Changing the record that is stored under its own name. */
  function Updated(b: seq<seq<FileMeta>>, meta: FileMeta): seq<seq<FileMeta>>
    requires |b| == SIZE
  {
    b[Bucket(meta.name) := Swapped(b[Bucket(meta.name)], meta)]
  }

  function Swapped(chain: seq<FileMeta>, meta: FileMeta): seq<FileMeta> {
    if chain == [] then []
    else if chain[0].name == meta.name then [meta] + chain[1..]
    else [chain[0]] + Swapped(chain[1..], meta)
  }

  lemma {:induction false} SwappedAt(chain: seq<FileMeta>, i: nat, meta: FileMeta)
    requires i < |chain| && chain[i].name == meta.name
    requires forall j | 0 <= j < i :: chain[j].name != meta.name
    ensures Swapped(chain, meta) == chain[i := meta]
  {
    if i > 0 {
      SwappedAt(chain[1..], i - 1, meta);
    }
  }

  lemma {:induction false} SwappedFinds(chain: seq<FileMeta>, meta: FileMeta, n: string)
    ensures Find(Swapped(chain, meta), n) ==
            if n == meta.name && Find(chain, n).Some? then Some(meta) else Find(chain, n)
  {
    if chain != [] && chain[0].name != meta.name {
      SwappedFinds(chain[1..], meta, n);
      assert Swapped(chain, meta)[1..] == Swapped(chain[1..], meta);
    }
  }

  lemma {:induction false} SwappedNames(chain: seq<FileMeta>, meta: FileMeta)
    ensures |Swapped(chain, meta)| == |chain|
    ensures forall i | 0 <= i < |chain| :: Swapped(chain, meta)[i].name == chain[i].name
  {
    if chain != [] && chain[0].name != meta.name {
      SwappedNames(chain[1..], meta);
    }
  }

  /** A change in place touches exactly the one record. */
  lemma ChangeRefines(b: seq<seq<FileMeta>>, meta: FileMeta)
    requires TableOk(b)
    ensures TableOk(Updated(b, meta))
    ensures forall n :: Lookup(Updated(b, meta), n) ==
              if n == meta.name && Lookup(b, n).Some? then Some(meta) else Lookup(b, n)
  {
    var i := Bucket(meta.name);
    SwappedNames(b[i], meta);
    forall n ensures Lookup(Updated(b, meta), n) ==
                     if n == meta.name && Lookup(b, n).Some? then Some(meta) else Lookup(b, n)
    {
      SwappedFinds(b[i], meta, n);
    }
    var after := Updated(b, meta);
    hide Bucket, Swapped;
    forall j, m: FileMeta | 0 <= j < SIZE && m in after[j] ensures Bucket(m.name) == j {
      if j == i {
        var x :| 0 <= x < |after[i]| && after[i][x] == m;
        assert b[i][x] in b[i];
      }
    }
  }

  /** Insertion adds exactly the new name, and only when it is new. */
  lemma InsertRefines(b: seq<seq<FileMeta>>, meta: FileMeta)
    requires TableOk(b)
    ensures TableOk(Inserted(b, meta))
    ensures forall n :: Lookup(Inserted(b, meta), n) ==
              if n == meta.name && Lookup(b, n).None? then Some(meta) else Lookup(b, n)
  {
    var i := Bucket(meta.name);
    FindNamed(b[i], meta.name);
    var chain := [meta] + b[i];
    assert chain[1..] == b[i];
    hide Bucket;
  }

  /** Deletion removes exactly the name. */
  lemma DeleteRefines(b: seq<seq<FileMeta>>, name: string)
    requires TableOk(b)
    ensures TableOk(Deleted(b, name))
    ensures forall n :: Lookup(Deleted(b, name), n) == if n == name then None else Lookup(b, n)
  {
    DropMembers(b[Bucket(name)], name);
    forall n ensures Lookup(Deleted(b, name), n) == if n == name then None else Lookup(b, n) {
      DropFinds(b[Bucket(name)], name, n);
    }
    hide Bucket;
  }

  /** A name that is somewhere in the chain and not so far is further on. */
  lemma NextInChain(chain: seq<FileMeta>, i: nat, name: string)
    requires i < |chain| && Find(chain, name).Some?
    requires forall j | 0 <= j <= i :: chain[j].name != name
    ensures i + 1 < |chain|
  {
    if i + 1 == |chain| {
      FindAt(chain, |chain|, name);
    }
  }

  class Table {
    const buckets: array<seq<FileMeta>>

    ghost predicate Valid()
      reads buckets
    {
      TableOk(buckets[..])
    }

    constructor ()
      ensures Valid() && fresh(buckets)
      ensures buckets[..] == seq(SIZE, _ => [])
      ensures forall n :: Lookup(buckets[..], n) == None
    {
      buckets := new seq<FileMeta>[SIZE](_ => []);
      new;
      assert forall i | 0 <= i < SIZE :: buckets[..][i] == [];
    }

    method Insert(meta: FileMeta) returns (ok: bool)
      requires Valid()
      modifies buckets
      ensures Valid() && buckets[..] == Inserted(old(buckets[..]), meta)
      ensures ok <==> Lookup(old(buckets[..]), meta.name).None?
      ensures ok ==> buckets[Bucket(meta.name)] == [meta] + old(buckets[Bucket(meta.name)])
    {
      InsertRefines(buckets[..], meta);
      var index := HashFunction(meta.name);
      var chain := buckets[index];
      for i := 0 to |chain|
        invariant forall j | 0 <= j < i :: chain[j].name != meta.name
      {
        if chain[i].name == meta.name {
          FindAt(chain, i, meta.name);
          return false;
        }
      }
      FindAt(chain, |chain|, meta.name);
      buckets[index] := [meta] + chain;
      assert buckets[..] == old(buckets[..])[index := [meta] + chain];
      return true;
    }

    method Get(name: string) returns (meta: Option<FileMeta>)
      requires Valid()
      ensures meta == Lookup(buckets[..], name)
    {
      var index := HashFunction(name);
      var chain := buckets[index];
      for i := 0 to |chain|
        invariant forall j | 0 <= j < i :: chain[j].name != name
      {
        if chain[i].name == name {
          FindAt(chain, i, name);
          return Some(chain[i]);
        }
      }
      FindAt(chain, |chain|, name);
      return None;
    }

    /** What a handler does through the pointer `ht_get` gave it. */
    method Change(meta: FileMeta)
      requires Valid() && Lookup(buckets[..], meta.name).Some?
      modifies buckets
      ensures Valid() && buckets[..] == Updated(old(buckets[..]), meta)
    {
      ChangeRefines(buckets[..], meta);
      var index := HashFunction(meta.name);
      var chain := buckets[index];
      FindNamed(chain, meta.name);
      assert Find(chain, meta.name).Some?;
      assert old(buckets[..])[index := Swapped(chain, meta)] == Updated(old(buckets[..]), meta);
      hide Find, Swapped, Updated, Bucket;
      var i := 0;
      while chain[i].name != meta.name
        invariant 0 <= i < |chain| && buckets[..] == old(buckets[..])
        invariant forall j | 0 <= j < i :: chain[j].name != meta.name
        decreases |chain| - i
      {
        NextInChain(chain, i, meta.name);
        i := i + 1;
      }
      SwappedAt(chain, i, meta);
      buckets[index] := chain[i := meta];
      assert buckets[..] == old(buckets[..])[index := chain[i := meta]];
    }

    method Delete(name: string)
      requires Valid()
      modifies buckets
      ensures Valid() && buckets[..] == Deleted(old(buckets[..]), name)
    {
      DeleteRefines(buckets[..], name);
      var index := HashFunction(name);
      var chain := buckets[index];
      for i := 0 to |chain|
        invariant forall j | 0 <= j < i :: chain[j].name != name
      {
        if chain[i].name == name {
          FindAt(chain, i, name);
          buckets[index] := chain[..i] + chain[i + 1..];
          assert buckets[..] == old(buckets[..])[index := chain[..i] + chain[i + 1..]];
          return;
        }
      }
      FindAt(chain, |chain|, name);
      assert old(buckets[..])[index := chain] == buckets[..];
    }
  }

  // ---------------------------------------------------------------- runs

  /** Insert, get and delete, and a change through the pointer that get gives out. */
  datatype TableOp = Insert(meta: FileMeta) | Get(name: string) | Change(meta: FileMeta) | Delete(name: string)

  datatype Outcome = Entered(ok: bool) | Found(meta: Option<FileMeta>) | Done

  function TableStep(b: seq<seq<FileMeta>>, op: TableOp): (r: (seq<seq<FileMeta>>, Outcome))
    requires |b| == SIZE
    ensures |r.0| == SIZE
  {
    match op
    case Insert(meta) => (Inserted(b, meta), Entered(Lookup(b, meta.name).None?))
    case Get(name) => (b, Found(Lookup(b, name)))
    case Change(meta) => (Updated(b, meta), Done)
    case Delete(name) => (Deleted(b, name), Done)
  }

  /** The same on a finite map: inserting a present name fails, changing an absent one does
      nothing. */
  function MapStep(m: map<string, FileMeta>, op: TableOp): (map<string, FileMeta>, Outcome) {
    match op
    case Insert(meta) => if meta.name in m then (m, Entered(false)) else (m[meta.name := meta], Entered(true))
    case Get(name) => (m, Found(if name in m then Some(m[name]) else None))
    case Change(meta) => (if meta.name in m then m[meta.name := meta] else m, Done)
    case Delete(name) => (m - {name}, Done)
  }

  function Applied(b: seq<seq<FileMeta>>, ops: seq<TableOp>): (r: (seq<seq<FileMeta>>, seq<Outcome>))
    requires |b| == SIZE
    ensures |r.0| == SIZE
    decreases |ops|
  {
    if ops == [] then (b, [])
    else
      var (next, outcome) := TableStep(b, ops[0]);
      var (end, outcomes) := Applied(next, ops[1..]);
      (end, [outcome] + outcomes)
  }

  function MapApplied(m: map<string, FileMeta>, ops: seq<TableOp>): (map<string, FileMeta>, seq<Outcome>)
    decreases |ops|
  {
    if ops == [] then (m, [])
    else
      var (next, outcome) := MapStep(m, ops[0]);
      var (end, outcomes) := MapApplied(next, ops[1..]);
      (end, [outcome] + outcomes)
  }

  ghost predicate Represents(b: seq<seq<FileMeta>>, m: map<string, FileMeta>) {
    TableOk(b) && forall n :: Lookup(b, n) == if n in m then Some(m[n]) else None
  }

  lemma InsertIsMap(b: seq<seq<FileMeta>>, m: map<string, FileMeta>, meta: FileMeta)
    requires Represents(b, m)
    ensures Represents(Inserted(b, meta), if meta.name in m then m else m[meta.name := meta])
  {
    InsertRefines(b, meta);
    hide Lookup, Inserted, TableOk;
  }

  lemma ChangeIsMap(b: seq<seq<FileMeta>>, m: map<string, FileMeta>, meta: FileMeta)
    requires Represents(b, m)
    ensures Represents(Updated(b, meta), if meta.name in m then m[meta.name := meta] else m)
  {
    ChangeRefines(b, meta);
    hide Lookup, Updated, TableOk;
  }

  lemma DeleteIsMap(b: seq<seq<FileMeta>>, m: map<string, FileMeta>, name: string)
    requires Represents(b, m)
    ensures Represents(Deleted(b, name), m - {name})
  {
    DeleteRefines(b, name);
    hide Lookup, Deleted, TableOk;
  }

  lemma StepIsMap(b: seq<seq<FileMeta>>, m: map<string, FileMeta>, op: TableOp)
    requires Represents(b, m)
    ensures Represents(TableStep(b, op).0, MapStep(m, op).0)
    ensures TableStep(b, op).1 == MapStep(m, op).1
  {
    match op
    case Insert(meta) =>
      assert Lookup(b, meta.name).Some? <==> meta.name in m;
      InsertIsMap(b, m, meta);
    case Get(name) =>
      assert Lookup(b, name) == if name in m then Some(m[name]) else None;
    case Change(meta) =>
      ChangeIsMap(b, m, meta);
    case Delete(name) =>
      DeleteIsMap(b, m, name);
    hide Represents, Lookup, Inserted, Updated, Deleted;
  }

  /** Over any sequence of operations the table is the finite map, and answers as it does. */
  lemma {:induction false} TableIsMap(b: seq<seq<FileMeta>>, m: map<string, FileMeta>, ops: seq<TableOp>)
    requires Represents(b, m)
    ensures Represents(Applied(b, ops).0, MapApplied(m, ops).0)
    ensures Applied(b, ops).1 == MapApplied(m, ops).1
    decreases |ops|
  {
    if ops != [] {
      StepIsMap(b, m, ops[0]);
      hide Represents, TableStep, MapStep;
      assert |b| == SIZE;
      TableIsMap(TableStep(b, ops[0]).0, MapStep(m, ops[0]).0, ops[1..]);
    }
  }
}
