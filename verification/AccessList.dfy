/** Access-control lists of the name server. */
module AccessList {
  datatype AccessEntry = AccessEntry(user: string, perm: char)

  /** `get_access`, with NUL for no entry. */
  function Granted(list: seq<AccessEntry>, user: string): char {
    if list == [] then '\0'
    else if list[0].user == user then list[0].perm
    else Granted(list[1..], user)
  }

  /** `add_access`: an existing entry is changed in place, a new one goes to the front. */
  function Added(list: seq<AccessEntry>, user: string, perm: char): seq<AccessEntry> {
    if Names(list, user) then Changed(list, user, perm) else [AccessEntry(user, perm)] + list
  }

  predicate Names(list: seq<AccessEntry>, user: string) {
    exists i | 0 <= i < |list| :: list[i].user == user
  }

  function Changed(list: seq<AccessEntry>, user: string, perm: char): seq<AccessEntry> {
    if list == [] then []
    else if list[0].user == user then [AccessEntry(user, perm)] + list[1..]
    else [list[0]] + Changed(list[1..], user, perm)
  }

  /** `remove_access`. */
  function Removed(list: seq<AccessEntry>, user: string): seq<AccessEntry> {
    if list == [] then []
    else if list[0].user == user then list[1..]
    else [list[0]] + Removed(list[1..], user)
  }

  /** `check_access`. */
  predicate Allowed(owner: string, list: seq<AccessEntry>, user: string, required: char) {
    || owner == user
    || (required == 'R' && (Granted(list, user) == 'R' || Granted(list, user) == 'W'))
    || (required == 'W' && Granted(list, user) == 'W')
  }

  /** No user is listed twice. */
  predicate Distinct(list: seq<AccessEntry>) {
    forall i, j | 0 <= i < j < |list| :: list[i].user != list[j].user
  }

  class AccessControl {
    var entries: seq<AccessEntry>

    constructor ()
      ensures entries == []
    {
      entries := [];
    }

    method AddAccess(user: string, perm: char)
      modifies this
      ensures entries == Added(old(entries), user, perm)
    {
      for i := 0 to |entries|
        invariant entries == old(entries)
        invariant forall j | 0 <= j < i :: entries[j].user != user
      {
        if entries[i].user == user {
          ChangedAt(entries, i, user, perm);
          entries := entries[i := AccessEntry(user, perm)];
          return;
        }
      }
      entries := [AccessEntry(user, perm)] + entries;
    }

    method RemoveAccess(user: string)
      modifies this
      ensures entries == Removed(old(entries), user)
    {
      for i := 0 to |entries|
        invariant entries == old(entries)
        invariant forall j | 0 <= j < i :: entries[j].user != user
      {
        if entries[i].user == user {
          RemovedAt(entries, i, user);
          entries := entries[..i] + entries[i + 1..];
          return;
        }
      }
      RemovedAt(entries, |entries|, user);
    }

    method GetAccess(user: string) returns (perm: char)
      ensures perm == Granted(entries, user)
    {
      assert entries[0..] == entries;
      for i := 0 to |entries|
        invariant Granted(entries[i..], user) == Granted(entries, user)
      {
        assert entries[i..][0] == entries[i] && entries[i..][1..] == entries[i + 1..];
        if entries[i].user == user {
          return entries[i].perm;
        }
      }
      return '\0';
    }

    method CheckAccess(owner: string, user: string, required: char) returns (allowed: bool)
      ensures allowed <==> Allowed(owner, entries, user, required)
    {
      if owner == user {
        return true;
      }
      var perm := GetAccess(user);
      if required == 'R' && (perm == 'R' || perm == 'W') {
        return true;
      }
      if required == 'W' && perm == 'W' {
        return true;
      }
      return false;
    }
  }

  lemma {:induction false} ChangedAt(list: seq<AccessEntry>, i: nat, user: string, perm: char)
    requires i < |list| && list[i].user == user && forall j | 0 <= j < i :: list[j].user != user
    ensures Changed(list, user, perm) == list[i := AccessEntry(user, perm)]
  {
    if i > 0 {
      ChangedAt(list[1..], i - 1, user, perm);
    }
  }

  lemma {:induction false} RemovedAt(list: seq<AccessEntry>, i: nat, user: string)
    requires i <= |list| && (i < |list| ==> list[i].user == user)
    requires forall j | 0 <= j < i :: list[j].user != user
    ensures Removed(list, user) == if i < |list| then list[..i] + list[i + 1..] else list
  {
    if i > 0 {
      RemovedAt(list[1..], i - 1, user);
    }
  }

  lemma {:induction false} GrantedUnlisted(list: seq<AccessEntry>, user: string)
    requires !Names(list, user)
    ensures Granted(list, user) == '\0'
  {
    if list != [] {
      assert list[0].user != user;
      forall i | 0 <= i < |list[1..]| ensures list[1..][i].user != user {
        assert list[i + 1].user != user;
      }
      GrantedUnlisted(list[1..], user);
    }
  }

  /** Granting sets exactly one user's permission and lists nobody twice. */
  lemma {:induction false} AddedGrants(list: seq<AccessEntry>, user: string, perm: char)
    requires Distinct(list)
    ensures Distinct(Added(list, user, perm))
    ensures forall u :: Granted(Added(list, user, perm), u) == if u == user then perm else Granted(list, u)
  {
    if Names(list, user) {
      ChangedGrants(list, user, perm);
    } else {
      var added := [AccessEntry(user, perm)] + list;
      assert added[1..] == list;
    }
  }

  lemma {:induction false} ChangedGrants(list: seq<AccessEntry>, user: string, perm: char)
    requires Distinct(list) && Names(list, user)
    ensures var r := Changed(list, user, perm);
            |r| == |list| && forall i | 0 <= i < |r| :: r[i].user == list[i].user
    ensures forall u :: Granted(Changed(list, user, perm), u) == if u == user then perm else Granted(list, u)
  {
    var r := Changed(list, user, perm);
    if list[0].user == user {
      assert r[1..] == list[1..];
    } else {
      var i :| 0 <= i < |list| && list[i].user == user;
      assert list[1..][i - 1].user == user;
      ChangedGrants(list[1..], user, perm);
      assert r[1..] == Changed(list[1..], user, perm);
    }
  }

  lemma {:induction false} RemovedMembers(list: seq<AccessEntry>, user: string)
    requires Distinct(list)
    ensures Distinct(Removed(list, user))
    ensures forall e | e in Removed(list, user) :: e in list && e.user != user
  {
    if list != [] && list[0].user != user {
      RemovedMembers(list[1..], user);
      assert Removed(list, user)[1..] == Removed(list[1..], user);
    }
  }

  /** Revoking takes away exactly one user's permission. */
  lemma {:induction false} RemovedGrants(list: seq<AccessEntry>, user: string, u: string)
    requires Distinct(list)
    ensures Granted(Removed(list, user), u) == if u == user then '\0' else Granted(list, u)
  {
    if list == [] {
    } else if list[0].user == user {
      if u == user {
        GrantedUnlisted(list[1..], user);
      }
    } else {
      RemovedGrants(list[1..], user, u);
      assert Removed(list, user)[1..] == Removed(list[1..], user);
    }
  }
}
