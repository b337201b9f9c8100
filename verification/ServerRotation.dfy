/** Round-robin choice of the storage server for a new file. */
module ServerRotation {
  import opened Text

  datatype ServerInfo = ServerInfo(socket: int, ip: string, port: int)

  /** The index chosen when the counter stands at `next` and there are `n` servers. */
  function Chosen(next: nat, n: nat): nat {
    if next >= n then 0 else next
  }

  /** How many of `m` consecutive choices fall on server `j`. */
  function TimesChosen(next: nat, n: nat, m: nat, j: nat): nat
    requires n > 0
    decreases m
  {
    if m == 0 then 0
    else (if Chosen(next, n) == j then 1 else 0) + TimesChosen(Chosen(next, n) + 1, n, m - 1, j)
  }

  class Registry {
    var servers: seq<ServerInfo>
    var nextIndex: nat

    constructor ()
      ensures servers == [] && nextIndex == 0
    {
      servers, nextIndex := [], 0;
    }

    method AddServer(s: ServerInfo)
      modifies this`servers
      ensures servers == [s] + old(servers)
    {
      servers := [s] + servers;
    }

    /** `remove_ss`: the first server on that socket goes. */
    method RemoveServer(socket: int)
      modifies this`servers
      ensures (forall s | s in old(servers) :: s.socket != socket) ==> servers == old(servers)
      ensures (exists s | s in old(servers) :: s.socket == socket) ==>
                exists i | 0 <= i < |old(servers)| ::
                  && old(servers)[i].socket == socket
                  && (forall j | 0 <= j < i :: old(servers)[j].socket != socket)
                  && servers == old(servers)[..i] + old(servers)[i + 1..]
    {
      for i := 0 to |servers|
        invariant servers == old(servers)
        invariant forall j | 0 <= j < i :: servers[j].socket != socket
      {
        if servers[i].socket == socket {
          servers := servers[..i] + servers[i + 1..];
          return;
        }
      }
    }

    /** `get_ss_for_new_file`. */
    method ServerForNewFile() returns (s: Option<ServerInfo>)
      modifies this`nextIndex
      ensures servers == [] ==> s == None && nextIndex == old(nextIndex)
      ensures old(nextIndex) < |servers| ==>
                s == Some(servers[old(nextIndex)]) && nextIndex == old(nextIndex) + 1
      ensures 0 < |servers| <= old(nextIndex) ==> s == Some(servers[0]) && nextIndex == 1
      ensures servers != [] ==>
                var i := Chosen(old(nextIndex), |servers|);
                i < |servers| && s == Some(servers[i]) && nextIndex == i + 1
    {
      if servers == [] {
        return None;
      }
      var count := 0;
      while count < |servers|
        invariant 0 <= count <= |servers|
      {
        count := count + 1;
      }
      if nextIndex >= count {
        nextIndex := 0;
      }
      var curr := 0;
      for i := 0 to nextIndex
        invariant curr == i
      {
        curr := curr + 1;
      }
      nextIndex := nextIndex + 1;
      s := Some(servers[curr]);
    }
  }

  // ---------------------------------------------------------------- fairness

  /** A full round chooses every server once. */
  lemma {:induction false} FewChoices(next: nat, n: nat, m: nat, j: nat)
    requires n > 0 && j < n && next <= n && m <= n
    ensures TimesChosen(next, n, m, j) ==
            if (next <= j < next + m) || j + n < next + m then 1 else 0
    decreases m
  {
    if m > 0 {
      FewChoices(Chosen(next, n) + 1, n, m - 1, j);
    }
  }

  lemma {:induction false} ChoicesConcat(next: nat, n: nat, a: nat, b: nat, j: nat) returns (mid: nat)
    requires n > 0 && next <= n
    ensures mid <= n && TimesChosen(next, n, a + b, j) == TimesChosen(next, n, a, j) + TimesChosen(mid, n, b, j)
    decreases a
  {
    if a == 0 {
      mid := next;
    } else {
      mid := ChoicesConcat(Chosen(next, n) + 1, n, a - 1, b, j);
    }
  }

  lemma {:induction false} RoundsAreFair(next: nat, n: nat, rounds: nat, extra: nat, j: nat)
    requires n > 0 && j < n && next <= n && extra < n
    ensures rounds <= TimesChosen(next, n, rounds * n + extra, j) <= rounds + (if extra > 0 then 1 else 0)
    decreases rounds
  {
    if rounds == 0 {
      FewChoices(next, n, extra, j);
    } else {
      assert rounds * n + extra == n + ((rounds - 1) * n + extra);
      var mid := ChoicesConcat(next, n, n, (rounds - 1) * n + extra, j);
      FewChoices(next, n, n, j);
      RoundsAreFair(mid, n, rounds - 1, extra, j);
    }
  }

  /** With an unchanged list of `n` servers any `m` consecutive choices fall on each server
      floor(m/n) or ceil(m/n) times, wherever the counter stood. */
  lemma RotationIsFair(next: nat, n: nat, m: nat, j: nat)
    requires n > 0 && j < n
    ensures m / n <= TimesChosen(next, n, m, j) <= (m + n - 1) / n
  {
    var start := Chosen(next, n);
    assert TimesChosen(next, n, m, j) == TimesChosen(start, n, m, j);
    Division(m, n);
    RoundsAreFair(start, n, m / n, m % n, j);
  }

  lemma Division(m: nat, n: nat)
    requires n > 0
    ensures m == (m / n) * n + m % n && 0 <= m % n < n
    ensures (m + n - 1) / n == m / n + if m % n > 0 then 1 else 0
  {
    var q, r := m / n, m % n;
    if r > 0 {
      QuotientIs(m + n - 1, n, q + 1, r - 1);
    } else {
      QuotientIs(m + n - 1, n, q, n - 1);
    }
  }

  lemma QuotientIs(a: nat, n: nat, q: nat, r: nat)
    requires n > 0 && a == q * n + r && r < n
    ensures a / n == q
  {
    ProductOrder(a / n + 1, q, n);
    ProductOrder(q + 1, a / n, n);
  }

  lemma ProductOrder(x: int, y: int, n: nat)
    ensures x <= y ==> x * n <= y * n
  {
  }
}
