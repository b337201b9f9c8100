/** The shape of the file-name trie: which paths have a node, and which nodes are marked
    as the end of a name. */
module TrieShape {
  type Shape = map<string, bool>

  predicate Extends(q: string, p: string) {
    |p| <= |q| && q[..|p|] == p
  }

  lemma ExtendsChain(q: string, r: string, p: string)
    ensures Extends(q, r) && Extends(r, p) ==> Extends(q, p)
  {
    if Extends(q, r) && Extends(r, p) {
      assert q[..|p|] == q[..|r|][..|p|];
    }
  }

  /** Of two prefixes of one string the longer extends the shorter. */
  lemma PrefixesCompare(k: string, p: string, c: string)
    ensures Extends(k, p) && Extends(k, c) && |p| <= |c| ==> Extends(c, p)
  {
    if Extends(k, p) && Extends(k, c) && |p| <= |c| {
      assert c[..|p|] == k[..|c|][..|p|];
    }
  }

  /** A tree: the root is there, and with a node all nodes above it. */
  ghost predicate Tree(s: Shape) {
    && "" in s
    && forall p | p in s && p != "" :: p[..|p| - 1] in s
  }

  function Keys(s: Shape): set<string> {
    set p | p in s && s[p]
  }

  predicate HasChild(s: Shape, p: string) {
    exists q | q in s :: |q| == |p| + 1 && Extends(q, p)
  }

  ghost predicate LeadsToKey(s: Shape, p: string) {
    exists k | k in s && s[k] :: Extends(k, p)
  }

  /** Every node but the root leads to a key. */
  ghost predicate NoDeadBranch(s: Shape) {
    forall p {:trigger LeadsToKey(s, p)} | p in s && p != "" :: LeadsToKey(s, p)
  }

  ghost predicate ShapeOk(s: Shape) {
    Tree(s) && NoDeadBranch(s)
  }

  // ---------------------------------------------------------------- insertion

  /** The nodes for the first `n` characters of `key`. */
  function WithPath(s: Shape, key: string, n: nat): Shape
    requires n <= |key|
  {
    if n == 0 then s
    else
      var t := WithPath(s, key, n - 1);
      if key[..n] in t then t else t[key[..n] := false]
  }

  function Insert(s: Shape, key: string): Shape {
    WithPath(s, key, |key|)[key := true]
  }

  lemma {:induction false} WithPathDomain(s: Shape, key: string, n: nat)
    requires n <= |key| && Tree(s)
    ensures var t := WithPath(s, key, n);
            && Tree(t) && key[..n] in t
            && (forall p :: p in t <==> p in s || (|p| <= n && p == key[..|p|]))
            && (forall p | p in t :: t[p] == (p in s && s[p]))
  {
    if n == 0 {
      assert key[..0] == "";
    } else {
      WithPathDomain(s, key, n - 1);
      var t := WithPath(s, key, n - 1);
      assert key[..n][..n - 1] == key[..n - 1];
      forall p ensures p in WithPath(s, key, n) <==> p in s || (|p| <= n && p == key[..|p|]) {
        if |p| == n && p == key[..|p|] {
          assert p == key[..n];
        }
      }
    }
  }

  /** Insertion adds exactly the key. */
  lemma InsertAddsKey(s: Shape, key: string)
    requires ShapeOk(s)
    ensures ShapeOk(Insert(s, key)) && Keys(Insert(s, key)) == Keys(s) + {key}
  {
    WithPathDomain(s, key, |key|);
    var path := WithPath(s, key, |key|);
    hide WithPath;
    assert key[..|key|] == key;
    assert Keys(path) == Keys(s);
    var t := path[key := true];
    assert Tree(t);
    assert Keys(t) == Keys(path) + {key};
    forall p | p in t && p != "" ensures LeadsToKey(t, p) {
      assert p in s ==> LeadsToKey(s, p);
      if p in s {
        var k :| k in s && s[k] && Extends(k, p);
        assert k in t && t[k];
      } else {
        assert Extends(key, p);
      }
    }
  }

  // ---------------------------------------------------------------- deletion

  /** The node `p` and everything below it, gone. */
  function Pruned(s: Shape, p: string): Shape {
    map q | q in s && !Extends(q, p) :: s[q]
  }

  /** `_trie_delete_helper` at the node for the first `depth` characters of `key`: the
      shape afterwards, and whether the caller is to free that node. */
  function DeleteFrom(s: Shape, key: string, depth: nat): (Shape, bool)
    requires depth <= |key|
    decreases |key| - depth
  {
    if key[..depth] !in s then (s, false)
    else if depth == |key| then
      if s[key[..depth]] then
        var t := s[key[..depth] := false];
        (t, !HasChild(t, key[..depth]))
      else (s, false)
    else
      var (t, empty) := DeleteFrom(s, key, depth + 1);
      if empty then (Pruned(t, key[..depth + 1]), !s[key[..depth]])
      else (t, false)
  }

  function Delete(s: Shape, key: string): Shape {
    DeleteFrom(s, key, 0).0
  }

  /** Length of the longest proper prefix of `key`, of at most `n` characters, that is
      itself a key; 0 stands for the root when there is none. */
  function Anchor(s: Shape, key: string, n: nat): (a: nat)
    requires n < |key|
    ensures a <= n
  {
    if n == 0 || (key[..n] in s && s[key[..n]]) then n else Anchor(s, key, n - 1)
  }

  /** What a deletion cuts off: the key up to one character past its anchor. */
  function Cut(s: Shape, key: string): string
    requires key != ""
  {
    key[..Anchor(s, key, |key| - 1) + 1]
  }

  predicate IsLeafKey(s: Shape, key: string) {
    key in s && s[key] && !HasChild(s, key)
  }

  lemma {:induction false} AnchorBound(s: Shape, key: string, n: nat)
    requires n < |key|
    ensures forall m | Anchor(s, key, n) < m <= n :: key[..m] !in s || !s[key[..m]]
    ensures Anchor(s, key, n) > 0 ==> key[..Anchor(s, key, n)] in s && s[key[..Anchor(s, key, n)]]
  {
    if n > 0 && !(key[..n] in s && s[key[..n]]) {
      AnchorBound(s, key, n - 1);
    }
  }

  lemma {:induction false} PathBelow(s: Shape, p: string, n: nat)
    requires Tree(s) && p in s && n <= |p|
    ensures p[..n] in s
    decreases |p| - n
  {
    if n < |p| {
      PathBelow(s, p, n + 1);
      assert p[..n + 1][..n] == p[..n];
    } else {
      assert p[..n] == p;
    }
  }

  /** Deleting an absent name changes nothing. */
  lemma {:induction false} DeleteAbsent(s: Shape, key: string, depth: nat)
    requires depth <= |key| && (key !in s || !s[key])
    ensures DeleteFrom(s, key, depth) == (s, false)
    decreases |key| - depth
  {
    if depth < |key| {
      DeleteAbsent(s, key, depth + 1);
    } else {
      assert key[..depth] == key;
    }
  }

  /** Deleting a name that others extend only takes its mark away. */
  lemma {:induction false} DeleteInner(s: Shape, key: string, depth: nat)
    requires Tree(s) && depth <= |key| && key in s && s[key] && HasChild(s, key)
    ensures DeleteFrom(s, key, depth) == (s[key := false], false)
    decreases |key| - depth
  {
    PathBelow(s, key, depth);
    if depth < |key| {
      DeleteInner(s, key, depth + 1);
    } else {
      assert key[..depth] == key;
      var q :| q in s && |q| == |key| + 1 && Extends(q, key);
      assert q in s[key := false];
    }
  }

  /** The helper's result at the node of a name without extensions. */
  lemma DeleteLeafHere(s: Shape, key: string)
    requires IsLeafKey(s, key)
    ensures DeleteFrom(s, key, |key|) == (s[key := false], true)
  {
    assert key[..|key|] == key;
    var t := s[key := false];
    assert forall q | q in t :: q in s;
  }

  /** At or below the anchor every node is cut, and the caller is told to cut too, up to the
      anchor itself. */
  lemma {:induction false} DeleteLeafBelow(s: Shape, key: string, depth: nat)
    requires Tree(s) && IsLeafKey(s, key) && depth < |key|
    requires Anchor(s, key, |key| - 1) <= depth
    ensures key[..depth] in s
    ensures DeleteFrom(s, key, depth) ==
            (Pruned(s[key := false], key[..depth + 1]), !s[key[..depth]])
    ensures depth > Anchor(s, key, |key| - 1) ==> !s[key[..depth]]
    decreases |key| - depth
  {
    hide Pruned, HasChild, Anchor;
    PathBelow(s, key, depth);
    AnchorBound(s, key, |key| - 1);
    if depth + 1 == |key| {
      DeleteLeafHere(s, key);
      assert key[..depth + 1] == key;
    } else {
      DeleteLeafBelow(s, key, depth + 1);
      PruneTwice(s[key := false], key, depth + 1, depth + 2);
    }
  }

  /** Above the anchor nothing more is cut. */
  lemma {:induction false} DeleteLeafAbove(s: Shape, key: string, depth: nat)
    requires key != "" && Tree(s) && IsLeafKey(s, key) && depth <= Anchor(s, key, |key| - 1)
    ensures DeleteFrom(s, key, depth).0 == Pruned(s[key := false], Cut(s, key))
    ensures depth > 0 || s[""] || Anchor(s, key, |key| - 1) > 0 ==> !DeleteFrom(s, key, depth).1
    decreases |key| - depth
  {
    hide Pruned, HasChild, Anchor;
    var a := Anchor(s, key, |key| - 1);
    AnchorBound(s, key, |key| - 1);
    PathBelow(s, key, depth);
    if depth == a {
      DeleteLeafBelow(s, key, depth);
      assert key[..0] == "";
    } else {
      DeleteLeafAbove(s, key, depth + 1);
    }
  }

  lemma PruneTwice(s: Shape, key: string, m: nat, n: nat)
    requires m <= n <= |key|
    ensures Pruned(Pruned(s, key[..n]), key[..m]) == Pruned(s, key[..m])
  {
    forall q | Extends(q, key[..n]) ensures Extends(q, key[..m]) {
      assert q[..m] == q[..n][..m] == key[..n][..m] == key[..m];
    }
  }

  // ---------------------------------------------------------------- what deletion means

  lemma KeysOfPruned(s: Shape, p: string)
    ensures Keys(Pruned(s, p)) == set k | k in Keys(s) && !Extends(k, p)
  {
  }

  lemma PrunedTree(s: Shape, p: string)
    requires Tree(s) && p != ""
    ensures Tree(Pruned(s, p))
  {
    var t := Pruned(s, p);
    forall q | q in t && q != "" ensures q[..|q| - 1] in t {
      ExtendsChain(q, q[..|q| - 1], p);
    }
  }

  lemma CutIsPrefix(s: Shape, key: string)
    requires key != ""
    ensures Extends(key, Cut(s, key)) && Cut(s, key) != "" && |Cut(s, key)| <= |key|
  {
  }

  /** Deleting a name without extensions removes exactly the names that extend the cut. */
  lemma DeleteLeafKeys(s: Shape, key: string)
    requires Tree(s) && IsLeafKey(s, key)
    ensures Tree(Delete(s, key))
    ensures Keys(Delete(s, key)) ==
            if key == "" then Keys(s) - {key} else set k | k in Keys(s) && !Extends(k, Cut(s, key))
  {
    var base := s[key := false];
    assert Keys(base) == Keys(s) - {key};
    if key == "" {
      DeleteLeafHere(s, key);
    } else {
      DeleteLeafAbove(s, key, 0);
      CutIsPrefix(s, key);
      KeysOfPruned(base, Cut(s, key));
      PrunedTree(base, Cut(s, key));
    }
  }

  /** Deletion of any name: nothing for an absent one, the mark for one that others extend,
      and the cut for the rest. */
  lemma DeleteKeys(s: Shape, key: string)
    requires Tree(s)
    ensures Tree(Delete(s, key))
    ensures Keys(Delete(s, key)) ==
            if key !in Keys(s) then Keys(s)
            else if HasChild(s, key) || key == "" then Keys(s) - {key}
            else set k | k in Keys(s) && !Extends(k, Cut(s, key))
  {
    if key !in Keys(s) {
      DeleteAbsent(s, key, 0);
    } else if HasChild(s, key) {
      DeleteInner(s, key, 0);
      assert Keys(s[key := false]) == Keys(s) - {key};
    } else {
      DeleteLeafKeys(s, key);
    }
  }

  /** Deletion takes away the name and no other exactly when the name has extensions or no
      other name shares its cut. */
  lemma DeleteIsExact(s: Shape, key: string)
    requires Tree(s) && key in Keys(s)
    ensures Keys(Delete(s, key)) == Keys(s) - {key} <==>
            || HasChild(s, key) || key == ""
            || forall k | k in Keys(s) && Extends(k, Cut(s, key)) :: k == key
  {
    DeleteKeys(s, key);
    if key != "" && !HasChild(s, key) {
      CutIsPrefix(s, key);
      var after := set k | k in Keys(s) && !Extends(k, Cut(s, key));
      if k :| k in Keys(s) && Extends(k, Cut(s, key)) && k != key {
        assert k !in after && k in Keys(s) - {key};
      } else {
        assert after == Keys(s) - {key};
      }
    }
  }

  /** No deletion leaves a dead branch. */
  lemma DeleteLeavesNoDeadBranch(s: Shape, key: string)
    requires ShapeOk(s)
    ensures ShapeOk(Delete(s, key))
  {
    DeleteKeys(s, key);
    if key !in Keys(s) {
      DeleteAbsent(s, key, 0);
    } else if HasChild(s, key) {
      DeleteInner(s, key, 0);
      InnerNoDeadBranch(s, key);
    } else if key == "" {
      DeleteLeafHere(s, key);
      assert forall p | p in s :: p == "" by {
        forall p | p in s && p != "" ensures false {
          PathBelow(s, p, 1);
          assert Extends(p[..1], key);
        }
      }
    } else {
      DeleteLeafAbove(s, key, 0);
      CutNoDeadBranch(s, key);
    }
  }

  lemma InnerNoDeadBranch(s: Shape, key: string)
    requires ShapeOk(s) && key in s && HasChild(s, key)
    ensures NoDeadBranch(s[key := false])
  {
    var t := s[key := false];
    var q :| q in s && |q| == |key| + 1 && Extends(q, key);
    assert LeadsToKey(s, q);
    var longer :| longer in s && s[longer] && Extends(longer, q);
    ExtendsChain(longer, q, key);
    assert |longer| > |key|;
    hide Extends;
    forall p | p in t && p != "" ensures LeadsToKey(t, p) {
      assert p in s ==> LeadsToKey(s, p);
      var k :| k in s && s[k] && Extends(k, p);
      if k == key {
        ExtendsChain(longer, key, p);
        assert longer in t && t[longer];
      } else {
        assert k in t && t[k];
      }
    }
  }

  /** A node outside the cut still leads to a key: one outside the cut, or, above the cut,
      the anchor. */
  lemma CutNoDeadBranch(s: Shape, key: string)
    requires ShapeOk(s) && IsLeafKey(s, key) && key != ""
    ensures NoDeadBranch(Pruned(s[key := false], Cut(s, key)))
  {
    var cut, t := Cut(s, key), Pruned(s[key := false], Cut(s, key));
    forall p | p in t && p != "" ensures LeadsToKey(t, p) {
      assert p in s ==> LeadsToKey(s, p);
      var k :| k in s && s[k] && Extends(k, p);
      if Extends(k, cut) {
        AnchorStays(s, key, p, k);
      } else {
        assert k != key by {
          CutIsPrefix(s, key);
        }
        assert k in t && t[k];
      }
    }
  }

  /** A node outside the cut that leads into it lies on the way to the anchor, which stays. */
  lemma AnchorStays(s: Shape, key: string, p: string, k: string)
    requires IsLeafKey(s, key) && key != "" && p != "" && !Extends(p, Cut(s, key))
    requires Extends(k, p) && Extends(k, Cut(s, key))
    ensures var anchor, t := key[..Anchor(s, key, |key| - 1)], Pruned(s[key := false], Cut(s, key));
            anchor in t && t[anchor] && Extends(anchor, p)
  {
    var a, cut := Anchor(s, key, |key| - 1), Cut(s, key);
    AnchorBound(s, key, |key| - 1);
    PrefixesCompare(k, cut, p);
    PrefixesCompare(k, p, cut);
    assert cut[..a] == key[..a];
    assert Extends(cut, key[..a]);
    PrefixesCompare(cut, p, key[..a]);
  }

  /** Two names of two letters that share the first: deleting one deletes the other. */
  lemma DeleteTakesSibling(s: Shape, x: string, y: string)
    requires ShapeOk(s) && |x| == |y| == 2 && x[0] == y[0] && Keys(s) == {x, y}
    ensures Keys(Delete(s, x)) == {}
  {
    forall q | q in s && q != "" ensures |q| <= 2 {
      assert LeadsToKey(s, q);
      var k :| k in s && s[k] && Extends(k, q);
      assert k in Keys(s);
    }
    assert !HasChild(s, x);
    assert x[..1] !in Keys(s);
    AnchorBound(s, x, 1);
    assert x in Keys(s);
    DeleteKeys(s, x);
    assert Cut(s, x) == x[..1] == y[..1];
    assert Extends(x, Cut(s, x)) && Extends(y, Cut(s, x));
  }

  lemma DeleteTakesSiblingExample()
    ensures var s := Insert(Insert(map["" := false], "ab"), "ac");
            Keys(s) == {"ab", "ac"} && Keys(Delete(s, "ab")) == {}
  {
    var s0: Shape := map["" := false];
    assert Keys(s0) == {};
    InsertAddsKey(s0, "ab");
    InsertAddsKey(Insert(s0, "ab"), "ac");
    hide Insert, Delete;
    DeleteTakesSibling(Insert(Insert(s0, "ab"), "ac"), "ab", "ac");
  }
}
