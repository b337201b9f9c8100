/** The file-name trie as linked nodes, proved to have at all times the shape that
    `TrieShape` computes. */
module Trie {
  import opened TrieShape

  class Node {
    ghost const path: string
    var children: map<char, Node>
    var isEnd: bool

    constructor (ghost path: string)
      ensures this.path == path && children == map[] && !isEnd
    {
      this.path := path;
      children, isEnd := map[], false;
    }
  }

  class NameTrie {
    const root: Node
    ghost var nodes: map<string, Node>   // path -> the node it leads to

    /** The link for `c` at node `p` and the node one character further are there together. */
    ghost predicate Linked(p: string, c: char)
      reads this, nodes.Values
    {
      p in nodes ==>
        && (c in nodes[p].children <==> p + [c] in nodes)
        && (c in nodes[p].children && p + [c] in nodes ==> nodes[p].children[c] == nodes[p + [c]])
    }

    ghost predicate HasParent(p: string)
      reads this
    {
      p in nodes && p != "" ==> p[..|p| - 1] in nodes
    }

    /** The nodes hang together as a tree: each is reached by its own path and by no other. */
    ghost predicate Valid()
      reads this, nodes.Values
    {
      && "" in nodes && nodes[""] == root
      && (forall p | p in nodes :: nodes[p].path == p)
      && (forall p {:trigger HasParent(p)} :: HasParent(p))
      && (forall p, c {:trigger Linked(p, c)} :: Linked(p, c))
    }

    ghost function Shape(): Shape
      reads this, nodes.Values
    {
      map p | p in nodes :: nodes[p].isEnd
    }

    lemma ShapeIsTree()
      requires Valid()
      ensures Tree(Shape())
    {
      forall p | p in Shape() && p != "" ensures p[..|p| - 1] in Shape() {
        assert HasParent(p);
      }
    }

    constructor ()
      ensures Valid() && Shape() == map["" := false] && fresh(nodes.Values)
    {
      root := new Node("");
      nodes := map["" := root];
    }

    /** `trie_search`. */
    method Search(name: string) returns (found: bool)
      requires Valid()
      ensures found <==> name in Keys(Shape())
    {
      var curr := root;
      assert name[..0] == "";
      for i := 0 to |name|
        invariant name[..i] in nodes && nodes[name[..i]] == curr
      {
        assert name[..i + 1] == name[..i] + [name[i]];
        assert Linked(name[..i], name[i]);
        if name[i] !in curr.children {
          PathMissing(name, i + 1);
          return false;
        }
        curr := curr.children[name[i]];
      }
      assert name[..|name|] == name;
      return curr.isEnd;
    }

    /** A name whose path breaks off has no node. */
    lemma PathMissing(name: string, n: nat)
      requires Valid() && n <= |name| && name[..n] !in nodes
      ensures name !in nodes
    {
      if name in nodes {
        ShapeIsTree();
        PathBelow(Shape(), name, n);
      }
    }

    /** `trie_insert`. */
    method Insert(name: string)
      requires Valid()
      modifies this, nodes.Values
      ensures Valid() && fresh(nodes.Values - old(nodes.Values))
      ensures Shape() == TrieShape.Insert(old(Shape()), name)
    {
      var curr := root;
      assert name[..0] == "";
      for i := 0 to |name|
        invariant Valid() && fresh(nodes.Values - old(nodes.Values))
        invariant name[..i] in nodes && nodes[name[..i]] == curr
        invariant Shape() == WithPath(old(Shape()), name, i)
      {
        curr := Descend(curr, name, i);
      }
      assert name[..|name|] == name;
      Mark(curr, name);
    }

    method Mark(curr: Node, name: string)
      requires Valid() && name in nodes && nodes[name] == curr
      modifies curr`isEnd
      ensures Valid() && Shape() == old(Shape())[name := true]
    {
      curr.isEnd := true;
      assert forall p, c :: old(Linked(p, c)) ==> Linked(p, c);
    }

    /** One turn of the insertion loop: the child for the next character, made if missing. */
    method Descend(curr: Node, name: string, i: nat) returns (next: Node)
      requires Valid() && i < |name| && name[..i] in nodes && nodes[name[..i]] == curr
      modifies this, curr
      ensures Valid() && fresh(nodes.Values - old(nodes.Values))
      ensures name[..i + 1] in nodes && nodes[name[..i + 1]] == next
      ensures Shape() == if name[..i + 1] in old(Shape()) then old(Shape()) else old(Shape())[name[..i + 1] := false]
    {
      var c := name[i];
      ghost var here, there := name[..i], name[..i + 1];
      assert there == here + [c];
      assert Linked(here, c);
      if c !in curr.children {
        var child := new Node(there);
        curr.children := curr.children[c := child];
        nodes := nodes[there := child];
        forall p, d ensures Linked(p, d) {
          assert old(Linked(p, d));
          OneStep(here, c, p, d);
          assert old(HasParent(p + [d]));
          assert (p + [d])[..|p + [d]| - 1] == p;
        }
        forall p ensures HasParent(p) {
          assert old(HasParent(p));
          assert there[..|there| - 1] == here;
        }
      }
      next := curr.children[c];
    }

    /** Nodes were at most taken away. */
    twostate predicate Shrinks()
      reads this
    {
      forall p | p in nodes :: p in old(nodes) && nodes[p] == old(nodes)[p]
    }

    /** `trie_delete`. */
    method Delete(name: string)
      requires Valid()
      modifies this, nodes.Values
      ensures Valid() && Shrinks()
      ensures Shape() == TrieShape.Delete(old(Shape()), name)
    {
      assert name[..0] == "";
      var _ := DeleteHelper(root, name, 0);
    }

    /** `_trie_delete_helper`: true when the caller is to free this node. */
    method DeleteHelper(node: Node?, key: string, depth: nat) returns (empty: bool)
      requires Valid() && depth <= |key|
      requires node == if key[..depth] in nodes then nodes[key[..depth]] else null
      modifies this, nodes.Values
      ensures Valid() && Shrinks()
      ensures (Shape(), empty) == DeleteFrom(old(Shape()), key, depth)
      decreases |key| - depth
    {
      ghost var here := key[..depth];
      if node == null {
        return false;
      }
      if depth == |key| {
        assert here == key;
        if node.isEnd {
          Unmark(node, key);
          NoChildren(node, key);
          return node.children == map[];
        }
        return false;
      }
      ghost var before := Shape();
      assert key[..depth + 1] == here + [key[depth]];
      assert Linked(here, key[depth]);
      var child: Node? := if key[depth] in node.children then node.children[key[depth]] else null;
      empty := DeleteHelper(child, key, depth + 1);
      DeleteKeepsAbove(before, key, depth + 1, depth);
      assert here in Shape();
      if empty {
        Free(node, key, depth);
        return !node.isEnd;
      }
      return false;
    }

    method Unmark(node: Node, key: string)
      requires Valid() && key in nodes && nodes[key] == node
      modifies node`isEnd
      ensures Valid() && Shape() == old(Shape())[key := false]
    {
      node.isEnd := false;
      assert forall p, c :: old(Linked(p, c)) ==> Linked(p, c);
    }

    lemma NoChildren(node: Node, key: string)
      requires Valid() && key in nodes && nodes[key] == node
      ensures node.children == map[] <==> !HasChild(Shape(), key)
    {
      forall q | q in Shape() && |q| == |key| + 1 && Extends(q, key) ensures q[|key|] in node.children {
        assert q == key + [q[|key|]];
        assert Linked(key, q[|key|]);
      }
      forall c | c in node.children ensures key + [c] in Shape() && Extends(key + [c], key) {
        assert Linked(key, c);
      }
    }

    /** The child for the next character is freed and unlinked, and with it everything below. */
    method Free(node: Node, key: string, depth: nat)
      requires Valid() && depth < |key| && key[..depth] in nodes && nodes[key[..depth]] == node
      modifies this, node`children
      ensures Valid() && Shrinks() && node.isEnd == old(node.isEnd)
      ensures Shape() == Pruned(old(Shape()), key[..depth + 1])
    {
      ghost var here, c, cut := key[..depth], key[depth], key[..depth + 1];
      assert cut == here + [c];
      node.children := node.children - {key[depth]};
      nodes := map q | q in nodes && !Extends(q, cut) :: nodes[q];
      forall p, d ensures Linked(p, d) {
        assert old(Linked(p, d));
        OneStep(here, c, p, d);
        EnterCut(p, d, cut);
        if p in nodes && nodes[p] == node {
          assert p == here;
        }
      }
      forall q ensures HasParent(q) {
        assert old(HasParent(q));
        if q != "" {
          ExtendsChain(q, q[..|q| - 1], cut);
        }
      }
    }
  }

  /** A step into what lies below `cut` arrives at `cut` itself. */
  lemma EnterCut(p: string, d: char, cut: string)
    ensures !Extends(p, cut) && Extends(p + [d], cut) ==> p + [d] == cut
  {
    if |cut| <= |p| {
      assert (p + [d])[..|cut|] == p[..|cut|];
    }
  }

  /** Deletion below leaves the nodes above, and their marks, alone. */
  lemma {:induction false} DeleteKeepsAbove(s: Shape, key: string, depth: nat, m: nat)
    requires m < depth <= |key| && key[..m] in s
    ensures var t := DeleteFrom(s, key, depth).0;
            key[..m] in t && t[key[..m]] == s[key[..m]]
    decreases |key| - depth
  {
    if key[..depth] in s && depth < |key| {
      DeleteKeepsAbove(s, key, depth + 1, m);
    }
  }

  /** Paths one character apart. */
  lemma OneStep(here: string, c: char, p: string, d: char)
    ensures p + [d] == here + [c] <==> p == here && d == c
  {
    if p + [d] == here + [c] {
      assert (p + [d])[..|p|] == p && (here + [c])[..|here|] == here;
      assert (p + [d])[|p|] == d && (here + [c])[|here|] == c;
    }
  }
}
