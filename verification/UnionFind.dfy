/** The in-place union-find with path halving, refined to the plain labelling of Closure.

`parent` is the map that services/memory/ontology_gc.py:137-149 and the list that
services/observe.py:236-245 update while they walk it; `roots` is what it means. */
module UnionFind {
  import opened Closure

  /** One step up stays under one root, and strictly nearer to it unless it is the root. */
  ghost predicate Led(parent: map<int, int>, roots: Labels, depth: map<int, nat>, x: int)
    requires parent.Keys == roots.Keys == depth.Keys
    requires x in parent
  {
    && parent[x] in parent && roots[parent[x]] == roots[x]
    && roots[x] in parent && roots[roots[x]] == roots[x]
    && (parent[x] == x <==> roots[x] == x)
    && (parent[x] != x ==> depth[parent[x]] < depth[x])
  }

  /** Following parents leads every id to its root. */
  ghost predicate Leads(parent: map<int, int>, roots: Labels, depth: map<int, nat>) {
    && parent.Keys == roots.Keys == depth.Keys
    && forall x {:trigger Led(parent, roots, depth, x)} :: x in parent ==> Led(parent, roots, depth, x)
  }

  lemma HalvingKeepsRoots(parent: map<int, int>, roots: Labels, depth: map<int, nat>, x: int)
    requires Leads(parent, roots, depth)
    requires x in parent && parent[x] != x
    ensures parent[x] in parent && parent[parent[x]] in parent
    ensures Leads(parent[x := parent[parent[x]]], roots, depth)
    ensures depth[parent[parent[x]]] < depth[x]
    ensures roots[parent[parent[x]]] == roots[x]
  {
    assert Led(parent, roots, depth, x);
    assert Led(parent, roots, depth, parent[x]);
    var parent' := parent[x := parent[parent[x]]];
    forall y | y in parent'
      ensures Led(parent', roots, depth, y)
    {
      assert Led(parent, roots, depth, y);
    }
  }

  lemma LinkingRepaints(parent: map<int, int>, roots: Labels, depth: map<int, nat>, ra: int, rb: int)
      returns (depth': map<int, nat>)
    requires Leads(parent, roots, depth)
    requires ra in parent && rb in parent && roots[ra] == ra && roots[rb] == rb && ra != rb
    ensures Leads(parent[ra := rb], Repaint(roots, ra, rb), depth')
  {
    depth' := map x | x in depth :: if roots[x] == ra then depth[x] + depth[rb] + 1 else depth[x];
    var parent', roots' := parent[ra := rb], Repaint(roots, ra, rb);
    forall x | x in parent'
      ensures Led(parent', roots', depth', x)
    {
      assert Led(parent, roots, depth, x);
    }
  }

  lemma NothingToRepaint(roots: Labels, r: int)
    ensures Repaint(roots, r, r) == roots
  {
  }

  ghost predicate Distinct(s: seq<int>) {
    forall i, j :: 0 <= i < j < |s| ==> s[i] != s[j]
  }

  /** The keys in the order they were first seen, each once. */
  ghost predicate Enumerates(order: seq<int>, keys: set<int>) {
    && (forall i :: 0 <= i < |order| ==> order[i] in keys)
    && (forall x :: x in keys ==> x in order)
    && Distinct(order)
  }

  lemma EnumeratesNext(order: seq<int>, keys: set<int>, x: int)
    requires Enumerates(order, keys) && x !in keys
    ensures Enumerates(order + [x], keys + {x})
  {
    var longer := order + [x];
    assert longer[|order|] == x;
    forall y | y in keys
      ensures y in longer
    {
      var i :| 0 <= i < |order| && order[i] == y;
      assert longer[i] == y;
    }
  }

  lemma NewcomerIsRoot(parent: map<int, int>, roots: Labels, depth: map<int, nat>, x: int)
    requires Leads(parent, roots, depth) && x !in parent
    ensures Leads(parent[x := x], roots[x := x], depth[x := 0])
  {
    var parent', roots', depth' := parent[x := x], roots[x := x], depth[x := 0];
    forall y | y in parent'
      ensures Led(parent', roots', depth', y)
    {
      assert y != x ==> Led(parent, roots, depth, y);
    }
  }

  /** The ids of `order` that fall under root `r`, in order. */
  function Under(order: seq<int>, roots: Labels, r: int): (members: seq<int>)
    requires forall x :: x in order ==> x in roots
    ensures forall x :: x in members <==> x in order && roots[x] == r
  {
    if order == [] then []
    else
      var last := order[|order| - 1];
      Under(order[..|order| - 1], roots, r) + (if roots[last] == r then [last] else [])
  }

  lemma {:induction false} UnderDistinct(order: seq<int>, roots: Labels, r: int)
    requires forall x :: x in order ==> x in roots
    requires Distinct(order)
    ensures Distinct(Under(order, roots, r))
  {
    if order != [] {
      var front := order[..|order| - 1];
      UnderDistinct(front, roots, r);
      var last := order[|order| - 1];
      assert last !in front;
      assert last !in Under(front, roots, r);
      assert Under(order, roots, r) == Under(front, roots, r) + (if roots[last] == r then [last] else []);
    }
  }

  /** The nonempty groups of `order`, one per root, named in the order their roots came up. */
  ghost predicate GroupsUnder(order: seq<int>, roots: Labels, keys: seq<int>, groups: map<int, seq<int>>) {
    && (forall x :: x in order ==> x in roots)
    && Distinct(keys)
    && (forall i :: 0 <= i < |keys| ==> keys[i] in groups)
    && (forall r :: r in groups ==> r in keys)
    && (forall r :: r in groups ==> groups[r] == Under(order, roots, r) && groups[r] != [])
    && (forall x :: x in order ==> roots[x] in groups)
  }

  lemma UnderNext(order: seq<int>, roots: Labels, node: int, r: int)
    requires forall x :: x in order ==> x in roots
    requires node in roots
    ensures Under(order + [node], roots, r) == Under(order, roots, r) + (if roots[node] == r then [node] else [])
  {
    var longer := order + [node];
    assert longer[..|longer| - 1] == order;
  }

  lemma {:induction false} NoneUnder(order: seq<int>, roots: Labels, r: int)
    requires forall x :: x in order ==> x in roots && roots[x] != r
    ensures Under(order, roots, r) == []
  {
    if order != [] {
      NoneUnder(order[..|order| - 1], roots, r);
    }
  }

  lemma GroupsNext(order: seq<int>, roots: Labels, keys: seq<int>, groups: map<int, seq<int>>, node: int)
    requires GroupsUnder(order, roots, keys, groups)
    requires node in roots && roots[node] in groups
    ensures GroupsUnder(order + [node], roots, keys, groups[roots[node] := groups[roots[node]] + [node]])
  {
    var groups' := groups[roots[node] := groups[roots[node]] + [node]];
    forall r | r in groups'
      ensures groups'[r] == Under(order + [node], roots, r) && groups'[r] != []
    {
      UnderNext(order, roots, node, r);
    }
  }

  lemma GroupsNew(order: seq<int>, roots: Labels, keys: seq<int>, groups: map<int, seq<int>>, node: int)
    requires GroupsUnder(order, roots, keys, groups)
    requires node in roots && roots[node] !in groups
    ensures GroupsUnder(order + [node], roots, keys + [roots[node]], groups[roots[node] := [node]])
  {
    var groups' := groups[roots[node] := [node]];
    forall r | r in groups'
      ensures groups'[r] == Under(order + [node], roots, r) && groups'[r] != []
    {
      UnderNext(order, roots, node, r);
      if r == roots[node] {
        NoneUnder(order, roots, r);
        assert [] + [node] == [node];
      }
    }
    assert roots[node] !in keys;
  }

  function Identity(n: nat): (m: map<int, int>)
    ensures forall x :: x in m <==> 0 <= x < n
    ensures forall x :: x in m ==> m[x] == x
  {
    if n == 0 then map[] else Identity(n - 1)[n - 1 := n - 1]
  }

  class Forest {
    var parent: map<int, int>
    var order: seq<int>
    ghost var roots: Labels
    ghost var depth: map<int, nat>

    ghost predicate Valid()
      reads this
    {
      && Leads(parent, roots, depth)
      && Enumerates(order, parent.Keys)
    }

    constructor ()
      ensures Valid() && roots == map[]
    {
      parent, order, roots, depth := map[], [], map[], map[];
    }

    /** One singleton per index, as a list of parents starts out. */
    constructor Singletons(n: nat)
      ensures Valid()
      ensures roots == Identity(n) && order == seq(n, i => i)
    {
      parent, roots, depth := Identity(n), Identity(n), map x | x in Identity(n) :: 0;
      order := seq(n, i => i);
      new;
      assert forall x :: x in parent ==> order[x] == x;
    }

    /** The root of `x`, which joins the forest if it is new.  Halving the path on the way changes no root. */
    method Find(x: int) returns (root: int)
      requires Valid()
      modifies this
      ensures Valid()
      ensures roots == Seen(old(roots), x)
      ensures root == roots[x] && root in roots && roots[root] == root
      ensures x in old(roots) ==> order == old(order)
    {
      if x !in parent {
        NewcomerIsRoot(parent, roots, depth, x);
        EnumeratesNext(order, parent.Keys, x);
        assert parent[x := x].Keys == parent.Keys + {x};
        parent, roots, depth := parent[x := x], roots[x := x], depth[x := 0];
        order := order + [x];
        return x;
      }
      var at := x;
      while parent[at] != at
        invariant Valid() && roots == old(roots) && order == old(order)
        invariant x in parent && at in parent && roots[at] == roots[x]
        decreases depth[at]
      {
        HalvingKeepsRoots(parent, roots, depth, at);
        assert parent[at := parent[parent[at]]].Keys == parent.Keys;
        parent := parent[at := parent[parent[at]]];
        at := parent[at];
      }
      root := at;
      assert Led(parent, roots, depth, at);
    }

    /** Hang one root under another: every id under `ra` falls under `rb`, and no other root moves. */
    method Hang(ra: int, rb: int)
      requires Valid()
      requires ra in roots && rb in roots && roots[ra] == ra && roots[rb] == rb
      modifies this
      ensures Valid()
      ensures roots == Repaint(old(roots), ra, rb) && order == old(order)
    {
      assert parent[ra := rb].Keys == parent.Keys;
      assert Led(parent, roots, depth, ra);
      if ra == rb {
        NothingToRepaint(roots, ra);
        assert parent[ra := rb] == parent;
      } else {
        depth := LinkingRepaints(parent, roots, depth, ra, rb);
      }
      parent := parent[ra := rb];
      roots := Repaint(roots, ra, rb);
    }

    /** Join two ids, as the ontology's garbage collection does. */
    method Union(a: int, b: int)
      requires Valid()
      modifies this
      ensures Valid()
      ensures roots == Merge(old(roots), a, b)
    {
      var ra := Find(a);
      var rb := Find(b);
      if ra != rb {
        Hang(ra, rb);
      } else {
        NothingToRepaint(roots, ra);
      }
    }

    /** Join two known ids without first asking whether they are apart, as the echoes lens does. */
    method Join(a: int, b: int)
      requires Valid()
      requires a in roots && b in roots
      modifies this
      ensures Valid()
      ensures roots == Merge(old(roots), a, b) && order == old(order)
    {
      var rb := Find(b);
      var ra := Find(a);
      Hang(ra, rb);
    }

    /** Stitch all the pairs together.  The roots that result are the closure's labels. */
    method UnionAll(pairs: seq<Pair>)
      requires Valid() && roots == map[]
      modifies this
      ensures Valid() && roots == Naive(pairs)
    {
      for k := 0 to |pairs|
        invariant Valid() && roots == Naive(pairs[..k])
      {
        assert pairs[..k + 1][..k] == pairs[..k];
        Union(pairs[k].0, pairs[k].1);
      }
      assert pairs[..|pairs|] == pairs;
    }

    /** Gather every id under its root, by finding each in turn. */
    method Groups() returns (keys: seq<int>, groups: map<int, seq<int>>)
      requires Valid()
      modifies this
      ensures Valid() && roots == old(roots) && order == old(order)
      ensures GroupsUnder(order, roots, keys, groups)
    {
      keys, groups := [], map[];
      for k := 0 to |order|
        invariant Valid() && roots == old(roots) && order == old(order)
        invariant GroupsUnder(order[..k], roots, keys, groups)
      {
        var node := order[k];
        var r := Find(node);
        assert order[..k + 1] == order[..k] + [node];
        if r in groups {
          GroupsNext(order[..k], roots, keys, groups, node);
          groups := groups[r := groups[r] + [node]];
        } else {
          GroupsNew(order[..k], roots, keys, groups, node);
          keys, groups := keys + [r], groups[r := [node]];
        }
      }
      assert order[..|order|] == order;
    }
  }
}
