/** The parent tree over a whole merge pass (services/memory/ontology_gc.py:223-240, :251-273): where every parent edge
    ends up, and exactly when the pass leaves the tree without a loop. */
module OntologyTree {
  import opened Prelude
  import opened Ontology

  /** The parent a row is left with: an edge to a loser is moved to its survivor, and dropped where the row is that
      survivor itself. */
  function GraftedParent(parent: Option<int>, id: int, gone: set<int>, live: map<int, int>): Option<int> {
    match parent
    case None => None
    case Some(p) => if p !in gone then Some(p) else if At(live, p) == id then None else Some(At(live, p))
  }

  /** A pass that folded `gone` away, each into what `live` says, has left every row the grafted parent. */
  ghost predicate Grafted(before: Types, after: Types, gone: set<int>, live: map<int, int>) {
    && after.Keys == before.Keys
    && forall id :: id in before ==> after[id].parent == GraftedParent(before[id].parent, id, gone, live)
  }

  /** One more collapse, of a loser that nothing has been folded into. */
  lemma GraftedNext(
    start: Types, types: Types, gone: set<int>, live: map<int, int>, survivor: int, loser: int)
    requires Grafted(start, types, gone, live)
    requires loser !in gone && loser in live && live[loser] == loser && survivor != loser
    requires forall p :: p in gone ==> p in live && live[p] != loser
    ensures Grafted(start, CollapsedTypes(types, survivor, loser), gone + {loser}, Resettled(live, survivor, loser))
  {
    var after, live' := CollapsedTypes(types, survivor, loser), Resettled(live, survivor, loser);
    forall id | id in start
      ensures after[id].parent == GraftedParent(start[id].parent, id, gone + {loser}, live')
    {
      assert after[id] == CollapsedRow(types[id], id, survivor, loser);
    }
  }

  // ----- when the pass leaves a tree

  /** Climbing from x, the first loser met is n levels up. */
  ghost predicate FirstLoser(types: Types, gone: set<int>, x: int, n: nat, loser: int) {
    && n > 0 && Up(types, x, n) == Some(loser) && loser in gone
    && NoLoser(types, gone, x, n)
  }

  ghost predicate NoLoser(types: Types, gone: set<int>, x: int, n: nat) {
    forall i {:trigger Up(types, x, i)} :: 0 < i < n && Up(types, x, i).Some? ==> Up(types, x, i).value !in gone
  }

  /** Survivor s sits beneath a loser of survivor t: the first loser above s was folded into t.  Beneath its own loser
      counts only from two levels up, for a parent edge to one's own loser is dropped. */
  ghost predicate Beneath(types: Types, gone: set<int>, live: map<int, int>, s: int, t: int) {
    exists n: nat, loser :: FirstLoser(types, gone, s, n, loser) && At(live, loser) == t && (s == t ==> n >= 2)
  }

  ghost predicate Chain(types: Types, gone: set<int>, live: map<int, int>, path: seq<int>) {
    path != [] && forall i {:trigger path[i]} :: 0 < i < |path| ==> Beneath(types, gone, live, path[i - 1], path[i])
  }

  /** A ring of survivors, each beneath a loser of the next. */
  ghost predicate Ringed(types: Types, gone: set<int>, live: map<int, int>) {
    exists path :: |path| >= 2 && path[0] == path[|path| - 1] && Chain(types, gone, live, path)
  }

  /** As long as no loser is met, the new tree climbs as the old one did. */
  lemma {:induction false} SameClimb(
    before: Types, after: Types, gone: set<int>, live: map<int, int>, x: int, n: nat, i: nat)
    requires Grafted(before, after, gone, live) && i < n
    requires Up(before, x, n).Some? && NoLoser(before, gone, x, n)
    ensures Up(after, x, i) == Up(before, x, i)
  {
    UpSome(before, x, i, n);
    if i > 0 {
      SameClimb(before, after, gone, live, x, n, i - 1);
      assert Up(before, x, i).value !in gone;
    }
  }

  lemma BeneathClimbs(before: Types, after: Types, gone: set<int>, live: map<int, int>, s: int, t: int) returns (m: nat)
    requires Grafted(before, after, gone, live) && Beneath(before, gone, live, s, t)
    ensures m > 0 && Up(after, s, m) == Some(t)
  {
    var n: nat, loser :| FirstLoser(before, gone, s, n, loser) && At(live, loser) == t && (s == t ==> n >= 2);
    SameClimb(before, after, gone, live, s, n, n - 1);
    UpSome(before, s, n - 1, n);
    m := if Up(before, s, n - 1) == Some(t) then n - 1 else n;
  }

  lemma {:induction false} ChainClimbs(
    before: Types, after: Types, gone: set<int>, live: map<int, int>, path: seq<int>) returns (m: nat)
    requires Grafted(before, after, gone, live) && Chain(before, gone, live, path)
    ensures m >= |path| - 1 && Up(after, path[0], m) == Some(path[|path| - 1])
  {
    var n := |path| - 1;
    if n == 0 {
      m := 0;
    } else {
      var front := path[..n];
      assert forall i :: 0 <= i < n ==> front[i] == path[i];
      var k := ChainClimbs(before, after, gone, live, front);
      assert Beneath(before, gone, live, path[n - 1], path[n]);
      var j := BeneathClimbs(before, after, gone, live, path[n - 1], path[n]);
      UpUp(after, path[0], k, j);
      m := k + j;
    }
  }

  /** An edge of the new tree that the pass put there. */
  ghost predicate Graft(before: Types, gone: set<int>, live: map<int, int>, z: int, s: int) {
    z in before && before[z].parent.Some? && before[z].parent.value in gone
    && At(live, before[z].parent.value) == s != z
  }

  /** A climb in the new tree either is a climb of the old one or takes an edge the pass put there. */
  lemma {:induction false} ClimbOrGraft(
    before: Types, after: Types, gone: set<int>, live: map<int, int>, x: int, n: nat)
    returns (i: nat, z: int, s: int)
    requires Grafted(before, after, gone, live) && Up(after, x, n).Some?
    ensures i <= n
    ensures i == 0 ==> Up(before, x, n) == Up(after, x, n)
    ensures i > 0 ==> Up(after, x, i - 1) == Some(z) && Up(after, x, i) == Some(s) && Graft(before, gone, live, z, s)
  {
    if n == 0 {
      i, z, s := 0, x, x;
    } else {
      UpSome(after, x, n - 1, n);
      i, z, s := ClimbOrGraft(before, after, gone, live, x, n - 1);
      var y := Up(after, x, n - 1).value;
      if i == 0 && before[y].parent.value in gone {
        i, z, s := n, y, Up(after, x, n).value;
      }
    }
  }

  /** From a survivor, a climb in the new tree goes along a chain of survivors, and from the last one as in the old
      tree, past no loser. */
  lemma {:induction false} ClimbIsChain(
    before: Types, after: Types, gone: set<int>, live: map<int, int>, s: int, n: nat) returns (path: seq<int>, j: nat)
    requires Grafted(before, after, gone, live) && Up(after, s, n).Some?
    ensures Chain(before, gone, live, path) && path[0] == s
    ensures Up(before, path[|path| - 1], j) == Up(after, s, n)
    ensures NoLoser(before, gone, path[|path| - 1], j + 1)
  {
    if n == 0 {
      path, j := [s], 0;
    } else {
      UpSome(after, s, n - 1, n);
      path, j := ClimbIsChain(before, after, gone, live, s, n - 1);
      var last, y := path[|path| - 1], Up(after, s, n - 1).value;
      assert Up(before, last, j + 1) == before[y].parent;
      if before[y].parent.value in gone {
        path := GraftExtends(before, gone, live, path, j, y, Up(after, s, n).value);
        j := 0;
      } else {
        j := j + 1;
      }
    }
  }

  lemma GraftExtends(
    types: Types, gone: set<int>, live: map<int, int>, path: seq<int>, j: nat, z: int, s: int)
        returns (longer: seq<int>)
    requires Chain(types, gone, live, path) && Graft(types, gone, live, z, s)
    requires Up(types, path[|path| - 1], j) == Some(z) && NoLoser(types, gone, path[|path| - 1], j + 1)
    ensures longer == path + [s] && Chain(types, gone, live, longer)
  {
    longer := path + [s];
    var last, loser := path[|path| - 1], types[z].parent.value;
    assert FirstLoser(types, gone, last, j + 1, loser);
    assert Beneath(types, gone, live, last, s);
    forall i | 0 < i < |longer|
      ensures Beneath(types, gone, live, longer[i - 1], longer[i])
    {
      if i < |path| { assert longer[i] == path[i] && longer[i - 1] == path[i - 1]; }
    }
  }

  /** From an acyclic parent relation, a whole pass leaves an acyclic one exactly when no survivors sit in a ring, each
      beneath a loser of the next. */
  lemma PassAcyclicExactly(before: Types, after: Types, gone: set<int>, live: map<int, int>)
    requires Acyclic(before) && Grafted(before, after, gone, live)
    ensures Acyclic(after) <==> !Ringed(before, gone, live)
  {
    if Ringed(before, gone, live) {
      var path :| |path| >= 2 && path[0] == path[|path| - 1] && Chain(before, gone, live, path);
      var m := ChainClimbs(before, after, gone, live, path);
      UpSome(after, path[0], 1, m);
      assert Up(after, path[0], 1) == if path[0] in after then after[path[0]].parent else None by {
        assert Up(after, path[0], 0) == Some(path[0]);
      }
    } else {
      forall x, n: nat | n > 0 && x in after
        ensures Up(after, x, n) != Some(x)
      {
        if Up(after, x, n) == Some(x) {
          LoopIsRing(before, after, gone, live, x, n);
        }
      }
    }
  }

  lemma LoopIsRing(before: Types, after: Types, gone: set<int>, live: map<int, int>, x: int, n: nat)
    requires Acyclic(before) && Grafted(before, after, gone, live)
    requires n > 0 && x in after && Up(after, x, n) == Some(x)
    ensures Ringed(before, gone, live)
  {
    var i, z, s := ClimbOrGraft(before, after, gone, live, x, n);
    assert i > 0;
    UpUp(after, x, i, n - 1);
    UpUp(after, x, n, i - 1);
    assert Up(after, s, n - 1) == Some(z);
    var path, j := ClimbIsChain(before, after, gone, live, s, n - 1);
    var ring := GraftExtends(before, gone, live, path, j, z, s);
    assert ring[0] == ring[|ring| - 1] && |ring| >= 2;
  }

  // ----- one cluster, and two

  ghost predicate LoserAbove(types: Types, gone: set<int>, s: int) {
    exists n: nat :: n > 0 && Up(types, s, n).Some? && Up(types, s, n).value in gone
  }

  lemma {:induction false} FirstAbove(types: Types, gone: set<int>, s: int, n: nat) returns (k: nat, loser: int)
    requires n > 0 && Up(types, s, n).Some? && Up(types, s, n).value in gone
    ensures FirstLoser(types, gone, s, k, loser)
  {
    if NoLoser(types, gone, s, n) {
      k, loser := n, Up(types, s, n).value;
    } else {
      var i: nat :| 0 < i < n && Up(types, s, i).Some? && Up(types, s, i).value in gone;
      k, loser := FirstAbove(types, gone, s, i);
    }
  }

  ghost predicate ParentIsLoser(types: Types, gone: set<int>, s: int) {
    s in types && types[s].parent.Some? && types[s].parent.value in gone
  }

  lemma AboveIsRing(types: Types, gone: set<int>, live: map<int, int>, s: int)
    requires forall p :: p in gone ==> At(live, p) == s
    requires LoserAbove(types, gone, s) && !ParentIsLoser(types, gone, s)
    ensures Ringed(types, gone, live)
  {
    var n: nat :| n > 0 && Up(types, s, n).Some? && Up(types, s, n).value in gone;
    var k, loser := FirstAbove(types, gone, s, n);
    assert Up(types, s, 1) == if s in types then types[s].parent else None by {
      assert Up(types, s, 0) == Some(s);
    }
    assert k >= 2;
    assert Beneath(types, gone, live, s, s);
    var ring := [s, s];
    assert |ring| >= 2 && ring[0] == ring[|ring| - 1] && Chain(types, gone, live, ring);
  }

  lemma RingIsAbove(types: Types, gone: set<int>, live: map<int, int>, s: int)
    requires forall p :: p in gone ==> At(live, p) == s
    requires Ringed(types, gone, live)
    ensures LoserAbove(types, gone, s) && !ParentIsLoser(types, gone, s)
  {
    var path :| |path| >= 2 && path[0] == path[|path| - 1] && Chain(types, gone, live, path);
    var last := |path| - 1;
    assert Beneath(types, gone, live, path[last - 1], path[last]);
    assert path[0] == s;
    assert Beneath(types, gone, live, path[1 - 1], path[1]);
    assert path[1] == s;
    var n: nat, loser :| FirstLoser(types, gone, s, n, loser) && n >= 2;
    UpSome(types, s, 1, n);
    assert Up(types, s, 0) == Some(s);
    assert Up(types, s, 1) == types[s].parent;
  }

  /** A pass of one cluster leaves a tree exactly when the survivor's own parent is a loser, or no ancestor of it is. */
  lemma OneClusterAcyclicExactly(before: Types, after: Types, gone: set<int>, live: map<int, int>, survivor: int)
    requires Acyclic(before) && Grafted(before, after, gone, live)
    requires forall p :: p in gone ==> At(live, p) == survivor
    ensures Acyclic(after) <==> (LoserAbove(before, gone, survivor) ==> ParentIsLoser(before, gone, survivor))
  {
    PassAcyclicExactly(before, after, gone, live);
    if Ringed(before, gone, live) {
      RingIsAbove(before, gone, live, survivor);
    } else if LoserAbove(before, gone, survivor) && !ParentIsLoser(before, gone, survivor) {
      AboveIsRing(before, gone, live, survivor);
    }
  }

  /** The witness that a pass may loop where neither of its clusters would: each survivor's parent is the other
      cluster's loser. */
  lemma TwoClustersLoop(a: int, b: int, lostA: int, lostB: int)
    requires |{a, b, lostA, lostB}| == 4
    ensures var types := map[a := TypeRow(Some(lostB), None), b := TypeRow(Some(lostA), None),
                             lostA := TypeRow(None, None), lostB := TypeRow(None, None)];
            var after := CollapsedTypes(CollapsedTypes(types, a, lostA), b, lostB);
            && after[a].parent == Some(b) && after[b].parent == Some(a)
            && !DistantAncestor(types, lostA, a) && !DistantAncestor(types, lostB, b)
  {
    var types := map[a := TypeRow(Some(lostB), None), b := TypeRow(Some(lostA), None),
                     lostA := TypeRow(None, None), lostB := TypeRow(None, None)];
    var between := CollapsedTypes(types, a, lostA);
    assert between[a] == CollapsedRow(types[a], a, a, lostA);
    assert between[b] == CollapsedRow(types[b], b, a, lostA);
    assert CollapsedTypes(between, b, lostB)[a] == CollapsedRow(between[a], a, b, lostB);
    assert CollapsedTypes(between, b, lostB)[b] == CollapsedRow(between[b], b, b, lostB);
    ShortClimb(types, a, lostB);
    ShortClimb(types, b, lostA);
  }

  /** Nothing is two levels above a type whose parent is a root. */
  lemma ShortClimb(types: Types, x: int, root: int)
    requires x in types && types[x].parent == Some(root) && root in types && types[root].parent == None
    ensures forall n: nat :: n >= 2 ==> Up(types, x, n) == None
  {
    forall n: nat | n >= 2
      ensures Up(types, x, n) == None
    {
      assert Up(types, x, 0) == Some(x);
      assert Up(types, x, 1) == Some(root);
      assert Up(types, x, 2) == None;
      if n > 2 && Up(types, x, n).Some? { UpSome(types, x, 2, n); }
    }
  }
}
