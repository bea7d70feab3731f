/** Stitching confirmed pairs into clusters (services/memory/ontology_gc.py:128-157). */
module OntologyClusters {
  import opened Closure
  import opened UnionFind
  import Sorting

  ghost predicate StrictlyAscending(s: seq<int>) {
    forall i, j :: 0 <= i < j < |s| ==> s[i] < s[j]
  }

  ghost predicate Disjoint(clusters: seq<seq<int>>) {
    forall i, j, a :: 0 <= i < j < |clusters| && a in clusters[i] ==> a !in clusters[j]
  }

  /** Clusters are exactly the connected components of size two or more, each written once, ascending. */
  ghost predicate AreComponents(pairs: seq<Pair>, clusters: seq<seq<int>>) {
    && (forall g :: g in clusters ==> |g| >= 2 && StrictlyAscending(g))
    && (forall g, a, b :: g in clusters && a in g ==> (b in g <==> Connected(pairs, a, b)))
    && (forall a, b :: a in Ids(pairs) && a != b && Connected(pairs, a, b) ==> exists g :: g in clusters && a in g)
    && Disjoint(clusters)
    && (forall g, a :: g in clusters && a in g ==> a in Ids(pairs))
  }

  /** Ascending ids, as the shared sort reads them: highest negated id first. */
  function Ascending(x: int): real {
    -(x as real)
  }

  function Sorted(s: seq<int>): seq<int> {
    Sorting.Sort(Ascending, s)
  }

  lemma SortedAscends(s: seq<int>)
    ensures forall i, j :: 0 <= i < j < |Sorted(s)| ==> Sorted(s)[i] <= Sorted(s)[j]
    ensures multiset(Sorted(s)) == multiset(s)
    ensures |Sorted(s)| == |s|
    ensures forall x :: x in Sorted(s) <==> x in s
  {
    Sorting.SortOrders(Ascending, s);
    Sorting.SortHolds(Ascending, s);
    Sorting.SortSame(Ascending, s);
    var g := Sorted(s);
    forall i, j | 0 <= i < j < |g|
      ensures g[i] <= g[j]
    {
      assert Ascending(g[i]) >= Ascending(g[j]);
    }
  }

  /** Which clusters the group map gives: one sorted group per key, groups of one left out. */
  function Clustered(keys: seq<int>, groups: map<int, seq<int>>): seq<seq<int>>
    requires forall i :: 0 <= i < |keys| ==> keys[i] in groups
  {
    if keys == [] then []
    else
      var last := keys[|keys| - 1];
      Clustered(keys[..|keys| - 1], groups)
      + (if |groups[last]| >= 2 then [Sorted(groups[last])] else [])
  }

  method Collect(keys: seq<int>, groups: map<int, seq<int>>) returns (clusters: seq<seq<int>>)
    requires forall i :: 0 <= i < |keys| ==> keys[i] in groups
    ensures clusters == Clustered(keys, groups)
  {
    clusters := [];
    for k := 0 to |keys|
      invariant clusters == Clustered(keys[..k], groups)
    {
      assert keys[..k + 1][..k] == keys[..k];
      var group := groups[keys[k]];
      if |group| >= 2 {
        clusters := clusters + [Sorted(group)];
      }
    }
    assert keys[..|keys|] == keys;
  }

  /** Stitch confirmed pairs into clusters. */
  method Cluster(pairs: seq<Pair>) returns (clusters: seq<seq<int>>)
    ensures AreComponents(pairs, clusters)
  {
    var forest := new Forest();
    forest.UnionAll(pairs);
    var keys, groups := forest.Groups();
    clusters := Collect(keys, groups);
    NaiveRooted(pairs);
    ClusteredAreComponents(pairs, forest.order, keys, groups);
  }

  lemma {:induction false} ClusteredMember(keys: seq<int>, groups: map<int, seq<int>>, g: seq<int>)
    requires forall i :: 0 <= i < |keys| ==> keys[i] in groups
    ensures g in Clustered(keys, groups) <==>
            exists r :: r in keys && r in groups && |groups[r]| >= 2 && g == Sorted(groups[r])
  {
    if keys != [] {
      ClusteredMember(keys[..|keys| - 1], groups, g);
      assert forall r :: r in keys <==> r in keys[..|keys| - 1] || r == keys[|keys| - 1];
    }
  }

  lemma SortedStrictly(s: seq<int>)
    requires Distinct(s)
    ensures StrictlyAscending(Sorted(s))
  {
    SortedAscends(s);
    var g := Sorted(s);
    forall i, j | 0 <= i < j < |g|
      ensures g[i] < g[j]
    {
      if g[i] == g[j] {
        DistinctCount(s, g[i]);
        TwiceCount(g, i, j);
      }
    }
  }

  lemma SortedGroup(order: seq<int>, roots: Labels, r: int)
    requires forall x :: x in order ==> x in roots
    requires Distinct(order)
    ensures StrictlyAscending(Sorted(Under(order, roots, r)))
    ensures |Sorted(Under(order, roots, r))| == |Under(order, roots, r)|
    ensures forall x :: x in Sorted(Under(order, roots, r)) <==> x in order && roots[x] == r
  {
    UnderDistinct(order, roots, r);
    SortedStrictly(Under(order, roots, r));
    SortedAscends(Under(order, roots, r));
  }

  lemma {:induction false} DistinctCount(s: seq<int>, x: int)
    requires Distinct(s)
    ensures multiset(s)[x] <= 1
  {
    if s != [] {
      DistinctCount(s[1..], x);
      assert s == [s[0]] + s[1..];
    }
  }

  lemma TwiceCount(s: seq<int>, i: nat, j: nat)
    requires i < j < |s| && s[i] == s[j]
    ensures multiset(s)[s[i]] >= 2
  {
    assert s == s[..i] + [s[i]] + s[i + 1..j] + [s[j]] + s[j + 1..];
  }

  lemma {:induction false} ClusteredDisjoint(order: seq<int>, roots: Labels, keys: seq<int>, groups: map<int, seq<int>>)
    requires forall x :: x in order ==> x in roots
    requires Distinct(order)
    requires Distinct(keys)
    requires forall i :: 0 <= i < |keys| ==> keys[i] in groups && groups[keys[i]] == Under(order, roots, keys[i])
    ensures Disjoint(Clustered(keys, groups))
    ensures forall g, a :: g in Clustered(keys, groups) && a in g ==> a in roots && roots[a] in keys
  {
    if keys != [] {
      var front, last := keys[..|keys| - 1], keys[|keys| - 1];
      ClusteredDisjoint(order, roots, front, groups);
      SortedGroup(order, roots, last);
      var before, after := Clustered(front, groups), Clustered(keys, groups);
      forall i, j, a | 0 <= i < j < |after| && a in after[i]
        ensures a !in after[j]
      {
        assert after[i] == before[i] && before[i] in before;
        if j == |before| {
          assert roots[a] in front && last !in front;
        }
      }
    }
  }

  lemma ClusterIsClass(pairs: seq<Pair>, order: seq<int>, keys: seq<int>, groups: map<int, seq<int>>, g: seq<int>)
    requires GroupsUnder(order, Naive(pairs), keys, groups)
    requires forall x :: x in Ids(pairs) ==> x in order
    requires Distinct(order)
    requires g in Clustered(keys, groups)
    ensures |g| >= 2 && StrictlyAscending(g)
    ensures forall a :: a in g ==> a in Ids(pairs)
    ensures forall a, b :: a in g ==> (b in g <==> Connected(pairs, a, b))
  {
    NaiveRooted(pairs);
    ClusteredMember(keys, groups, g);
    var r :| r in keys && r in groups && |groups[r]| >= 2 && g == Sorted(groups[r]);
    SortedGroup(order, Naive(pairs), r);
    forall a, b | a in g
      ensures b in g <==> Connected(pairs, a, b)
    {
      NaiveIsClosure(pairs, a, b);
    }
  }

  lemma ClassIsClustered(
    pairs: seq<Pair>, order: seq<int>, keys: seq<int>, groups: map<int, seq<int>>, a: int, b: int)
    requires GroupsUnder(order, Naive(pairs), keys, groups)
    requires forall x :: x in Ids(pairs) ==> x in order
    requires Distinct(order)
    requires a in Ids(pairs) && a != b && Connected(pairs, a, b)
    ensures exists g :: g in Clustered(keys, groups) && a in g
  {
    NaiveIsClosure(pairs, a, b);
    var r := Naive(pairs)[a];
    TwoMembers(groups[r], a, b);
    SortedGroup(order, Naive(pairs), r);
    ClusteredMember(keys, groups, Sorted(groups[r]));
  }

  lemma ClusteredAreComponents(pairs: seq<Pair>, order: seq<int>, keys: seq<int>, groups: map<int, seq<int>>)
    requires GroupsUnder(order, Naive(pairs), keys, groups)
    requires forall x :: x in Ids(pairs) ==> x in order
    requires Distinct(order)
    ensures AreComponents(pairs, Clustered(keys, groups))
  {
    ClusteredDisjoint(order, Naive(pairs), keys, groups);
    forall g | g in Clustered(keys, groups)
      ensures |g| >= 2 && StrictlyAscending(g)
      ensures forall a :: a in g ==> a in Ids(pairs)
      ensures forall a, b :: a in g ==> (b in g <==> Connected(pairs, a, b))
    {
      ClusterIsClass(pairs, order, keys, groups, g);
    }
    forall a, b | a in Ids(pairs) && a != b && Connected(pairs, a, b)
      ensures exists g :: g in Clustered(keys, groups) && a in g
    {
      ClassIsClustered(pairs, order, keys, groups, a, b);
    }
  }

  lemma TwoMembers(s: seq<int>, a: int, b: int)
    requires a in s && b in s && a != b
    ensures |s| >= 2
  {
  }
}
