/** The echoes lens: scoring a page of the machine's lines for redundancy (services/observe.py:213-270).

An utterance is named by its place on the page, and the closeness of two of them is an arbitrary number. */
module Echoes {
  import opened Closure
  import opened UnionFind
  import opened OntologyClusters
  import Sorting

  /** One group of near-duplicates: its headline similarity and its members, newest first. */
  datatype Echo = Echo(similarity: real, members: seq<int>)

  type Closeness = (int, int) -> real

  ghost predicate Close(n: nat, sim: Closeness, threshold: real, i: int, j: int) {
    0 <= i < j < n && sim(i, j) >= threshold
  }

  /** `pairs` lists the pairs at or above the threshold. */
  ghost predicate ListsClose(n: nat, sim: Closeness, threshold: real, pairs: seq<Pair>) {
    forall p :: p in pairs <==> Close(n, sim, threshold, p.0, p.1)
  }

  // ----- a forest that starts out as singletons

  /** The closure's labels where the pairs reach, and every other index its own label. */
  ghost function OnTop(n: nat, m: Labels): Labels {
    map x | x in Identity(n) :: if x in m then m[x] else x
  }

  lemma MergeOnTop(n: nat, m: Labels, a: int, b: int)
    requires Rooted(m) && 0 <= a < n && 0 <= b < n
    ensures Merge(OnTop(n, m), a, b) == OnTop(n, Merge(m, a, b))
  {
    SeenRooted(m, a);
    SeenRooted(Seen(m, a), b);
    var m' := Seen(Seen(m, a), b);
    assert RootedAt(m', a) && RootedAt(m', b);
    var o := OnTop(n, m);
    assert Seen(Seen(o, a), b) == o;
    assert o[a] == m'[a] && o[b] == m'[b];
    assert Repaint(o, m'[a], m'[b]) == OnTop(n, Repaint(m', m'[a], m'[b]));
  }

  lemma OnTopIsClosure(n: nat, pairs: seq<Pair>, i: int, j: int)
    requires forall x :: x in Ids(pairs) ==> 0 <= x < n
    requires 0 <= i < n && 0 <= j < n
    ensures OnTop(n, Naive(pairs))[i] == OnTop(n, Naive(pairs))[j] <==> Connected(pairs, i, j)
  {
    NaiveRooted(pairs);
    if i in Ids(pairs) {
      NaiveIsClosure(pairs, i, j);
      assert RootedAt(Naive(pairs), i);
    } else if j in Ids(pairs) {
      NaiveIsClosure(pairs, j, i);
      assert RootedAt(Naive(pairs), j);
      if Connected(pairs, i, j) { ConnectedSym(pairs, i, j); }
    } else {
      if i == j { ConnectedRefl(pairs, i); }
      if Connected(pairs, i, j) {
        var path :| Joins(pairs, path, i, j);
        assert |path| > 1 ==> Linked(pairs, path[0], path[1]);
      }
    }
  }

  // ----- scoring every pair

  /** Of the close pairs, `pairs` lists those met before (i, j) in reading order. */
  ghost predicate ListsUpTo(n: nat, sim: Closeness, threshold: real, pairs: seq<Pair>, i: int, j: int) {
    forall p :: p in pairs <==> Close(n, sim, threshold, p.0, p.1) && (p.0 < i || (p.0 == i && p.1 < j))
  }

  ghost predicate Scores(sim: Closeness, sims: map<Pair, real>, n: nat, i: int, j: int) {
    forall a, b :: 0 <= a < b < n && (a < i || (a == i && b < j)) ==> (a, b) in sims && sims[(a, b)] == sim(a, b)
  }

  lemma RowEnds(n: nat, sim: Closeness, threshold: real, pairs: seq<Pair>, sims: map<Pair, real>, i: int)
    requires 0 <= i < n
    requires ListsUpTo(n, sim, threshold, pairs, i, n) && Scores(sim, sims, n, i, n)
    ensures ListsUpTo(n, sim, threshold, pairs, i + 1, i + 2) && Scores(sim, sims, n, i + 1, i + 2)
  {
  }

  lemma RowSkips(n: nat, sim: Closeness, threshold: real, pairs: seq<Pair>, i: int, j: int)
    requires i < j < n && sim(i, j) < threshold
    requires ListsUpTo(n, sim, threshold, pairs, i, j)
    ensures ListsUpTo(n, sim, threshold, pairs, i, j + 1)
  {
  }

  lemma RowTakes(n: nat, sim: Closeness, threshold: real, pairs: seq<Pair>, i: int, j: int)
    requires 0 <= i < j < n && sim(i, j) >= threshold
    requires ListsUpTo(n, sim, threshold, pairs, i, j)
    ensures ListsUpTo(n, sim, threshold, pairs + [(i, j)], i, j + 1)
  {
    assert forall p :: p in pairs + [(i, j)] <==> p in pairs || p == (i, j);
  }

  /** Every pair before (i, j) in reading order has been scored, and the close ones joined. */
  ghost predicate ScoredUpTo(
    n: nat, sim: Closeness, threshold: real, pairs: seq<Pair>, sims: map<Pair, real>, roots: Labels, i: int, j: int)
  {
    && ListsUpTo(n, sim, threshold, pairs, i, j)
    && Scores(sim, sims, n, i, j)
    && roots == OnTop(n, Naive(pairs))
  }

  lemma JoinedRoots(n: nat, pairs: seq<Pair>, i: int, j: int)
    requires 0 <= i < n && 0 <= j < n
    ensures Merge(OnTop(n, Naive(pairs)), i, j) == OnTop(n, Naive(pairs + [(i, j)]))
  {
    NaiveRooted(pairs);
    MergeOnTop(n, Naive(pairs), i, j);
    assert (pairs + [(i, j)])[..|pairs|] == pairs;
  }

  lemma ScoredNext(
    n: nat, sim: Closeness, threshold: real, pairs: seq<Pair>, sims: map<Pair, real>, roots: Labels, i: int, j: int)
    requires 0 <= i < j < n
    requires ScoredUpTo(n, sim, threshold, pairs, sims, roots, i, j)
    ensures var sims' := sims[(i, j) := sim(i, j)];
            if sim(i, j) >= threshold
            then ScoredUpTo(n, sim, threshold, pairs + [(i, j)], sims', Merge(roots, i, j), i, j + 1)
            else ScoredUpTo(n, sim, threshold, pairs, sims', roots, i, j + 1)
  {
    ScoresNext(n, sim, sims, i, j);
    if sim(i, j) >= threshold {
      JoinedRoots(n, pairs, i, j);
      RowTakes(n, sim, threshold, pairs, i, j);
    } else {
      RowSkips(n, sim, threshold, pairs, i, j);
    }
  }

  lemma ScoresNext(n: nat, sim: Closeness, sims: map<Pair, real>, i: int, j: int)
    requires 0 <= i < j < n && Scores(sim, sims, n, i, j)
    ensures Scores(sim, sims[(i, j) := sim(i, j)], n, i, j + 1)
  {
  }

  /** Score one line against those after it, and join the close ones. */
  method LinkRow(
    forest: Forest, n: nat, sim: Closeness, threshold: real, i: nat, before: map<Pair, real>, ghost known: seq<Pair>)
      returns (sims: map<Pair, real>, ghost pairs: seq<Pair>)
    requires i < n
    requires forest.Valid() && ScoredUpTo(n, sim, threshold, known, before, forest.roots, i, i + 1)
    modifies forest
    ensures forest.Valid() && forest.order == old(forest.order)
    ensures ScoredUpTo(n, sim, threshold, pairs, sims, forest.roots, i + 1, i + 2)
  {
    sims, pairs := before, known;
    for j := i + 1 to n
      invariant forest.Valid() && forest.order == old(forest.order)
      invariant ScoredUpTo(n, sim, threshold, pairs, sims, forest.roots, i, j)
    {
      ScoredNext(n, sim, threshold, pairs, sims, forest.roots, i, j);
      var s := sim(i, j);
      sims := sims[(i, j) := s];
      if s >= threshold {
        assert i in Identity(n) && j in Identity(n);
        forest.Join(i, j);
        pairs := pairs + [(i, j)];
      }
    }
    RowEnds(n, sim, threshold, pairs, sims, i);
  }

  /** Score every pair of lines and join the close ones. */
  method LinkClose(n: nat, sim: Closeness, threshold: real)
      returns (forest: Forest, sims: map<Pair, real>, ghost pairs: seq<Pair>)
    ensures fresh(forest) && forest.Valid() && forest.order == seq(n, i => i)
    ensures ScoredUpTo(n, sim, threshold, pairs, sims, forest.roots, n, n + 1)
  {
    forest := new Forest.Singletons(n);
    sims, pairs := map[], [];
    assert OnTop(n, Naive([])) == Identity(n);
    for i := 0 to n
      invariant fresh(forest) && forest.Valid() && forest.order == seq(n, i => i)
      invariant ScoredUpTo(n, sim, threshold, pairs, sims, forest.roots, i, i + 1)
    {
      sims, pairs := LinkRow(forest, n, sim, threshold, i, sims, pairs);
    }
  }

  // ----- a group's headline

  /** `top` is the strongest pair inside the group. */
  ghost predicate Headline(sim: Closeness, members: seq<int>, top: real) {
    && (forall a, b :: a in members && b in members && a < b ==> sim(a, b) <= top)
    && exists a, b :: a in members && b in members && a < b && sim(a, b) == top
  }

  ghost predicate TopSoFar(sim: Closeness, members: seq<int>, top: real, i: int, j: int) {
    forall p, q :: 0 <= p < |members| && 0 <= q < |members| ==>
      members[p] < members[q] && (p < i || (p == i && q < j)) ==> sim(members[p], members[q]) <= top
  }

  /** The largest kept score over the ordered pairs of a group. */
  method Strongest(n: nat, sim: Closeness, sims: map<Pair, real>, members: seq<int>) returns (top: real)
    requires Scores(sim, sims, n, n, n + 1)
    requires |members| >= 2 && StrictlyAscending(members)
    requires forall i :: 0 <= i < |members| ==> 0 <= members[i] < n
    ensures Headline(sim, members, top)
  {
    var a: int, b: int := members[0], members[1];
    top := sims[(a, b)];
    for i := 0 to |members|
      invariant a in members && b in members && a < b && sim(a, b) == top
      invariant TopSoFar(sim, members, top, i, 0)
    {
      for j := 0 to |members|
        invariant a in members && b in members && a < b && sim(a, b) == top
        invariant TopSoFar(sim, members, top, i, j)
      {
        var x: int, y: int := members[i], members[j];
        if x < y {
          var s := sims[(x, y)];
          if s > top {
            top, a, b := s, x, y;
          }
        }
      }
    }
  }

  // ----- clusters and singles

  /** In how many places of the answer the line numbered x turns up. */
  function Placed(x: int, clusters: seq<Echo>, singles: seq<int>): nat {
    Sorting.Count((c: Echo) => x in c.members, clusters) + Sorting.Count((u: int) => u == x, singles)
  }

  lemma PlacedNext(x: int, clusters: seq<Echo>, singles: seq<int>, c: Echo, u: int)
    ensures Placed(x, clusters + [c], singles) == Placed(x, clusters, singles) + (if x in c.members then 1 else 0)
    ensures Placed(x, clusters, singles + [u]) == Placed(x, clusters, singles) + (if u == x then 1 else 0)
  {
    Sorting.CountSnoc((c: Echo) => x in c.members, clusters, c);
    Sorting.CountSnoc((u: int) => u == x, singles, u);
  }

  ghost predicate FromGroup(sim: Closeness, group: seq<int>, c: Echo) {
    |group| >= 2 && c.members == Sorted(group) && Headline(sim, c.members, c.similarity)
  }

  /** Line x turns up once when its group is among the first k, and nowhere otherwise. */
  ghost predicate PlacedBy(
    roots: Labels, keys: seq<int>, clusters: seq<Echo>, singles: seq<int>, k: nat, x: int)
    requires k <= |keys|
  {
    Placed(x, clusters, singles) == if x in roots && roots[x] in keys[..k] then 1 else 0
  }

  ghost predicate AllPlaced(roots: Labels, keys: seq<int>, clusters: seq<Echo>, singles: seq<int>, k: nat)
    requires k <= |keys|
  {
    forall x {:trigger PlacedBy(roots, keys, clusters, singles, k, x)} :: PlacedBy(roots, keys, clusters, singles, k, x)
  }

  /** Every cluster comes from some group. */
  ghost predicate Sourced(sim: Closeness, groups: map<int, seq<int>>, clusters: seq<Echo>) {
    forall i :: 0 <= i < |clusters| ==> SourcedAt(sim, groups, clusters[i])
  }

  ghost predicate SourcedAt(sim: Closeness, groups: map<int, seq<int>>, c: Echo) {
    exists r :: r in groups && FromGroup(sim, groups[r], c)
  }

  /** Line x, if one of the first k groups holds it with company, is in a cluster with that whole group. */
  ghost predicate Gathered(keys: seq<int>, groups: map<int, seq<int>>, clusters: seq<Echo>, k: nat)
    requires k <= |keys|
    requires forall i :: 0 <= i < |keys| ==> keys[i] in groups
  {
    forall i :: 0 <= i < k && |groups[keys[i]]| >= 2 ==> GatheredAt(groups[keys[i]], clusters)
  }

  ghost predicate GatheredAt(group: seq<int>, clusters: seq<Echo>) {
    exists j :: 0 <= j < |clusters| && clusters[j].members == Sorted(group)
  }

  lemma GatheredMore(group: seq<int>, clusters: seq<Echo>, c: Echo)
    requires GatheredAt(group, clusters) || c.members == Sorted(group)
    ensures GatheredAt(group, clusters + [c])
  {
    if c.members == Sorted(group) {
      assert (clusters + [c])[|clusters|].members == Sorted(group);
    } else {
      var j :| 0 <= j < |clusters| && clusters[j].members == Sorted(group);
      assert (clusters + [c])[j].members == Sorted(group);
    }
  }

  /** The first k groups have been written out, the larger ones as clusters and the rest as singles. */
  ghost predicate Written(
    sim: Closeness, roots: Labels, keys: seq<int>, groups: map<int, seq<int>>, clusters: seq<Echo>, singles: seq<int>,
    k: nat)
    requires k <= |keys|
    requires forall i :: 0 <= i < |keys| ==> keys[i] in groups
  {
    && Sourced(sim, groups, clusters)
    && Gathered(keys, groups, clusters, k)
    && AllPlaced(roots, keys, clusters, singles, k)
  }

  lemma PrefixGrows(keys: seq<int>, k: nat, r: int)
    requires k < |keys| && Distinct(keys)
    ensures r in keys[..k + 1] <==> r in keys[..k] || r == keys[k]
    ensures keys[k] !in keys[..k]
  {
    assert keys[..k + 1] == keys[..k] + [keys[k]];
  }

  /** A key's turn changes the place of exactly its own group. */
  lemma TurnOf(order: seq<int>, roots: Labels, keys: seq<int>, k: nat, x: int)
    requires k < |keys| && Distinct(keys)
    requires forall y :: y in order <==> y in roots
    ensures x in roots && roots[x] in keys[..k + 1]
       <==> (x in roots && roots[x] in keys[..k]) || x in Under(order, roots, keys[k])
    ensures x in Under(order, roots, keys[k]) ==> !(x in roots && roots[x] in keys[..k])
  {
    if x in roots {
      PrefixGrows(keys, k, roots[x]);
    }
  }

  lemma PlacedCluster(
    order: seq<int>, roots: Labels, keys: seq<int>, clusters: seq<Echo>, singles: seq<int>, k: nat, c: Echo)
    requires k < |keys| && Distinct(keys)
    requires forall y :: y in order <==> y in roots
    requires AllPlaced(roots, keys, clusters, singles, k)
    requires forall x :: x in c.members <==> x in Under(order, roots, keys[k])
    ensures AllPlaced(roots, keys, clusters + [c], singles, k + 1)
  {
    var next, longer := k + 1, clusters + [c];
    forall x
      ensures PlacedBy(roots, keys, longer, singles, next, x)
    {
      assert PlacedBy(roots, keys, clusters, singles, k, x);
      PlacedNext(x, clusters, singles, c, x);
      TurnOf(order, roots, keys, k, x);
    }
  }

  lemma PlacedSingle(
    order: seq<int>, roots: Labels, keys: seq<int>, clusters: seq<Echo>, singles: seq<int>, k: nat, u: int)
    requires k < |keys| && Distinct(keys)
    requires forall y :: y in order <==> y in roots
    requires AllPlaced(roots, keys, clusters, singles, k)
    requires Under(order, roots, keys[k]) == [u]
    ensures AllPlaced(roots, keys, clusters, singles + [u], k + 1)
  {
    var next, longer := k + 1, singles + [u];
    forall x
      ensures PlacedBy(roots, keys, clusters, longer, next, x)
    {
      assert PlacedBy(roots, keys, clusters, singles, k, x);
      PlacedNext(x, clusters, singles, Echo(0.0, []), u);
      TurnOf(order, roots, keys, k, x);
      assert x == u <==> x in [u];
    }
  }

  lemma GatheredCluster(keys: seq<int>, groups: map<int, seq<int>>, clusters: seq<Echo>, k: nat, c: Echo)
    requires k < |keys|
    requires forall i :: 0 <= i < |keys| ==> keys[i] in groups
    requires Gathered(keys, groups, clusters, k)
    requires c.members == Sorted(groups[keys[k]])
    ensures Gathered(keys, groups, clusters + [c], k + 1)
  {
    forall i | 0 <= i < k + 1 && |groups[keys[i]]| >= 2
      ensures GatheredAt(groups[keys[i]], clusters + [c])
    {
      GatheredMore(groups[keys[i]], clusters, c);
    }
  }

  lemma WrittenCluster(
    sim: Closeness, order: seq<int>, roots: Labels, keys: seq<int>, groups: map<int, seq<int>>,
    clusters: seq<Echo>, singles: seq<int>, k: nat, c: Echo)
    requires k < |keys| && GroupsUnder(order, roots, keys, groups)
    requires forall x :: x in order <==> x in roots
    requires Written(sim, roots, keys, groups, clusters, singles, k)
    requires FromGroup(sim, groups[keys[k]], c)
    ensures Written(sim, roots, keys, groups, clusters + [c], singles, k + 1)
  {
    var r := keys[k];
    assert r in groups && groups[r] == Under(order, roots, r);
    SortedAscends(groups[r]);
    PlacedCluster(order, roots, keys, clusters, singles, k, c);
    GatheredCluster(keys, groups, clusters, k, c);
    assert SourcedAt(sim, groups, c);
  }

  lemma WrittenSingle(
    sim: Closeness, order: seq<int>, roots: Labels, keys: seq<int>, groups: map<int, seq<int>>,
    clusters: seq<Echo>, singles: seq<int>, k: nat)
    requires k < |keys| && GroupsUnder(order, roots, keys, groups)
    requires forall x :: x in order <==> x in roots
    requires Written(sim, roots, keys, groups, clusters, singles, k)
    requires |groups[keys[k]]| < 2
    ensures |groups[keys[k]]| == 1
    ensures Written(sim, roots, keys, groups, clusters, singles + [groups[keys[k]][0]], k + 1)
  {
    var r := keys[k];
    assert r in groups && groups[r] == Under(order, roots, r) && groups[r] != [];
    var u: int := groups[r][0];
    assert groups[r] == [u];
    PlacedSingle(order, roots, keys, clusters, singles, k, u);
  }

  lemma {:induction false} UnderAscends(order: seq<int>, roots: Labels, r: int)
    requires StrictlyAscending(order)
    requires forall x :: x in order ==> x in roots
    ensures StrictlyAscending(Under(order, roots, r))
  {
    if order != [] {
      var front, last := order[..|order| - 1], order[|order| - 1];
      UnderAscends(front, roots, r);
      var members := Under(front, roots, r);
      forall i | 0 <= i < |members|
        ensures members[i] < last
      {
        assert members[i] in members;
        var j :| 0 <= j < |front| && front[j] == members[i];
      }
    }
  }

  /** Write one group out, under a headline when it has company. */
  method WriteGroup(
    n: nat, sim: Closeness, sims: map<Pair, real>, ghost order: seq<int>, ghost roots: Labels,
    keys: seq<int>, groups: map<int, seq<int>>, k: nat, before: seq<Echo>, alone: seq<int>)
      returns (clusters: seq<Echo>, singles: seq<int>)
    requires Scores(sim, sims, n, n, n + 1)
    requires k < |keys| && GroupsUnder(order, roots, keys, groups)
    requires order == seq(n, i => i)
    requires forall x :: x in order <==> x in roots
    requires Written(sim, roots, keys, groups, before, alone, k)
    ensures Written(sim, roots, keys, groups, clusters, singles, k + 1)
  {
    clusters, singles := before, alone;
    var group := groups[keys[k]];
    if |group| >= 2 {
      UnderAscends(order, roots, keys[k]);
      InRange(n, order, roots, keys[k]);
      var top := Strongest(n, sim, sims, group);
      SortedHeadline(sim, group, top);
      WrittenCluster(sim, order, roots, keys, groups, clusters, singles, k, Echo(top, Sorted(group)));
      clusters := clusters + [Echo(top, Sorted(group))];
    } else {
      WrittenSingle(sim, order, roots, keys, groups, clusters, singles, k);
      singles := singles + [group[0]];
    }
  }

  method WriteOut(
    n: nat, sim: Closeness, sims: map<Pair, real>, ghost order: seq<int>, ghost roots: Labels,
    keys: seq<int>, groups: map<int, seq<int>>)
      returns (clusters: seq<Echo>, singles: seq<int>)
    requires Scores(sim, sims, n, n, n + 1)
    requires GroupsUnder(order, roots, keys, groups)
    requires order == seq(n, i => i)
    requires forall x :: x in order <==> x in roots
    ensures Written(sim, roots, keys, groups, clusters, singles, |keys|)
  {
    clusters, singles := [], [];
    for k := 0 to |keys|
      invariant Written(sim, roots, keys, groups, clusters, singles, k)
    {
      clusters, singles := WriteGroup(n, sim, sims, order, roots, keys, groups, k, clusters, singles);
    }
  }

  lemma InRange(n: nat, order: seq<int>, roots: Labels, r: int)
    requires order == seq(n, i => i)
    requires forall x :: x in order ==> x in roots
    ensures forall i :: 0 <= i < |Under(order, roots, r)| ==> 0 <= Under(order, roots, r)[i] < n
  {
    forall i | 0 <= i < |Under(order, roots, r)|
      ensures 0 <= Under(order, roots, r)[i] < n
    {
      assert Under(order, roots, r)[i] in Under(order, roots, r);
    }
  }

  lemma SortedHeadline(sim: Closeness, group: seq<int>, top: real)
    requires Headline(sim, group, top)
    ensures Headline(sim, Sorted(group), top)
  {
    SortedAscends(group);
  }

  // ----- the lens

  /** Each line of the page is placed exactly once, and nothing else is. */
  ghost predicate Partition(n: nat, clusters: seq<Echo>, singles: seq<int>) {
    forall x {:trigger Placed(x, clusters, singles)} :: Placed(x, clusters, singles) == if 0 <= x < n then 1 else 0
  }

  /** A cluster is one whole component of the close pairs, headed by its strongest pair, which is close. */
  ghost predicate Component(sim: Closeness, threshold: real, pairs: seq<Pair>, c: Echo) {
    && |c.members| >= 2 && StrictlyAscending(c.members)
    && Headline(sim, c.members, c.similarity)
    && c.similarity >= threshold
    && forall a, b :: a in c.members ==> (b in c.members <==> Connected(pairs, a, b))
  }

  ghost predicate Together(clusters: seq<Echo>, a: int, b: int) {
    exists c :: c in clusters && a in c.members && b in c.members
  }

  /** The clusters are components, and two close lines are never in different groups. */
  ghost predicate Grouped(n: nat, sim: Closeness, threshold: real, pairs: seq<Pair>, clusters: seq<Echo>) {
    && (forall c :: c in clusters ==> Component(sim, threshold, pairs, c))
    && forall i, j :: 0 <= i < j < n && sim(i, j) >= threshold ==> Together(clusters, i, j)
  }

  /** A group of two or more holds a close pair, so its strongest pair is close. */
  lemma HeadlineIsClose(
    n: nat, sim: Closeness, threshold: real, pairs: seq<Pair>, members: seq<int>, top: real)
    requires ListsClose(n, sim, threshold, pairs)
    requires |members| >= 2 && StrictlyAscending(members)
    requires forall a, b :: a in members ==> (b in members <==> Connected(pairs, a, b))
    requires Headline(sim, members, top)
    ensures top >= threshold
  {
    var a: int, b: int := members[0], members[1];
    assert a in members && b in members && a != b;
    var path :| Joins(pairs, path, a, b);
    assert Linked(pairs, path[0], path[1]);
    var next := path[1];
    ConnectedLink(pairs, a, next);
    var p := if (a, next) in pairs then (a, next) else (next, a);
    assert p in pairs && Close(n, sim, threshold, p.0, p.1);
  }

  lemma ClosestListed(n: nat, sim: Closeness, threshold: real, pairs: seq<Pair>)
    requires ListsUpTo(n, sim, threshold, pairs, n, n + 1)
    ensures ListsClose(n, sim, threshold, pairs)
    ensures forall x :: x in Ids(pairs) ==> 0 <= x < n
  {
  }

  lemma GroupIsComponent(
    n: nat, sim: Closeness, threshold: real, pairs: seq<Pair>, keys: seq<int>, groups: map<int, seq<int>>, c: Echo)
    requires ListsUpTo(n, sim, threshold, pairs, n, n + 1)
    requires GroupsUnder(seq(n, i => i), OnTop(n, Naive(pairs)), keys, groups)
    requires SourcedAt(sim, groups, c)
    ensures Component(sim, threshold, pairs, c)
  {
    ClosestListed(n, sim, threshold, pairs);
    var r :| r in groups && FromGroup(sim, groups[r], c);
    var order, roots := seq(n, i => i), OnTop(n, Naive(pairs));
    SortedGroup(order, roots, r);
    forall a, b | a in c.members
      ensures b in c.members <==> Connected(pairs, a, b)
    {
      assert a in order && 0 <= a < n;
      if 0 <= b < n {
        assert order[b] == b;
        OnTopIsClosure(n, pairs, a, b);
      } else {
        OffPage(n, pairs, a, b);
      }
    }
    HeadlineIsClose(n, sim, threshold, pairs, c.members, c.similarity);
  }

  lemma LinkedDrawn(pairs: seq<Pair>, a: int, b: int)
    requires Linked(pairs, a, b)
    ensures a in Ids(pairs)
  {
  }

  lemma OffPage(n: nat, pairs: seq<Pair>, a: int, b: int)
    requires forall x :: x in Ids(pairs) ==> 0 <= x < n
    requires 0 <= a < n && !(0 <= b < n)
    ensures !Connected(pairs, a, b)
  {
    if Connected(pairs, a, b) {
      ConnectedSym(pairs, a, b);
      var path :| Joins(pairs, path, b, a);
      LinkedDrawn(pairs, path[0], path[1]);
    }
  }

  lemma CloseTogether(
    n: nat, sim: Closeness, threshold: real, pairs: seq<Pair>, keys: seq<int>, groups: map<int, seq<int>>,
    clusters: seq<Echo>, i: int, j: int)
    requires ListsUpTo(n, sim, threshold, pairs, n, n + 1)
    requires GroupsUnder(seq(n, i => i), OnTop(n, Naive(pairs)), keys, groups)
    requires forall i :: 0 <= i < |keys| ==> keys[i] in groups
    requires Gathered(keys, groups, clusters, |keys|)
    requires 0 <= i < j < n && sim(i, j) >= threshold
    ensures Together(clusters, i, j)
  {
    ClosestListed(n, sim, threshold, pairs);
    var order, roots := seq(n, i => i), OnTop(n, Naive(pairs));
    assert Close(n, sim, threshold, (i, j).0, (i, j).1);
    ConnectedLink(pairs, i, j);
    OnTopIsClosure(n, pairs, i, j);
    var r := roots[i];
    assert order[i] == i && order[j] == j;
    assert i in order && j in order;
    assert r in groups && r in keys;
    SortedGroup(order, roots, r);
    TwoMembers(groups[r], i, j);
    var k :| 0 <= k < |keys| && keys[k] == r;
    assert GatheredAt(groups[keys[k]], clusters);
    var at :| 0 <= at < |clusters| && clusters[at].members == Sorted(groups[r]);
    assert clusters[at] in clusters;
  }

  lemma AllKeysPlace(
    n: nat, roots: Labels, keys: seq<int>, clusters: seq<Echo>, singles: seq<int>)
    requires forall x :: x in roots <==> 0 <= x < n
    requires forall x :: x in roots ==> roots[x] in keys
    requires AllPlaced(roots, keys, clusters, singles, |keys|)
    ensures Partition(n, clusters, singles)
  {
    forall x
      ensures Placed(x, clusters, singles) == if 0 <= x < n then 1 else 0
    {
      assert PlacedBy(roots, keys, clusters, singles, |keys|, x);
      assert keys[..|keys|] == keys;
    }
  }

  lemma RootsAreKeys(n: nat, roots: Labels, keys: seq<int>, groups: map<int, seq<int>>)
    requires forall x :: x in roots <==> 0 <= x < n
    requires GroupsUnder(seq(n, i => i), roots, keys, groups)
    ensures forall x :: x in roots ==> roots[x] in keys
  {
    forall x | x in roots
      ensures roots[x] in keys
    {
      var order: seq<int> := seq(n, i => i);
      assert order[x] == x && x in order;
      var r: int := roots[x];
      assert r in groups;
    }
  }

  lemma AllComponents(
    n: nat, sim: Closeness, threshold: real, pairs: seq<Pair>, keys: seq<int>, groups: map<int, seq<int>>,
    clusters: seq<Echo>)
    requires ListsUpTo(n, sim, threshold, pairs, n, n + 1)
    requires GroupsUnder(seq(n, i => i), OnTop(n, Naive(pairs)), keys, groups)
    requires Sourced(sim, groups, clusters)
    ensures forall c :: c in clusters ==> Component(sim, threshold, pairs, c)
  {
    forall c | c in clusters
      ensures Component(sim, threshold, pairs, c)
    {
      var i :| 0 <= i < |clusters| && clusters[i] == c;
      assert SourcedAt(sim, groups, clusters[i]);
      GroupIsComponent(n, sim, threshold, pairs, keys, groups, c);
    }
  }

  /** What was written out is the answer, but for the order. */
  lemma WrittenAnswers(
    n: nat, sim: Closeness, threshold: real, pairs: seq<Pair>, keys: seq<int>, groups: map<int, seq<int>>,
    clusters: seq<Echo>, singles: seq<int>)
    requires ListsUpTo(n, sim, threshold, pairs, n, n + 1)
    requires GroupsUnder(seq(n, i => i), OnTop(n, Naive(pairs)), keys, groups)
    requires forall i :: 0 <= i < |keys| ==> keys[i] in groups
    requires Written(sim, OnTop(n, Naive(pairs)), keys, groups, clusters, singles, |keys|)
    ensures Grouped(n, sim, threshold, pairs, clusters) && Partition(n, clusters, singles)
  {
    RootsAreKeys(n, OnTop(n, Naive(pairs)), keys, groups);
    AllKeysPlace(n, OnTop(n, Naive(pairs)), keys, clusters, singles);
    AllComponents(n, sim, threshold, pairs, keys, groups, clusters);
    forall i, j | 0 <= i < j < n && sim(i, j) >= threshold
      ensures Together(clusters, i, j)
    {
      CloseTogether(n, sim, threshold, pairs, keys, groups, clusters, i, j);
    }
  }

  lemma SortedAnswers(
    n: nat, sim: Closeness, threshold: real, pairs: seq<Pair>, clusters: seq<Echo>, singles: seq<int>,
    strength: Echo -> real, newest: int -> real)
    requires Grouped(n, sim, threshold, pairs, clusters) && Partition(n, clusters, singles)
    ensures Grouped(n, sim, threshold, pairs, Sorting.Sort(strength, clusters))
    ensures Partition(n, Sorting.Sort(strength, clusters), Sorting.Sort(newest, singles))
  {
    var clusters', singles' := Sorting.Sort(strength, clusters), Sorting.Sort(newest, singles);
    Sorting.SortHolds(strength, clusters);
    forall i, j | 0 <= i < j < n && sim(i, j) >= threshold
      ensures Together(clusters', i, j)
    {
      assert Together(clusters, i, j);
    }
    forall x
      ensures Placed(x, clusters', singles') == if 0 <= x < n then 1 else 0
    {
      assert Placed(x, clusters, singles) == if 0 <= x < n then 1 else 0;
      Sorting.SortCount(strength, (c: Echo) => x in c.members, clusters);
      Sorting.SortCount(newest, (u: int) => u == x, singles);
    }
  }

  /** The unscored answer: every line of the page a single, in page order. */
  lemma {:induction false} PlainPartition(n: nat)
    ensures Partition(n, [], seq(n, i => i))
  {
    if n > 0 {
      PlainPartition(n - 1);
      var fewer, all := seq(n - 1, i => i), seq(n, i => i);
      assert all == fewer + [n - 1];
      forall x
        ensures Placed(x, [], all) == if 0 <= x < n then 1 else 0
      {
        assert Placed(x, [], fewer) == if 0 <= x < n - 1 then 1 else 0;
        PlacedNext(x, [], fewer, Echo(0.0, []), n - 1);
      }
    }
  }

  /** Score a page of lines, newest first, for redundancy. `embedded` says whether the embedder answered.

      Whatever happens each line comes back exactly once.  A scored page of two or more lines comes back as the
      components of the close pairs, strongest first, and the lines that echo nothing, newest first. */
  method MachineEchoes(createdAt: seq<real>, sim: Closeness, embedded: bool, threshold: real)
      returns (scored: bool, clusters: seq<Echo>, singles: seq<int>, ghost pairs: seq<Pair>)
    ensures Partition(|createdAt|, clusters, singles)
    ensures scored <==> |createdAt| < 2 || embedded
    ensures |createdAt| < 2 || !embedded ==> clusters == [] && singles == seq(|createdAt|, i => i)
    ensures |createdAt| >= 2 && embedded ==>
              && ListsClose(|createdAt|, sim, threshold, pairs)
              && Grouped(|createdAt|, sim, threshold, pairs, clusters)
              && (forall i, j :: 0 <= i < j < |clusters| ==> clusters[i].similarity >= clusters[j].similarity)
    ensures |createdAt| >= 2 && embedded ==>
              && (forall i :: 0 <= i < |singles| ==> 0 <= singles[i] < |createdAt|)
              && (forall i, j :: 0 <= i < j < |singles| ==> createdAt[singles[i]] >= createdAt[singles[j]])
  {
    var n := |createdAt|;
    if n < 2 || !embedded {
      PlainPartition(n);
      return n < 2, [], seq(n, i => i), [];
    }
    var forest, sims;
    forest, sims, pairs := LinkClose(n, sim, threshold);
    ClosestListed(n, sim, threshold, pairs);
    var keys, groups := forest.Groups();
    clusters, singles := WriteOut(n, sim, sims, forest.order, forest.roots, keys, groups);
    WrittenAnswers(n, sim, threshold, pairs, keys, groups, clusters, singles);
    var strength := (c: Echo) => c.similarity;
    var newest := (u: int) => if 0 <= u < |createdAt| then createdAt[u] else 0.0;
    SortedAnswers(n, sim, threshold, pairs, clusters, singles, strength, newest);
    Sorting.SortOrders(strength, clusters);
    Sorting.SortOrders(newest, singles);
    clusters, singles := Sorting.Sort(strength, clusters), Sorting.Sort(newest, singles);
    SinglesOnPage(n, clusters, singles);
    ByCreation(createdAt, singles, newest);
    ByStrength(clusters, strength);
    scored := true;
  }

  lemma SinglesOnPage(n: nat, clusters: seq<Echo>, singles: seq<int>)
    requires Partition(n, clusters, singles)
    ensures forall i :: 0 <= i < |singles| ==> 0 <= singles[i] < n
  {
    forall i | 0 <= i < |singles|
      ensures 0 <= singles[i] < n
    {
      assert Placed(singles[i], clusters, singles) == if 0 <= singles[i] < n then 1 else 0;
      Sorting.CountsHeld((u: int) => u == singles[i], singles, i);
    }
  }

  lemma ByCreation(createdAt: seq<real>, singles: seq<int>, newest: int -> real)
    requires forall i :: 0 <= i < |singles| ==> 0 <= singles[i] < |createdAt|
    requires forall u :: 0 <= u < |createdAt| ==> newest(u) == createdAt[u]
    requires Sorting.Descending(newest, singles)
    ensures forall i, j :: 0 <= i < j < |singles| ==> createdAt[singles[i]] >= createdAt[singles[j]]
  {
    forall i, j | 0 <= i < j < |singles|
      ensures createdAt[singles[i]] >= createdAt[singles[j]]
    {
      assert newest(singles[i]) >= newest(singles[j]);
    }
  }

  lemma ByStrength(clusters: seq<Echo>, strength: Echo -> real)
    requires forall c :: strength(c) == c.similarity
    requires Sorting.Descending(strength, clusters)
    ensures forall i, j :: 0 <= i < j < |clusters| ==> clusters[i].similarity >= clusters[j].similarity
  {
    forall i, j | 0 <= i < j < |clusters|
      ensures clusters[i].similarity >= clusters[j].similarity
    {
      assert strength(clusters[i]) >= strength(clusters[j]);
    }
  }
}
