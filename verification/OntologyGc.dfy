/** One merge pass over the ontology (services/memory/ontology_gc.py:195-273): what it does to the store is a
    quotient of the types by the confirmed pairs. */
module OntologyGc {
  import opened Prelude
  import opened Closure
  import opened Ontology
  import opened OntologyClusters
  import opened OntologyTree

  // ----- where a pass sends each live type

  /** The survivor of the cluster an id sits in, or the id itself when it sits in none. */
  function Fate(clusters: seq<seq<int>>, survivors: seq<int>, id: int): int
    requires |clusters| == |survivors|
  {
    if clusters == [] then id
    else
      var n := |clusters| - 1;
      if id in clusters[n] then survivors[n] else Fate(clusters[..n], survivors[..n], id)
  }

  ghost predicate Picked(clusters: seq<seq<int>>, survivors: seq<int>) {
    |clusters| == |survivors| && forall i :: 0 <= i < |clusters| ==> survivors[i] in clusters[i]
  }

  lemma {:induction false} FateCases(clusters: seq<seq<int>>, survivors: seq<int>, id: int)
    requires Picked(clusters, survivors) && Disjoint(clusters)
    ensures forall i :: 0 <= i < |clusters| && id in clusters[i] ==> Fate(clusters, survivors, id) == survivors[i]
    ensures (forall i :: 0 <= i < |clusters| ==> id !in clusters[i]) ==> Fate(clusters, survivors, id) == id
  {
    if clusters != [] {
      var n := |clusters| - 1;
      FateCases(clusters[..n], survivors[..n], id);
      forall i | 0 <= i < |clusters| && id in clusters[i]
        ensures Fate(clusters, survivors, id) == survivors[i]
      {
        if i < n { assert clusters[..n][i] == clusters[i]; }
      }
      if forall i :: 0 <= i < |clusters| ==> id !in clusters[i] {
        assert forall i :: 0 <= i < n ==> clusters[..n][i] == clusters[i];
      }
    }
  }

  lemma OutsideIsAlone(pairs: seq<Pair>, a: int, b: int)
    requires Connected(pairs, a, b) && a !in Ids(pairs)
    ensures a == b
  {
    var path :| Joins(pairs, path, a, b);
    assert |path| > 1 ==> Linked(pairs, path[0], path[1]);
  }

  /** Two live types share a fate exactly when the confirmed pairs connect them. */
  lemma FateIsQuotient(pairs: seq<Pair>, clusters: seq<seq<int>>, survivors: seq<int>, a: int, b: int)
    requires AreComponents(pairs, clusters) && Picked(clusters, survivors)
    ensures Fate(clusters, survivors, a) == Fate(clusters, survivors, b) <==> Connected(pairs, a, b)
    ensures Connected(pairs, a, Fate(clusters, survivors, a))
  {
    FateOf(pairs, clusters, survivors, a);
    FateOf(pairs, clusters, survivors, b);
    var fa, fb := Fate(clusters, survivors, a), Fate(clusters, survivors, b);
    if fa == fb {
      ConnectedSym(pairs, b, fb);
      ConnectedTrans(pairs, a, fa, b);
    }
    if Connected(pairs, a, b) && a != b {
      if a !in Ids(pairs) { OutsideIsAlone(pairs, a, b); }
      var g :| g in clusters && a in g;
      var i :| 0 <= i < |clusters| && clusters[i] == g;
      assert b in g;
    }
  }

  lemma FateOf(pairs: seq<Pair>, clusters: seq<seq<int>>, survivors: seq<int>, a: int)
    requires AreComponents(pairs, clusters) && Picked(clusters, survivors)
    ensures forall i :: 0 <= i < |clusters| && a in clusters[i] ==> Fate(clusters, survivors, a) == survivors[i]
    ensures Connected(pairs, a, Fate(clusters, survivors, a))
  {
    FateCases(clusters, survivors, a);
    if i :| 0 <= i < |clusters| && a in clusters[i] {
      assert clusters[i] in clusters && survivors[i] in clusters[i];
    } else {
      ConnectedRefl(pairs, a);
    }
  }

  lemma FateNext(clusters: seq<seq<int>>, survivors: seq<int>, k: nat, id: int)
    requires k < |clusters| && |survivors| == k + 1
    requires Picked(clusters[..k + 1], survivors) && Disjoint(clusters)
    ensures var before := Fate(clusters[..k], survivors[..k], id);
            Fate(clusters[..k + 1], survivors, id) == if before in clusters[k] then survivors[k] else before
  {
    assert clusters[..k + 1][..k] == clusters[..k];
    assert forall i :: 0 <= i < k ==> clusters[..k][i] == clusters[..k + 1][i] == clusters[i];
    FateCases(clusters[..k], survivors[..k], id);
    if i :| 0 <= i < k && id in clusters[i] {
      assert survivors[i] in clusters[i];
    }
  }

  function Confirmed(candidates: seq<Pair>, same: (int, int) -> bool): (confirmed: seq<Pair>)
    ensures forall p :: p in confirmed <==> p in candidates && same(p.0, p.1)
  {
    if candidates == [] then []
    else (if same(candidates[0].0, candidates[0].1) then [candidates[0]] else []) + Confirmed(candidates[1..], same)
  }

  // ----- the store

  /** A loser's link whose re-pointed twin is already there. */
  predicate Collides(links: Links, survivor: int, loser: int, p: (int, int)) {
    p.1 == loser && (p.0, survivor) in links
  }

  lemma CollisionExactly(links: Links, survivor: int, loser: int)
    ensures (exists p :: p in links && Collides(links, survivor, loser, p)) <==> LinkedToBoth(links, survivor, loser)
  {
    if p :| p in links && Collides(links, survivor, loser, p) {
      var f: int := p.0;
      assert p == (f, loser);
      assert (f, survivor) in links && (f, loser) in links;
    }
    if LinkedToBoth(links, survivor, loser) {
      var f :| (f, survivor) in links && (f, loser) in links;
      var p := (f, loser);
      assert p in links && Collides(links, survivor, loser, p);
    }
  }

  /** The three tables, and beside them where every type resolves to and how far off that is. */
  datatype Snapshot = Snapshot(types: Types, links: Links, vectors: set<int>, live: map<int, int>, hops: map<int, nat>)

  /** One collapse, said declaratively. */
  ghost function Collapsed(s: Snapshot, survivor: int, loser: int): Snapshot
    requires s.live.Keys == s.hops.Keys && survivor in s.hops
  {
    Snapshot(CollapsedTypes(s.types, survivor, loser), Renamed(s.links, loser, survivor),
             s.vectors - {loser}, Resettled(s.live, survivor, loser), MoreHops(s.live, s.hops, survivor, loser))
  }

  ghost predicate AllLinksLive(s: Snapshot) {
    forall p :: p in s.links ==> Live(s.types, p.1)
  }

  /** Every redirect chain ends at a live type, and every link names a type. */
  ghost predicate Sound(s: Snapshot) {
    Resolution(s.types, s.live, s.hops) && NoDangling(s)
  }

  ghost predicate NoDangling(s: Snapshot) {
    forall p :: p in s.links ==> p.1 in s.live
  }

  /** What a stretch of collapses that tombstoned `gone` owes the store it started from: the same types, no
      vector but the tombstones' dropped, and the same links once read through the redirects. */
  ghost predicate Folded(start: Snapshot, s: Snapshot, gone: set<int>) {
    && s.live.Keys == start.live.Keys
    && (forall x :: x in gone ==> Live(start.types, x))
    && (forall x :: Live(s.types, x) <==> Live(start.types, x) && x !in gone)
    && s.vectors == start.vectors - gone
    && Resolved(s.links, s.live) == Resolved(start.links, s.live)
    && (AllLinksLive(start) ==> AllLinksLive(s))
  }

  /** Nothing folded away so far resolves into the group. */
  ghost predicate Apart(live: map<int, int>, gone: set<int>, group: seq<int>) {
    forall p :: p in gone ==> p in live && live[p] !in group
  }

  class Store {
    var types: Types
    var links: Links
    var vectors: set<int>
    ghost var live: map<int, int>
    ghost var hops: map<int, nat>

    ghost predicate Valid()
      reads this
    {
      Sound(Now())
    }

    /** The bare re-point of the link rows.  It would break the composite key, and so raises and changes
        nothing, exactly when some fact is linked to both types. */
    method RepointLinks(survivor: int, loser: int) returns (ok: bool)
      modifies `links
      ensures ok <==> !LinkedToBoth(old(links), survivor, loser)
      ensures links == if ok then Renamed(old(links), loser, survivor) else old(links)
    {
      ok := !exists p :: p in links && Collides(links, survivor, loser, p);
      CollisionExactly(links, survivor, loser);
      if ok {
        links := set p | p in links :: (p.0, if p.1 == loser then survivor else p.1);
      }
    }

    method DropCollidingLinks(survivor: int, loser: int)
      requires survivor != loser
      modifies `links
      ensures links == set p | p in old(links) && !Collides(old(links), survivor, loser, p)
      ensures !LinkedToBoth(links, survivor, loser)
      ensures Renamed(links, loser, survivor) == Renamed(old(links), loser, survivor)
    {
      links := set p | p in links && !Collides(links, survivor, loser, p);
      forall e | e in Renamed(old(links), loser, survivor)
        ensures e in Renamed(links, loser, survivor)
      {
        var p :| p in old(links) && e == (p.0, if p.1 == loser then survivor else p.1);
        if p !in links {
          var q := (p.0, survivor);
          assert q in links && e == (q.0, if q.1 == loser then survivor else q.1);
        }
      }
    }

    /** Re-point the loser's children onto the survivor, free a survivor whose own parent was the loser,
        and leave the loser behind as a redirect. */
    method RepointTypes(survivor: int, loser: int)
      requires survivor in types && loser in types && survivor != loser
      modifies `types
      ensures types == CollapsedTypes(old(types), survivor, loser)
    {
      types := map id | id in types ::
        if types[id].parent == Some(loser) && id != survivor then types[id].(parent := Some(survivor)) else types[id];
      if types[survivor].parent == Some(loser) {
        types := types[survivor := types[survivor].(parent := None)];
      }
      types := types[loser := types[loser].(mergedInto := Some(survivor))];
    }

    /** Fold one live type into another: the statements of one transaction, in order. */
    method Collapse(survivor: int, loser: int)
      requires Valid()
      requires Live(types, survivor) && Live(types, loser) && survivor != loser
      modifies this
      ensures Valid()
      ensures Now() == Collapsed(old(Now()), survivor, loser)
      ensures Resolved(links, live) == Resolved(old(links), live)
    {
      LiveResolvesToItself(Now(), survivor);
      LiveResolvesToItself(Now(), loser);
      CollapseResettles(types, live, hops, survivor, loser);
      CollapseKeepsLinks(links, live, survivor, loser);
      DropCollidingLinks(survivor, loser);
      var ok := RepointLinks(survivor, loser);
      RepointTypes(survivor, loser);
      vectors := vectors - {loser};
      live, hops := Resettled(live, survivor, loser), MoreHops(live, hops, survivor, loser);
    }

    ghost function Now(): Snapshot
      reads this
    {
      Snapshot(types, links, vectors, live, hops)
    }

    method FoldOne(survivor: int, loser: int, ghost start: Snapshot, ghost gone: set<int>)
      requires Valid() && Folded(start, Now(), gone) && NoDangling(start)
      requires Live(types, survivor) && Live(types, loser) && survivor != loser
      requires Grafted(start.types, types, gone, live) && Apart(live, gone, [loser])
      modifies this
      ensures Valid() && Folded(start, Now(), gone + {loser})
      ensures Grafted(start.types, types, gone + {loser}, live)
      ensures live == Resettled(old(live), survivor, loser)
    {
      ghost var before := Now();
      LiveResolvesToItself(before, loser);
      GraftedNext(start.types, types, gone, live, survivor, loser);
      Collapse(survivor, loser);
      FoldedNext(start, before, Now(), gone, survivor, loser);
    }

    /** Fold every other member of a cluster into its survivor. */
    method FoldCluster(group: seq<int>, survivor: int, ghost start: Snapshot, ghost gone: set<int>)
        returns (losers: seq<int>)
      requires Valid() && Folded(start, Now(), gone) && NoDangling(start)
      requires StrictlyAscending(group) && survivor in group
      requires forall id :: id in group ==> Live(types, id)
      requires Grafted(start.types, types, gone, live) && Apart(live, gone, group)
      modifies this
      ensures Valid()
      ensures losers == Losers(group, survivor)
      ensures Folded(start, Now(), gone + Gone(group, survivor))
      ensures live == Moved(old(live), Gone(group, survivor), survivor)
      ensures Grafted(start.types, types, gone + Gone(group, survivor), live)
    {
      losers := Losers(group, survivor);
      FirstsNone(losers, gone, live, survivor);
      for k := 0 to |losers|
        invariant Valid() && PartWay(start, old(Now()), Now(), gone, losers, survivor, k)
      {
        NextLoserIsLive(start, old(Now()), Now(), gone, group, survivor, k);
        NextLoserIsApart(old(Now()), gone, group, survivor, k);
        FoldOne(survivor, losers[k], start, gone + Firsts(losers, k));
        FirstsNext(losers, gone, old(live), survivor, k);
      }
      AllFirsts(group, survivor);
    }

    /** One full pass: cluster the confirmed candidates, pick a survivor of each, fold the rest into it.
        Two types resolve alike afterwards exactly when the confirmed pairs connect what they resolved to
        before, and read through the redirects every fact keeps exactly its links. */
    method RunOnce(candidates: seq<Pair>, same: (int, int) -> bool) returns (report: seq<(int, seq<int>)>)
      requires Valid()
      requires forall p :: p in candidates ==> Live(types, p.0) && Live(types, p.1)
      modifies this
      ensures Valid()
      ensures Folded(old(Now()), Now(), Merged(report))
      ensures forall x, y :: x in live && y in live ==>
                (live[x] == live[y] <==> Connected(Confirmed(candidates, same), old(live)[x], old(live)[y]))
      ensures forall x :: x in live ==> Connected(Confirmed(candidates, same), old(live)[x], live[x])
      ensures Grafted(old(types), types, Merged(report), live)
      ensures Acyclic(old(types)) ==> (Acyclic(types) <==> !Ringed(old(types), Merged(report), live))
    {
      report := [];
      var confirmed := Confirmed(candidates, same);
      var clusters := Cluster(confirmed);
      var survivors: seq<int> := [];
      StartFolding(Now(), candidates, same, clusters);
      for k := 0 to |clusters|
        invariant Valid()
        invariant Midway(old(Now()), Now(), clusters, survivors, report, k)
      {
        var survivor := PickSurvivor(clusters[k]);
        ClusterIsLive(old(Now()), Now(), clusters, survivors, report, k);
        ClusterIsApart(old(Now()), Now(), clusters, survivors, report, k);
        ghost var entry := Now();
        var losers := FoldCluster(clusters[k], survivor, old(Now()), Merged(report));
        MidwayNext(old(Now()), entry, Now(), clusters, survivors, report, k, survivor);
        survivors := survivors + [survivor];
        report := report + [(survivor, losers)];
      }
      assert clusters[..|clusters|] == clusters;
      PassIsQuotient(old(Now()), Now(), confirmed, clusters, survivors);
      if Acyclic(old(types)) {
        PassAcyclicExactly(old(types), types, Merged(report), live);
      }
    }

    /** The model's answer is held to the cluster's own members. */
    static method PickSurvivor(group: seq<int>) returns (survivor: int)
      requires group != []
      ensures survivor in group
    {
      var i :| 0 <= i < |group|;
      survivor := group[i];
    }
  }

  ghost function Merged(report: seq<(int, seq<int>)>): set<int> {
    set r, x | r in report && x in r.1 :: x
  }

  function Fated(live: map<int, int>, clusters: seq<seq<int>>, survivors: seq<int>): map<int, int>
    requires |clusters| == |survivors|
  {
    map x | x in live :: Fate(clusters, survivors, live[x])
  }

  /** The first k clusters have been folded. */
  ghost predicate Midway(
    start: Snapshot, s: Snapshot, clusters: seq<seq<int>>, survivors: seq<int>, report: seq<(int, seq<int>)>, k: nat)
  {
    && k == |survivors| == |report| <= |clusters|
    && Disjoint(clusters)
    && (forall g :: g in clusters ==> StrictlyAscending(g) && |g| >= 2)
    && (forall g, id :: g in clusters && id in g ==> Live(start.types, id))
    && Picked(clusters[..k], survivors)
    && (forall i :: 0 <= i < k ==> report[i] == (survivors[i], Losers(clusters[i], survivors[i])))
    && Folded(start, s, Merged(report))
    && s.live == Fated(start.live, clusters[..k], survivors)
    && Grafted(start.types, s.types, Merged(report), s.live)
  }

  lemma StartFolding(start: Snapshot, candidates: seq<Pair>, same: (int, int) -> bool, clusters: seq<seq<int>>)
    requires AreComponents(Confirmed(candidates, same), clusters)
    requires forall p :: p in candidates ==> Live(start.types, p.0) && Live(start.types, p.1)
    ensures Midway(start, start, clusters, [], [], 0)
  {
    assert Merged([]) == {};
    assert clusters[..0] == [];
    assert forall id :: Fate(clusters[..0], [], id) == id;
  }

  lemma NotYetMerged(clusters: seq<seq<int>>, survivors: seq<int>, report: seq<(int, seq<int>)>, k: nat, id: int)
    requires k == |survivors| == |report| < |clusters|
    requires Disjoint(clusters) && forall g :: g in clusters ==> StrictlyAscending(g)
    requires forall i :: 0 <= i < k ==> report[i] == (survivors[i], Losers(clusters[i], survivors[i]))
    requires id in clusters[k]
    ensures id !in Merged(report)
  {
    if id in Merged(report) {
      var r :| r in report && id in r.1;
      var i :| 0 <= i < |report| && report[i] == r;
      assert clusters[i] in clusters;
      LosersOf(clusters[i], survivors[i]);
    }
  }

  lemma ClusterIsLive(
    start: Snapshot, s: Snapshot, clusters: seq<seq<int>>, survivors: seq<int>, report: seq<(int, seq<int>)>, k: nat)
    requires Midway(start, s, clusters, survivors, report, k) && k < |clusters|
    ensures clusters[k] in clusters
    ensures forall id :: id in clusters[k] ==> Live(s.types, id)
  {
    forall id | id in clusters[k]
      ensures Live(s.types, id)
    {
      NotYetMerged(clusters, survivors, report, k, id);
      assert clusters[k] in clusters && Live(start.types, id);
    }
  }

  lemma MergedNext(report: seq<(int, seq<int>)>, group: seq<int>, survivor: int)
    requires StrictlyAscending(group)
    ensures Merged(report + [(survivor, Losers(group, survivor))]) == Merged(report) + Gone(group, survivor)
  {
    LosersOf(group, survivor);
    var r := (survivor, Losers(group, survivor));
    var longer := report + [r];
    forall x
      ensures x in Merged(longer) <==> x in Merged(report) || x in Gone(group, survivor)
    {
      if x in Gone(group, survivor) { assert longer[|report|] == r && r in longer && x in r.1; }
      if x in Merged(report) {
        var q :| q in report && x in q.1;
        assert q in longer;
      }
    }
  }

  lemma ClusterIsApart(
    start: Snapshot, s: Snapshot, clusters: seq<seq<int>>, survivors: seq<int>, report: seq<(int, seq<int>)>, k: nat)
    requires Midway(start, s, clusters, survivors, report, k) && k < |clusters| && Sound(start)
    ensures Apart(s.live, Merged(report), clusters[k])
  {
    forall p | p in Merged(report)
      ensures p in s.live && s.live[p] !in clusters[k]
    {
      var r :| r in report && p in r.1;
      var i :| 0 <= i < |report| && report[i] == r;
      assert clusters[i] in clusters;
      LosersOf(clusters[i], survivors[i]);
      LiveResolvesToItself(start, p);
      FateApart(clusters, survivors, k, i, p);
    }
  }

  lemma FateApart(clusters: seq<seq<int>>, survivors: seq<int>, k: nat, i: nat, p: int)
    requires i < k < |clusters| && k == |survivors| && Picked(clusters[..k], survivors) && Disjoint(clusters)
    requires p in clusters[i]
    ensures Fate(clusters[..k], survivors, p) !in clusters[k]
  {
    var done := clusters[..k];
    assert forall j :: 0 <= j < k ==> done[j] == clusters[j];
    FateCases(done, survivors, p);
    assert p in done[i] && survivors[i] in clusters[i];
  }

  lemma MidwayNext(
    start: Snapshot, s: Snapshot, s': Snapshot, clusters: seq<seq<int>>, survivors: seq<int>,
    report: seq<(int, seq<int>)>, k: nat, survivor: int)
    requires Midway(start, s, clusters, survivors, report, k) && k < |clusters|
    requires survivor in clusters[k]
    requires Folded(start, s', Merged(report) + Gone(clusters[k], survivor))
    requires s'.live == Moved(s.live, Gone(clusters[k], survivor), survivor)
    requires Grafted(start.types, s'.types, Merged(report) + Gone(clusters[k], survivor), s'.live)
    ensures Midway(start, s', clusters, survivors + [survivor],
                   report + [(survivor, Losers(clusters[k], survivor))], k + 1)
  {
    assert clusters[k] in clusters;
    MergedNext(report, clusters[k], survivor);
    PickedNext(clusters, survivors, k, survivor);
    MovedIsFated(start.live, clusters, survivors, k, survivor);
  }

  lemma PickedNext(clusters: seq<seq<int>>, survivors: seq<int>, k: nat, survivor: int)
    requires k < |clusters| && Picked(clusters[..k], survivors) && survivor in clusters[k]
    ensures Picked(clusters[..k + 1], survivors + [survivor])
  {
    assert forall i :: 0 <= i < k ==> clusters[..k + 1][i] == clusters[..k][i];
  }

  lemma MovedIsFated(live: map<int, int>, clusters: seq<seq<int>>, survivors: seq<int>, k: nat, survivor: int)
    requires k < |clusters| && Picked(clusters[..k], survivors) && survivor in clusters[k]
    requires Disjoint(clusters)
    ensures Moved(Fated(live, clusters[..k], survivors), Gone(clusters[k], survivor), survivor)
         == Fated(live, clusters[..k + 1], survivors + [survivor])
  {
    var survivors' := survivors + [survivor];
    assert survivors'[..k] == survivors;
    PickedNext(clusters, survivors, k, survivor);
    forall x | x in live
      ensures Moved(Fated(live, clusters[..k], survivors), Gone(clusters[k], survivor), survivor)[x]
           == Fate(clusters[..k + 1], survivors', live[x])
    {
      FateNext(clusters, survivors', k, live[x]);
    }
  }

  /** The pass as a whole: the types fall together exactly as the confirmed pairs connect them. */
  lemma PassIsQuotient(
    start: Snapshot, s: Snapshot, confirmed: seq<Pair>, clusters: seq<seq<int>>, survivors: seq<int>)
    requires AreComponents(confirmed, clusters) && Picked(clusters, survivors)
    requires s.live == Fated(start.live, clusters, survivors)
    ensures forall x, y :: x in s.live && y in s.live ==>
              (s.live[x] == s.live[y] <==> Connected(confirmed, start.live[x], start.live[y]))
    ensures forall x :: x in s.live ==> Connected(confirmed, start.live[x], s.live[x])
  {
    forall x, y | x in s.live && y in s.live
      ensures s.live[x] == s.live[y] <==> Connected(confirmed, start.live[x], start.live[y])
      ensures Connected(confirmed, start.live[x], s.live[x])
    {
      FateIsQuotient(confirmed, clusters, survivors, start.live[x], start.live[y]);
    }
  }

  /** The first k losers of a cluster have been folded since `entry`. */
  ghost predicate PartWay(
    start: Snapshot, entry: Snapshot, s: Snapshot, gone: set<int>, losers: seq<int>, survivor: int, k: nat)
    requires k <= |losers|
  {
    && Folded(start, s, gone + Firsts(losers, k))
    && s.live == Moved(entry.live, Firsts(losers, k), survivor)
    && Grafted(start.types, s.types, gone + Firsts(losers, k), s.live)
  }

  lemma FirstsNone(losers: seq<int>, gone: set<int>, live: map<int, int>, survivor: int)
    ensures gone + Firsts(losers, 0) == gone
    ensures Moved(live, Firsts(losers, 0), survivor) == live
  {
  }

  lemma FirstsNext(losers: seq<int>, gone: set<int>, live: map<int, int>, survivor: int, k: nat)
    requires k < |losers| && losers[k] != survivor
    ensures gone + Firsts(losers, k) + {losers[k]} == gone + Firsts(losers, k + 1)
    ensures Resettled(Moved(live, Firsts(losers, k), survivor), survivor, losers[k])
         == Moved(live, Firsts(losers, k + 1), survivor)
  {
    assert losers[..k + 1] == losers[..k] + [losers[k]];
  }

  lemma AllFirsts(group: seq<int>, survivor: int)
    requires StrictlyAscending(group)
    ensures Firsts(Losers(group, survivor), |Losers(group, survivor)|) == Gone(group, survivor)
  {
    LosersOf(group, survivor);
    var losers := Losers(group, survivor);
    assert losers[..|losers|] == losers;
  }

  lemma NextLoserIsLive(
    start: Snapshot, entry: Snapshot, s: Snapshot, gone: set<int>, group: seq<int>, survivor: int, k: nat)
    requires StrictlyAscending(group) && survivor in group && k < |Losers(group, survivor)|
    requires forall id :: id in group ==> Live(entry.types, id)
    requires Folded(start, entry, gone)
    requires PartWay(start, entry, s, gone, Losers(group, survivor), survivor, k)
    ensures var loser := Losers(group, survivor)[k];
            Live(s.types, survivor) && Live(s.types, loser) && survivor != loser
  {
    LosersOf(group, survivor);
    var losers := Losers(group, survivor);
    assert losers[k] in losers;
    forall id | id in group
      ensures Live(start.types, id) && id !in gone
    {
      assert Live(entry.types, id);
    }
  }

  /** Nor has anything been folded into the next loser. */
  lemma NextLoserIsApart(entry: Snapshot, gone: set<int>, group: seq<int>, survivor: int, k: nat)
    requires StrictlyAscending(group) && survivor in group && k < |Losers(group, survivor)|
    requires Sound(entry) && forall id :: id in group ==> Live(entry.types, id)
    requires Apart(entry.live, gone, group)
    ensures var losers := Losers(group, survivor);
            Apart(Moved(entry.live, Firsts(losers, k), survivor), gone + Firsts(losers, k), [losers[k]])
  {
    LosersOf(group, survivor);
    var losers := Losers(group, survivor);
    assert losers[k] in losers;
    forall p | p in Firsts(losers, k)
      ensures p in entry.live && entry.live[p] == p
    {
      assert p in losers;
      LiveResolvesToItself(entry, p);
    }
  }

  function Moved(live: map<int, int>, gone: set<int>, survivor: int): map<int, int> {
    map x | x in live :: if live[x] in gone then survivor else live[x]
  }

  lemma LiveResolvesToItself(s: Snapshot, x: int)
    requires Sound(s) && Live(s.types, x)
    ensures s.live[x] == x
  {
    assert Settled(s.types, s.live, s.hops, x);
  }

  /** The group without its survivor, in order. */
  function Losers(group: seq<int>, survivor: int): seq<int> {
    if group == [] then []
    else (if group[0] != survivor then [group[0]] else []) + Losers(group[1..], survivor)
  }

  ghost function Gone(group: seq<int>, survivor: int): set<int> {
    set x | x in group && x != survivor
  }

  ghost function Firsts(s: seq<int>, k: nat): set<int>
    requires k <= |s|
  {
    set x | x in s[..k]
  }

  lemma {:induction false} LosersOf(group: seq<int>, survivor: int)
    requires StrictlyAscending(group)
    ensures var losers := Losers(group, survivor);
            && (forall x :: x in losers <==> x in group && x != survivor)
            && StrictlyAscending(losers)
  {
    if group != [] {
      LosersOf(group[1..], survivor);
      assert group == [group[0]] + group[1..];
      assert StrictlyAscending(group[1..]);
      var rest := Losers(group[1..], survivor);
      forall i | 0 <= i < |rest|
        ensures group[0] < rest[i]
      {
        assert rest[i] in rest;
        var j :| 0 <= j < |group[1..]| && group[1..][j] == rest[i];
        assert group[j + 1] == rest[i];
      }
    }
  }

  lemma LiveAfter(types: Types, survivor: int, loser: int, x: int)
    requires survivor != loser && loser in types
    ensures Live(CollapsedTypes(types, survivor, loser), x) <==> Live(types, x) && x != loser
  {
  }

  lemma LinksLiveAfter(s: Snapshot, survivor: int, loser: int)
    requires AllLinksLive(s)
    requires Live(s.types, survivor) && survivor != loser && loser in s.types
    ensures forall p :: p in Renamed(s.links, loser, survivor) ==> Live(CollapsedTypes(s.types, survivor, loser), p.1)
  {
    forall p | p in Renamed(s.links, loser, survivor)
      ensures Live(CollapsedTypes(s.types, survivor, loser), p.1)
    {
      var q :| q in s.links && p == (q.0, if q.1 == loser then survivor else q.1);
      LiveAfter(s.types, survivor, loser, p.1);
    }
  }

  lemma FoldedNext(start: Snapshot, s: Snapshot, s': Snapshot, gone: set<int>, survivor: int, loser: int)
    requires Folded(start, s, gone)
    requires NoDangling(start) && NoDangling(s)
    requires Live(s.types, survivor) && Live(s.types, loser) && survivor != loser
    requires survivor in s.live && s.live.Keys == s.hops.Keys
    requires s' == Collapsed(s, survivor, loser)
    requires Resolved(s'.links, s'.live) == Resolved(s.links, s'.live)
    ensures Folded(start, s', gone + {loser})
  {
    ResolvedResettles(s.links, start.links, s.live, survivor, loser);
    ResolvedResettles(start.links, s.links, s.live, survivor, loser);
    forall x
      ensures Live(s'.types, x) <==> Live(start.types, x) && x !in gone + {loser}
    {
      LiveAfter(s.types, survivor, loser, x);
    }
    if AllLinksLive(start) {
      LinksLiveAfter(s, survivor, loser);
    }
  }
}
