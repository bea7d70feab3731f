/** The ontology's tables as values, and what one collapse does to them
    (services/memory/ontology_gc.py:195-249, migrations/0010_ontology_store.sql). */
module Ontology {
  import opened Prelude

  /** parent and mergedInto are the two self-references a type row carries. */
  datatype TypeRow = TypeRow(parent: Option<int>, mergedInto: Option<int>)
  type Types = map<int, TypeRow>
  type Links = set<(int, int)>  // (diary fact, type), the join table's composite key

  // ----- the collapse, said declaratively

  function Renamed(links: Links, loser: int, survivor: int): Links {
    set p | p in links :: (p.0, if p.1 == loser then survivor else p.1)
  }

  function CollapsedRow(row: TypeRow, id: int, survivor: int, loser: int): TypeRow {
    TypeRow(
      if row.parent != Some(loser) then row.parent else if id == survivor then None else Some(survivor),
      if id == loser then Some(survivor) else row.mergedInto)
  }

  function CollapsedTypes(types: Types, survivor: int, loser: int): Types {
    map id | id in types :: CollapsedRow(types[id], id, survivor, loser)
  }

  // ----- the parent tree

  /** The n-th ancestor of a type. */
  function Up(types: Types, x: int, n: nat): Option<int> {
    if n == 0 then Some(x)
    else
      match Up(types, x, n - 1)
      case None => None
      case Some(y) => if y in types then types[y].parent else None
  }

  ghost predicate Acyclic(types: Types) {
    forall x, n: nat :: n > 0 && x in types ==> Up(types, x, n) != Some(x)
  }

  /** The parent edges that collapse does not look at: the loser sits two or more levels above the survivor. */
  ghost predicate DistantAncestor(types: Types, loser: int, survivor: int) {
    exists n: nat :: n >= 2 && Up(types, survivor, n) == Some(loser)
  }

  lemma {:induction false} UpUp(types: Types, x: int, i: nat, j: nat)
    requires Up(types, x, i).Some?
    ensures Up(types, x, i + j) == Up(types, Up(types, x, i).value, j)
  {
    if j > 0 {
      UpUp(types, x, i, j - 1);
    }
  }

  lemma {:induction false} UpSome(types: Types, x: int, i: nat, n: nat)
    requires i <= n && Up(types, x, n).Some?
    ensures Up(types, x, i).Some?
  {
    if i < n {
      UpSome(types, x, i, n - 1);
    }
  }

  /** From the survivor, as long as the loser is no distant ancestor, the new tree climbs as the old one did. */
  lemma {:induction false} SurvivorClimbs(types: Types, survivor: int, loser: int, n: nat)
    requires survivor in types && loser in types && survivor != loser
    requires !DistantAncestor(types, loser, survivor)
    requires Up(CollapsedTypes(types, survivor, loser), survivor, n).Some?
    ensures Up(CollapsedTypes(types, survivor, loser), survivor, n) == Up(types, survivor, n)
  {
    if n > 0 {
      var types' := CollapsedTypes(types, survivor, loser);
      UpSome(types', survivor, n - 1, n);
      SurvivorClimbs(types, survivor, loser, n - 1);
      var y := Up(types, survivor, n - 1).value;
      assert Up(types, survivor, n) == types[y].parent;
      assert y != survivor ==> n >= 2;
    }
  }

  /** A climb in the new tree either is a climb of the old one or passes through the survivor. */
  lemma {:induction false} ClimbOrMeet(types: Types, survivor: int, loser: int, x: int, n: nat) returns (i: nat)
    requires Up(CollapsedTypes(types, survivor, loser), x, n).Some?
    ensures i <= n
    ensures i == 0 ==> Up(types, x, n) == Up(CollapsedTypes(types, survivor, loser), x, n)
    ensures i > 0 ==> Up(CollapsedTypes(types, survivor, loser), x, i) == Some(survivor)
  {
    if n == 0 {
      i := 0;
    } else {
      var types' := CollapsedTypes(types, survivor, loser);
      UpSome(types', x, n - 1, n);
      i := ClimbOrMeet(types, survivor, loser, x, n - 1);
      if i == 0 {
        var y := Up(types, x, n - 1).value;
        if types[y].parent == Some(loser) {
          i := n;
        }
      }
    }
  }

  /** The loser at distance n >= 2 above the survivor closes a loop through the survivor. */
  lemma {:induction false} LoopClimb(types: Types, survivor: int, loser: int, n: nat, i: nat)
    requires Acyclic(types) && survivor in types && loser in types
    requires n >= 2 && Up(types, survivor, n) == Some(loser)
    requires i < n
    ensures Up(CollapsedTypes(types, survivor, loser), survivor, i) == Up(types, survivor, i)
    ensures Up(types, survivor, i).Some? && (i > 0 ==> Up(types, survivor, i) != Some(survivor))
  {
    UpSome(types, survivor, i, n);
    if i > 0 {
      LoopClimb(types, survivor, loser, n, i - 1);
      UpUp(types, survivor, i, n - i);
    }
  }

  /** From an acyclic parent relation, collapse leaves an acyclic one exactly when the loser was not an
      ancestor of the survivor at distance two or more. */
  lemma AcyclicExactly(types: Types, survivor: int, loser: int)
    requires Acyclic(types)
    requires survivor in types && loser in types && survivor != loser
    ensures Acyclic(CollapsedTypes(types, survivor, loser)) <==> !DistantAncestor(types, loser, survivor)
  {
    var types' := CollapsedTypes(types, survivor, loser);
    if DistantAncestor(types, loser, survivor) {
      var n: nat :| n >= 2 && Up(types, survivor, n) == Some(loser);
      LoopClimb(types, survivor, loser, n, n - 1);
      assert Up(types', survivor, n) == Some(survivor);
    } else {
      forall x, n: nat | n > 0 && x in types'
        ensures Up(types', x, n) != Some(x)
      {
        if Up(types', x, n) == Some(x) {
          var i := ClimbOrMeet(types, survivor, loser, x, n);
          assert i > 0;
          UpUp(types', x, i, n);
          UpUp(types', x, n, i);
          SurvivorClimbs(types, survivor, loser, n);
        }
      }
    }
  }

  /** A collapse never leaves a type parented to itself or to the loser. */
  lemma NoSelfOrTombstoneParent(types: Types, survivor: int, loser: int, x: int)
    requires survivor != loser
    requires forall y :: y in types ==> types[y].parent != Some(y)
    requires x in types
    ensures CollapsedTypes(types, survivor, loser)[x].parent !in {Some(x), Some(loser)}
  {
    assert CollapsedTypes(types, survivor, loser)[x] == CollapsedRow(types[x], x, survivor, loser);
  }

  /** The guard in the source's own terms: with the loser a grandparent of the survivor, the two
      children in between end up in a loop. */
  lemma GrandparentLoserLoops(survivor: int, between: int, loser: int)
    requires survivor != between && between != loser && survivor != loser
    ensures var types := map[survivor := TypeRow(Some(between), None), between := TypeRow(Some(loser), None),
                             loser := TypeRow(None, None)];
            var types' := CollapsedTypes(types, survivor, loser);
            types'[survivor].parent == Some(between) && types'[between].parent == Some(survivor)
  {
    var types := map[survivor := TypeRow(Some(between), None), between := TypeRow(Some(loser), None),
                     loser := TypeRow(None, None)];
    assert CollapsedTypes(types, survivor, loser)[between] == CollapsedRow(types[between], between, survivor, loser);
  }

  // ----- the redirects

  /** The type n redirects on from x. */
  function Redirected(types: Types, x: int, n: nat): Option<int>
    decreases n
  {
    if x !in types then None
    else if n == 0 then Some(x)
    else
      match types[x].mergedInto
      case None => None
      case Some(y) => Redirected(types, y, n - 1)
  }

  ghost predicate Live(types: Types, r: int) {
    r in types && types[r].mergedInto.None?
  }

  /** The redirect chain from x ends, at the live type r. */
  ghost predicate ResolvesTo(types: Types, x: int, r: int) {
    Live(types, r) && exists n: nat :: Redirected(types, x, n) == Some(r)
  }

  /** Following one redirect stays under one live type and gets nearer to it. */
  ghost predicate Settled(types: Types, live: map<int, int>, hops: map<int, nat>, x: int)
    requires types.Keys == live.Keys == hops.Keys
    requires x in types
  {
    match types[x].mergedInto
    case None => live[x] == x
    case Some(y) => y in types && live[y] == live[x] && hops[y] < hops[x]
  }

  /** `live` says which live type every type resolves to, and `hops` bounds how far off it is. */
  ghost predicate Resolution(types: Types, live: map<int, int>, hops: map<int, nat>) {
    && types.Keys == live.Keys == hops.Keys
    && forall x {:trigger Settled(types, live, hops, x)} :: x in types ==> Settled(types, live, hops, x)
  }

  /** Every redirect chain terminates, and it does so at a live type. */
  lemma {:induction false} ChainsEnd(types: Types, live: map<int, int>, hops: map<int, nat>, x: int)
    requires Resolution(types, live, hops) && x in types
    ensures ResolvesTo(types, x, live[x])
    decreases hops[x]
  {
    assert Settled(types, live, hops, x);
    match types[x].mergedInto
    case None =>
      assert Redirected(types, x, 0) == Some(x);
    case Some(y) =>
      ChainsEnd(types, live, hops, y);
      var n: nat :| Redirected(types, y, n) == Some(live[y]);
      assert Redirected(types, x, n + 1) == Some(live[x]);
  }

  lemma {:induction false} ResolvedOnce(types: Types, x: int, n: nat, m: nat, r: int, q: int)
    requires Redirected(types, x, n) == Some(r) && Live(types, r)
    requires Redirected(types, x, m) == Some(q) && Live(types, q)
    ensures r == q
    decreases n
  {
    if n > 0 && m > 0 {
      ResolvedOnce(types, types[x].mergedInto.value, n - 1, m - 1, r, q);
    }
  }

  /** Where a type resolves to is a property of the table alone. */
  lemma ResolutionIsUnique(types: Types, x: int, r: int, q: int)
    requires ResolvesTo(types, x, r) && ResolvesTo(types, x, q)
    ensures r == q
  {
    var n: nat :| Redirected(types, x, n) == Some(r);
    var m: nat :| Redirected(types, x, m) == Some(q);
    ResolvedOnce(types, x, n, m, r, q);
  }

  function Resettled(live: map<int, int>, survivor: int, loser: int): map<int, int> {
    map x | x in live :: if live[x] == loser then survivor else live[x]
  }

  function MoreHops(live: map<int, int>, hops: map<int, nat>, survivor: int, loser: int): map<int, nat>
    requires live.Keys == hops.Keys && survivor in hops
  {
    map x | x in hops :: if live[x] == loser then hops[x] + hops[survivor] + 1 else hops[x]
  }

  /** Folding one live type into another moves exactly what resolved to the loser, onto the survivor. */
  lemma CollapseResettles(types: Types, live: map<int, int>, hops: map<int, nat>, survivor: int, loser: int)
    requires Resolution(types, live, hops)
    requires Live(types, survivor) && Live(types, loser) && survivor != loser
    ensures Resolution(CollapsedTypes(types, survivor, loser), Resettled(live, survivor, loser),
                       MoreHops(live, hops, survivor, loser))
  {
    var types', live' := CollapsedTypes(types, survivor, loser), Resettled(live, survivor, loser);
    var hops' := MoreHops(live, hops, survivor, loser);
    assert types'.Keys == types.Keys && live'.Keys == live.Keys;
    forall x | x in types'
      ensures Settled(types', live', hops', x)
    {
      assert Settled(types, live, hops, x);
      assert Settled(types, live, hops, survivor) && Settled(types, live, hops, loser);
      assert types'[x] == CollapsedRow(types[x], x, survivor, loser);
    }
  }

  // ----- the links, read through the redirects

  function At(live: map<int, int>, x: int): int {
    if x in live then live[x] else x
  }

  function Resolved(links: Links, live: map<int, int>): Links {
    set p | p in links :: (p.0, At(live, p.1))
  }

  lemma InResolved(links: Links, live: map<int, int>, f: int, r: int)
    ensures (f, r) in Resolved(links, live) <==> exists t :: (f, t) in links && At(live, t) == r
  {
    if (f, r) in Resolved(links, live) {
      var p :| p in links && (f, r) == (p.0, At(live, p.1));
      assert p == (f, p.1);
    }
    if t :| (f, t) in links && At(live, t) == r {
      assert (f, r) == ((f, t).0, At(live, (f, t).1));
    }
  }

  lemma InRenamed(links: Links, loser: int, survivor: int, f: int, t: int)
    ensures (f, t) in Renamed(links, loser, survivor)
       <==> exists u :: (f, u) in links && t == if u == loser then survivor else u
  {
    if (f, t) in Renamed(links, loser, survivor) {
      var p :| p in links && (f, t) == (p.0, if p.1 == loser then survivor else p.1);
      assert p == (f, p.1);
    }
    if u :| (f, u) in links && t == if u == loser then survivor else u {
      assert (f, t) == ((f, u).0, if (f, u).1 == loser then survivor else (f, u).1);
    }
  }

  /** Read through the redirects, the collapse loses no link, makes up none and doubles none. */
  lemma CollapseKeepsLinks(links: Links, live: map<int, int>, survivor: int, loser: int)
    requires survivor in live && live[survivor] == survivor
    requires loser in live && live[loser] == loser
    ensures Resolved(Renamed(links, loser, survivor), Resettled(live, survivor, loser))
         == Resolved(links, Resettled(live, survivor, loser))
  {
    var live', links' := Resettled(live, survivor, loser), Renamed(links, loser, survivor);
    assert forall u :: At(live', if u == loser then survivor else u) == At(live', u);
    forall f, r
      ensures (f, r) in Resolved(links', live') <==> (f, r) in Resolved(links, live')
    {
      InResolved(links, live', f, r);
      InResolved(links', live', f, r);
      if t :| (f, t) in links' && At(live', t) == r {
        InRenamed(links, loser, survivor, f, t);
      }
      if u :| (f, u) in links && At(live', u) == r {
        InRenamed(links, loser, survivor, f, if u == loser then survivor else u);
      }
    }
  }

  /** Two sets of links that read alike before a resettling read alike after it. */
  lemma ResolvedResettles(a: Links, b: Links, live: map<int, int>, survivor: int, loser: int)
    requires Resolved(a, live) <= Resolved(b, live)
    requires loser in live ==> survivor in live
    requires forall p :: p in a || p in b ==> p.1 in live
    ensures Resolved(a, Resettled(live, survivor, loser)) <= Resolved(b, Resettled(live, survivor, loser))
  {
    var live' := Resettled(live, survivor, loser);
    forall f, r | (f, r) in Resolved(a, live')
      ensures (f, r) in Resolved(b, live')
    {
      InResolved(a, live', f, r);
      var t :| (f, t) in a && At(live', t) == r;
      InResolved(a, live, f, At(live, t));
      InResolved(b, live, f, At(live, t));
      var u :| (f, u) in b && At(live, u) == At(live, t);
      assert (f, u).1 in live && (f, t).1 in live;
      InResolved(b, live', f, r);
    }
  }

  /** A blind re-point breaks the composite key exactly when some fact is linked to both types. */
  ghost predicate LinkedToBoth(links: Links, survivor: int, loser: int) {
    exists f :: (f, survivor) in links && (f, loser) in links
  }
}
