/** What "transitively linked by the pairs" means, and the simple relabelling that computes it.

This is the reference both union-finds of the repository are measured against
(services/memory/ontology_gc.py, services/observe.py). */
module Closure {

  type Pair = (int, int)
  type Labels = map<int, int>

  ghost predicate Linked(pairs: seq<Pair>, a: int, b: int) {
    (a, b) in pairs || (b, a) in pairs
  }

  ghost predicate IsPath(pairs: seq<Pair>, path: seq<int>) {
    && path != []
    && forall i :: 0 <= i < |path| - 1 ==> Linked(pairs, path[i], path[i + 1])
  }

  ghost predicate Joins(pairs: seq<Pair>, path: seq<int>, a: int, b: int) {
    IsPath(pairs, path) && path[0] == a && path[|path| - 1] == b
  }

  /** `a` and `b` are linked by a chain of pairs, of any length including none. */
  ghost predicate Connected(pairs: seq<Pair>, a: int, b: int) {
    exists path :: Joins(pairs, path, a, b)
  }

  /** The ids drawn from the pairs. */
  ghost function Ids(pairs: seq<Pair>): set<int> {
    (set p | p in pairs :: p.0) + (set p | p in pairs :: p.1)
  }

  lemma ConnectedRefl(pairs: seq<Pair>, a: int)
    ensures Connected(pairs, a, a)
  {
    assert Joins(pairs, [a], a, a);
  }

  lemma ConnectedLink(pairs: seq<Pair>, a: int, b: int)
    requires Linked(pairs, a, b)
    ensures Connected(pairs, a, b)
  {
    assert Joins(pairs, [a, b], a, b);
  }

  lemma ConnectedTrans(pairs: seq<Pair>, a: int, b: int, c: int)
    requires Connected(pairs, a, b) && Connected(pairs, b, c)
    ensures Connected(pairs, a, c)
  {
    var p :| Joins(pairs, p, a, b);
    var q :| Joins(pairs, q, b, c);
    var r := p + q[1..];
    forall i | 0 <= i < |r| - 1
      ensures Linked(pairs, r[i], r[i + 1])
    {
      if i < |p| - 1 {
        assert Linked(pairs, p[i], p[i + 1]);
      } else {
        assert Linked(pairs, q[i - |p| + 1], q[i - |p| + 2]);
      }
    }
    assert Joins(pairs, r, a, c);
  }

  lemma {:induction false} ConnectedSym(pairs: seq<Pair>, a: int, b: int)
    requires Connected(pairs, a, b)
    ensures Connected(pairs, b, a)
  {
    var p :| Joins(pairs, p, a, b);
    var q := seq(|p|, i requires 0 <= i < |p| => p[|p| - 1 - i]);
    forall i | 0 <= i < |q| - 1
      ensures Linked(pairs, q[i], q[i + 1])
    {
      assert Linked(pairs, p[|p| - 2 - i], p[|p| - 2 - i + 1]);
    }
    assert Joins(pairs, q, b, a);
  }

  lemma ConnectedMore(pairs: seq<Pair>, more: seq<Pair>, a: int, b: int)
    requires Connected(pairs, a, b)
    ensures Connected(pairs + more, a, b)
  {
    var p :| Joins(pairs, p, a, b);
    assert Joins(pairs + more, p, a, b) by {
      forall i | 0 <= i < |p| - 1
        ensures Linked(pairs + more, p[i], p[i + 1])
      {
        assert Linked(pairs, p[i], p[i + 1]);
      }
    }
  }

  // ----- the simple form: one label per id, repainted on every union

  function Seen(m: Labels, x: int): Labels {
    if x in m then m else m[x := x]
  }

  function Repaint(m: Labels, from: int, to: int): Labels {
    map x | x in m :: if m[x] == from then to else m[x]
  }

  function Merge(m: Labels, a: int, b: int): Labels {
    var m' := Seen(Seen(m, a), b);
    Repaint(m', m'[a], m'[b])
  }

  function Naive(pairs: seq<Pair>): Labels {
    if pairs == [] then map[]
    else
      var last := pairs[|pairs| - 1];
      Merge(Naive(pairs[..|pairs| - 1]), last.0, last.1)
  }

  ghost predicate RootedAt(m: Labels, x: int)
    requires x in m
  {
    m[x] in m && m[m[x]] == m[x]
  }

  /** Every label is itself an id, and labels itself. */
  ghost predicate Rooted(m: Labels) {
    forall x {:trigger RootedAt(m, x)} :: x in m ==> RootedAt(m, x)
  }

  lemma SeenRooted(m: Labels, x: int)
    requires Rooted(m)
    ensures Rooted(Seen(m, x)) && Seen(m, x).Keys == m.Keys + {x}
  {
    forall y | y in Seen(m, x)
      ensures RootedAt(Seen(m, x), y)
    {
      assert y in m ==> RootedAt(m, y);
    }
  }

  lemma RepaintRooted(m: Labels, from: int, to: int)
    requires Rooted(m) && to in m && m[to] == to
    ensures Rooted(Repaint(m, from, to)) && Repaint(m, from, to).Keys == m.Keys
  {
    var r := Repaint(m, from, to);
    forall x | x in r
      ensures RootedAt(r, x)
    {
      assert RootedAt(m, x);
    }
  }

  lemma MergeRooted(m: Labels, a: int, b: int)
    requires Rooted(m)
    ensures Rooted(Merge(m, a, b)) && Merge(m, a, b).Keys == m.Keys + {a, b}
  {
    SeenRooted(m, a);
    SeenRooted(Seen(m, a), b);
    var m' := Seen(Seen(m, a), b);
    assert RootedAt(m', a) && RootedAt(m', b);
    RepaintRooted(m', m'[a], m'[b]);
  }

  lemma IdsSnoc(front: seq<Pair>, last: Pair)
    ensures Ids(front + [last]) == Ids(front) + {last.0, last.1}
  {
    var pairs := front + [last];
    assert forall p :: p in pairs <==> p in front || p == last;
  }

  lemma {:induction false} NaiveRooted(pairs: seq<Pair>)
    ensures Rooted(Naive(pairs))
    ensures Naive(pairs).Keys == Ids(pairs)
  {
    if pairs != [] {
      var front, last := pairs[..|pairs| - 1], pairs[|pairs| - 1];
      NaiveRooted(front);
      assert pairs == front + [last];
      IdsSnoc(front, last);
      MergeRooted(Naive(front), last.0, last.1);
    }
  }

  lemma {:induction false} NaiveLinked(pairs: seq<Pair>, p: Pair)
    requires p in pairs
    ensures p.0 in Naive(pairs) && p.1 in Naive(pairs)
    ensures Naive(pairs)[p.0] == Naive(pairs)[p.1]
  {
    var front, last := pairs[..|pairs| - 1], pairs[|pairs| - 1];
    assert pairs == front + [last];
    if p in front {
      NaiveLinked(front, p);
    }
  }

  lemma {:induction false} NaiveAlongPath(pairs: seq<Pair>, path: seq<int>)
    requires IsPath(pairs, path)
    requires path[0] in Naive(pairs)
    ensures path[|path| - 1] in Naive(pairs)
    ensures Naive(pairs)[path[0]] == Naive(pairs)[path[|path| - 1]]
  {
    if |path| > 1 {
      assert Linked(pairs, path[0], path[1]);
      NaiveLinked(pairs, if (path[0], path[1]) in pairs then (path[0], path[1]) else (path[1], path[0]));
      forall i | 0 <= i < |path[1..]| - 1
        ensures Linked(pairs, path[1..][i], path[1..][i + 1])
      {
        assert Linked(pairs, path[i + 1], path[i + 1 + 1]);
      }
      NaiveAlongPath(pairs, path[1..]);
    }
  }

  lemma {:induction false} SameLabelConnected(pairs: seq<Pair>, a: int, b: int)
    requires a in Naive(pairs) && b in Naive(pairs)
    requires Naive(pairs)[a] == Naive(pairs)[b]
    ensures Connected(pairs, a, b)
    decreases |pairs|, 1
  {
    var front, last := pairs[..|pairs| - 1], pairs[|pairs| - 1];
    assert pairs == front + [last];
    NaiveRooted(front);
    var m := Seen(Seen(Naive(front), last.0), last.1);
    ConnectedLink(pairs, last.0, last.1);
    if m[a] == m[b] {
      SameBefore(front, last, m, a, b);
    } else if m[a] == m[last.0] {
      SameBefore(front, last, m, a, last.0);
      SameBefore(front, last, m, last.1, b);
      ConnectedTrans(pairs, a, last.0, last.1);
      ConnectedTrans(pairs, a, last.1, b);
    } else {
      SameBefore(front, last, m, a, last.1);
      SameBefore(front, last, m, last.0, b);
      ConnectedLink(pairs, last.1, last.0);
      ConnectedTrans(pairs, a, last.1, last.0);
      ConnectedTrans(pairs, a, last.0, b);
    }
  }

  lemma {:induction false} SameBefore(front: seq<Pair>, last: Pair, m: Labels, a: int, b: int)
    requires m == Seen(Seen(Naive(front), last.0), last.1) && Rooted(Naive(front))
    requires a in m && b in m && m[a] == m[b]
    ensures Connected(front + [last], a, b)
    decreases |front| + 1, 0
  {
    if a == b {
      ConnectedRefl(front + [last], a);
    } else {
      var n := Naive(front);
      assert (a in n ==> RootedAt(n, a)) && (b in n ==> RootedAt(n, b));
      SameLabelConnected(front, a, b);
      ConnectedMore(front, [last], a, b);
    }
  }

  /** Two ids carry one label exactly when a chain of pairs links them. */
  lemma NaiveIsClosure(pairs: seq<Pair>, a: int, b: int)
    requires a in Ids(pairs)
    ensures Naive(pairs).Keys == Ids(pairs)
    ensures (b in Ids(pairs) && Naive(pairs)[a] == Naive(pairs)[b]) <==> Connected(pairs, a, b)
  {
    NaiveRooted(pairs);
    if b in Ids(pairs) && Naive(pairs)[a] == Naive(pairs)[b] {
      SameLabelConnected(pairs, a, b);
    }
    if Connected(pairs, a, b) {
      var path :| Joins(pairs, path, a, b);
      NaiveAlongPath(pairs, path);
    }
  }
}
