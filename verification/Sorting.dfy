/** What the language's built-in sorts promise: the same elements, in order, and stable. */
module Sorting {

  /** Highest key first. */
  ghost predicate Descending<T>(key: T -> real, s: seq<T>) {
    forall i, j :: 0 <= i < j < |s| ==> key(s[i]) >= key(s[j])
  }

  /** Put `x` ahead of the first element it is at least level with, which keeps equals in their old order. */
  function Insert<T>(key: T -> real, x: T, s: seq<T>): seq<T> {
    if s == [] || key(x) >= key(s[0]) then [x] + s
    else [s[0]] + Insert(key, x, s[1..])
  }

  function Sort<T>(key: T -> real, s: seq<T>): seq<T> {
    if s == [] then [] else Insert(key, s[0], Sort(key, s[1..]))
  }

  lemma {:induction false} InsertSame<T>(key: T -> real, x: T, s: seq<T>)
    ensures multiset(Insert(key, x, s)) == multiset(s) + multiset{x}
  {
    if s == [] || key(x) >= key(s[0]) {
    } else {
      InsertSame(key, x, s[1..]);
      assert s == [s[0]] + s[1..];
    }
  }

  lemma {:induction false} SortSame<T>(key: T -> real, s: seq<T>)
    ensures multiset(Sort(key, s)) == multiset(s)
  {
    if s != [] {
      SortSame(key, s[1..]);
      InsertSame(key, s[0], Sort(key, s[1..]));
      assert s == [s[0]] + s[1..];
    }
  }

  /** The same elements, as many of them. */
  lemma SortHolds<T>(key: T -> real, s: seq<T>)
    ensures |Sort(key, s)| == |s|
    ensures forall x :: x in Sort(key, s) <==> x in s
  {
    SortSame(key, s);
    assert |multiset(Sort(key, s))| == |multiset(s)|;
    forall x
      ensures x in Sort(key, s) <==> x in s
    {
      assert x in Sort(key, s) <==> x in multiset(Sort(key, s));
      assert x in s <==> x in multiset(s);
    }
  }

  lemma {:induction false} InsertKeepsOrder<T>(key: T -> real, x: T, s: seq<T>)
    requires Descending(key, s)
    ensures Descending(key, Insert(key, x, s))
    ensures Insert(key, x, s) != []
    ensures key(Insert(key, x, s)[0]) == if s == [] || key(x) >= key(s[0]) then key(x) else key(s[0])
  {
    if s == [] || key(x) >= key(s[0]) {
    } else {
      InsertKeepsOrder(key, x, s[1..]);
      var rest := Insert(key, x, s[1..]);
      forall i, j | 0 <= i < j < |rest| + 1
        ensures key(([s[0]] + rest)[i]) >= key(([s[0]] + rest)[j])
      {
        if i == 0 { assert key(rest[0]) >= key(rest[j - 1]) || j == 1; }
      }
    }
  }

  lemma {:induction false} SortOrders<T>(key: T -> real, s: seq<T>)
    ensures Descending(key, Sort(key, s))
  {
    if s != [] {
      SortOrders(key, s[1..]);
      InsertKeepsOrder(key, s[0], Sort(key, s[1..]));
    }
  }

  /** How many elements satisfy `p`, which no sort changes. */
  function Count<T>(p: T -> bool, s: seq<T>): nat {
    if s == [] then 0 else (if p(s[0]) then 1 else 0) + Count(p, s[1..])
  }

  lemma {:induction false} CountSnoc<T>(p: T -> bool, s: seq<T>, x: T)
    ensures Count(p, s + [x]) == Count(p, s) + (if p(x) then 1 else 0)
  {
    if s != [] {
      CountSnoc(p, s[1..], x);
      assert (s + [x])[1..] == s[1..] + [x];
    }
  }

  lemma {:induction false} InsertCount<T>(key: T -> real, p: T -> bool, x: T, s: seq<T>)
    ensures Count(p, Insert(key, x, s)) == Count(p, s) + (if p(x) then 1 else 0)
  {
    if s == [] || key(x) >= key(s[0]) {
      assert ([x] + s)[1..] == s;
    } else {
      InsertCount(key, p, x, s[1..]);
    }
  }

  lemma {:induction false} SortCount<T>(key: T -> real, p: T -> bool, s: seq<T>)
    ensures Count(p, Sort(key, s)) == Count(p, s)
  {
    if s != [] {
      SortCount(key, p, s[1..]);
      InsertCount(key, p, s[0], Sort(key, s[1..]));
    }
  }

  lemma {:induction false} CountsHeld<T>(p: T -> bool, s: seq<T>, i: nat)
    requires i < |s| && p(s[i])
    ensures Count(p, s) > 0
  {
    if i > 0 {
      CountsHeld(p, s[1..], i - 1);
    }
  }
}
