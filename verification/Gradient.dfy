/** The memory gradient: the stream, the Gist's cutoff, and the running-sum selection of what to fold
    (services/memory/conversation.py:263-452). */
module Gradient {
  import opened Prelude
  import opened Tables

  // ----- reading the stream

  /** The symbiot's rows past a cutoff, in id order: `WHERE symbiot_id = s AND id > cutoff ORDER BY id ASC`. */
  function Tail(stream: seq<Item>, symbiot: int, cutoff: int): seq<Item> {
    if stream == [] then []
    else
      var last := stream[|stream| - 1];
      Tail(stream[..|stream| - 1], symbiot, cutoff)
      + (if last.symbiot == symbiot && last.id > cutoff then [last] else [])
  }

  lemma {:induction false} TailHolds(stream: seq<Item>, symbiot: int, cutoff: int, i: Item)
    ensures i in Tail(stream, symbiot, cutoff) <==> i in stream && i.symbiot == symbiot && i.id > cutoff
  {
    if stream != [] {
      var front, last := stream[..|stream| - 1], stream[|stream| - 1];
      TailHolds(front, symbiot, cutoff, i);
      assert stream == front + [last];
    }
  }

  lemma TailHoldsAt(stream: seq<Item>, symbiot: int, cutoff: int, k: nat)
    requires k < |Tail(stream, symbiot, cutoff)|
    ensures var i := Tail(stream, symbiot, cutoff)[k]; i in stream && i.symbiot == symbiot && i.id > cutoff
  {
    TailHolds(stream, symbiot, cutoff, Tail(stream, symbiot, cutoff)[k]);
  }

  /** A symbiot's whole stream.  Ids are positive, so nothing lies at or under a cutoff of zero. */
  function Whole(stream: seq<Item>, symbiot: int): seq<Item> {
    Tail(stream, symbiot, 0)
  }

  /** Ids are positive and distinct, and each symbiot's rows became visible in id order. */
  ghost predicate InOrder(stream: seq<Item>) {
    && (forall i :: 0 <= i < |stream| ==> stream[i].id > 0)
    && (forall i, j :: 0 <= i < j < |stream| ==> stream[i].id != stream[j].id)
    && (forall i, j :: 0 <= i < j < |stream| && stream[i].symbiot == stream[j].symbiot ==> stream[i].id < stream[j].id)
  }

  ghost predicate Ascending(items: seq<Item>) {
    forall i, j :: 0 <= i < j < |items| ==> items[i].id < items[j].id
  }

  /** The newest Gist of the symbiot, `ORDER BY id DESC LIMIT 1`. */
  function CurrentGist(gists: seq<Gist>, symbiot: int): (gist: Option<Gist>)
    ensures gist.Some? ==> gist.value in gists && gist.value.symbiot == symbiot
  {
    if gists == [] then None
    else if gists[|gists| - 1].symbiot == symbiot then Some(gists[|gists| - 1])
    else CurrentGist(gists[..|gists| - 1], symbiot)
  }

  /** The boundary a Gist sets, and zero where there is none. */
  function CutoffOf(gist: Option<Gist>): int {
    match gist
    case None => 0
    case Some(g) => g.cutoff
  }

  function AbsorbedBy(gist: Option<Gist>): seq<Item> {
    match gist
    case None => []
    case Some(g) => g.absorbed
  }

  function Cutoff(gists: seq<Gist>, symbiot: int): int {
    CutoffOf(CurrentGist(gists, symbiot))
  }

  function Absorbed(gists: seq<Gist>, symbiot: int): seq<Item> {
    AbsorbedBy(CurrentGist(gists, symbiot))
  }

  /** What a reply reads word for word, the turns it is about left out. */
  function Recent(stream: seq<Item>, gists: seq<Gist>, symbiot: int, exclude: set<int>): seq<Item> {
    Excluding(Tail(stream, symbiot, Cutoff(gists, symbiot)), exclude)
  }

  /** `intake_id IS NULL OR intake_id <> ALL(exclude)` */
  function Excluding(items: seq<Item>, exclude: set<int>): seq<Item> {
    if items == [] then []
    else
      (if items[0].line.Raised? || items[0].line.message !in exclude then [items[0]] else [])
      + Excluding(items[1..], exclude)
  }

  // ----- what to fold

  function Total(items: seq<Item>): nat {
    if items == [] then 0 else items[0].tokens + Total(items[1..])
  }

  /** The rows whose newest-first running sum, `SUM(token_count) OVER (ORDER BY id DESC)`, passes the budget. */
  function Overflow(items: seq<Item>, budget: int): seq<Item> {
    if items == [] then []
    else (if Total(items) > budget then [items[0]] else []) + Overflow(items[1..], budget)
  }

  /** The turns to fold out, oldest first, and the cutoff they reach. */
  function PendingForFold(stream: seq<Item>, symbiot: int, budget: int, cutoff: int): (seq<Item>, int) {
    var turns := Overflow(Tail(stream, symbiot, cutoff), budget);
    if turns == [] then ([], cutoff) else (turns, turns[|turns| - 1].id)
  }

  /** How many of the oldest turns must go for the rest to fit. */
  function Cut(items: seq<Item>, budget: int): nat {
    if items == [] || Total(items) <= budget then 0 else 1 + Cut(items[1..], budget)
  }

  lemma {:induction false} CutFits(items: seq<Item>, budget: int)
    ensures Cut(items, budget) <= |items|
    ensures budget >= 0 ==> Total(items[Cut(items, budget)..]) <= budget
    ensures forall k :: 0 <= k < Cut(items, budget) ==> Total(items[k..]) > budget
  {
    if items == [] || Total(items) <= budget {
      assert items[0..] == items;
    } else {
      CutFits(items[1..], budget);
      var cut := Cut(items[1..], budget);
      assert items[1..][cut..] == items[cut + 1..];
      forall k | 0 <= k < cut + 1
        ensures Total(items[k..]) > budget
      {
        if k == 0 { assert items[0..] == items; } else { assert items[1..][k - 1..] == items[k..]; }
      }
    }
  }

  lemma {:induction false} NoOverflow(items: seq<Item>, budget: int)
    requires items == [] || Total(items) <= budget
    ensures Overflow(items, budget) == []
  {
    if items != [] {
      NoOverflow(items[1..], budget);
    }
  }

  /** The running-sum selection keeps exactly the longest newest suffix that fits, and folds everything older. */
  lemma {:induction false} OverflowIsPrefix(items: seq<Item>, budget: int)
    ensures Cut(items, budget) <= |items|
    ensures Overflow(items, budget) == items[..Cut(items, budget)]
  {
    CutFits(items, budget);
    if items == [] || Total(items) <= budget {
      NoOverflow(items, budget);
    } else {
      OverflowIsPrefix(items[1..], budget);
      assert items[..Cut(items, budget)] == [items[0]] + items[1..][..Cut(items[1..], budget)];
    }
  }

  /** There is something to fold exactly when the trigger's own sum is over the budget. */
  lemma TriggerAgrees(items: seq<Item>, budget: int)
    ensures Overflow(items, budget) != [] <==> items != [] && Total(items) > budget
  {
    OverflowIsPrefix(items, budget);
  }

  /** What turns measure is the sum of their tokens. */
  lemma {:induction false} TotalSums(items: seq<Item>, more: seq<Item>)
    ensures Total(items + more) == Total(items) + Total(more)
    ensures |items| == 1 ==> Total(items) == items[0].tokens
  {
    if items == [] {
      assert items + more == more;
    } else {
      TotalSums(items[1..], more);
      assert (items + more)[1..] == items[1..] + more;
    }
  }

  lemma {:induction false} TotalSplits(items: seq<Item>, k: nat)
    requires k <= |items|
    ensures Total(items) == Total(items[..k]) + Total(items[k..])
  {
    if k == 0 {
      assert items[0..] == items;
    } else {
      TotalSplits(items[1..], k - 1);
      assert items[..k][1..] == items[1..][..k - 1] && items[1..][k - 1..] == items[k..];
    }
  }

  /** A zero budget folds away everything exactly when the newest turn has tokens: a trailing run of turns that
      measure nothing stays verbatim. */
  lemma {:induction false} ZeroBudgetEmpties(items: seq<Item>)
    ensures Overflow(items, 0) == items <==> items == [] || items[|items| - 1].tokens > 0
  {
    if items != [] {
      OverflowIsPrefix(items, 0);
      CutFits(items, 0);
      var last := |items| - 1;
      TotalSplits(items[last..], 0);
      assert items[last..] == [items[last]];
      assert Total(items[last..]) == items[last].tokens;
      if items[last].tokens > 0 {
        assert items[|items|..] == [];
        assert Cut(items, 0) <= last ==> Total(items[Cut(items, 0)..]) <= 0;
        SuffixTotal(items, Cut(items, 0), last);
        assert items[..|items|] == items;
      }
    }
  }

  lemma SuffixTotal(items: seq<Item>, i: nat, j: nat)
    requires i <= |items| && j <= |items|
    ensures i <= j ==> Total(items[j..]) <= Total(items[i..])
  {
    if i <= j {
      TotalSplits(items[i..], j - i);
      assert items[i..][j - i..] == items[j..];
    }
  }

  /** Rows made of words that exist and are not empty: each measures something. */
  ghost predicate Spoken(items: seq<Item>) {
    forall i :: 0 <= i < |items| ==> items[i].tokens > 0
  }

  lemma SpokenTail(stream: seq<Item>, symbiot: int, cutoff: int)
    requires Spoken(stream)
    ensures Spoken(Tail(stream, symbiot, cutoff))
  {
    forall k | 0 <= k < |Tail(stream, symbiot, cutoff)|
      ensures Tail(stream, symbiot, cutoff)[k].tokens > 0
    {
      TailHoldsAt(stream, symbiot, cutoff, k);
    }
  }

  /** So a zero budget folds the whole tail, and the cutoff reaches its newest row. */
  lemma ZeroBudgetTakesAll(stream: seq<Item>, symbiot: int, cutoff: int)
    requires Spoken(stream)
    ensures var tail := Tail(stream, symbiot, cutoff);
            PendingForFold(stream, symbiot, 0, cutoff) == (tail, if tail == [] then cutoff else tail[|tail| - 1].id)
  {
    SpokenTail(stream, symbiot, cutoff);
    ZeroBudgetEmpties(Tail(stream, symbiot, cutoff));
  }

  // ----- whom to fold

  /** The lowest symbiot with a row in the stream that satisfies `due`. */
  function Lowest(stream: seq<Item>, due: int -> bool): (lowest: Option<int>)
    ensures lowest.Some? ==> due(lowest.value) && exists i :: i in stream && i.symbiot == lowest.value
    ensures forall i :: i in stream && due(i.symbiot) ==> lowest.Some? && lowest.value <= i.symbiot
  {
    if stream == [] then None
    else
      var rest := Lowest(stream[1..], due);
      var first := stream[0].symbiot;
      if due(first) && (rest.None? || first <= rest.value) then Some(first) else rest
  }

  /** `HAVING SUM(token_count) > budget` over the rows past the Gist's cutoff, of which there must be some. */
  predicate OverBudget(tail: seq<Item>, budget: int) {
    tail != [] && Total(tail) > budget
  }

  predicate Quiet(tail: seq<Item>, idle: real, now: real) {
    tail != [] && forall i :: 0 <= i < |tail| ==> tail[i].createdAt < now - idle
  }

  function NextToFold(stream: seq<Item>, gists: seq<Gist>, budget: int): Option<int> {
    Lowest(stream, s => OverBudget(Tail(stream, s, Cutoff(gists, s)), budget))
  }

  function NextToCollapse(stream: seq<Item>, gists: seq<Gist>, idle: real, now: real): Option<int> {
    Lowest(stream, s => Quiet(Tail(stream, s, Cutoff(gists, s)), idle, now))
  }

  ghost predicate HasFold(stream: seq<Item>, gists: seq<Gist>, symbiot: int, budget: int) {
    PendingForFold(stream, symbiot, budget, Cutoff(gists, symbiot)).0 != []
  }

  /** The trigger names the lowest symbiot the trim would find work for, and no one only when there is none. */
  lemma TriggerFindsWork(stream: seq<Item>, gists: seq<Gist>, budget: int, symbiot: int)
    ensures NextToFold(stream, gists, budget).Some? ==>
              HasFold(stream, gists, NextToFold(stream, gists, budget).value, budget)
    ensures HasFold(stream, gists, symbiot, budget) ==>
              NextToFold(stream, gists, budget).Some? && NextToFold(stream, gists, budget).value <= symbiot
  {
    var next := NextToFold(stream, gists, budget);
    if next.Some? {
      TriggerAgrees(Tail(stream, next.value, Cutoff(gists, next.value)), budget);
    }
    var tail := Tail(stream, symbiot, Cutoff(gists, symbiot));
    TriggerAgrees(tail, budget);
    if HasFold(stream, gists, symbiot, budget) {
      TailHoldsAt(stream, symbiot, Cutoff(gists, symbiot), 0);
    }
  }

  /** Silence picks a symbiot only when every turn still verbatim is older than the idle time, and it picks one, at or
      below any symbiot of whom that is so. */
  lemma PickedBySilence(stream: seq<Item>, gists: seq<Gist>, idle: real, now: real, symbiot: int)
    ensures var next := NextToCollapse(stream, gists, idle, now);
            next.Some? ==>
              var tail := Tail(stream, next.value, Cutoff(gists, next.value));
              tail != [] && forall i :: 0 <= i < |tail| ==> tail[i].createdAt + idle < now
    ensures var tail := Tail(stream, symbiot, Cutoff(gists, symbiot));
            tail != [] && (forall i :: 0 <= i < |tail| ==> tail[i].createdAt + idle < now) ==>
              var next := NextToCollapse(stream, gists, idle, now);
              next.Some? && next.value <= symbiot
  {
    if Tail(stream, symbiot, Cutoff(gists, symbiot)) != [] {
      TailHoldsAt(stream, symbiot, Cutoff(gists, symbiot), 0);
    }
  }

  /** So while a symbiot has a row past the cutoff that is no older than the idle time, however old their others are, no
      silence picks them. */
  lemma LiveExchangeIsKept(stream: seq<Item>, gists: seq<Gist>, row: Item, idle: real, now: real)
    requires row in stream && row.id > Cutoff(gists, row.symbiot) && now <= row.createdAt + idle
    ensures NextToCollapse(stream, gists, idle, now) != Some(row.symbiot)
  {
    TailHolds(stream, row.symbiot, Cutoff(gists, row.symbiot), row);
    PickedBySilence(stream, gists, idle, now, row.symbiot);
  }

  /** A symbiot with nothing past the cutoff is never picked for collapse, however long the silence. */
  lemma NothingToCollapse(stream: seq<Item>, gists: seq<Gist>, symbiot: int, idle: real, now: real)
    requires Tail(stream, symbiot, Cutoff(gists, symbiot)) == []
    ensures NextToCollapse(stream, gists, idle, now) != Some(symbiot)
  {
  }

  // ----- no gap and no overlap

  /** The Gist and the tail after it are the symbiot's whole stream, each row once. */
  ghost predicate Covers(stream: seq<Item>, gists: seq<Gist>, symbiot: int) {
    Absorbed(gists, symbiot) + Tail(stream, symbiot, Cutoff(gists, symbiot)) == Whole(stream, symbiot)
  }

  lemma {:induction false} TailAscends(stream: seq<Item>, symbiot: int, cutoff: int)
    requires InOrder(stream)
    ensures Ascending(Tail(stream, symbiot, cutoff))
  {
    if stream != [] {
      var front, last := stream[..|stream| - 1], stream[|stream| - 1];
      TailAscends(front, symbiot, cutoff);
      var tail := Tail(front, symbiot, cutoff);
      forall i | 0 <= i < |tail|
        ensures last.symbiot == symbiot ==> tail[i].id < last.id
      {
        TailHoldsAt(front, symbiot, cutoff, i);
      }
    }
  }

  lemma {:induction false} TailOfTail(stream: seq<Item>, symbiot: int, cutoff: int, further: int)
    requires cutoff <= further
    ensures Tail(stream, symbiot, further) == Tail(Tail(stream, symbiot, cutoff), symbiot, further)
  {
    if stream != [] {
      var front, last := stream[..|stream| - 1], stream[|stream| - 1];
      TailOfTail(front, symbiot, cutoff, further);
      if last.symbiot == symbiot && last.id > cutoff {
        TailNext(Tail(front, symbiot, cutoff), last, symbiot, further);
      } else {
        assert Tail(stream, symbiot, cutoff) == Tail(front, symbiot, cutoff);
      }
    }
  }

  lemma {:induction false} AscendingTail(items: seq<Item>, symbiot: int, k: nat)
    requires Ascending(items)
    requires forall i :: 0 <= i < |items| ==> items[i].symbiot == symbiot
    requires 0 < k <= |items|
    ensures Tail(items, symbiot, items[k - 1].id) == items[k..]
  {
    var last := |items| - 1;
    if k == |items| {
      NothingPast(items, symbiot, items[last].id);
    } else {
      AscendingTail(items[..last], symbiot, k);
      assert items[k..] == items[..last][k..] + [items[last]];
    }
  }

  /** Moving the cutoff up to the k-th row of the tail drops exactly the first k rows. */
  lemma TailAfter(stream: seq<Item>, symbiot: int, cutoff: int, k: nat)
    requires InOrder(stream)
    requires 0 < k <= |Tail(stream, symbiot, cutoff)|
    ensures Tail(stream, symbiot, Tail(stream, symbiot, cutoff)[k - 1].id) == Tail(stream, symbiot, cutoff)[k..]
  {
    var tail := Tail(stream, symbiot, cutoff);
    forall i | 0 <= i < |tail|
      ensures tail[i].symbiot == symbiot && tail[i].id > cutoff
    {
      TailHoldsAt(stream, symbiot, cutoff, i);
    }
    TailAscends(stream, symbiot, cutoff);
    AscendingTail(tail, symbiot, k);
    TailOfTail(stream, symbiot, cutoff, tail[k - 1].id);
  }

  lemma {:induction false} NothingPast(stream: seq<Item>, symbiot: int, id: int)
    requires forall i :: i in stream && i.symbiot == symbiot ==> i.id <= id
    ensures Tail(stream, symbiot, id) == []
  {
    if stream != [] {
      NothingPast(stream[..|stream| - 1], symbiot, id);
      assert stream[|stream| - 1] in stream;
    }
  }

  lemma TailNext(stream: seq<Item>, item: Item, symbiot: int, cutoff: int)
    ensures Tail(stream + [item], symbiot, cutoff)
         == Tail(stream, symbiot, cutoff) + (if item.symbiot == symbiot && item.id > cutoff then [item] else [])
  {
    assert (stream + [item])[..|stream|] == stream;
  }

  lemma GistNext(gists: seq<Gist>, gist: Gist, symbiot: int)
    ensures CurrentGist(gists + [gist], symbiot)
         == if gist.symbiot == symbiot then Some(gist) else CurrentGist(gists, symbiot)
  {
    assert (gists + [gist])[..|gists|] == gists;
  }

  /** A row keeps the reader whole exactly when it shows up past the cutoff.  A row that becomes visible late, under
      a cutoff a fold has already moved past it, is in neither piece: this is what the id-order assumption is for. */
  lemma ArrivalCovered(stream: seq<Item>, gists: seq<Gist>, item: Item)
    requires Covers(stream, gists, item.symbiot) && item.id > 0
    ensures Covers(stream + [item], gists, item.symbiot) <==> item.id > Cutoff(gists, item.symbiot)
  {
    var s := item.symbiot;
    TailNext(stream, item, s, 0);
    TailNext(stream, item, s, Cutoff(gists, s));
    var absorbed, tail := Absorbed(gists, s), Tail(stream, s, Cutoff(gists, s));
    assert absorbed + (tail + [item]) == (absorbed + tail) + [item];
    assert |absorbed + tail| < |Whole(stream, s) + [item]|;
  }

  /** The Gist a fold appends: everything the last one absorbed, and the turns just folded. */
  function Folded(gists: seq<Gist>, symbiot: int, turns: seq<Item>, reached: int, text: string): Gist {
    Gist(symbiot, text, reached, Absorbed(gists, symbiot) + turns)
  }

  /** Folding out the k oldest turns of the tail, whatever k, keeps the reader whole. */
  lemma PrefixFoldCovers(stream: seq<Item>, gists: seq<Gist>, symbiot: int, k: nat, text: string)
    requires InOrder(stream) && Covers(stream, gists, symbiot)
    requires 0 < k <= |Tail(stream, symbiot, Cutoff(gists, symbiot))|
    ensures var tail := Tail(stream, symbiot, Cutoff(gists, symbiot));
            && Covers(stream, gists + [Folded(gists, symbiot, tail[..k], tail[k - 1].id, text)], symbiot)
            && tail[k - 1].id > Cutoff(gists, symbiot)
  {
    var tail := Tail(stream, symbiot, Cutoff(gists, symbiot));
    TailAfter(stream, symbiot, Cutoff(gists, symbiot), k);
    TailHoldsAt(stream, symbiot, Cutoff(gists, symbiot), k - 1);
    Regrouped(Absorbed(gists, symbiot), tail, k);
    CoversWith(stream, gists, Folded(gists, symbiot, tail[..k], tail[k - 1].id, text));
  }

  lemma Regrouped(absorbed: seq<Item>, tail: seq<Item>, k: nat)
    requires k <= |tail|
    ensures (absorbed + tail[..k]) + tail[k..] == absorbed + tail
  {
  }

  /** The reader is whole under a Gist just appended when that Gist and the tail after its cutoff are the stream. */
  lemma CoversWith(stream: seq<Item>, gists: seq<Gist>, gist: Gist)
    requires gist.absorbed + Tail(stream, gist.symbiot, gist.cutoff) == Whole(stream, gist.symbiot)
    ensures Covers(stream, gists + [gist], gist.symbiot)
  {
    GistNext(gists, gist, gist.symbiot);
  }

  /** What is left of a tail after its fold fits the budget, and one turn more would not have. */
  lemma FoldTrims(tail: seq<Item>, budget: int)
    requires Overflow(tail, budget) != []
    ensures var k := Cut(tail, budget);
            && 0 < k <= |tail| && Overflow(tail, budget) == tail[..k]
            && (budget >= 0 ==> Total(tail[k..]) <= budget)
            && Total([tail[k - 1]] + tail[k..]) > budget
  {
    OverflowIsPrefix(tail, budget);
    CutFits(tail, budget);
    var k := Cut(tail, budget);
    assert tail[k - 1..] == [tail[k - 1]] + tail[k..];
  }

  lemma PendingIs(stream: seq<Item>, symbiot: int, budget: int, cutoff: int)
    requires PendingForFold(stream, symbiot, budget, cutoff).0 != []
    ensures var tail := Tail(stream, symbiot, cutoff);
            var k := Cut(tail, budget);
            && 0 < k <= |tail|
            && PendingForFold(stream, symbiot, budget, cutoff) == (tail[..k], tail[k - 1].id)
  {
    FoldTrims(Tail(stream, symbiot, cutoff), budget);
  }

  /** A fold at any budget keeps the reader whole and moves the cutoff strictly forward. */
  lemma FoldCovers(stream: seq<Item>, gists: seq<Gist>, symbiot: int, budget: int, text: string)
    requires InOrder(stream) && Covers(stream, gists, symbiot)
    requires HasFold(stream, gists, symbiot, budget)
    ensures var (turns, reached) := PendingForFold(stream, symbiot, budget, Cutoff(gists, symbiot));
            && Covers(stream, gists + [Folded(gists, symbiot, turns, reached, text)], symbiot)
            && reached > Cutoff(gists, symbiot)
  {
    var cutoff := Cutoff(gists, symbiot);
    PendingIs(stream, symbiot, budget, cutoff);
    PrefixFoldCovers(stream, gists, symbiot, Cut(Tail(stream, symbiot, cutoff), budget), text);
  }

  /** A fold leaves a tail within the budget, and keeping one turn more would have left it over. */
  lemma FoldFits(stream: seq<Item>, symbiot: int, budget: int, cutoff: int)
    requires InOrder(stream)
    requires PendingForFold(stream, symbiot, budget, cutoff).0 != []
    ensures var (turns, reached) := PendingForFold(stream, symbiot, budget, cutoff);
            var left := Tail(stream, symbiot, reached);
            && (budget >= 0 ==> Total(left) <= budget)
            && Total([turns[|turns| - 1]] + left) > budget
  {
    var tail := Tail(stream, symbiot, cutoff);
    FoldTrims(tail, budget);
    PendingIs(stream, symbiot, budget, cutoff);
    TailAfter(stream, symbiot, cutoff, Cut(tail, budget));
  }

  /** Leaving messages out drops exactly their own turns, and never a missive. */
  lemma {:induction false} ExcludingExactly(items: seq<Item>, exclude: set<int>, i: Item)
    ensures i in Excluding(items, exclude) <==> i in items && (i.line.Raised? || i.line.message !in exclude)
  {
    if items != [] {
      ExcludingExactly(items[1..], exclude, i);
      assert items == [items[0]] + items[1..];
    }
  }

  /** What a reply reads word for word: the symbiot's rows past the Gist's cutoff, less those of the messages it is
      about, in the order of their ids. */
  lemma RecentExactly(stream: seq<Item>, gists: seq<Gist>, symbiot: int, exclude: set<int>, i: Item)
    ensures i in Recent(stream, gists, symbiot, exclude)
       <==> && i in stream && i.symbiot == symbiot && i.id > Cutoff(gists, symbiot)
            && (i.line.Raised? || i.line.message !in exclude)
    ensures InOrder(stream) ==> Ascending(Recent(stream, gists, symbiot, exclude))
  {
    var tail := Tail(stream, symbiot, Cutoff(gists, symbiot));
    ExcludingExactly(tail, exclude, i);
    TailHolds(stream, symbiot, Cutoff(gists, symbiot), i);
    if InOrder(stream) {
      TailAscends(stream, symbiot, Cutoff(gists, symbiot));
      ExcludingAscends(tail, exclude);
    }
  }

  lemma {:induction false} ExcludingAscends(items: seq<Item>, exclude: set<int>)
    requires Ascending(items)
    ensures Ascending(Excluding(items, exclude))
  {
    if items != [] {
      ExcludingAscends(items[1..], exclude);
      var rest := Excluding(items[1..], exclude);
      forall k | 0 <= k < |rest|
        ensures items[0].id < rest[k].id
      {
        ExcludingExactly(items[1..], exclude, rest[k]);
      }
    }
  }

  /** With nothing left out the reader gets the whole tail. */
  lemma {:induction false} ExcludingNothing(items: seq<Item>)
    ensures Excluding(items, {}) == items
  {
    if items != [] {
      ExcludingNothing(items[1..]);
    }
  }
}
