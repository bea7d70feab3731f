/** Bursts: the window-function grouping of answered messages that the deep second pass reads
    (services/memory/enrichment.py:212-273). */
module Bursts {
  import opened Prelude

  /** An eligible message: authed, answered, and not yet enriched. */
  datatype Row = Row(id: int, symbiot: int, at: real)

  /** `ORDER BY created_at, id` */
  predicate Before(a: Row, b: Row) {
    a.at < b.at || (a.at == b.at && a.id < b.id)
  }

  ghost predicate Chronological(rows: seq<Row>) {
    forall i, j :: 0 <= i < j < |rows| ==> Before(rows[i], rows[j])
  }

  /** `PARTITION BY symbiot_id` */
  function Part(rows: seq<Row>, symbiot: int): seq<Row> {
    if rows == [] then []
    else
      var last := rows[|rows| - 1];
      Part(rows[..|rows| - 1], symbiot) + (if last.symbiot == symbiot then [last] else [])
  }

  /** A partition holds the symbiot's rows and no other, in the order of the whole list. */
  lemma {:induction false} PartIsTheirs(rows: seq<Row>, symbiot: int, x: Row)
    ensures x in Part(rows, symbiot) <==> x in rows && x.symbiot == symbiot
    ensures Chronological(rows) ==> Chronological(Part(rows, symbiot))
  {
    if rows != [] {
      var front, last := rows[..|rows| - 1], rows[|rows| - 1];
      PartIsTheirs(front, symbiot, x);
      assert rows == front + [last];
      if Chronological(rows) {
        forall i | 0 <= i < |Part(front, symbiot)|
          ensures Before(Part(front, symbiot)[i], last)
        {
          PartIsTheirs(front, symbiot, Part(front, symbiot)[i]);
        }
      }
    }
  }

  // ----- the grouping, within one symbiot's partition

  /** `LAG(created_at)` is null, or further back than the lull. */
  predicate Starts(p: seq<Row>, settle: real, i: nat)
    requires i < |p|
  {
    i == 0 || !Near(p, settle, i)
  }

  /** `LEAD(created_at)` is null, or further on than the lull. */
  predicate Ends(p: seq<Row>, settle: real, i: nat)
    requires i < |p|
  {
    i == |p| - 1 || !Near(p, settle, i + 1)
  }

  /** The running count of burst starts. */
  function BurstNo(p: seq<Row>, settle: real, i: nat): nat
    requires i < |p|
  {
    (if Starts(p, settle, i) then 1 else 0) + (if i == 0 then 0 else BurstNo(p, settle, i - 1))
  }

  /** The rows of the first n numbered `no`. */
  function Numbered(p: seq<Row>, settle: real, no: nat, n: nat): seq<Row>
    requires n <= |p|
  {
    if n == 0 then []
    else Numbered(p, settle, no, n - 1) + (if BurstNo(p, settle, n - 1) == no then [p[n - 1]] else [])
  }

  // ----- the simple definition: a maximal run with no gap longer than the lull

  /** No long gap between row k and the one before it. */
  predicate Near(p: seq<Row>, settle: real, k: nat)
    requires 0 < k < |p|
  {
    p[k].at - p[k - 1].at <= settle
  }

  ghost predicate Unbroken(p: seq<Row>, settle: real, lo: nat, hi: nat)
    requires hi <= |p|
  {
    forall k: nat {:trigger Near(p, settle, k)} :: lo < k < hi ==> Near(p, settle, k)
  }

  /** [lo, hi) is a whole burst: unbroken, with the start of time or a long gap before it and the same after. */
  ghost predicate Burst(p: seq<Row>, settle: real, lo: nat, hi: nat) {
    && lo < hi <= |p|
    && Unbroken(p, settle, lo, hi)
    && (lo > 0 ==> !Near(p, settle, lo))
    && (hi < |p| ==> !Near(p, settle, hi))
  }

  function Lo(p: seq<Row>, settle: real, i: nat): nat
    requires i < |p|
  {
    if Starts(p, settle, i) then i else Lo(p, settle, i - 1)
  }

  function Hi(p: seq<Row>, settle: real, i: nat): nat
    requires i < |p|
    decreases |p| - i
  {
    if Ends(p, settle, i) then i + 1 else Hi(p, settle, i + 1)
  }

  lemma {:induction false} LoStarts(p: seq<Row>, settle: real, i: nat)
    requires i < |p|
    ensures Lo(p, settle, i) <= i && Starts(p, settle, Lo(p, settle, i))
    ensures Unbroken(p, settle, Lo(p, settle, i), i + 1)
  {
    if !Starts(p, settle, i) {
      LoStarts(p, settle, i - 1);
    }
  }

  lemma {:induction false} HiEnds(p: seq<Row>, settle: real, i: nat)
    requires i < |p|
    ensures i < Hi(p, settle, i) <= |p| && Ends(p, settle, Hi(p, settle, i) - 1)
    ensures Unbroken(p, settle, i, Hi(p, settle, i))
    decreases |p| - i
  {
    if !Ends(p, settle, i) {
      HiEnds(p, settle, i + 1);
    }
  }

  /** Every row lies in a whole burst. */
  lemma InABurst(p: seq<Row>, settle: real, i: nat)
    requires i < |p|
    ensures Lo(p, settle, i) <= i < Hi(p, settle, i)
    ensures Burst(p, settle, Lo(p, settle, i), Hi(p, settle, i))
  {
    LoStarts(p, settle, i);
    HiEnds(p, settle, i);
  }

  /** And in only one. */
  lemma OneBurst(p: seq<Row>, settle: real, i: nat, lo: nat, hi: nat)
    requires Burst(p, settle, lo, hi) && lo <= i < hi
    ensures lo == Lo(p, settle, i) && hi == Hi(p, settle, i)
  {
    InABurst(p, settle, i);
    var lo', hi' := Lo(p, settle, i), Hi(p, settle, i);
    if lo' > 0 { NoGapInside(p, settle, lo, hi, lo'); }
    if lo > 0 { NoGapInside(p, settle, lo', hi', lo); }
    if hi < |p| { NoGapInside(p, settle, lo', hi', hi); }
    if hi' < |p| { NoGapInside(p, settle, lo, hi, hi'); }
  }

  lemma NoGapInside(p: seq<Row>, settle: real, lo: nat, hi: nat, k: nat)
    requires Burst(p, settle, lo, hi) && 0 < k < |p| && !Near(p, settle, k)
    ensures !(lo < k < hi)
  {
  }

  lemma {:induction false} BurstNoGrows(p: seq<Row>, settle: real, i: nat, j: nat)
    requires i <= j < |p|
    ensures BurstNo(p, settle, i) <= BurstNo(p, settle, j)
    ensures BurstNo(p, settle, i) == BurstNo(p, settle, j) <==> Unbroken(p, settle, i, j + 1)
  {
    if i < j {
      BurstNoGrows(p, settle, i, j - 1);
      if Unbroken(p, settle, i, j + 1) {
        assert Near(p, settle, j);
      }
    }
  }

  /** Two rows carry one number exactly when they are in one burst. */
  lemma NumberingIsBursts(p: seq<Row>, settle: real, i: nat, j: nat)
    requires i < |p| && j < |p|
    ensures BurstNo(p, settle, i) == BurstNo(p, settle, j) <==> Lo(p, settle, i) <= j < Hi(p, settle, i)
  {
    InABurst(p, settle, i);
    var lo, hi := Lo(p, settle, i), Hi(p, settle, i);
    if j < i {
      BurstNoGrows(p, settle, j, i);
      if j < lo { assert !Unbroken(p, settle, j, i + 1); }
    } else {
      BurstNoGrows(p, settle, i, j);
      if j >= hi { assert !Unbroken(p, settle, i, j + 1); }
    }
  }

  /** The part of a run that the first n rows hold. */
  function Within(p: seq<Row>, lo: nat, hi: nat, n: nat): seq<Row>
    requires lo <= hi <= |p| && n <= |p|
  {
    if n <= lo then [] else if n <= hi then p[lo..n] else p[lo..hi]
  }

  lemma WithinNext(p: seq<Row>, lo: nat, hi: nat, n: nat)
    requires lo <= hi <= |p| && n < |p|
    ensures Within(p, lo, hi, n + 1) == Within(p, lo, hi, n) + (if lo <= n < hi then [p[n]] else [])
  {
  }

  lemma {:induction false} NumberedIsSlice(p: seq<Row>, settle: real, i: nat, n: nat)
    requires i < |p| && n <= |p|
    ensures Lo(p, settle, i) <= Hi(p, settle, i) <= |p|
    ensures Numbered(p, settle, BurstNo(p, settle, i), n) == Within(p, Lo(p, settle, i), Hi(p, settle, i), n)
  {
    InABurst(p, settle, i);
    if n > 0 {
      NumberedIsSlice(p, settle, i, n - 1);
      NumberingIsBursts(p, settle, i, n - 1);
      WithinNext(p, Lo(p, settle, i), Hi(p, settle, i), n - 1);
    }
  }

  // ----- which burst is read

  predicate SettledEnd(p: seq<Row>, settle: real, now: real, i: nat)
    requires i < |p|
  {
    Ends(p, settle, i) && now - p[i].at >= settle
  }

  /** Where a row of the whole list sits in its own partition. */
  function Place(rows: seq<Row>, i: nat): nat
    requires i < |rows|
  {
    |Part(rows[..i], rows[i].symbiot)|
  }

  lemma {:induction false} PartGrows(rows: seq<Row>, symbiot: int, n: nat)
    requires n <= |rows|
    ensures Part(rows[..n], symbiot) <= Part(rows, symbiot)
  {
    if n < |rows| {
      PartGrows(rows[..|rows| - 1], symbiot, n);
      assert rows[..|rows| - 1][..n] == rows[..n];
    } else {
      assert rows[..n] == rows;
    }
  }

  lemma PlaceHolds(rows: seq<Row>, i: nat)
    requires i < |rows|
    ensures Place(rows, i) < |Part(rows, rows[i].symbiot)|
    ensures Part(rows, rows[i].symbiot)[Place(rows, i)] == rows[i]
  {
    PartGrows(rows, rows[i].symbiot, i + 1);
    assert rows[..i + 1][..i] == rows[..i];
  }

  /** A row that ends its burst, long enough ago. */
  predicate Due(rows: seq<Row>, settle: real, now: real, i: nat)
    requires i < |rows|
  {
    var p := Part(rows, rows[i].symbiot);
    Place(rows, i) < |p| && SettledEnd(p, settle, now, Place(rows, i))
  }

  /** Of the first n rows, the due one of the lowest id. */
  function Target(rows: seq<Row>, settle: real, now: real, n: nat): Option<nat>
    requires n <= |rows|
  {
    if n == 0 then None
    else
      match Target(rows, settle, now, n - 1)
      case None => if Due(rows, settle, now, n - 1) then Some(n - 1) else None
      case Some(best) =>
        if best < |rows| && Due(rows, settle, now, n - 1) && rows[n - 1].id < rows[best].id
        then Some(n - 1) else Some(best)
  }

  lemma {:induction false} TargetIsDue(rows: seq<Row>, settle: real, now: real, n: nat)
    requires n <= |rows| && Target(rows, settle, now, n).Some?
    ensures Target(rows, settle, now, n).value < n && Due(rows, settle, now, Target(rows, settle, now, n).value)
  {
    if Target(rows, settle, now, n - 1).Some? {
      TargetIsDue(rows, settle, now, n - 1);
    }
  }

  lemma {:induction false} TargetIsLowest(rows: seq<Row>, settle: real, now: real, n: nat, i: nat)
    requires i < n <= |rows| && Due(rows, settle, now, i)
    ensures Target(rows, settle, now, n).Some?
    ensures Target(rows, settle, now, n).value < |rows| && rows[Target(rows, settle, now, n).value].id <= rows[i].id
  {
    TargetIsNext(rows, settle, now, n);
    if i < n - 1 {
      TargetIsLowest(rows, settle, now, n - 1, i);
    }
  }

  lemma TargetIsNext(rows: seq<Row>, settle: real, now: real, n: nat)
    requires 0 < n <= |rows|
    ensures Target(rows, settle, now, n - 1).Some? ==>
              && Target(rows, settle, now, n).Some?
              && Target(rows, settle, now, n).value < |rows| && Target(rows, settle, now, n - 1).value < |rows|
              && rows[Target(rows, settle, now, n).value].id <= rows[Target(rows, settle, now, n - 1).value].id
    ensures Due(rows, settle, now, n - 1) ==>
              && Target(rows, settle, now, n).Some? && Target(rows, settle, now, n).value < |rows|
              && rows[Target(rows, settle, now, n).value].id <= rows[n - 1].id
  {
    if Target(rows, settle, now, n - 1).Some? {
      TargetIsDue(rows, settle, now, n - 1);
    }
  }

  /** The burst row i of a partition belongs to, by number. */
  function RunOf(p: seq<Row>, settle: real, i: nat): seq<Row>
    requires i < |p|
  {
    Numbered(p, settle, BurstNo(p, settle, i), |p|)
  }

  lemma RunIsBurst(p: seq<Row>, settle: real, i: nat)
    requires i < |p|
    ensures Lo(p, settle, i) <= i < Hi(p, settle, i)
    ensures Burst(p, settle, Lo(p, settle, i), Hi(p, settle, i))
    ensures RunOf(p, settle, i) == p[Lo(p, settle, i)..Hi(p, settle, i)]
  {
    InABurst(p, settle, i);
    NumberedIsSlice(p, settle, i, |p|);
  }

  /** The burst the sweep reads next: its symbiot, and its members oldest first. */
  function NextBurst(rows: seq<Row>, settle: real, now: real): Option<(int, seq<Row>)> {
    match Target(rows, settle, now, |rows|)
    case None => None
    case Some(i) =>
      TargetIsDue(rows, settle, now, |rows|);
      Some((rows[i].symbiot, RunOf(Part(rows, rows[i].symbiot), settle, Place(rows, i))))
  }

  /** [lo, hi) is a settled burst of the symbiot's. */
  ghost predicate Settled(rows: seq<Row>, settle: real, now: real, symbiot: int, lo: nat, hi: nat) {
    var p := Part(rows, symbiot);
    Burst(p, settle, lo, hi) && now - p[hi - 1].at >= settle
  }

  /** The row that ends a burst is the end of what is read with it. */
  lemma EndOfRun(p: seq<Row>, settle: real, i: nat)
    requires i < |p| && Ends(p, settle, i)
    ensures Hi(p, settle, i) == i + 1
  {
  }

  /** The last member, which carries the burst's outcome. */
  function Anchor(members: seq<Row>): Row
    requires members != []
  {
    members[|members| - 1]
  }

  /** What is read is one whole settled burst, its members oldest first. */
  lemma ReadsABurst(rows: seq<Row>, settle: real, now: real) returns (i: nat, lo: nat, hi: nat)
    requires NextBurst(rows, settle, now).Some?
    ensures i < |rows| && Target(rows, settle, now, |rows|) == Some(i)
    ensures NextBurst(rows, settle, now).value.0 == rows[i].symbiot
    ensures Settled(rows, settle, now, rows[i].symbiot, lo, hi)
    ensures NextBurst(rows, settle, now).value.1 == Part(rows, rows[i].symbiot)[lo..hi]
    ensures Part(rows, rows[i].symbiot)[hi - 1] == rows[i] && now - rows[i].at >= settle
    ensures NextBurst(rows, settle, now).value.1 != [] && Anchor(NextBurst(rows, settle, now).value.1) == rows[i]
  {
    TargetIsDue(rows, settle, now, |rows|);
    i := Target(rows, settle, now, |rows|).value;
    var p, at := Part(rows, rows[i].symbiot), Place(rows, i);
    PlaceHolds(rows, i);
    RunIsBurst(p, settle, at);
    EndOfRun(p, settle, at);
    lo, hi := Lo(p, settle, at), Hi(p, settle, at);
  }

  /** Over a list in the order of time, the members of a burst come oldest first, and of one instant by their ids. */
  lemma MembersOldestFirst(rows: seq<Row>, settle: real, now: real, i: nat, j: nat)
    requires forall a, b :: 0 <= a < b < |rows| ==>
               rows[a].at < rows[b].at || (rows[a].at == rows[b].at && rows[a].id < rows[b].id)
    requires NextBurst(rows, settle, now).Some? && i < j < |NextBurst(rows, settle, now).value.1|
    ensures var members := NextBurst(rows, settle, now).value.1;
            members[i].at < members[j].at || (members[i].at == members[j].at && members[i].id < members[j].id)
  {
    var t, lo, hi := ReadsABurst(rows, settle, now);
    PartIsTheirs(rows, rows[t].symbiot, rows[t]);
    var p := Part(rows, rows[t].symbiot);
    assert Before(p[lo + i], p[lo + j]);
  }

  lemma {:induction false} PartHolds(rows: seq<Row>, symbiot: int, k: nat) returns (i: nat)
    requires k < |Part(rows, symbiot)|
    ensures i < |rows| && rows[i].symbiot == symbiot && Place(rows, i) == k && rows[i] == Part(rows, symbiot)[k]
  {
    var front, last := rows[..|rows| - 1], rows[|rows| - 1];
    if k < |Part(front, symbiot)| {
      i := PartHolds(front, symbiot, k);
      assert front[..i] == rows[..i];
    } else {
      i := |rows| - 1;
    }
  }

  /** Of all settled bursts it is the one whose last message has the lowest id, and none is missed. */
  lemma OldestSettled(rows: seq<Row>, settle: real, now: real, symbiot: int, lo: nat, hi: nat)
    requires Burst(Part(rows, symbiot), settle, lo, hi) && now - Part(rows, symbiot)[hi - 1].at >= settle
    ensures NextBurst(rows, settle, now).Some?
    ensures NextBurst(rows, settle, now).value.1 != []
    ensures Anchor(NextBurst(rows, settle, now).value.1).id <= Part(rows, symbiot)[hi - 1].id
  {
    var i := SettledIsDue(rows, settle, now, symbiot, lo, hi);
    TargetIsLowest(rows, settle, now, |rows|, i);
    var t, from, to := ReadsABurst(rows, settle, now);
  }

  lemma SettledIsDue(rows: seq<Row>, settle: real, now: real, symbiot: int, lo: nat, hi: nat) returns (i: nat)
    requires Settled(rows, settle, now, symbiot, lo, hi)
    ensures i < |rows| && rows[i] == Part(rows, symbiot)[hi - 1] && Due(rows, settle, now, i)
  {
    i := PartHolds(rows, symbiot, hi - 1);
    assert Ends(Part(rows, symbiot), settle, hi - 1);
  }

  // ----- spending a burst, and lines that come later

  ghost predicate Ordered(p: seq<Row>) {
    forall i, j :: 0 <= i < j < |p| ==> p[i].at <= p[j].at
  }

  /** The partition with one burst taken out. */
  function Without(p: seq<Row>, lo: nat, hi: nat): seq<Row>
    requires lo <= hi <= |p|
  {
    p[..lo] + p[hi..]
  }

  lemma WithoutAt(p: seq<Row>, lo: nat, hi: nat, k: nat)
    requires lo <= hi <= |p| && k < |p| - (hi - lo)
    ensures Without(p, lo, hi)[k] == if k < lo then p[k] else p[k + (hi - lo)]
  {
  }

  /** Recording a whole burst leaves each earlier one whole. */
  lemma SpendingLeavesEarlier(p: seq<Row>, settle: real, lo: nat, hi: nat, a: nat, b: nat)
    requires Ordered(p)
    requires Burst(p, settle, lo, hi) && Burst(p, settle, a, b) && b <= lo
    ensures Burst(Without(p, lo, hi), settle, a, b) && Without(p, lo, hi)[a..b] == p[a..b]
  {
    var left := Without(p, lo, hi);
    forall k: nat | 0 < k < b
      ensures Near(left, settle, k) == Near(p, settle, k)
    {
      WithoutAt(p, lo, hi, k);
      WithoutAt(p, lo, hi, k - 1);
    }
    if b < |left| {
      WithoutAt(p, lo, hi, b);
      WithoutAt(p, lo, hi, b - 1);
      assert p[b].at <= left[b].at;
    }
    assert left[a..b] == p[a..b];
  }

  /** A burst carried over to a list that holds the same rows from there on, further to the front. */
  lemma BurstMoves(p: seq<Row>, q: seq<Row>, settle: real, a: nat, b: nat, shift: nat)
    requires Burst(p, settle, a, b) && shift <= a && |q| == |p| - shift
    requires forall k :: a - shift <= k < |q| ==> q[k] == p[k + shift]
    requires a > shift ==> q[a - shift - 1].at <= p[a - 1].at
    ensures Burst(q, settle, a - shift, b - shift) && q[a - shift..b - shift] == p[a..b]
  {
    forall k: nat | a - shift < k < b - shift
      ensures Near(q, settle, k)
    {
      assert Near(p, settle, k + shift);
    }
    assert a > shift ==> !Near(q, settle, a - shift);
    assert b < |p| ==> (Near(q, settle, b - shift) <==> Near(p, settle, b));
  }

  /** And each later one. */
  lemma SpendingLeavesLater(p: seq<Row>, settle: real, lo: nat, hi: nat, a: nat, b: nat)
    requires Ordered(p)
    requires Burst(p, settle, lo, hi) && Burst(p, settle, a, b) && hi <= a
    ensures Burst(Without(p, lo, hi), settle, a - (hi - lo), b - (hi - lo))
    ensures Without(p, lo, hi)[a - (hi - lo)..b - (hi - lo)] == p[a..b]
  {
    var left, shift := Without(p, lo, hi), hi - lo;
    forall k | a - shift <= k < |left|
      ensures left[k] == p[k + shift]
    {
      WithoutAt(p, lo, hi, k);
    }
    if a > shift {
      EarlierBefore(p, lo, hi, a);
    }
    BurstMoves(p, left, settle, a, b, shift);
  }

  /** Taking a burst out can only bring an earlier row up behind a later one. */
  lemma EarlierBefore(p: seq<Row>, lo: nat, hi: nat, a: nat)
    requires Ordered(p) && lo <= hi <= a < |p| && a > hi - lo
    ensures Without(p, lo, hi)[a - (hi - lo) - 1].at <= p[a - 1].at
  {
    var k := a - (hi - lo) - 1;
    WithoutAt(p, lo, hi, k);
    assert k < a - 1 ==> p[k].at <= p[a - 1].at;
  }

  /** The list with a line put in before its k-th row. */
  function With(p: seq<Row>, k: nat, x: Row): seq<Row>
    requires k <= |p|
  {
    p[..k] + [x] + p[k..]
  }

  lemma WithAt(p: seq<Row>, k: nat, x: Row, i: nat)
    requires k <= |p| && i <= |p|
    ensures With(p, k, x)[i] == if i < k then p[i] else if i == k then x else p[i - 1]
  {
  }

  /** k is a place for x in the order of time. */
  ghost predicate PlaceFor(p: seq<Row>, k: nat, x: Row) {
    k <= |p| && (k > 0 ==> p[k - 1].at <= x.at) && (k < |p| ==> x.at <= p[k].at)
  }

  /** Received before the burst by more than the lull, or after it by more than the lull. */
  predicate Clear(p: seq<Row>, settle: real, lo: nat, hi: nat, x: Row)
    requires lo < hi <= |p|
  {
    x.at + settle < p[lo].at || p[hi - 1].at + settle < x.at
  }

  /** The burst [lo, hi) is still a burst, of the same rows, moved on by one where x went in ahead of it. */
  ghost predicate StaysWhole(p: seq<Row>, settle: real, lo: nat, hi: nat, k: nat, x: Row)
    requires lo < hi <= |p| && k <= |p|
  {
    var moved := if k <= lo then 1 else 0;
    Burst(With(p, k, x), settle, lo + moved, hi + moved) && With(p, k, x)[lo + moved..hi + moved] == p[lo..hi]
  }

  lemma NearMoves(p: seq<Row>, settle: real, k: nat, x: Row, i: nat)
    requires k < i < |p|
    ensures Near(With(p, k, x), settle, i + 1) == Near(p, settle, i)
  {
    WithAt(p, k, x, i + 1);
    WithAt(p, k, x, i);
  }

  lemma RunMoves(p: seq<Row>, settle: real, lo: nat, hi: nat, k: nat, x: Row)
    requires k <= lo < hi <= |p| && Unbroken(p, settle, lo, hi)
    ensures Unbroken(With(p, k, x), settle, lo + 1, hi + 1)
  {
    var q := With(p, k, x);
    forall i: nat | lo + 1 < i < hi + 1
      ensures Near(q, settle, i)
    {
      assert Near(p, settle, i - 1);
      NearMoves(p, settle, k, x, i - 1);
    }
  }

  lemma RowsMove(p: seq<Row>, lo: nat, hi: nat, k: nat, x: Row)
    requires k <= lo <= hi <= |p|
    ensures With(p, k, x)[lo + 1..hi + 1] == p[lo..hi]
  {
    assert With(p, k, x) == (p[..k] + [x] + p[k..lo]) + p[lo..hi] + p[hi..];
  }

  lemma InsertedBefore(p: seq<Row>, settle: real, lo: nat, hi: nat, k: nat, x: Row)
    requires Burst(p, settle, lo, hi) && k <= lo
    ensures StaysWhole(p, settle, lo, hi, k, x) <==> (k == lo ==> p[lo].at - x.at > settle)
  {
    RunMoves(p, settle, lo, hi, k, x);
    RowsMove(p, lo, hi, k, x);
    if hi < |p| {
      NearMoves(p, settle, k, x, hi);
    }
    if k < lo {
      NearMoves(p, settle, k, x, lo);
    } else {
      WithAt(p, k, x, lo + 1);
      WithAt(p, k, x, lo);
    }
  }

  lemma InsertedAfter(p: seq<Row>, settle: real, lo: nat, hi: nat, k: nat, x: Row)
    requires Ordered(p) && Burst(p, settle, lo, hi) && PlaceFor(p, k, x) && hi <= k
    ensures StaysWhole(p, settle, lo, hi, k, x) <==> (k == hi ==> x.at - p[hi - 1].at > settle)
  {
    var q := With(p, k, x);
    forall i: nat | 0 < i < k
      ensures Near(q, settle, i) == Near(p, settle, i)
    {
      WithAt(p, k, x, i);
      WithAt(p, k, x, i - 1);
    }
    WithAt(p, k, x, hi);
    WithAt(p, k, x, hi - 1);
    assert q[lo..hi] == p[lo..hi];
    assert Unbroken(q, settle, lo, hi);
  }

  /** A line put in among a burst's own rows never leaves it a burst of the same rows. */
  lemma InsertedWithin(p: seq<Row>, settle: real, lo: nat, hi: nat, k: nat, x: Row)
    requires Ordered(p) && Burst(p, settle, lo, hi) && PlaceFor(p, k, x) && lo < k < hi
    ensures !StaysWhole(p, settle, lo, hi, k, x)
  {
    var q := With(p, k, x);
    WithAt(p, k, x, hi);
    WithAt(p, k, x, hi - 1);
    assert Near(p, settle, hi - 1);
    assert k < hi - 1 ==> q[hi - 1] == p[hi - 2];
    assert Near(q, settle, hi);
  }

  lemma ClearBefore(p: seq<Row>, settle: real, lo: nat, hi: nat, k: nat, x: Row)
    requires Ordered(p) && Burst(p, settle, lo, hi) && PlaceFor(p, k, x) && k <= lo
    ensures Clear(p, settle, lo, hi, x) <==> (k == lo ==> p[lo].at - x.at > settle)
  {
    assert x.at <= p[k].at <= p[lo].at <= p[hi - 1].at;
    if k < lo {
      assert p[k].at <= p[lo - 1].at;
      assert !Near(p, settle, lo);
    }
  }

  lemma ClearAfter(p: seq<Row>, settle: real, lo: nat, hi: nat, k: nat, x: Row)
    requires Ordered(p) && Burst(p, settle, lo, hi) && PlaceFor(p, k, x) && hi <= k
    ensures Clear(p, settle, lo, hi, x) <==> (k == hi ==> x.at - p[hi - 1].at > settle)
  {
    assert p[lo].at <= p[hi - 1].at <= p[k - 1].at <= x.at;
    if hi < k {
      assert p[hi].at <= p[k - 1].at;
      assert !Near(p, settle, hi);
    }
  }

  lemma NotClearWithin(p: seq<Row>, settle: real, lo: nat, hi: nat, k: nat, x: Row)
    requires Ordered(p) && Burst(p, settle, lo, hi) && PlaceFor(p, k, x) && lo < k < hi
    ensures !Clear(p, settle, lo, hi, x)
  {
    assert Near(p, settle, k);
    assert p[lo].at <= p[k - 1].at <= x.at <= p[k].at <= p[hi - 1].at;
  }

  /** Wherever a line takes its place in the order of time, whenever it was answered, it leaves a burst whole if and
      only if it was received more than the lull before the burst's first message or more than the lull after its
      last. */
  lemma InsertedLine(p: seq<Row>, settle: real, lo: nat, hi: nat, k: nat, x: Row)
    requires Ordered(p) && Burst(p, settle, lo, hi) && PlaceFor(p, k, x)
    ensures StaysWhole(p, settle, lo, hi, k, x) <==> Clear(p, settle, lo, hi, x)
  {
    if k <= lo {
      InsertedBefore(p, settle, lo, hi, k, x);
      ClearBefore(p, settle, lo, hi, k, x);
    } else if hi <= k {
      InsertedAfter(p, settle, lo, hi, k, x);
      ClearAfter(p, settle, lo, hi, k, x);
    } else {
      InsertedWithin(p, settle, lo, hi, k, x);
      NotClearWithin(p, settle, lo, hi, k, x);
    }
  }

  /** A line that comes after a burst's last message is one with the burst exactly when it came within the lull, and
      otherwise leaves it whole. */
  lemma LaterLine(p: seq<Row>, settle: real, lo: nat, x: Row)
    requires Burst(p, settle, lo, |p|)
    ensures Burst(p + [x], settle, lo, |p| + 1) <==> x.at - p[|p| - 1].at <= settle
    ensures Burst(p + [x], settle, lo, |p|) <==> x.at - p[|p| - 1].at > settle
  {
    var q := p + [x];
    forall k: nat | 0 < k < |p|
      ensures Near(q, settle, k) == Near(p, settle, k)
    {
      assert q[k] == p[k] && q[k - 1] == p[k - 1];
    }
    assert q[|p| - 1] == p[|p| - 1];
    assert Near(q, settle, |p|) <==> x.at - p[|p| - 1].at <= settle;
  }

  /** So a message received after the read never breaks into a burst the read judged settled, wherever the burst
      lies. */
  lemma SettledStaysWhole(p: seq<Row>, settle: real, now: real, lo: nat, hi: nat, k: nat, x: Row)
    requires Ordered(p) && Burst(p, settle, lo, hi) && now - p[hi - 1].at >= settle
    requires PlaceFor(p, k, x) && x.at > now
    ensures StaysWhole(p, settle, lo, hi, k, x)
  {
    InsertedLine(p, settle, lo, hi, k, x);
  }

  /** The witness for "received", not "answered": a line received before the read but answered after it, within the
      lull of two bursts the read judged apart, makes them one. */
  lemma LateAnswerBridges(settle: real, now: real)
    requires settle > 0.0
    ensures var a, b := Row(1, 7, now - 4.0 * settle), Row(3, 7, now - 2.0 * settle - settle / 2.0);
            var x := Row(2, 7, now - 3.0 * settle - settle / 4.0);
            && Burst([a, b], settle, 0, 1) && now - a.at >= settle && x.at < now
            && PlaceFor([a, b], 1, x) && !Clear([a, b], settle, 0, 1, x) && !Clear([a, b], settle, 1, 2, x)
            && With([a, b], 1, x) == [a, x, b] && Burst([a, x, b], settle, 0, 3)
  {
  }

  /** With no lull at all a burst is exactly the messages received at one instant: two at the very same
      instant still make one burst. */
  lemma NoLull(p: seq<Row>, i: nat, j: nat)
    requires Ordered(p) && i <= j < |p|
    ensures BurstNo(p, 0.0, i) == BurstNo(p, 0.0, j) <==> p[i].at == p[j].at
  {
    BurstNoGrows(p, 0.0, i, j);
    NoGaps(p, i, j);
  }

  /** The witness: two messages of one instant are one burst of two, whatever the lull, none included. */
  lemma TwoAtOnce(settle: real, at: real)
    requires settle >= 0.0
    ensures var p := [Row(1, 7, at), Row(2, 7, at)];
            && Ordered(p) && Burst(p, settle, 0, 2) && BurstNo(p, settle, 0) == BurstNo(p, settle, 1)
  {
    var p := [Row(1, 7, at), Row(2, 7, at)];
    assert Near(p, settle, 1);
    assert Burst(p, settle, 0, 2);
    NumberingIsBursts(p, settle, 0, 1);
  }

  lemma {:induction false} NoGaps(p: seq<Row>, i: nat, j: nat)
    requires Ordered(p) && i <= j < |p|
    ensures Unbroken(p, 0.0, i, j + 1) <==> p[i].at == p[j].at
  {
    if i < j {
      NoGaps(p, i, j - 1);
      assert p[i].at <= p[j - 1].at <= p[j].at;
      assert Unbroken(p, 0.0, i, j + 1) <==> Unbroken(p, 0.0, i, j) && Near(p, 0.0, j);
    }
  }

  /** Every member is one of the eligible rows, of the one symbiot, and there is at least one. */
  lemma MembersEligible(rows: seq<Row>, settle: real, now: real)
    requires NextBurst(rows, settle, now).Some?
    ensures var (symbiot, members) := NextBurst(rows, settle, now).value;
            members != [] && forall k :: 0 <= k < |members| ==> members[k] in rows && members[k].symbiot == symbiot
  {
    var t, lo, hi := ReadsABurst(rows, settle, now);
    var members := NextBurst(rows, settle, now).value.1;
    forall k | 0 <= k < |members|
      ensures members[k] in rows && members[k].symbiot == rows[t].symbiot
    {
      var i := PartHolds(rows, rows[t].symbiot, lo + k);
    }
  }
}
