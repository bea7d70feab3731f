/** The sliding-window limiter in front of the routes (core/rate_limit.py).

The limiter keeps a pruned deque per bucket.  It is measured here against the whole
history of admitted hits, which it never stores. */
module RateLimiter {
  import opened Prelude

  /** A route's ceiling: at most `hits` requests in any `window` seconds. */
  datatype Ceiling = Ceiling(hits: nat, window: real)

  const LIMITS: map<string, Ceiling> := map["/login" := Ceiling(5, 60.0), "/login/verify" := Ceiling(10, 60.0)]
  const DEFAULT_LIMIT := Ceiling(120, 60.0)
  const EXEMPT: set<string> := {"/health"}

  function LimitFor(limits: map<string, Ceiling>, path: string): Ceiling {
    if path in limits then limits[path] else DEFAULT_LIMIT
  }

  /** The two login routes have their own ceilings, every other route the default, and the health probe none. */
  lemma CeilingsOfTheRoutes(path: string)
    ensures path in EXEMPT <==> path == "/health"
    ensures LimitFor(LIMITS, "/login") == Ceiling(5, 60.0) && LimitFor(LIMITS, "/login/verify") == Ceiling(10, 60.0)
    ensures path != "/login" && path != "/login/verify" ==> LimitFor(LIMITS, path) == Ceiling(120, 60.0)
  {
  }

  /** A ceiling that is configured for a route is the one it has, and no other route's. */
  lemma ConfiguredCeiling(limits: map<string, Ceiling>, path: string, other: string, c: Ceiling)
    ensures LimitFor(limits[path := c], path) == c
    ensures other != path ==> LimitFor(limits[path := c], other) == LimitFor(limits, other)
    ensures path !in limits ==> LimitFor(limits, path) == LimitFor(map[], path)
  {
  }

  datatype Bucket = Bucket(clientKey: string, path: string)

  // ----- the reference: a full history of admitted hits

  ghost predicate Chronological(history: seq<real>) {
    forall i, j :: 0 <= i < j < |history| ==> history[i] <= history[j]
  }

  /** Any two hits that are `hits` admissions apart are at least a window apart. */
  ghost predicate Spaced(history: seq<real>, c: Ceiling) {
    forall i, j :: 0 <= i && j == i + c.hits && j < |history| ==> history[i] <= history[j] - c.window
  }

  ghost predicate Legal(history: seq<real>, c: Ceiling) {
    Chronological(history) && Spaced(history, c)
  }

  /** The hits admitted in the half-open window of `window` seconds that ends at `t`. */
  ghost function Inside(history: seq<real>, c: Ceiling, t: real): set<int> {
    set k | 0 <= k < |history| && t - c.window < history[k] <= t
  }

  /** The history `gone + kept`, split precisely at `since`. */
  ghost predicate SplitsAt(gone: seq<real>, kept: seq<real>, since: real) {
    && (forall j :: 0 <= j < |gone| ==> gone[j] <= since)
    && (forall j :: 0 <= j < |kept| ==> since < kept[j])
  }

  /** The `n` consecutive indices that start at `from`. */
  ghost function Range(from: int, n: nat): (r: set<int>)
    ensures forall k :: k in r <==> from <= k < from + n
    ensures |r| == n
  {
    if n == 0 then {} else Range(from, n - 1) + {from + n - 1}
  }

  lemma {:induction false} SizeWithinRange(s: set<int>, from: int, n: nat)
    requires s <= Range(from, n)
    ensures |s| <= n
  {
    if n == 0 {
      assert s == {};
    } else {
      var last := from + n - 1;
      SizeWithinRange(s - {last}, from, n - 1);
      assert s <= s - {last} + {last};
    }
  }

  /** The first hit of a chronological history that is later than `since`. */
  lemma SplitPoint(history: seq<real>, since: real) returns (first: nat)
    requires Chronological(history)
    ensures first <= |history|
    ensures forall j :: 0 <= j < |history| ==> (since < history[j] <==> first <= j)
  {
    first := 0;
    while first < |history| && history[first] <= since
      invariant first <= |history|
      invariant forall j :: 0 <= j < first ==> history[j] <= since
    {
      first := first + 1;
    }
  }

  /** No window anywhere, whichever instant it ends at, ever holds more than the limit. */
  lemma NoWindowOverfull(history: seq<real>, c: Ceiling, t: real)
    requires Legal(history, c)
    ensures |Inside(history, c, t)| <= c.hits
  {
    var first := SplitPoint(history, t - c.window);
    forall k | k in Inside(history, c, t)
      ensures k in Range(first, c.hits)
    {
      // An index past the range would put hits + 1 hits in one window, against the spacing.
      assert first + c.hits < |history| ==> history[first] <= history[first + c.hits] - c.window;
    }
    SizeWithinRange(Inside(history, c, t), first, c.hits);
  }

  /** A hit may be let through at `now`: the window that ends there has room. */
  ghost predicate HasRoom(history: seq<real>, c: Ceiling, now: real) {
    |Inside(history, c, now)| < c.hits
  }

  ghost predicate Past(history: seq<real>, now: real) {
    forall j :: 0 <= j < |history| ==> history[j] <= now
  }

  /** The deque's length is the number of admitted hits in the window. */
  lemma KeptCounts(gone: seq<real>, kept: seq<real>, c: Ceiling, now: real)
    requires SplitsAt(gone, kept, now - c.window)
    requires Past(kept, now)
    ensures |Inside(gone + kept, c, now)| == |kept|
  {
    var history := gone + kept;
    forall k
      ensures k in Inside(history, c, now) <==> k in Range(|gone|, |kept|)
    {
      if 0 <= k < |gone| { assert history[k] == gone[k]; }
      else if |gone| <= k < |history| { assert history[k] == kept[k - |gone|]; }
    }
    assert Inside(history, c, now) == Range(|gone|, |kept|);
  }

  /** A full window frees up when the oldest of its hits ages out; with nothing else admitted meanwhile,
      a later attempt has room from that very instant and not before. */
  lemma RoomReturnsExactly(gone: seq<real>, kept: seq<real>, c: Ceiling, now: real, later: real)
    requires c.hits > 0 && Legal(gone + kept, c)
    requires SplitsAt(gone, kept, now - c.window)
    requires Past(kept, now)
    requires !HasRoom(gone + kept, c, now)
    requires now <= later
    ensures |kept| == c.hits
    ensures now < kept[0] + c.window
    ensures HasRoom(gone + kept, c, later) <==> kept[0] + c.window <= later
  {
    KeptCounts(gone, kept, c, now);
    NoWindowOverfull(gone + kept, c, now);
    var first := SplitPoint(gone + kept, later - c.window);
    assert (gone + kept)[|gone|] == kept[0];
    if |gone| > 0 { assert (gone + kept)[|gone| - 1] == gone[|gone| - 1]; }
    assert |gone| <= first && (|gone| < first <==> kept[0] + c.window <= later);
    var still := kept[first - |gone|..];
    var aged := gone + kept[..first - |gone|];
    assert aged + still == gone + kept;
    forall j | 0 <= j < |still|
      ensures later - c.window < still[j] <= later
    {
      assert still[j] == kept[j + first - |gone|] == (gone + kept)[j + first];
    }
    forall j | 0 <= j < |aged|
      ensures aged[j] <= later - c.window
    {
      assert aged[j] == (gone + kept)[j];
    }
    KeptCounts(aged, still, c, later);
  }

  /** Admitting exactly when there is room keeps the history legal. */
  lemma AdmitKeepsLegal(gone: seq<real>, kept: seq<real>, c: Ceiling, now: real)
    requires Legal(gone + kept, c)
    requires SplitsAt(gone, kept, now - c.window)
    requires Past(kept, now) && c.window > 0.0
    requires |kept| < c.hits
    ensures Legal(gone + (kept + [now]), c)
  {
    var history := gone + kept;
    var longer := gone + (kept + [now]);
    assert longer == history + [now];
    forall i, j | 0 <= i < j < |longer|
      ensures longer[i] <= longer[j]
      ensures j == i + c.hits ==> longer[i] <= longer[j] - c.window
    {
      if j == |history| {
        assert longer[i] == if i < |gone| then gone[i] else kept[i - |gone|];
      } else {
        assert longer[i] == history[i] && longer[j] == history[j];
      }
    }
  }

  // ----- the limiter itself

  /** A bucket's deque `kept` beside what it has forgotten: together a legal history none of which is later
      than `clock`, and what is forgotten had aged out by then. */
  ghost predicate Remembers(gone: seq<real>, kept: seq<real>, c: Ceiling, clock: real) {
    && Legal(gone + kept, c)
    && Past(kept, clock)
    && Past(gone, clock - c.window)
  }

  ghost predicate AllRemember(
    gone: map<Bucket, seq<real>>, hits: map<Bucket, seq<real>>, limits: map<string, Ceiling>, clock: real)
  {
    && hits.Keys == gone.Keys
    && forall b :: b in hits ==> Remembers(gone[b], hits[b], LimitFor(limits, b.path), clock)
  }

  lemma AllRememberLater(
    gone: map<Bucket, seq<real>>, hits: map<Bucket, seq<real>>, limits: map<string, Ceiling>, clock: real, now: real)
    requires AllRemember(gone, hits, limits, clock) && clock <= now
    ensures AllRemember(gone, hits, limits, now)
  {
  }

  lemma StoreRemembers(
    gone: map<Bucket, seq<real>>, hits: map<Bucket, seq<real>>, limits: map<string, Ceiling>, now: real,
    b: Bucket, aged: seq<real>, recent: seq<real>)
    requires AllRemember(gone, hits, limits, now)
    requires Remembers(aged, recent, LimitFor(limits, b.path), now)
    ensures AllRemember(gone[b := aged], hits[b := recent], limits, now)
  {
  }

  /** Whole seconds from `now` to strictly past `freed`.  The source truncates toward zero,
      which is the floor here because an oldest live hit is never a whole window old. */
  function SecondsPast(freed: real, now: real): (wait: int)
    requires now < freed
    ensures wait > 0
    ensures freed < now + wait as real <= freed + 1.0
  {
    (freed - now).Floor + 1
  }

  /** What one bucket's limiter owes a hit at `now`: admitted and recorded exactly when the window has room,
      the deque left holding exactly the admitted hits still in the window, and a refusal's wait running past
      the instant the oldest of them ages out, by a second at most. */
  ghost predicate Served(
    wait: Option<int>, history: seq<real>, aged: seq<real>, recent: seq<real>, c: Ceiling, now: real)
  {
    && wait.None? == HasRoom(history, c, now)
    && aged + recent == (if wait.None? then history + [now] else history)
    && SplitsAt(aged, recent, now - c.window)
    && (wait.Some? ==> |recent| == c.hits)
    && (wait.Some? && |recent| > 0 ==>
          recent[0] + c.window < now + wait.value as real <= recent[0] + c.window + 1.0)
  }

  class RateLimiter {
    const enabled: bool
    const limits: map<string, Ceiling>
    const exempt: set<string>
    var hits: map<Bucket, seq<real>>
    ghost var forgotten: map<Bucket, seq<real>>  // the admitted hits the deques have dropped
    ghost var clock: real                        // the latest instant the limiter has been asked about

    ghost predicate Valid()
      reads this
    {
      && (forall path :: path in limits ==> limits[path].hits > 0 && limits[path].window > 0.0)
      && AllRemember(forgotten, hits, limits, clock)
    }

    ghost function Forgotten(b: Bucket): seq<real>
      reads this
    {
      if b in forgotten then forgotten[b] else []
    }

    function Kept(b: Bucket): seq<real>
      reads this
    {
      if b in hits then hits[b] else []
    }

    /** Every hit let through for a bucket since the last reset. */
    ghost function Admitted(b: Bucket): seq<real>
      reads this
    {
      Forgotten(b) + Kept(b)
    }

    constructor (enabled: bool, ghost start: real)
      ensures Valid() && this.enabled == enabled && limits == LIMITS && exempt == EXEMPT
      ensures clock == start && forall b :: Admitted(b) == []
    {
      this.enabled := enabled;
      limits, exempt := LIMITS, EXEMPT;
      hits, forgotten, clock := map[], map[], start;
    }

    method Reset()
      requires Valid()
      modifies this
      ensures Valid() && clock == old(clock) && forall b :: Admitted(b) == []
    {
      hits, forgotten := map[], map[];
    }

    /** Forget, oldest first, the hits that no window ending now or later still counts. */
    static method Prune(ghost gone: seq<real>, kept: seq<real>, c: Ceiling, now: real)
        returns (ghost aged: seq<real>, recent: seq<real>)
      requires Remembers(gone, kept, c, now)
      ensures aged + recent == gone + kept
      ensures SplitsAt(aged, recent, now - c.window) && Past(recent, now)
    {
      aged, recent := gone, kept;
      while recent != [] && recent[0] <= now - c.window
        invariant aged + recent == gone + kept
        invariant Past(aged, now - c.window) && Past(recent, now)
      {
        assert aged + [recent[0]] + recent[1..] == aged + recent;
        aged, recent := aged + [recent[0]], recent[1..];
      }
      forall j | 0 <= j < |recent|
        ensures now - c.window < recent[j]
      {
        assert recent[j] == (aged + recent)[|aged| + j] && recent[0] == (aged + recent)[|aged|];
      }
    }

    /** One bucket's decision: prune, then refuse with a wait or record the hit. */
    static method Decide(ghost gone: seq<real>, kept: seq<real>, c: Ceiling, now: real)
        returns (wait: Option<int>, ghost aged: seq<real>, recent: seq<real>)
      requires c.hits > 0 && c.window > 0.0
      requires Remembers(gone, kept, c, now)
      ensures Served(wait, gone + kept, aged, recent, c, now)
      ensures Remembers(aged, recent, c, now)
      ensures wait.None? ==> recent != [] && recent[|recent| - 1] == now && |recent| <= c.hits
      ensures wait.Some? ==> |recent| == c.hits && recent[0] + c.window < now + wait.value as real
    {
      aged, recent := Prune(gone, kept, c, now);
      KeptCounts(aged, recent, c, now);
      if |recent| >= c.hits {
        RoomReturnsExactly(aged, recent, c, now, now);
        wait := Some(SecondsPast(recent[0] + c.window, now));
      } else {
        AdmitKeepsLegal(aged, recent, c, now);
        wait, recent := None, recent + [now];
      }
    }

    /** The seconds to wait when this hit is over the limit, None when it is let through.
        An allowed hit is recorded and a refused one is not. */
    method RetryAfter(path: string, clientKey: string, now: real) returns (wait: Option<int>)
      requires Valid()
      requires clock <= now
      modifies this
      ensures Valid() && clock == now
      ensures !enabled || path in exempt ==> wait == None && forall b :: Admitted(b) == old(Admitted(b))
      ensures enabled && path !in exempt ==>
                var b, c := Bucket(clientKey, path), LimitFor(limits, path);
                && Served(wait, old(Admitted(b)), Forgotten(b), Kept(b), c, now)
                && (forall other :: other != b ==> Admitted(other) == old(Admitted(other)))
    {
      AllRememberLater(forgotten, hits, limits, clock, now);
      clock := now;
      if !enabled || path in exempt {
        return None;
      }
      var b := Bucket(clientKey, path);
      var recent;
      ghost var aged;
      wait, aged, recent := Decide(Forgotten(b), Kept(b), LimitFor(limits, path), now);
      StoreRemembers(forgotten, hits, limits, now, b, aged, recent);
      hits, forgotten := hits[b := recent], forgotten[b := aged];
    }
  }
}
