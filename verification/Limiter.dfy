/** How many calls and how many wrong credentials a key is allowed in the
    stretch of time up to now (ratelimit.py). */
module Limiter {
  import opened Prelude

  const PINGS_PER_MINUTE := 30
  const MISSES_PER_WINDOW := 10
  const MISS_WINDOW := 600.0
  const MAX_ADDRESSES := 10000
  const MINUTE := 60.0

  type Log = map<string, seq<real>>

  function Of(log: Log, who: string): seq<real> {
    if who in log then log[who] else []
  }

  ghost predicate InOrder(times: seq<real>) {
    forall i, j :: 0 <= i < j < |times| ==> times[i] <= times[j]
  }

  /** How many of the times lie in a stretch, both its ends included. */
  function CountIn(times: seq<real>, a: real, b: real): nat {
    if times == [] then 0
    else
      var last := times[|times| - 1];
      CountIn(times[..|times| - 1], a, b) + if a <= last <= b then 1 else 0
  }

  /** No more than `limit` of the times in any stretch of that length. */
  ghost predicate Spaced(times: seq<real>, limit: int, window: real) {
    && (limit <= 0 ==> times == [])
    && (limit > 0 ==> forall i, j :: 0 <= i && j == i + limit && j < |times| ==> times[j] - times[i] > window)
  }

  lemma {:induction false} CountAfter(times: seq<real>, a: real, b: real, k: int)
    requires InOrder(times) && -1 <= k < |times| && (k >= 0 ==> times[k] < a)
    ensures CountIn(times, a, b) <= |times| - 1 - k
  {
    var n := |times| - 1;
    if times != [] {
      if k < n {
        CountAfter(times[..n], a, b, k);
      } else if n > 0 {
        assert times[n - 1] <= times[n];
        CountAfter(times[..n], a, b, n - 1);
      }
    }
  }

  /** Times this far apart are never more than the limit in one stretch. */
  lemma {:induction false} SpacedMeansLimited(times: seq<real>, limit: nat, window: real, a: real)
    requires InOrder(times) && Spaced(times, limit, window) && window >= 0.0
    ensures CountIn(times, a, a + window) <= limit
  {
    if times != [] {
      var n := |times| - 1;
      var last := times[n];
      assert Spaced(times[..n], limit, window);
      if n >= limit && a <= last <= a + window {
        assert times[n] - times[n - limit] > window;
        CountAfter(times, a, a + window, n - limit);
      } else {
        SpacedMeansLimited(times[..n], limit, window, a);
        CountAfter(times, a, a + window, -1);
      }
    }
  }

  /** What is kept of a log are its latest times: all those still in the window,
      and those before them are out of it. */
  ghost predicate Keeps(kept: seq<real>, log: seq<real>, window: real, clock: real) {
    && InOrder(log) && (log != [] ==> log[|log| - 1] <= clock)
    && |kept| <= |log| && kept == log[|log| - |kept|..]
    && forall i :: 0 <= i < |log| - |kept| ==> clock - log[i] > window
  }

  lemma {:induction false} KeptIsCount(kept: seq<real>, log: seq<real>, window: real, now: real)
    requires Keeps(kept, log, window, now) && (kept != [] ==> now - kept[0] <= window)
    ensures |kept| == CountIn(log, now - window, now)
  {
    if log != [] {
      var n := |log| - 1;
      if kept == [] {
        assert now - log[n] > window;
        CountAfter(log, now - window, now, n);
      } else {
        assert kept[..|kept| - 1] == log[..n][n - (|kept| - 1)..];
        assert kept[0] == log[|log| - |kept|] && log[|log| - |kept|] <= log[n];
        assert InOrder(log[..n]);
        assert n > 0 ==> log[n - 1] <= log[n];
        KeptIsCount(kept[..|kept| - 1], log[..n], window, now);
      }
    }
  }

  lemma KeepsLonger(kept: seq<real>, log: seq<real>, window: real, clock: real, now: real)
    requires Keeps(kept, log, window, clock) && clock <= now
    ensures Keeps(kept, log, window, now)
  {
  }

  lemma KeepsWithoutFirst(kept: seq<real>, log: seq<real>, window: real, now: real)
    requires Keeps(kept, log, window, now) && kept != [] && now - kept[0] > window
    ensures Keeps(kept[1..], log, window, now)
  {
  }

  lemma KeepsMore(kept: seq<real>, log: seq<real>, window: real, now: real)
    requires Keeps(kept, log, window, now)
    ensures Keeps(kept + [now], log + [now], window, now)
  {
    if log != [] {
      forall i | 0 <= i < |log| ensures log[i] <= now {
        assert log[i] <= log[|log| - 1];
      }
    }
  }

  ghost predicate KeepsFor(times: Log, log: Log, who: string, window: real, clock: real) {
    Keeps(Of(times, who), Of(log, who), window, clock)
  }

  ghost predicate BookKeeps(times: Log, log: Log, window: real, clock: real) {
    forall who :: KeepsFor(times, log, who, window, clock)
  }

  lemma EmptyKeeps(window: real, clock: real)
    ensures BookKeeps(map[], map[], window, clock)
  {
  }

  lemma BookKeepsLonger(times: Log, log: Log, window: real, clock: real, now: real)
    requires BookKeeps(times, log, window, clock) && clock <= now
    ensures BookKeeps(times, log, window, now)
  {
    forall who ensures KeepsFor(times, log, who, window, now) {
      assert KeepsFor(times, log, who, window, clock);
      KeepsLonger(Of(times, who), Of(log, who), window, clock, now);
    }
  }

  lemma SameFor(times: Log, log: Log, times': Log, log': Log, who: string, window: real, now: real)
    requires Of(times, who) == Of(times', who) && Of(log, who) == Of(log', who)
             && KeepsFor(times, log, who, window, now)
    ensures KeepsFor(times', log', who, window, now)
  {
  }

  lemma BookKeepsWith(times: Log, log: Log, times': Log, log': Log, window: real, now: real, who: string)
    requires BookKeeps(times, log, window, now)
    requires forall x :: x != who ==> Of(times', x) == Of(times, x) && Of(log', x) == Of(log, x)
    requires Keeps(Of(times', who), Of(log', who), window, now)
    ensures BookKeeps(times', log', window, now)
  {
    forall x ensures KeepsFor(times', log', x, window, now) {
      if x != who {
        SameFor(times, log, times', log', x, window, now);
      }
    }
  }

  /** Times out of the window go, oldest first. */
  method Prune(times: seq<real>, window: real, now: real, ghost log: seq<real>) returns (kept: seq<real>)
    requires Keeps(times, log, window, now)
    ensures Keeps(kept, log, window, now) && (kept != [] ==> now - kept[0] <= window)
  {
    kept := times;
    while kept != [] && now - kept[0] > window
      invariant Keeps(kept, log, window, now)
      decreases |kept|
    {
      KeepsWithoutFirst(kept, log, window, now);
      kept := kept[1..];
    }
  }

  lemma BookKeepsFor(times: Log, log: Log, window: real, clock: real, who: string)
    requires BookKeeps(times, log, window, clock)
    ensures Keeps(Of(times, who), Of(log, who), window, clock)
  {
    assert KeepsFor(times, log, who, window, clock);
  }

  lemma BookInOrder(times: Log, log: Log, window: real, clock: real, who: string)
    requires BookKeeps(times, log, window, clock)
    ensures InOrder(Of(log, who)) && (Of(log, who) != [] ==> Of(log, who)[|Of(log, who)| - 1] <= clock)
  {
    BookKeepsFor(times, log, window, clock, who);
  }

  lemma PutKept(times: Log, log: Log, window: real, clock: real, now: real, who: string, kept: seq<real>)
    requires BookKeeps(times, log, window, clock) && clock <= now && Keeps(kept, Of(log, who), window, now)
    ensures BookKeeps(times[who := kept], log, window, now)
  {
    BookKeepsLonger(times, log, window, clock, now);
    BookKeepsWith(times, log, times[who := kept], log, window, now, who);
  }

  /** What is left of a key's times, and how many that is. */
  method RecentOf(times: Log, ghost log: Log, window: real, ghost clock: real, who: string,
          now: real) returns (kept: seq<real>)
    requires BookKeeps(times, log, window, clock) && clock <= now
    ensures Keeps(kept, Of(log, who), window, now) && |kept| == CountIn(Of(log, who), now - window, now)
  {
    BookKeepsFor(times, log, window, clock, who);
    KeepsLonger(Of(times, who), Of(log, who), window, clock, now);
    kept := Prune(Of(times, who), window, now, Of(log, who));
    KeptIsCount(kept, Of(log, who), window, now);
  }

  /** Recent times by key, with all that were ever noted since it last started over. */
  class Book {
    var times: Log
    ghost var log: Log
    ghost var clock: real
    const window: real

    ghost predicate Valid()
      reads this
    {
      BookKeeps(times, log, window, clock)
    }

    constructor (window: real, ghost start: real)
      ensures Valid() && log == map[] && this.window == window && clock == start
    {
      times, log, clock, this.window := map[], map[], start, window;
    }

    /** The times of a key that are still in the window. */
    method Within(who: string, now: real) returns (kept: seq<real>)
      requires Valid() && clock <= now
      modifies this
      ensures Valid() && clock == now && Of(times, who) == kept
      ensures log == if |old(times)| > MAX_ADDRESSES then map[] else old(log)
      ensures |kept| == CountIn(Of(log, who), now - window, now)
    {
      if |times| > MAX_ADDRESSES {
        times, log := map[], map[];
        EmptyKeeps(window, clock);
      }
      kept := Recent(who, now);
    }

    method Recent(who: string, now: real) returns (kept: seq<real>)
      requires Valid() && clock <= now
      modifies this`times, this`clock
      ensures Valid() && clock == now && Of(times, who) == kept
      ensures |kept| == CountIn(Of(log, who), now - window, now)
    {
      kept := RecentOf(times, log, window, clock, who, now);
      PutKept(times, log, window, clock, now, who, kept);
      times, clock := times[who := kept], now;
    }

    /** Note a time for a key just looked up. */
    method Append(who: string, now: real)
      requires Valid() && now == clock
      modifies this`times, this`log
      ensures Valid() && log == old(log)[who := Of(old(log), who) + [now]]
    {
      assert KeepsFor(times, log, who, window, now);
      KeepsMore(Of(times, who), Of(log, who), window, now);
      BookKeepsWith(times, log, times[who := Of(times, who) + [now]], log[who := Of(log, who) + [now]], window, now,
                    who);
      times := times[who := Of(times, who) + [now]];
      log := log[who := Of(log, who) + [now]];
    }
  }

  /** The log, or an empty one once the book has started over. */
  ghost function Since(restarted: bool, log: Log): Log {
    if restarted then map[] else log
  }

  /** One more time of one key, and nothing else. */
  ghost function Noted(log: Log, who: string, now: real): Log {
    log[who := Of(log, who) + [now]]
  }

  lemma {:induction false} OneMoreAllowed(times: seq<real>, limit: int, now: real)
    requires InOrder(times) && Spaced(times, limit, MINUTE) && (times != [] ==> times[|times| - 1] <= now)
    requires CountIn(times, now - MINUTE, now) < limit
    ensures Spaced(times + [now], limit, MINUTE)
  {
    var n := |times|;
    if limit <= n {
      CountFrom(times, now, n - limit);
    }
  }

  /** For every key, no minute holds more allowed calls than the limit. */
  ghost predicate AllSpaced(log: Log, limit: int) {
    forall who :: Spaced(Of(log, who), limit, MINUTE)
  }

  lemma StaysSpaced(log: Log, limit: int, who: string, now: real)
    requires AllSpaced(log, limit) && InOrder(Of(log, who))
             && (Of(log, who) != [] ==> Of(log, who)[|Of(log, who)| - 1] <= now)
    requires CountIn(Of(log, who), now - MINUTE, now) < limit
    ensures AllSpaced(log[who := Of(log, who) + [now]], limit)
  {
    OneMoreAllowed(Of(log, who), limit, now);
    var after := log[who := Of(log, who) + [now]];
    forall x ensures Spaced(Of(after, x), limit, MINUTE) {
      assert Spaced(Of(log, x), limit, MINUTE);
    }
  }

  /** Times from position `k` on that are all in the window are all counted. */
  lemma {:induction false} CountFrom(times: seq<real>, now: real, k: nat)
    requires InOrder(times) && (times != [] ==> times[|times| - 1] <= now) && k <= |times|
    ensures k < |times| && now - times[k] <= MINUTE ==> CountIn(times, now - MINUTE, now) >= |times| - k
  {
    if k < |times| && now - times[k] <= MINUTE {
      var n := |times| - 1;
      assert times[k] <= times[n];
      if k < n {
        assert times[n - 1] <= times[n];
        CountFrom(times[..n], now, k);
      }
    }
  }

  lemma {:induction false} LimitedFor(times: Log, log: Log, clock: real, limit: int, who: string, a: real)
    requires BookKeeps(times, log, MINUTE, clock) && AllSpaced(log, limit)
    ensures CountIn(Of(log, who), a, a + MINUTE) <= Max(limit, 0)
  {
    BookInOrder(times, log, MINUTE, clock, who);
    assert Spaced(Of(log, who), limit, MINUTE);
    if limit > 0 {
      SpacedMeansLimited(Of(log, who), limit, MINUTE, a);
    }
  }

  class Gate {
    const perMinute: int
    const missesPerWindow: int
    const pings: Book
    const misses: Book

    ghost predicate Valid()
      reads this, pings, misses
    {
      && pings != misses && pings.Valid() && misses.Valid() && pings.window == MINUTE
      && AllSpaced(pings.log, perMinute)
    }

    /** Both books were last looked at no later than this. */
    ghost predicate Before(now: real)
      reads this, pings, misses
    {
      pings.clock <= now && misses.clock <= now
    }

    constructor (perMinute: Option<int>, missesPerWindow: Option<int>, missWindow: Option<real>, ghost start: real)
      ensures Valid() && Before(start) && fresh(pings) && fresh(misses)
      ensures this.perMinute == perMinute.GetOr(PINGS_PER_MINUTE) && misses.window == missWindow.GetOr(MISS_WINDOW)
      ensures this.missesPerWindow == missesPerWindow.GetOr(MISSES_PER_WINDOW)
      ensures pings.log == map[] && misses.log == map[]
    {
      this.perMinute := perMinute.GetOr(PINGS_PER_MINUTE);
      this.missesPerWindow := missesPerWindow.GetOr(MISSES_PER_WINDOW);
      var first := new Book(MINUTE, start);
      var second := new Book(missWindow.GetOr(MISS_WINDOW), start);
      pings, misses := first, second;
    }

    /** Whether a request may go on. It may exactly when the whole log since each
        book last started over has too few misses and too few calls, and then
        the call is logged and nothing else. */
    method Allow(who: string, now: real) returns (yes: bool)
      requires Valid() && Before(now)
      modifies pings, misses
      ensures Valid() && Before(now)
      ensures misses.log == Since(|old(misses.times)| > MAX_ADDRESSES, old(misses.log))
      ensures var calls := Since(|old(pings.times)| > MAX_ADDRESSES, old(pings.log));
              if CountIn(Of(misses.log, who), now - misses.window, now) >= missesPerWindow
              then !yes && pings.log == old(pings.log)
              else (yes <==> CountIn(Of(calls, who), now - MINUTE, now) < perMinute)
                   && pings.log == if yes then Noted(calls, who, now) else calls
    {
      var recent := misses.Within(who, now);
      if |recent| >= missesPerWindow {
        return false;
      }
      yes := Call(who, now);
    }

    /** A call of a key with no misses against it. */
    method Call(who: string, now: real) returns (yes: bool)
      requires Valid() && Before(now)
      modifies pings
      ensures Valid() && Before(now)
      ensures var calls := Since(|old(pings.times)| > MAX_ADDRESSES, old(pings.log));
              && (yes <==> CountIn(Of(calls, who), now - MINUTE, now) < perMinute)
              && pings.log == if yes then Noted(calls, who, now) else calls
    {
      var times := pings.Within(who, now);
      if |times| >= perMinute {
        return false;
      }
      BookInOrder(pings.times, pings.log, MINUTE, now, who);
      StaysSpaced(pings.log, perMinute, who, now);
      pings.Append(who, now);
      yes := true;
    }

    /** A wrong credential from a key: one more miss of that key's, and nothing else. */
    method Miss(who: string, now: real)
      requires Valid() && Before(now)
      modifies misses
      ensures Valid() && Before(now)
      ensures misses.log == Noted(Since(|old(misses.times)| > MAX_ADDRESSES, old(misses.log)), who, now)
    {
      var recent := misses.Within(who, now);
      misses.Append(who, now);
    }

    /** ... counted over any minute at all, from whatever instant. */
    lemma {:induction false} NoMinuteHoldsMore(who: string, a: real)
      requires Valid()
      ensures CountIn(Of(pings.log, who), a, a + MINUTE) <= Max(perMinute, 0)
    {
      LimitedFor(pings.times, pings.log, pings.clock, perMinute, who, a);
    }
  }
}
