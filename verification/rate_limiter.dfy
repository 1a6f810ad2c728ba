/** The sliding-window rate limiter of the panel (src/admin/helpers.py). */
module RateLimiter {

  /** The hits less than `window` seconds old. */
  function Recent(times: seq<real>, now: real, window: int): (r: seq<real>)
    ensures |r| <= |times|
    ensures forall t :: t in r <==> t in times && now - t < window as real
  {
    if times == [] then []
    else
      var n := |times| - 1;
      assert forall t :: t in times <==> t in times[..n] || t == times[n];
      Recent(times[..n], now, window) + if now - times[n] < window as real then [times[n]] else []
  }

  /** One call of `hit`; `disabled` is the switch that lets everything through. */
  datatype Call = Call(key: string, limit: int, window: int, now: real, disabled: bool)

  function ListOf(hits: map<string, seq<real>>, key: string): seq<real> {
    if key in hits then hits[key] else []
  }

  predicate Admits(hits: map<string, seq<real>>, h: Call) {
    h.disabled || |Recent(ListOf(hits, h.key), h.now, h.window)| < h.limit
  }

  function Next(hits: map<string, seq<real>>, h: Call): map<string, seq<real>> {
    if h.disabled then hits
    else
      var kept := Recent(ListOf(hits, h.key), h.now, h.window);
      hits[h.key := if Admits(hits, h) then kept + [h.now] else kept]
  }

  class SimpleRateLimiter {
    var hits: map<string, seq<real>>

    constructor ()
      ensures hits == map[]
    {
      hits := map[];
    }

    method Hit(key: string, limit: int, window: int, now: real, disabled: bool) returns (ok: bool)
      modifies this
      ensures var h := Call(key, limit, window, now, disabled);
              ok == Admits(old(hits), h) && hits == Next(old(hits), h)
    {
      if disabled { return true; }
      if key !in hits {
        hits := hits[key := []];
      }
      hits := hits[key := Recent(hits[key], now, window)];
      if |hits[key]| >= limit { return false; }
      hits := hits[key := hits[key] + [now]];
      return true;
    }
  }

  // ---- whole runs ----

  function After(run: seq<Call>): map<string, seq<real>> {
    if run == [] then map[] else Next(After(run[..|run| - 1]), run[|run| - 1])
  }

  /** Everything ever admitted under the key, nothing pruned. */
  function Accepted(run: seq<Call>, key: string): (r: seq<real>) {
    if run == [] then []
    else
      var n := |run| - 1;
      var h := run[n];
      Accepted(run[..n], key)
      + if h.key == key && !h.disabled && Admits(After(run[..n]), h) then [h.now] else []
  }

  /** The clock is monotonic. */
  predicate Monotonic(run: seq<Call>) {
    forall a, b | 0 <= a < b < |run| :: run[a].now <= run[b].now
  }

  /** The key is always used with the same limit and window. */
  predicate OnePolicy(run: seq<Call>, key: string, limit: int, window: int) {
    forall h | h in run && h.key == key :: h.limit == limit && h.window == window
  }

  /** The accepted hits of the half-open interval [a, b). */
  function CountIn(times: seq<real>, a: real, b: real): nat {
    if times == [] then 0
    else
      var t := times[|times| - 1];
      CountIn(times[..|times| - 1], a, b) + if a <= t < b then 1 else 0
  }

  lemma {:induction false} RecentSnoc(times: seq<real>, t: real, now: real, window: int)
    ensures Recent(times + [t], now, window)
         == Recent(times, now, window) + if now - t < window as real then [t] else []
  {
    assert (times + [t])[..|times|] == times;
  }

  /** What has left the window never comes back: pruning early loses nothing. */
  lemma {:induction false} PruningIsSilent(times: seq<real>, early: real, late: real, window: int)
    requires early <= late
    ensures Recent(Recent(times, early, window), late, window) == Recent(times, late, window)
  {
    if times != [] {
      var n := |times| - 1;
      PruningIsSilent(times[..n], early, late, window);
      if early - times[n] < window as real {
        RecentSnoc(Recent(times[..n], early, window), times[n], late, window);
      } else {
        assert Recent(times, early, window) == Recent(times[..n], early, window);
        assert Recent(times, late, window) == Recent(times[..n], late, window);
      }
    }
  }

  lemma {:induction false} RecentShrinks(times: seq<real>, early: real, late: real, window: int)
    requires early <= late
    ensures |Recent(times, late, window)| <= |Recent(times, early, window)|
  {
    PruningIsSilent(times, early, late, window);
  }

  /** Hits since `a`, none later than `t`, with `t` still in the window that starts at `a`. */
  lemma {:induction false} WindowIsRecent(times: seq<real>, a: real, t: real, window: int)
    requires forall x <- times :: x <= t
    requires a <= t < a + window as real
    ensures CountIn(times, a, a + window as real) <= |Recent(times, t, window)|
  {
    if times != [] {
      var earlier := times[..|times| - 1];
      assert times[|times| - 1] in times;
      forall x | x in earlier
        ensures x <= t
      {
        assert x in times;
      }
      WindowIsRecent(earlier, a, t, window);
    }
  }

  lemma PrefixRun(run: seq<Call>, key: string, limit: int, window: int)
    requires run != [] && Monotonic(run) && OnePolicy(run, key, limit, window)
    ensures Monotonic(run[..|run| - 1]) && OnePolicy(run[..|run| - 1], key, limit, window)
    ensures run[|run| - 1].key == key ==> run[|run| - 1].limit == limit && run[|run| - 1].window == window
    ensures forall h <- run[..|run| - 1] :: h.now <= run[|run| - 1].now
  {
    assert run[|run| - 1] in run;
  }

  /** No accepted hit is later than the clock. */
  lemma {:induction false} AcceptedIsPast(run: seq<Call>, key: string, now: real)
    requires forall h <- run :: h.now <= now
    ensures forall t <- Accepted(run, key) :: t <= now
  {
    if run != [] {
      assert run[|run| - 1] in run;
      AcceptedIsPast(run[..|run| - 1], key, now);
    }
  }

  /** From the last hit on, the pruned list answers as the full history would. */
  lemma {:induction false} PrunedListSuffices(run: seq<Call>, key: string, limit: int, window: int, now: real)
    requires Monotonic(run) && OnePolicy(run, key, limit, window)
    requires forall h <- run :: h.now <= now
    ensures Recent(ListOf(After(run), key), now, window) == Recent(Accepted(run, key), now, window)
  {
    hide Recent;
    if run == [] {
      assert ListOf(After(run), key) == Accepted(run, key) == [];
    } else {
      var n := |run| - 1;
      var h := run[n];
      assert h in run;
      PrefixRun(run, key, limit, window);
      PrunedListSuffices(run[..n], key, limit, window, now);
      if h.key == key && !h.disabled {
        var was := ListOf(After(run[..n]), key);
        PruningIsSilent(was, h.now, now, window);
        if Admits(After(run[..n]), h) {
          RecentSnoc(Recent(was, h.now, window), h.now, now, window);
          RecentSnoc(Accepted(run[..n], key), h.now, now, window);
        } else {
          assert Accepted(run, key) == Accepted(run[..n], key);
        }
      } else {
        assert Accepted(run, key) == Accepted(run[..n], key);
      }
    }
  }

  /** The next hit on the key, judged by the full history. */
  lemma JudgedByHistory(run: seq<Call>, h: Call, limit: int, window: int)
    requires Monotonic(run + [h]) && OnePolicy(run + [h], h.key, limit, window) && !h.disabled
    ensures Admits(After(run), h) <==> |Recent(Accepted(run, h.key), h.now, window)| < limit
  {
    var all := run + [h];
    PrefixRun(all, h.key, limit, window);
    assert all[..|run|] == run && all[|run|] == h;
    PrunedListSuffices(run, h.key, limit, window, h.now);
  }

  function AtLeastZero(limit: int): nat {
    if limit < 0 then 0 else limit
  }

  /** Never more than `limit` accepted hits are still in force. */
  lemma {:induction false} InForceBounded(run: seq<Call>, key: string, limit: int, window: int, now: real)
    requires Monotonic(run) && OnePolicy(run, key, limit, window)
    requires forall h <- run :: h.now <= now
    ensures |Recent(Accepted(run, key), now, window)| <= AtLeastZero(limit)
  {
    hide Recent, Admits;
    if run == [] {
      assert Accepted(run, key) == [];
    } else {
      var n := |run| - 1;
      var h := run[n];
      assert h in run;
      PrefixRun(run, key, limit, window);
      if h.key == key && !h.disabled && Admits(After(run[..n]), h) {
        assert run[..n] + [h] == run;
        JudgedByHistory(run[..n], h, limit, window);
        RecentShrinks(Accepted(run[..n], key), h.now, now, window);
        RecentSnoc(Accepted(run[..n], key), h.now, now, window);
      } else {
        InForceBounded(run[..n], key, limit, window, now);
        assert Accepted(run, key) == Accepted(run[..n], key);
      }
    }
  }

  /** A hit is refused exactly when as many hits as the limit allows lie within the last window. */
  lemma RefusedOnlyWhenFull(run: seq<Call>, h: Call, limit: int, window: int)
    requires Monotonic(run + [h]) && OnePolicy(run + [h], h.key, limit, window) && !h.disabled
    ensures !Admits(After(run), h) <==> |Recent(Accepted(run, h.key), h.now, window)| == AtLeastZero(limit)
  {
    var all := run + [h];
    PrefixRun(all, h.key, limit, window);
    assert all[..|run|] == run && all[|run|] == h;
    JudgedByHistory(run, h, limit, window);
    InForceBounded(run, h.key, limit, window, h.now);
  }

  /** Over the whole run, no interval [a, a + window) holds more than `limit` accepted hits. */
  lemma {:induction false} AcceptedNeverOverfull(run: seq<Call>, key: string, limit: int, window: int, a: real)
    requires Monotonic(run) && OnePolicy(run, key, limit, window)
    ensures CountIn(Accepted(run, key), a, a + window as real) <= AtLeastZero(limit)
  {
    hide Recent, Admits;
    if run == [] {
      assert Accepted(run, key) == [];
    } else {
      var n := |run| - 1;
      var h := run[n];
      var before := Accepted(run[..n], key);
      PrefixRun(run, key, limit, window);
      AcceptedNeverOverfull(run[..n], key, limit, window, a);
      if h.key == key && !h.disabled && Admits(After(run[..n]), h) {
        assert run[..n] + [h] == run;
        assert (before + [h.now])[..|before|] == before;
        if a <= h.now < a + window as real {
          JudgedByHistory(run[..n], h, limit, window);
          AcceptedIsPast(run[..n], key, h.now);
          WindowIsRecent(before, a, h.now, window);
        }
      } else {
        assert Accepted(run, key) == before;
      }
    }
  }

  // ---- with the limits switched off for a while ----

  /** Everything under the key that was answered with yes. */
  function LetThrough(run: seq<Call>, key: string): seq<real> {
    if run == [] then []
    else
      var n := |run| - 1;
      LetThrough(run[..n], key)
      + if run[n].key == key && Admits(After(run[..n]), run[n]) then [run[n].now] else []
  }

  /** What came while the limits were switched off. */
  function Waved(run: seq<Call>, key: string): seq<real> {
    if run == [] then []
    else
      var n := |run| - 1;
      Waved(run[..n], key) + if run[n].key == key && run[n].disabled then [run[n].now] else []
  }

  lemma CountSnoc(times: seq<real>, t: real, a: real, b: real)
    ensures CountIn(times + [t], a, b) == CountIn(times, a, b) + if a <= t < b then 1 else 0
  {
    assert (times + [t])[..|times|] == times;
  }

  lemma {:induction false} LetThroughCount(run: seq<Call>, key: string, a: real, b: real)
    ensures CountIn(LetThrough(run, key), a, b)
         == CountIn(Accepted(run, key), a, b) + CountIn(Waved(run, key), a, b)
  {
    hide CountIn, After;
    if run == [] {
      NoneIn(a, b);
    } else {
      var n := |run| - 1;
      var t := run[n].now;
      LetThroughCount(run[..n], key, a, b);
      CountSnoc(LetThrough(run[..n], key), t, a, b);
      CountSnoc(Accepted(run[..n], key), t, a, b);
      CountSnoc(Waved(run[..n], key), t, a, b);
      NothingAdded(LetThrough(run[..n], key));
      NothingAdded(Accepted(run[..n], key));
      NothingAdded(Waved(run[..n], key));
    }
  }

  lemma NothingAdded(times: seq<real>)
    ensures times + [] == times
  {
  }

  lemma NoneIn(a: real, b: real)
    ensures CountIn([], a, b) == 0
  {
  }

  /** Over the whole run, no interval [a, a + window) holds more hits let through
      than the limit and those that came in it while the limits were switched off. */
  lemma WindowNeverOverfull(run: seq<Call>, key: string, limit: int, window: int, a: real)
    requires Monotonic(run) && OnePolicy(run, key, limit, window)
    ensures CountIn(Accepted(run, key), a, a + window as real) <= AtLeastZero(limit)
    ensures CountIn(LetThrough(run, key), a, a + window as real)
         <= AtLeastZero(limit) + CountIn(Waved(run, key), a, a + window as real)
  {
    AcceptedNeverOverfull(run, key, limit, window, a);
    LetThroughCount(run, key, a, a + window as real);
  }
}
