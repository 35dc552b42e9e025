/**
 * `RateLimitGuard`: a sliding-window limiter over a Redis sorted set per key.
 * The Lua script prunes the member scores that fell out of the window,
 * denies when `limit` remain, and otherwise adds one member scored `now` and
 * renews the key's expiry. `canActivate` builds the key from the route, the
 * user and the client address, runs the script, writes the rate-limit
 * headers and throws 429 on denial.
 *
 * The store is a map from key to the key's scores (in insertion order; only
 * which scores and how many matter) and its expiry time, when one is set.
 * Times are milliseconds; the clock is a parameter.
 */
module RateLimitGuard {
  import opened Wrappers
  import opened Text

  /** One sorted set: the scores of its members and its absolute expiry time, if any. */
  datatype Window = Window(scores: seq<int>, expireAt: Option<int>)

  type Store = map<string, Window>

  /** `{allowed, count, ttl}` as the script returns it. */
  datatype Reply = Reply(allowed: bool, count: nat, ttl: int)

  /** The scores outside `[lo, hi]`: what `ZREMRANGEBYSCORE key lo hi` keeps. */
  function Pruned(scores: seq<int>, lo: int, hi: int): (r: seq<int>)
    ensures |r| <= |scores|
  {
    if scores == [] then []
    else
      var x := scores[|scores| - 1];
      assert scores == scores[..|scores| - 1] + [x];
      Pruned(scores[..|scores| - 1], lo, hi) + (if lo <= x <= hi then [] else [x])
  }

  /** A key whose expiry time has come is gone before any command sees it. */
  function Unexpired(store: Store, key: string, now: int): Store {
    if key in store && store[key].expireAt.Some? && store[key].expireAt.value <= now then store - {key} else store
  }

  /** `ZREMRANGEBYSCORE key lo hi`; a sorted set left empty is deleted. */
  function RangeRemoved(store: Store, key: string, lo: int, hi: int): Store {
    if key !in store then store
    else
      var kept := Pruned(store[key].scores, lo, hi);
      if kept == [] then store - {key} else store[key := store[key].(scores := kept)]
  }

  /** `ZCARD key`. */
  function Card(store: Store, key: string): nat {
    if key in store then |store[key].scores| else 0
  }

  /** `PTTL key`: -2 for a missing key, -1 for a key without expiry, else the milliseconds left. */
  function Pttl(store: Store, key: string, now: int): int {
    if key !in store then -2
    else if store[key].expireAt.None? then -1
    else store[key].expireAt.value - now
  }

  /** `ZADD key score member` with a fresh member; a new key has no expiry. */
  function Added(store: Store, key: string, score: int): Store {
    if key in store then store[key := store[key].(scores := store[key].scores + [score])]
    else store[key := Window([score], None)]
  }

  /** `PEXPIRE key ms`: a key given a non-positive timeout is deleted. */
  function Expiring(store: Store, key: string, ms: int, now: int): Store {
    if key !in store then store
    else if ms <= 0 then store - {key}
    else store[key := store[key].(expireAt := Some(now + ms))]
  }

  /** The scores of `key` still inside the window ending at `now`: what the script counts. */
  function KeptAt(store: Store, key: string, now: int, window: int): (r: seq<int>) {
    var live := Unexpired(store, key, now);
    if key in live then Pruned(live[key].scores, 0, now - window) else []
  }

  /**
   * The script, run atomically at time `now`. It is allowed exactly when
   * fewer than `limit` scores are inside the window; the count it returns
   * includes the new member; only `key` changes.
   */
  function Script(store: Store, key: string, now: int, window: int, limit: int): (r: (Reply, Store))
    ensures r.0.allowed <==> |KeptAt(store, key, now, window)| < limit
    ensures r.0.count == |KeptAt(store, key, now, window)| + (if r.0.allowed then 1 else 0)
    ensures r.0.allowed ==> r.0.count <= limit
    ensures r.0.allowed && window > 0 ==>
      key in r.1 && r.1[key] == Window(KeptAt(store, key, now, window) + [now], Some(now + window)) && r.0.ttl == window
    ensures !r.0.allowed ==> Card(r.1, key) == |KeptAt(store, key, now, window)|
  {
    var s0 := Unexpired(store, key, now);
    var s1 := RangeRemoved(s0, key, 0, now - window);
    var count := Card(s1, key);
    if count >= limit then
      var ttl := Pttl(s1, key, now);
      (Reply(false, count, if ttl < 0 then window else ttl), s1)
    else
      var s2 := Expiring(Added(s1, key, now), key, window, now);
      var ttl := Pttl(s2, key, now);
      (Reply(true, count + 1, if ttl < 0 then window else ttl), s2)
  }

  /** The script touches no key but its own. */
  lemma ScriptOtherKeys(store: Store, key: string, now: int, window: int, limit: int, k: string)
    requires k != key
    ensures var s := Script(store, key, now, window, limit).1;
              (k in s <==> k in store) && (k in s ==> s[k] == store[k])
  {
  }

  /** `ZREMRANGEBYSCORE` keeps exactly the scores outside the range, in order. */
  lemma {:induction false} PrunedMembers(scores: seq<int>, lo: int, hi: int)
    ensures forall x :: x in Pruned(scores, lo, hi) <==> x in scores && !(lo <= x <= hi)
  {
    if scores != [] {
      var front := scores[..|scores| - 1];
      PrunedMembers(front, lo, hi);
      assert scores == front + [scores[|scores| - 1]];
    }
  }

  /** Pruning at a later cut-off after an earlier one is pruning at the later one. */
  lemma {:induction false} PrunedTwice(scores: seq<int>, h1: int, h2: int)
    requires h1 <= h2
    ensures Pruned(Pruned(scores, 0, h1), 0, h2) == Pruned(scores, 0, h2)
  {
    if scores != [] {
      var front := scores[..|scores| - 1];
      var x := scores[|scores| - 1];
      PrunedTwice(front, h1, h2);
      var p := Pruned(front, 0, h1);
      if 0 <= x <= h1 {
        assert Pruned(scores, 0, h1) == p;
      } else {
        assert Pruned(scores, 0, h1) == p + [x];
        assert (p + [x])[..|p|] == p;
      }
    }
  }

  /** Expiring and pruning at `now` changes nothing the window shows from `now` on. */
  lemma PruneInvisible(store: Store, key: string, now: int, window: int, t: int)
    requires t >= now
    ensures KeptAt(RangeRemoved(Unexpired(store, key, now), key, 0, now - window), key, t, window) == KeptAt(store, key, t, window)
  {
    var s0 := Unexpired(store, key, now);
    var s1 := RangeRemoved(s0, key, 0, now - window);
    if key in s0 {
      var w := s0[key];
      assert w == store[key];
      var kept := Pruned(w.scores, 0, now - window);
      PrunedTwice(w.scores, now - window, t - window);
      if kept == [] {
        assert key !in s1;
        assert Unexpired(s1, key, t) == s1;
      } else {
        assert s1[key] == w.(scores := kept);
      }
    } else {
      assert key !in s1 && Unexpired(s1, key, t) == s1;
      assert key in store ==> store[key].expireAt.Some? && store[key].expireAt.value <= t;
    }
  }

  /** A denied call leaves the window of `key` as it was, at every later time. */
  lemma ScriptDenied(store: Store, key: string, now: int, window: int, limit: int)
    requires !Script(store, key, now, window, limit).0.allowed
    ensures forall t :: t >= now ==> KeptAt(Script(store, key, now, window, limit).1, key, t, window) == KeptAt(store, key, t, window)
  {
    var s := Script(store, key, now, window, limit).1;
    assert s == RangeRemoved(Unexpired(store, key, now), key, 0, now - window);
    forall t | t >= now ensures KeptAt(s, key, t, window) == KeptAt(store, key, t, window) {
      PruneInvisible(store, key, now, window, t);
    }
  }

  /**
   * An allowed call leaves in the window of `key`, at every later time
   * before the new expiry, what was inside it at `now` and is still recent,
   * followed by the new member; from the expiry on the key is gone.
   */
  lemma ScriptAllowed(store: Store, key: string, now: int, window: int, limit: int)
    requires window > 0 && Script(store, key, now, window, limit).0.allowed
    ensures forall t :: t >= now ==>
      (KeptAt(Script(store, key, now, window, limit).1, key, t, window) ==
       if t < now + window then Pruned(KeptAt(store, key, now, window), 0, t - window) + [now] else [])
  {
    forall t | t >= now
      ensures KeptAt(Script(store, key, now, window, limit).1, key, t, window) ==
              if t < now + window then Pruned(KeptAt(store, key, now, window), 0, t - window) + [now] else []
    {
      AllowedAt(store, key, now, window, limit, t);
    }
  }

  lemma AllowedAt(store: Store, key: string, now: int, window: int, limit: int, t: int)
    requires window > 0 && Script(store, key, now, window, limit).0.allowed && t >= now
    ensures KeptAt(Script(store, key, now, window, limit).1, key, t, window) ==
            if t < now + window then Pruned(KeptAt(store, key, now, window), 0, t - window) + [now] else []
  {
    if t < now + window {
      var kept := KeptAt(store, key, now, window);
      assert (kept + [now])[..|kept|] == kept;
    }
  }

  /** The scores above `cut`: the calls after it. */
  function Above(a: seq<int>, cut: int): (r: seq<int>)
    ensures |r| <= |a|
  {
    if a == [] then []
    else
      var x := a[|a| - 1];
      assert a == a[..|a| - 1] + [x];
      Above(a[..|a| - 1], cut) + (if x > cut then [x] else [])
  }

  lemma {:induction false} PrunedNonNegative(a: seq<int>, cut: int, h: int)
    requires forall i :: 0 <= i < |a| ==> a[i] >= 0
    requires cut <= h
    ensures Pruned(Above(a, cut), 0, h) == Above(a, h)
  {
    if a != [] {
      var front := a[..|a| - 1];
      var x := a[|a| - 1];
      PrunedNonNegative(front, cut, h);
      var p := Above(front, cut);
      if x > cut {
        assert Above(a, cut) == p + [x];
        assert (p + [x])[..|p|] == p;
        assert Pruned(p + [x], 0, h) == Pruned(p, 0, h) + (if x <= h then [] else [x]);
      } else {
        assert Above(a, cut) == p;
      }
    }
  }

  /** `n` calls at the given times against `key`, in order: the allowed flags and the store afterwards. */
  function Run(store: Store, key: string, times: seq<int>, window: int, limit: int): (r: (seq<bool>, Store))
    ensures |r.0| == |times|
  {
    if times == [] then ([], store)
    else
      var p := Run(store, key, times[..|times| - 1], window, limit);
      var step := Script(p.1, key, times[|times| - 1], window, limit);
      (p.0 + [step.0.allowed], step.1)
  }

  /** The times of the calls that were allowed. */
  function AllowedTimes(times: seq<int>, flags: seq<bool>): (a: seq<int>)
    requires |flags| == |times|
  {
    if times == [] then []
    else
      var n := |times| - 1;
      AllowedTimes(times[..n], flags[..n]) + (if flags[n] then [times[n]] else [])
  }

  predicate Ordered(times: seq<int>) {
    forall i, j :: 0 <= i < j < |times| ==> times[i] <= times[j]
  }

  /**
   * After a run on a key that started absent, with the clock never going
   * back, the window of the key at any time from the last call on holds
   * exactly the allowed calls of that window.
   */
  lemma AboveSnoc(a: seq<int>, x: int, cut: int)
    ensures Above(a + [x], cut) == Above(a, cut) + (if x > cut then [x] else [])
  {
    assert (a + [x])[..|a|] == a;
  }

  lemma {:induction false} AboveNone(a: seq<int>, cut: int)
    requires forall i :: 0 <= i < |a| ==> a[i] <= cut
    ensures Above(a, cut) == []
  {
    if a != [] {
      AboveNone(a[..|a| - 1], cut);
    }
  }

  /**
   * One call at `now` against a window that matches the allowed times `a`
   * (none later than `now`) at `now`, and at `t` as well: the window matches
   * the allowed times with this call's at `t`.
   */
  lemma StepWindow(store: Store, key: string, a: seq<int>, now: int, window: int, limit: int, t: int)
    requires window >= 1 && t >= now
    requires forall i :: 0 <= i < |a| ==> 0 <= a[i] <= now
    requires KeptAt(store, key, now, window) == Above(a, now - window)
    requires KeptAt(store, key, t, window) == Above(a, t - window)
    ensures Script(store, key, now, window, limit).0.allowed ==>
      KeptAt(Script(store, key, now, window, limit).1, key, t, window) == Above(a + [now], t - window)
    ensures !Script(store, key, now, window, limit).0.allowed ==>
      KeptAt(Script(store, key, now, window, limit).1, key, t, window) == Above(a, t - window)
  {
    var step := Script(store, key, now, window, limit);
    if step.0.allowed {
      AllowedAt(store, key, now, window, limit, t);
      AllowedWindow(KeptAt(store, key, now, window), KeptAt(step.1, key, t, window), a, now, window, t);
    } else {
      PruneInvisible(store, key, now, window, t);
    }
  }

  /** The sequence half of `StepWindow` for an allowed call. */
  lemma AllowedWindow(kept: seq<int>, k: seq<int>, a: seq<int>, now: int, window: int, t: int)
    requires window >= 1 && t >= now
    requires forall i :: 0 <= i < |a| ==> 0 <= a[i] <= now
    requires kept == Above(a, now - window)
    requires k == if t < now + window then Pruned(kept, 0, t - window) + [now] else []
    ensures k == Above(a + [now], t - window)
  {
    if t < now + window {
      calc {
        k;
        Pruned(kept, 0, t - window) + [now];
        { PrunedNonNegative(a, now - window, t - window); }
        Above(a, t - window) + [now];
        { AboveSnoc(a, now, t - window); }
        Above(a + [now], t - window);
      }
    } else {
      calc {
        Above(a + [now], t - window);
        { AboveSnoc(a, now, t - window); }
        Above(a, t - window);
        { AboveNone(a, t - window); }
        [];
      }
    }
  }

  lemma {:induction false} RunWindow(store: Store, key: string, times: seq<int>, window: int, limit: int, t: int)
    requires window >= 1 && key !in store
    requires Ordered(times) && forall i :: 0 <= i < |times| ==> times[i] >= 0
    requires times == [] || t >= times[|times| - 1]
    ensures KeptAt(Run(store, key, times, window, limit).1, key, t, window)
         == Above(AllowedTimes(times, Run(store, key, times, window, limit).0), t - window)
  {
    if times == [] {
      assert Unexpired(store, key, t) == store;
    } else {
      var n := |times| - 1;
      var now := times[n];
      var front := times[..n];
      assert Ordered(front) && forall i :: 0 <= i < |front| ==> front[i] >= 0;
      assert front != [] ==> front[|front| - 1] <= now;
      RunWindow(store, key, front, window, limit, now);
      RunWindow(store, key, front, window, limit, t);
      var p := Run(store, key, front, window, limit);
      var a := AllowedTimes(front, p.0);
      AllowedBounded(front, p.0, now);
      StepWindow(p.1, key, a, now, window, limit, t);
      var r := Run(store, key, times, window, limit);
      var step := Script(p.1, key, now, window, limit);
      assert r == (p.0 + [step.0.allowed], step.1);
      assert r.0[..n] == p.0 && r.0[n] == step.0.allowed;
      if step.0.allowed {
        assert AllowedTimes(times, r.0) == a + [now];
      } else {
        assert AllowedTimes(times, r.0) == a + [];
        assert a + [] == a;
      }
    }
  }

  lemma {:induction false} AllowedBounded(times: seq<int>, flags: seq<bool>, bound: int)
    requires |flags| == |times|
    requires forall i :: 0 <= i < |times| ==> 0 <= times[i] <= bound
    ensures forall i :: 0 <= i < |AllowedTimes(times, flags)| ==> 0 <= AllowedTimes(times, flags)[i] <= bound
  {
    if times != [] {
      var n := |times| - 1;
      assert forall i :: 0 <= i < n ==> times[..n][i] == times[i];
      AllowedBounded(times[..n], flags[..n], bound);
      var a := AllowedTimes(times, flags);
      var a' := AllowedTimes(times[..n], flags[..n]);
      assert a == a' + (if flags[n] then [times[n]] else []);
      forall i | 0 <= i < |a| ensures 0 <= a[i] <= bound {
        if i < |a'| {
          assert a[i] == a'[i];
        } else {
          assert a[i] == times[n];
        }
      }
    }
  }

  /** A call at `now` after a run is allowed exactly when fewer than `limit` allowed calls lie inside its window. */
  lemma NextDecision(store: Store, key: string, front: seq<int>, now: int, window: int, limit: int)
    requires window >= 1 && key !in store
    requires Ordered(front) && forall i :: 0 <= i < |front| ==> front[i] >= 0
    requires front == [] || now >= front[|front| - 1]
    ensures var p := Run(store, key, front, window, limit);
      Script(p.1, key, now, window, limit).0.allowed <==> |Above(AllowedTimes(front, p.0), now - window)| < limit
  {
    RunWindow(store, key, front, window, limit, now);
  }

  /** Unfolding `Run` at its last call. */
  lemma RunSnoc(store: Store, key: string, front: seq<int>, now: int, window: int, limit: int)
    ensures var p := Run(store, key, front, window, limit);
      Run(store, key, front + [now], window, limit).0 == p.0 + [Script(p.1, key, now, window, limit).0.allowed]
  {
    assert (front + [now])[..|front|] == front;
  }

  /** The flags of a run with one more call: that call is decided by the allowed calls inside its window. */
  lemma NextFlag(store: Store, key: string, front: seq<int>, now: int, window: int, limit: int)
    requires window >= 1 && key !in store
    requires Ordered(front) && forall i :: 0 <= i < |front| ==> front[i] >= 0
    requires front == [] || now >= front[|front| - 1]
    ensures var f := Run(store, key, front, window, limit).0;
      Run(store, key, front + [now], window, limit).0 == f + [|Above(AllowedTimes(front, f), now - window)| < limit]
  {
    RunSnoc(store, key, front, now, window, limit);
    NextDecision(store, key, front, now, window, limit);
  }

  lemma LastAllowed(times: seq<int>, flags: seq<bool>)
    requires |flags| == |times| > 0
    ensures var n := |times| - 1;
              AllowedTimes(times, flags) == AllowedTimes(times[..n], flags[..n]) + (if flags[n] then [times[n]] else [])
  {
  }

  /**
   * The sliding-window rule, stated on its own: each call is allowed
   * exactly when fewer than `limit` of the calls allowed before it fall
   * inside its window.
   */
  function Reference(times: seq<int>, window: int, limit: int): (flags: seq<bool>)
    ensures |flags| == |times|
  {
    if times == [] then []
    else
      var n := |times| - 1;
      var before := Reference(times[..n], window, limit);
      before + [|Above(AllowedTimes(times[..n], before), times[n] - window)| < limit]
  }

  /** `Reference` with one more call. */
  lemma ReferenceSnoc(front: seq<int>, now: int, window: int, limit: int)
    ensures var f := Reference(front, window, limit);
      Reference(front + [now], window, limit) == f + [|Above(AllowedTimes(front, f), now - window)| < limit]
  {
    assert (front + [now])[..|front|] == front;
  }

  /** The script decides every call as the reference rule does. */
  lemma {:induction false} RunIsReference(store: Store, key: string, times: seq<int>, window: int, limit: int)
    requires window >= 1 && key !in store
    requires Ordered(times) && forall i :: 0 <= i < |times| ==> times[i] >= 0
    ensures Run(store, key, times, window, limit).0 == Reference(times, window, limit)
  {
    if times != [] {
      var n := |times| - 1;
      var front, now := times[..n], times[n];
      assert times == front + [now];
      assert Ordered(front) && forall i :: 0 <= i < |front| ==> front[i] >= 0;
      assert front == [] || now >= front[|front| - 1];
      RunIsReference(store, key, front, window, limit);
      ReferenceStep(store, key, front, now, window, limit);
    }
  }

  /** A run that follows the reference rule goes on following it for one more call. */
  lemma ReferenceStep(store: Store, key: string, front: seq<int>, now: int, window: int, limit: int)
    requires window >= 1 && key !in store
    requires Ordered(front) && forall i :: 0 <= i < |front| ==> front[i] >= 0
    requires front == [] || now >= front[|front| - 1]
    requires Run(store, key, front, window, limit).0 == Reference(front, window, limit)
    ensures Run(store, key, front + [now], window, limit).0 == Reference(front + [now], window, limit)
  {
    NextFlag(store, key, front, now, window, limit);
    ReferenceSnoc(front, now, window, limit);
  }

  /** Under the reference rule no window ending at a call holds more than `limit` allowed calls. */
  lemma {:induction false} ReferenceBound(times: seq<int>, window: int, limit: int)
    requires |times| > 0 && window >= 1 && limit >= 1 && Ordered(times)
    ensures |Above(AllowedTimes(times, Reference(times, window, limit)), times[|times| - 1] - window)| <= limit
  {
    var n := |times| - 1;
    var front := times[..n];
    var f := Reference(front, window, limit);
    var flags := Reference(times, window, limit);
    var before := AllowedTimes(front, f);
    assert flags[..n] == f;
    LastAllowed(times, flags);
    if flags[n] {
      AboveSnoc(before, times[n], times[n] - window);
    } else {
      assert before + [] == before;
      if front != [] {
        assert Ordered(front);
        ReferenceBound(front, window, limit);
        AboveMonotone(before, front[n - 1] - window, times[n] - window);
      }
    }
  }

  /**
   * The sliding-window guarantee for calls on one key that started absent,
   * with the clock never going back: the calls are decided by the reference
   * rule, and the window ending at the last call holds at most `limit`
   * allowed calls.
   */
  lemma SlidingWindow(store: Store, key: string, times: seq<int>, window: int, limit: int)
    requires window >= 1 && limit >= 1 && key !in store && |times| > 0
    requires Ordered(times) && forall i :: 0 <= i < |times| ==> times[i] >= 0
    ensures Run(store, key, times, window, limit).0 == Reference(times, window, limit)
    ensures |Above(AllowedTimes(times, Run(store, key, times, window, limit).0), times[|times| - 1] - window)| <= limit
  {
    RunIsReference(store, key, times, window, limit);
    ReferenceBound(times, window, limit);
  }

  /** A later cut-off keeps no more. */
  lemma {:induction false} AboveMonotone(a: seq<int>, c1: int, c2: int)
    requires c1 <= c2
    ensures |Above(a, c2)| <= |Above(a, c1)|
  {
    if a != [] {
      AboveMonotone(a[..|a| - 1], c1, c2);
    }
  }

  /** A Redis instance holding the windows. */
  class WindowStore {
    var entries: Store

    constructor()
      ensures entries == map[]
    {
      entries := map[];
    }

    /** Lazy expiry on access. */
    method ExpireIfDue(key: string, now: int)
      modifies this
      ensures entries == Unexpired(old(entries), key, now)
    {
      if key in entries && entries[key].expireAt.Some? && entries[key].expireAt.value <= now {
        entries := entries - {key};
      }
    }

    /** `ZREMRANGEBYSCORE`; returns how many members it removed. */
    method ZRemRangeByScore(key: string, lo: int, hi: int) returns (removed: nat)
      modifies this
      ensures entries == RangeRemoved(old(entries), key, lo, hi)
      ensures removed == Card(old(entries), key) - Card(entries, key)
    {
      if key !in entries {
        return 0;
      }
      var scores := entries[key].scores;
      var kept: seq<int> := [];
      var i := 0;
      while i < |scores|
        invariant 0 <= i <= |scores|
        invariant kept == Pruned(scores[..i], lo, hi)
      {
        assert scores[..i + 1][..i] == scores[..i];
        if !(lo <= scores[i] <= hi) {
          kept := kept + [scores[i]];
        }
        i := i + 1;
      }
      assert scores[..i] == scores;
      removed := |scores| - |kept|;
      if kept == [] {
        entries := entries - {key};
      } else {
        entries := entries[key := entries[key].(scores := kept)];
      }
    }

    method ZCard(key: string) returns (n: nat)
      ensures n == Card(entries, key)
    {
      n := if key in entries then |entries[key].scores| else 0;
    }

    method PTtl(key: string, now: int) returns (ms: int)
      ensures ms == Pttl(entries, key, now)
    {
      if key !in entries {
        ms := -2;
      } else if entries[key].expireAt.None? {
        ms := -1;
      } else {
        ms := entries[key].expireAt.value - now;
      }
    }

    method ZAdd(key: string, score: int)
      modifies this
      ensures entries == Added(old(entries), key, score)
    {
      if key in entries {
        entries := entries[key := entries[key].(scores := entries[key].scores + [score])];
      } else {
        entries := entries[key := Window([score], None)];
      }
    }

    method PExpire(key: string, ms: int, now: int)
      modifies this
      ensures entries == Expiring(old(entries), key, ms, now)
    {
      if key in entries {
        if ms <= 0 {
          entries := entries - {key};
        } else {
          entries := entries[key := entries[key].(expireAt := Some(now + ms))];
        }
      }
    }

    /** `EVAL` of the sliding-window script, at the frozen script time `now`. */
    method Eval(key: string, now: int, window: int, limit: int) returns (reply: Reply)
      modifies this
      ensures (reply, entries) == Script(old(entries), key, now, window, limit)
    {
      ExpireIfDue(key, now);
      var _ := ZRemRangeByScore(key, 0, now - window);
      var count := ZCard(key);
      if count >= limit {
        var ttl := PTtl(key, now);
        if ttl < 0 {
          ttl := window;
        }
        return Reply(false, count, ttl);
      }
      ZAdd(key, now);
      PExpire(key, window, now);
      var ttl := PTtl(key, now);
      if ttl < 0 {
        ttl := window;
      }
      reply := Reply(true, count + 1, ttl);
    }
  }

  /** The `@RateLimit` options of a handler or its controller. */
  datatype Options = Options(
    limit: int,
    windowMs: int,
    keyPrefix: Option<string>,
    byUser: Option<bool>,
    byIp: Option<bool>,
    setHeaders: Option<bool>)

  /** What the guard reads from a request; `None` is null or undefined. */
  datatype Request = Request(
    ip: Option<string>,
    forwardedFor: Option<string>,
    remoteAddress: Option<string>,
    userSub: Option<string>)

  /** The controller class and handler method names of the route. */
  datatype Route = Route(controller: string, handler: string)

  datatype Header = Header(name: string, value: string)

  /** What `canActivate` does with the request. */
  datatype Verdict = Allow | Reject(status: int, message: string)

  const TooManyRequests: int := 429
  const ExceededMessage: string := "Rate limit exceeded. Try again later."
  const DefaultPrefix: string := "rl"

  function Max(a: int, b: int): int {
    if a >= b then a else b
  }

  /** `req.ip ?? req.headers['x-forwarded-for'] ?? req.connection?.remoteAddress ?? 'unknown'`. */
  function ClientIp(req: Request): (ip: string)
    ensures req.ip.Some? ==> ip == req.ip.value
    ensures req.ip.None? && req.forwardedFor.Some? ==> ip == req.forwardedFor.value
    ensures req.ip.None? && req.forwardedFor.None? && req.remoteAddress.Some? ==> ip == req.remoteAddress.value
    ensures req.ip.None? && req.forwardedFor.None? && req.remoteAddress.None? ==> ip == "unknown"
  {
    match req.ip
    case Some(a) => a
    case None =>
      match req.forwardedFor
      case Some(f) => f
      case None => if req.remoteAddress.Some? then req.remoteAddress.value else "unknown"
  }

  /** Whether the key names the user: `byUser ?? Boolean(userId)`, and a user id is there. */
  predicate KeyedByUser(opts: Options, req: Request) {
    var hasUser := req.userSub.Some? && req.userSub.value != "";
    (if opts.byUser.Some? then opts.byUser.value else hasUser) && hasUser
  }

  predicate KeyedByIp(opts: Options) {
    if opts.byIp.Some? then opts.byIp.value else true
  }

  /**
   * The key parts: the prefix, `Controller.handler`, then `u:<user>` when
   * keyed by user, then `ip:<ip>` when keyed by address.
   */
  function KeyParts(opts: Options, route: Route, req: Request): (parts: seq<string>)
    ensures 2 <= |parts| <= 4
    ensures parts[0] == (if opts.keyPrefix.Some? then opts.keyPrefix.value else DefaultPrefix)
    ensures parts[1] == route.controller + "." + route.handler
    ensures |parts| == 2 + (if KeyedByUser(opts, req) then 1 else 0) + (if KeyedByIp(opts) then 1 else 0)
    ensures KeyedByUser(opts, req) ==> parts[2] == "u:" + req.userSub.value
    ensures KeyedByIp(opts) ==> parts[|parts| - 1] == "ip:" + ClientIp(req)
  {
    var prefix := if opts.keyPrefix.Some? then opts.keyPrefix.value else DefaultPrefix;
    var base := [prefix, route.controller + "." + route.handler];
    var withUser := if KeyedByUser(opts, req) then base + ["u:" + req.userSub.value] else base;
    var parts := if KeyedByIp(opts) then withUser + ["ip:" + ClientIp(req)] else withUser;
    parts
  }

  lemma JoinCons(a: string, rest: seq<string>, sep: string)
    requires rest != []
    ensures Join([a] + rest, sep) == a + sep + Join(rest, sep)
  {
    assert ([a] + rest)[1..] == rest;
  }

  /** `parts.join(':')`. */
  function RateKey(opts: Options, route: Route, req: Request): string {
    Join(KeyParts(opts, route, req), ":")
  }

  /**
   * Two users on the same route from the same address, keyed by user, are
   * counted in different windows.
   */
  lemma UsersApart(opts: Options, route: Route, req1: Request, req2: Request)
    requires KeyedByUser(opts, req1) && KeyedByUser(opts, req2)
    requires req1.userSub != req2.userSub && ClientIp(req1) == ClientIp(req2)
    ensures RateKey(opts, route, req1) != RateKey(opts, route, req2)
  {
    var p1 := KeyParts(opts, route, req1);
    var p2 := KeyParts(opts, route, req2);
    var head := p1[0] + ":" + p1[1] + ":";
    assert p2[0] == p1[0] && p2[1] == p1[1];
    var u1 := p1[2];
    var u2 := p2[2];
    var tail := if KeyedByIp(opts) then ":" + p1[3] else "";
    assert KeyedByIp(opts) ==> p2[3] == p1[3];
    assert RateKey(opts, route, req1) == head + u1 + tail by {
      if KeyedByIp(opts) {
        assert p1 == [p1[0]] + ([p1[1]] + ([u1] + [p1[3]]));
        JoinCons(u1, [p1[3]], ":");
        JoinCons(p1[1], [u1] + [p1[3]], ":");
        JoinCons(p1[0], [p1[1]] + ([u1] + [p1[3]]), ":");
      } else {
        assert p1 == [p1[0]] + ([p1[1]] + [u1]);
        JoinCons(p1[1], [u1], ":");
        JoinCons(p1[0], [p1[1]] + [u1], ":");
      }
    }
    assert RateKey(opts, route, req2) == head + u2 + tail by {
      if KeyedByIp(opts) {
        assert p2 == [p2[0]] + ([p2[1]] + ([u2] + [p2[3]]));
        JoinCons(u2, [p2[3]], ":");
        JoinCons(p2[1], [u2] + [p2[3]], ":");
        JoinCons(p2[0], [p2[1]] + ([u2] + [p2[3]]), ":");
      } else {
        assert p2 == [p2[0]] + ([p2[1]] + [u2]);
        JoinCons(p2[1], [u2], ":");
        JoinCons(p2[0], [p2[1]] + [u2], ":");
      }
    }
    assert u1 != u2 by {
      assert u1[2..] == req1.userSub.value && u2[2..] == req2.userSub.value;
    }
    if |u1| == |u2| {
      var k1 := head + u1 + tail;
      assert k1[|head|..|head| + |u1|] == u1;
      assert (head + u2 + tail)[|head|..|head| + |u2|] == u2;
    }
  }

  /** `Math.ceil(pttl / 1000)`. */
  function ResetSeconds(pttl: int): (r: int)
    ensures (r - 1) * 1000 < pttl <= r * 1000
  {
    -((-pttl) / 1000)
  }

  /** `Math.floor(now / 1000)`. */
  function EpochSeconds(now: int): (r: int)
    ensures r * 1000 <= now < (r + 1) * 1000
  {
    now / 1000
  }

  predicate HasHeader(headers: seq<Header>, name: string) {
    exists h :: h in headers && h.name == name
  }

  /** The headers the guard sets when `setHeaders` holds, in the order it sets them. */
  function RateHeaders(limit: int, reply: Reply, now: int): (hs: seq<Header>)
    ensures |hs| == if reply.allowed then 3 else 4
    ensures hs[0] == Header("X-RateLimit-Limit", IntToString(limit))
    ensures hs[1] == Header("X-RateLimit-Remaining", IntToString(Max(0, limit - reply.count)))
    ensures hs[2] == Header("X-RateLimit-Reset", IntToString(EpochSeconds(now) + ResetSeconds(reply.ttl)))
    ensures HasHeader(hs, "Retry-After") <==> !reply.allowed
    ensures !reply.allowed ==> hs[3] == Header("Retry-After", IntToString(ResetSeconds(reply.ttl)))
  {
    var base := [
      Header("X-RateLimit-Limit", IntToString(limit)),
      Header("X-RateLimit-Remaining", IntToString(Max(0, limit - reply.count))),
      Header("X-RateLimit-Reset", IntToString(EpochSeconds(now) + ResetSeconds(reply.ttl)))];
    assert forall h :: h in base ==> h.name != "Retry-After" by {
      assert "X-RateLimit-Limit"[0] != "Retry-After"[0];
    }
    if reply.allowed then base
    else
      var hs := base + [Header("Retry-After", IntToString(ResetSeconds(reply.ttl)))];
      assert hs[3] in hs;
      hs
  }

  /**
   * `canActivate` at time `now`: the verdict, the headers set on the response
   * and the windows afterwards.
   */
  function Decide(store: Store, opts: Option<Options>, route: Route, req: Request, now: int)
    : (r: (Verdict, seq<Header>, Store))
    ensures opts.None? ==> r == (Allow, [], store)
    ensures r.0.Reject? ==> r.0 == Reject(TooManyRequests, ExceededMessage)
    ensures opts.Some? ==>
      var o := opts.value;
      var key := RateKey(o, route, req);
      var w := Max(1, o.windowMs);
      var limit := Max(1, o.limit);
        && (r.0.Allow? <==> |KeptAt(store, key, now, w)| < limit)
        && r.2 == Script(store, key, now, w, limit).1
        && (r.1 != [] <==> o.setHeaders != Some(false))
        && (HasHeader(r.1, "Retry-After") <==> r.0.Reject? && o.setHeaders != Some(false))
  {
    match opts
    case None => (Allow, [], store)
    case Some(o) =>
      var w := Max(1, o.windowMs);
      var limit := Max(1, o.limit);
      var reply := Script(store, RateKey(o, route, req), now, w, limit);
      var headers := if o.setHeaders != Some(false) then RateHeaders(limit, reply.0, now) else [];
      (if reply.0.allowed then Allow else Reject(TooManyRequests, ExceededMessage), headers, reply.1)
  }

  /** After an allowed request the remaining header counts down from the limit and never goes below zero. */
  lemma AllowedRemaining(store: Store, o: Options, route: Route, req: Request, now: int)
    requires o.setHeaders != Some(false) && Decide(store, Some(o), route, req, now).0.Allow?
    ensures var limit := Max(1, o.limit);
            var kept := KeptAt(store, RateKey(o, route, req), now, Max(1, o.windowMs));
              Decide(store, Some(o), route, req, now).1[1] == Header("X-RateLimit-Remaining", IntToString(limit - |kept| - 1))
  {
  }

  class RateLimitGuard {
    const redis: WindowStore

    constructor(redis: WindowStore)
      ensures this.redis == redis
    {
      this.redis := redis;
    }

    method CanActivate(opts: Option<Options>, route: Route, req: Request, now: int)
      returns (verdict: Verdict, headers: seq<Header>)
      modifies redis
      ensures (verdict, headers, redis.entries) == Decide(old(redis.entries), opts, route, req, now)
    {
      if opts.None? {
        return Allow, [];
      }
      var o := opts.value;
      var windowMs := Max(1, o.windowMs);
      var limit := Max(1, o.limit);
      var setHeaders := o.setHeaders != Some(false);
      var prefix := if o.keyPrefix.Some? then o.keyPrefix.value else DefaultPrefix;
      var ip := ClientIp(req);
      var parts := [prefix, route.controller + "." + route.handler];
      if KeyedByUser(o, req) {
        parts := parts + ["u:" + req.userSub.value];
      }
      if KeyedByIp(o) {
        parts := parts + ["ip:" + ip];
      }
      assert parts == KeyParts(o, route, req);
      var key := Join(parts, ":");
      var reply := redis.Eval(key, now, windowMs, limit);
      headers := [];
      if setHeaders {
        var resetSeconds := ResetSeconds(reply.ttl);
        headers := [
          Header("X-RateLimit-Limit", IntToString(limit)),
          Header("X-RateLimit-Remaining", IntToString(Max(0, limit - reply.count))),
          Header("X-RateLimit-Reset", IntToString(EpochSeconds(now) + resetSeconds))];
        if !reply.allowed {
          headers := headers + [Header("Retry-After", IntToString(resetSeconds))];
        }
        assert headers == RateHeaders(limit, reply, now);
      }
      verdict := if reply.allowed then Allow else Reject(TooManyRequests, ExceededMessage);
    }
  }
}
