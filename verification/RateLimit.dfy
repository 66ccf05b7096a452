/** The fixed-window limiter: what any interval of time can see of one key, and what keys see of each other. */
module RateLimit {
  import opened Prelude

  /** Instants and durations in nanoseconds. */
  type Time = int

  datatype Counter = Counter(count: nat, resetAt: Time)

  type Windows = map<string, Counter>

  function Lookup(w: Windows, key: string): Option<Counter> { if key in w then Some(w[key]) else None }

  /** The counter right after a hit at `now`: a window is reopened only strictly after its reset time. */
  function Next(c: Option<Counter>, window: Time, now: Time): Counter {
    if c.None? || now > c.value.resetAt then Counter(1, now + window) else Counter(c.value.count + 1, c.value.resetAt)
  }

  class Limiter {
    var windows: Windows

    constructor ()
      ensures windows == map[]
    {
      windows := map[];
    }

    /** `now` is the clock at entry, `later` the clock when the time until reset is computed. */
    method Hit(key: string, max: nat, window: Time, now: Time, later: Time) returns (ok: bool, retry: Time)
      modifies this
      ensures windows == old(windows)[key := Next(Lookup(old(windows), key), window, now)]
      ensures ok <==> windows[key].count <= max
      ensures retry == if ok then 0 else windows[key].resetAt - later
    {
      var c := Counter(0, now + window);
      if key in windows && !(now > windows[key].resetAt) {
        c := windows[key];
      }
      c := c.(count := c.count + 1);
      windows := windows[key := c];
      if c.count > max {
        return false, c.resetAt - later;
      }
      return true, 0;
    }
  }

  // Keys do not interfere

  datatype HitEvent = HitEvent(key: string, max: nat, window: Time, now: Time)

  function Apply(w: Windows, h: HitEvent): Windows { w[h.key := Next(Lookup(w, h.key), h.window, h.now)] }

  /** Answers of the shared limiter to the hits on one key, in order. */
  function AnswersFor(w: Windows, hits: seq<HitEvent>, key: string): seq<bool>
    decreases hits
  {
    if hits == [] then []
    else
      var w' := Apply(w, hits[0]);
      (if hits[0].key == key then [w'[key].count <= hits[0].max] else []) + AnswersFor(w', hits[1..], key)
  }

  function Only(hits: seq<HitEvent>, key: string): seq<HitEvent> {
    if hits == [] then []
    else (if hits[0].key == key then [hits[0]] else []) + Only(hits[1..], key)
  }

  /** A limiter with a single counter and no map. */
  function SoloAnswers(c: Option<Counter>, hits: seq<HitEvent>): seq<bool>
    decreases hits
  {
    if hits == [] then []
    else
      var c' := Next(c, hits[0].window, hits[0].now);
      [c'.count <= hits[0].max] + SoloAnswers(Some(c'), hits[1..])
  }

  /** Over any trace the answers for a key are those of a limiter of its own fed only its hits. */
  lemma {:induction false} KeysDoNotInterfere(w: Windows, hits: seq<HitEvent>, key: string)
    ensures AnswersFor(w, hits, key) == SoloAnswers(Lookup(w, key), Only(hits, key))
    decreases hits
  {
    if hits != [] {
      var h := hits[0];
      var w' := Apply(w, h);
      KeysDoNotInterfere(w', hits[1..], key);
      if h.key == key {
        assert Only(hits, key)[1..] == Only(hits[1..], key);
      } else {
        assert Only(hits, key) == Only(hits[1..], key);
        assert Lookup(w', key) == Lookup(w, key);
      }
    }
  }

  // One key with a fixed max and window

  predicate Nondecreasing(ts: seq<Time>) { forall i, j :: 0 <= i <= j < |ts| ==> ts[i] <= ts[j] }

  /** The counter after the first n hits at times ts. */
  function After(ts: seq<Time>, window: Time, n: nat): Option<Counter>
    requires n <= |ts|
  {
    if n == 0 then None else Some(Next(After(ts, window, n - 1), window, ts[n - 1]))
  }

  predicate Admitted(ts: seq<Time>, max: nat, window: Time, i: nat)
    requires i < |ts|
  {
    After(ts, window, i + 1).value.count <= max
  }

  /** Hits among the first n, in the closed interval from a of the window's length, that were admitted. */
  function AdmittedIn(ts: seq<Time>, max: nat, window: Time, a: Time, n: nat): nat
    requires n <= |ts|
  {
    if n == 0 then 0
    else AdmittedIn(ts, max, window, a, n - 1)
         + if a <= ts[n - 1] <= a + window && Admitted(ts, max, window, n - 1) then 1 else 0
  }

  /**
   * The accounting behind the sliding bound. `seen` counts admitted hits in [a, a + window] so far, `last`
   * is the latest hit. A window that opened before a owes one admission (its opener) outside the interval;
   * one that opened at or after a covers the rest of the interval.
   */
  predicate Slack(c: Option<Counter>, seen: nat, max: nat, window: Time, a: Time, last: Time) {
    && (last < a ==> seen == 0)
    && seen <= 2 * max - 1
    && (c.None? ==> seen == 0)
    && (c.Some? ==>
          && c.value.count >= 1
          && c.value.resetAt - window <= last
          && (last <= a + window ==>
                if c.value.resetAt - window < a then seen <= Min(max, c.value.count) - 1
                else seen <= max - 1 + Min(max, c.value.count)))
  }

  /** One hit at or after the last keeps the accounting, counting it when it is admitted inside the interval. */
  lemma SlackStep(c: Option<Counter>, seen: nat, max: nat, window: Time, a: Time, last: Time, now: Time)
    requires Slack(c, seen, max, window, a, last) && max >= 1 && window >= 0
    requires c.Some? ==> last <= now
    ensures var c' := Next(c, window, now);
            Slack(Some(c'), seen + if a <= now <= a + window && c'.count <= max then 1 else 0, max, window, a, now)
  {
  }

  lemma {:induction false} SlackRun(ts: seq<Time>, max: nat, window: Time, a: Time, n: nat)
    requires Nondecreasing(ts) && max >= 1 && window >= 0 && 0 < n <= |ts|
    ensures Slack(After(ts, window, n), AdmittedIn(ts, max, window, a, n), max, window, a, ts[n - 1])
  {
    if n == 1 {
      assert After(ts, window, 0) == None && AdmittedIn(ts, max, window, a, 0) == 0;
      SlackStep(None, 0, max, window, a, ts[0], ts[0]);
    } else {
      SlackRun(ts, max, window, a, n - 1);
      SlackStep(After(ts, window, n - 1), AdmittedIn(ts, max, window, a, n - 1), max, window, a, ts[n - 2], ts[n - 1]);
    }
  }

  /** Any interval as long as the window admits fewer than two full quotas, however the windows fall. */
  lemma SlidingBound(ts: seq<Time>, max: nat, window: Time, a: Time)
    requires Nondecreasing(ts) && window >= 0
    ensures AdmittedIn(ts, max, window, a, |ts|) <= if max == 0 then 0 else 2 * max - 1
  {
    if max == 0 {
      NothingAdmitted(ts, window, a, |ts|);
    } else if |ts| > 0 {
      SlackRun(ts, max, window, a, |ts|);
    }
  }

  lemma {:induction false} NothingAdmitted(ts: seq<Time>, window: Time, a: Time, n: nat)
    requires n <= |ts|
    ensures AdmittedIn(ts, 0, window, a, n) == 0
  {
    if n > 0 { NothingAdmitted(ts, window, a, n - 1); }
  }

  // The bound is attained

  function Burst(max: nat, window: Time): seq<Time>
    requires max >= 1
  {
    [0] + seq(max - 1, _ => window) + seq(max, _ => window + 1)
  }

  lemma {:induction false} BurstFirstWindow(max: nat, window: Time, n: nat)
    requires max >= 1 && window >= 1 && 1 <= n <= max
    ensures After(Burst(max, window), window, n) == Some(Counter(n, window))
    ensures AdmittedIn(Burst(max, window), max, window, 1, n) == n - 1
  {
    var ts := Burst(max, window);
    if n > 1 {
      BurstFirstWindow(max, window, n - 1);
    } else {
      assert After(ts, window, 0) == None;
      assert AdmittedIn(ts, max, window, 1, 0) == 0;
    }
  }

  lemma {:induction false} BurstSecondWindow(max: nat, window: Time, n: nat)
    requires max >= 1 && window >= 1 && 1 <= n <= max
    ensures After(Burst(max, window), window, max + n) == Some(Counter(n, 2 * window + 1))
    ensures AdmittedIn(Burst(max, window), max, window, 1, max + n) == max - 1 + n
  {
    if n > 1 { BurstSecondWindow(max, window, n - 1); } else { BurstFirstWindow(max, window, max); }
  }

  /** For every quota and window some trace does see 2 * max - 1 admissions in one window's length. */
  lemma SlidingBoundIsTight(max: nat, window: Time)
    requires max >= 1 && window >= 1
    ensures var ts := Burst(max, window);
            Nondecreasing(ts) && AdmittedIn(ts, max, window, 1, |ts|) == 2 * max - 1
  {
    BurstSecondWindow(max, window, max);
  }

  // Each window admits its quota exactly

  /** Among the first n hits, those counted in the window that resets at r; with a cap, only the admitted ones. */
  function HitsOf(ts: seq<Time>, window: Time, r: Time, n: nat): nat
    requires n <= |ts|
  {
    if n == 0 then 0 else HitsOf(ts, window, r, n - 1) + if After(ts, window, n).value.resetAt == r then 1 else 0
  }

  function AdmittedOf(ts: seq<Time>, max: nat, window: Time, r: Time, n: nat): nat
    requires n <= |ts|
  {
    if n == 0 then 0
    else AdmittedOf(ts, max, window, r, n - 1)
         + if After(ts, window, n).value.resetAt == r && Admitted(ts, max, window, n - 1) then 1 else 0
  }

  lemma {:induction false} CountIsWindowHits(ts: seq<Time>, window: Time, n: nat)
    requires Nondecreasing(ts) && window >= 0 && 0 < n <= |ts|
    ensures var c := After(ts, window, n).value;
            c.count == HitsOf(ts, window, c.resetAt, n) && ts[n - 1] <= c.resetAt <= ts[n - 1] + window
            && forall r :: r > c.resetAt ==> HitsOf(ts, window, r, n) == 0
  {
    if n > 1 {
      CountIsWindowHits(ts, window, n - 1);
      var c, c' := After(ts, window, n - 1).value, After(ts, window, n).value;
      assert c'.resetAt >= c.resetAt;
    } else {
      assert After(ts, window, 0) == None;
      assert forall r :: HitsOf(ts, window, r, 0) == 0;
    }
  }

  /** A blocked hit leaves the reset time where it was, except that with no quota at all the opener is blocked too. */
  lemma BlockedHitKeepsReset(ts: seq<Time>, max: nat, window: Time, n: nat)
    requires n < |ts| && !Admitted(ts, max, window, n)
    ensures max >= 1 ==> n > 0 && After(ts, window, n + 1).value.resetAt == After(ts, window, n).value.resetAt
    ensures max == 0 && n == 0 ==>
              After(ts, window, n) == None && After(ts, window, n + 1) == Some(Counter(1, ts[0] + window))
  {
    assert n == 0 ==> After(ts, window, n) == None;
  }

  /** What is counted of the first n hits does not depend on later ones. */
  lemma {:induction false} LaterHitsDoNotCount(ts: seq<Time>, later: Time, max: nat, window: Time, a: Time, n: nat)
    requires n <= |ts|
    ensures After(ts + [later], window, n) == After(ts, window, n)
    ensures AdmittedIn(ts + [later], max, window, a, n) == AdmittedIn(ts, max, window, a, n)
  {
    if n > 0 { LaterHitsDoNotCount(ts, later, max, window, a, n - 1); }
  }

  /** One more hit. */
  lemma OneMoreHit(ts: seq<Time>, next: Time, max: nat, window: Time, a: Time)
    ensures After(ts + [next], window, |ts| + 1) == Some(Next(After(ts, window, |ts|), window, next))
    ensures AdmittedIn(ts + [next], max, window, a, |ts| + 1)
         == AdmittedIn(ts, max, window, a, |ts|)
            + if a <= next <= a + window && Next(After(ts, window, |ts|), window, next).count <= max then 1 else 0
  {
    LaterHitsDoNotCount(ts, next, max, window, a, |ts|);
  }

  /** A window lets through its first max hits and no others. */
  lemma {:induction false} WindowQuota(ts: seq<Time>, max: nat, window: Time, r: Time, n: nat)
    requires Nondecreasing(ts) && window >= 0 && n <= |ts|
    ensures AdmittedOf(ts, max, window, r, n) == Min(max, HitsOf(ts, window, r, n))
  {
    if n > 0 {
      WindowQuota(ts, max, window, r, n - 1);
      CountIsWindowHits(ts, window, n);
    }
  }
}
