/**
 * Per-peer health: the classification of one latency sample against the
 * peer's baseline (isPeerHealthy), the run-length counters updated every
 * cycle (evaluatePeerHealth), the sliding measurement window
 * (runMonitoringCycle) and the health-change event.
 */
module Health {
  import opened Wrappers
  import opened Settings

  /** The decision-relevant part of PeerState. A negative latency is a failed sample. */
  datatype Peer = Peer(
    config: PeerConfig,
    measurements: seq<int>,
    currentLatency: int,
    consecutiveUnhealthyCount: nat,
    consecutiveHealthyCount: nat,
    isHealthy: bool,
    isPrimary: bool)

  /** A peer as initializeState creates it: no samples, no streak, not healthy. */
  function InitialPeer(c: PeerConfig, initialPrimary: string): Peer
  {
    Peer(c, [], 0, 0, 0, false, c.name == initialPrimary)
  }

  /** isPeerHealthy: a failed sample, one above the absolute maximum, or one too far above baseline is unhealthy. */
  predicate IsPeerHealthy(latency: int, baseline: int, t: Thresholds)
    ensures IsPeerHealthy(latency, baseline, t) <==>
      0 <= latency && latency <= t.absoluteMaxLatency && latency - baseline <= t.degradationThreshold
    ensures latency < 0 ==> !IsPeerHealthy(latency, baseline, t)
  {
    if latency < 0 then false
    else if latency > t.absoluteMaxLatency then false
    else if latency - baseline > t.degradationThreshold then false
    else true
  }

  /** How far the current sample lies above the baseline (may be negative). */
  function Degradation(p: Peer): int
  {
    p.currentLatency - p.config.expectedBaseline
  }

  /** The comfort test of selectPrimary: healthy and within the comfort threshold. */
  predicate Comfortable(p: Peer, t: Thresholds)
  {
    p.isHealthy && Degradation(p) <= t.comfortThreshold
  }

  /** The counter matching a classification. */
  function Streak(p: Peer, healthy: bool): nat
  {
    if healthy then p.consecutiveHealthyCount else p.consecutiveUnhealthyCount
  }

  /** The counter invariant: the counter opposite to the current health flag is zero. */
  predicate CountersAgree(p: Peer)
  {
    (p.isHealthy ==> p.consecutiveUnhealthyCount == 0) &&
    (!p.isHealthy ==> p.consecutiveHealthyCount == 0)
  }

  /** The latency used for ranking: a failed sample counts as the timeout latency. */
  function RankingLatency(p: Peer, t: Thresholds): (r: int)
    ensures p.currentLatency >= 0 ==> r == p.currentLatency
    ensures p.currentLatency < 0 ==> r == t.timeoutLatency
  {
    if p.currentLatency < 0 then t.timeoutLatency else p.currentLatency
  }

  // ---------------------------------------------------------------------
  // Measurement window
  // ---------------------------------------------------------------------

  function Min(a: int, b: int): int
  {
    if a <= b then a else b
  }

  /** The last n elements of s. */
  function Last<T>(s: seq<T>, n: nat): seq<T>
    requires n <= |s|
  {
    s[|s| - n..]
  }

  /**
   * Appending a sample to the window and dropping the oldest one when the
   * window is over length: the result is the newest part of the old window
   * plus the sample, and a window within its bound stays within it.
   */
  function PushSample(ms: seq<int>, x: int, window: int): (r: seq<int>)
    ensures |r| <= |ms| + 1 && r == Last(ms + [x], |r|)
    ensures |ms| <= window ==> |r| == Min(|ms| + 1, window)
    ensures |ms| <= window ==> |r| <= window
    ensures window >= 1 || |ms| >= 1 ==> |r| >= 1 && r[|r| - 1] == x
  {
    var grown := ms + [x];
    if |grown| > window then grown[1..] else grown
  }

  /** Applies PushSample to every sample of xs in turn. */
  function PushAll(ms: seq<int>, xs: seq<int>, window: int): seq<int>
    decreases |xs|
  {
    if xs == [] then ms else PushAll(PushSample(ms, xs[0], window), xs[1..], window)
  }

  lemma LastOfLast<T>(s: seq<T>, m: nat, rest: seq<T>, n: nat)
    requires m <= |s| && n <= m + |rest|
    ensures Last(Last(s, m) + rest, n) == Last(s + rest, n)
  {
    var a := Last(s, m) + rest;
    var b := s + rest;
    assert |a| == m + |rest|;
    forall i | 0 <= i < n
      ensures Last(a, n)[i] == Last(b, n)[i]
    {
      var j := |a| - n + i;
      if j < m {
        assert a[j] == s[|s| - m + j];
        assert b[|b| - n + i] == s[|s| - m + j];
      } else {
        assert a[j] == rest[j - m];
        assert b[|b| - n + i] == rest[j - m];
      }
    }
  }

  /** One push onto a window within its bound: the pushed window is the newest part of ms + [x]. */
  lemma PushWithinBound(ms: seq<int>, x: int, rest: seq<int>, window: int)
    requires |ms| <= window
    ensures |PushSample(ms, x, window)| <= |ms + [x]|
    ensures PushSample(ms, x, window) == Last(ms + [x], |PushSample(ms, x, window)|)
    ensures |PushSample(ms, x, window)| <= window
    ensures Min(|PushSample(ms, x, window) + rest|, window) == Min(|(ms + [x]) + rest|, window)
  {
  }

  /**
   * The sliding window after a series of samples holds exactly the newest
   * min(total, window) samples, oldest first.
   */
  lemma {:induction false} WindowHoldsNewest(ms: seq<int>, xs: seq<int>, window: int)
    requires |ms| <= window
    ensures Min(|ms + xs|, window) >= 0
    ensures PushAll(ms, xs, window) == Last(ms + xs, Min(|ms + xs|, window))
    decreases |xs|
  {
    if xs == [] {
      assert ms + xs == ms;
    } else {
      var grown := ms + [xs[0]];
      var ms' := PushSample(ms, xs[0], window);
      var rest := xs[1..];
      var n := Min(|grown + rest|, window);
      assert PushAll(ms, xs, window) == PushAll(ms', rest, window);
      assert grown + rest == ms + xs;
      PushWithinBound(ms, xs[0], rest, window);
      assert Min(|ms' + rest|, window) == n;
      WindowHoldsNewest(ms', rest, window);
      assert PushAll(ms', rest, window) == Last(ms' + rest, n);
      LastOfLast(grown, |ms'|, rest, n);
      assert Last(ms' + rest, n) == Last(grown + rest, n);
    }
  }

  /** The measurement part of runMonitoringCycle for one peer. */
  function RecordSample(p: Peer, latency: int, window: int): (r: Peer)
    ensures r.currentLatency == latency
    ensures r.measurements == PushSample(p.measurements, latency, window)
    ensures r.(currentLatency := p.currentLatency, measurements := p.measurements) == p
  {
    p.(currentLatency := latency, measurements := PushSample(p.measurements, latency, window))
  }

  // ---------------------------------------------------------------------
  // Counter update
  // ---------------------------------------------------------------------

  /**
   * evaluatePeerHealth for one peer: reclassify and extend the matching
   * run-length counter, zeroing the other one. Nothing else changes.
   */
  function Evaluate(p: Peer, t: Thresholds): (r: Peer)
    ensures r.isHealthy == IsPeerHealthy(p.currentLatency, p.config.expectedBaseline, t)
    ensures Streak(r, r.isHealthy) == Streak(p, r.isHealthy) + 1
    ensures Streak(r, !r.isHealthy) == 0
    ensures CountersAgree(r)
    ensures r.(isHealthy := p.isHealthy,
               consecutiveUnhealthyCount := p.consecutiveUnhealthyCount,
               consecutiveHealthyCount := p.consecutiveHealthyCount) == p
  {
    var healthy := IsPeerHealthy(p.currentLatency, p.config.expectedBaseline, t);
    if !healthy then
      p.(isHealthy := false,
         consecutiveUnhealthyCount := p.consecutiveUnhealthyCount + 1,
         consecutiveHealthyCount := 0)
    else
      p.(isHealthy := true,
         consecutiveUnhealthyCount := 0,
         consecutiveHealthyCount := p.consecutiveHealthyCount + 1)
  }

  /** One cycle for one peer: record the new sample, then reclassify. */
  function PeerCycle(p: Peer, latency: int, t: Thresholds, window: int): Peer
  {
    Evaluate(RecordSample(p, latency, window), t)
  }

  /** A peer's state after the cycles that deliver samples xs, in order. */
  function RunSamples(p: Peer, xs: seq<int>, t: Thresholds, window: int): Peer
    decreases |xs|
  {
    if xs == [] then p else RunSamples(PeerCycle(p, xs[0], t, window), xs[1..], t, window)
  }

  /**
   * Over cycles whose samples all fall in one class h, the counter of h grows
   * by exactly one per cycle and the other counter stays at zero, so once the
   * class flipped the counter is exactly the number of cycles since; the
   * window is the sliding window of those samples and the current latency
   * the newest one.
   */
  lemma {:induction false} SameClassStreak(p: Peer, xs: seq<int>, t: Thresholds, window: int, h: bool)
    requires forall i :: 0 <= i < |xs| ==> IsPeerHealthy(xs[i], p.config.expectedBaseline, t) == h
    ensures RunSamples(p, xs, t, window).config == p.config
    ensures RunSamples(p, xs, t, window).isPrimary == p.isPrimary
    ensures |xs| >= 1 ==> RunSamples(p, xs, t, window).currentLatency == xs[|xs| - 1]
    ensures RunSamples(p, xs, t, window).measurements == PushAll(p.measurements, xs, window)
    ensures Streak(RunSamples(p, xs, t, window), h) == Streak(p, h) + |xs|
    ensures |xs| >= 1 ==> RunSamples(p, xs, t, window).isHealthy == h
    ensures |xs| >= 1 ==> Streak(RunSamples(p, xs, t, window), !h) == 0
    ensures CountersAgree(p) && p.isHealthy != h ==> Streak(RunSamples(p, xs, t, window), h) == |xs|
    decreases |xs|
  {
    if xs != [] {
      var q := PeerCycle(p, xs[0], t, window);
      var rest := xs[1..];
      assert RunSamples(p, xs, t, window) == RunSamples(q, rest, t, window);
      assert PushAll(p.measurements, xs, window) == PushAll(q.measurements, rest, window);
      assert IsPeerHealthy(xs[0], p.config.expectedBaseline, t) == h;
      assert q.config == p.config && q.isPrimary == p.isPrimary && q.isHealthy == h && q.currentLatency == xs[0];
      assert Streak(q, h) == Streak(p, h) + 1 && Streak(q, !h) == 0;
      assert forall i :: 0 <= i < |rest| ==> rest[i] == xs[i + 1];
      SameClassStreak(q, rest, t, window, h);
      if |xs| >= 2 {
        assert rest[|rest| - 1] == xs[|xs| - 1];
      }
    }
  }

  // ---------------------------------------------------------------------
  // Health-change events
  // ---------------------------------------------------------------------

  datatype HealthReason = Unreachable | ExceedsAbsoluteMax | Degraded(degradation: int) | Recovered

  datatype HealthChange = HealthChange(
    peer: string,
    wasHealthy: bool,
    isHealthy: bool,
    reason: HealthReason,
    latency: int,
    baseline: int)

  /**
   * The health-transition block of evaluatePeerHealth: an event exactly when
   * the flag changed, with a reason that explains the new classification.
   */
  function HealthTransition(wasHealthy: bool, p: Peer, t: Thresholds): (r: Option<HealthChange>)
    ensures r.Some? <==> wasHealthy != p.isHealthy
    ensures r.Some? ==> r.value.peer == p.config.name && r.value.wasHealthy == wasHealthy &&
                        r.value.isHealthy == p.isHealthy && r.value.latency == p.currentLatency
    ensures r.Some? ==> (r.value.reason == Recovered <==> p.isHealthy)
    ensures r.Some? && r.value.reason == Unreachable ==> p.currentLatency < 0
    ensures r.Some? && r.value.reason == ExceedsAbsoluteMax ==>
      0 <= p.currentLatency && p.currentLatency > t.absoluteMaxLatency
    ensures r.Some? && r.value.reason.Degraded? &&
            p.isHealthy == IsPeerHealthy(p.currentLatency, p.config.expectedBaseline, t) ==>
      0 <= p.currentLatency <= t.absoluteMaxLatency &&
      r.value.reason.degradation == Degradation(p) > t.degradationThreshold
  {
    if wasHealthy == p.isHealthy then None
    else
      var reason :=
        if p.isHealthy then Recovered
        else if p.currentLatency < 0 then Unreachable
        else if p.currentLatency > t.absoluteMaxLatency then ExceedsAbsoluteMax
        else Degraded(Degradation(p));
      Some(HealthChange(p.config.name, wasHealthy, p.isHealthy, reason,
                        p.currentLatency, p.config.expectedBaseline))
  }
}
