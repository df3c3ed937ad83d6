/**
 * Worked examples of the controller on three peers: amsterdam (baseline
 * 45 ms), frankfurt (52 ms) and london (55 ms), with degradation threshold
 * 20 ms, comfort threshold 10 ms, absolute maximum 150 ms, damping of three
 * cycles and a cooldown of 180 s. Each peer's history is a run of cycles
 * whose samples all fall in one health class, so SameClassStreak gives its
 * counters; the rules and the ranking then decide.
 */
module Scenarios {
  import opened Wrappers
  import opened Settings
  import opened Health
  import opened Selection

  const Amsterdam := PeerConfig("amsterdam", 45, "amsterdam_priority")
  const Frankfurt := PeerConfig("frankfurt", 52, "frankfurt_priority")
  const London := PeerConfig("london", 55, "london_priority")

  const Limits := Thresholds(20, 10, 150, 1000)
  const Window := 10
  const Policy := Damping(3, 30, 180, Window)

  /** The example configuration; failback as given. */
  function ExampleConfig(fb: Failback, preferred: string): Config
  {
    Config([Amsterdam, Frankfurt, London], Limits, Policy, Startup("amsterdam", preferred), fb, false)
  }

  function Peers3(a: Peer, f: Peer, l: Peer): map<string, Peer>
  {
    map["amsterdam" := a, "frankfurt" := f, "london" := l]
  }

  /** n samples, all equal to x. */
  function Repeat(x: int, n: nat): (r: seq<int>)
    ensures |r| == n && forall i :: 0 <= i < n ==> r[i] == x
  {
    seq(n, _ => x)
  }

  /** The peer after n cycles of the same sample x, which falls in class h. */
  lemma Settled(p: Peer, x: int, n: nat, h: bool)
    requires IsPeerHealthy(x, p.config.expectedBaseline, Limits) == h && n >= 1
    ensures var q := RunSamples(p, Repeat(x, n), Limits, Window);
      && q.config == p.config && q.currentLatency == x && q.isHealthy == h
      && Streak(q, h) == Streak(p, h) + n && Streak(q, !h) == 0
      && (CountersAgree(p) && p.isHealthy != h ==> Streak(q, h) == n)
  {
    SameClassStreak(p, Repeat(x, n), Limits, Window, h);
  }

  /**
   * Steady state: with every peer at its baseline for any number of cycles,
   * the current primary amsterdam is comfortable and is kept.
   */
  lemma SteadyStateKeepsPrimary(a0: Peer, f0: Peer, l0: Peer, n: nat, lastSwitch: Option<int>, now: int)
    requires a0.config == Amsterdam && f0.config == Frankfurt && l0.config == London && n >= 1
    requires !InCooldown(lastSwitch, now, Policy)
    ensures var peers := Peers3(RunSamples(a0, Repeat(45, n), Limits, Window),
                                RunSamples(f0, Repeat(52, n), Limits, Window),
                                RunSamples(l0, Repeat(55, n), Limits, Window));
      Decide(peers, "amsterdam", lastSwitch, now, ExampleConfig(Failback(false, 0, false), "")) == ComfortRule
  {
    Settled(a0, 45, n, true);
  }

  /** Ranking among the three peers when frankfurt ranks strictly before the other two. */
  lemma FrankfurtRanksFirst(a: Peer, f: Peer, l: Peer)
    requires RanksBefore(f, a, Limits) && RanksBefore(f, l, Limits)
    ensures IsBestPeer(Peers3(a, f, l), "frankfurt", Limits)
    ensures !IsBestPeer(Peers3(a, f, l), "amsterdam", Limits)
    ensures !IsBestPeer(Peers3(a, f, l), "london", Limits)
  {
    var peers := Peers3(a, f, l);
    assert peers["amsterdam"] == a && peers["frankfurt"] == f && peers["london"] == l;
    assert peers.Keys == {"amsterdam", "frankfurt", "london"};
  }

  /**
   * Degradation: amsterdam, healthy before, reports 95 ms while frankfurt
   * and london stay healthy. After two cycles damping still holds it.
   */
  lemma DegradationIsDamped(a0: Peer, f: Peer, l: Peer, lastSwitch: Option<int>, now: int)
    requires a0.config == Amsterdam && a0.isHealthy && CountersAgree(a0)
    requires !InCooldown(lastSwitch, now, Policy)
    ensures var cfg := ExampleConfig(Failback(false, 0, false), "");
      Decide(Peers3(RunSamples(a0, Repeat(95, 2), Limits, Window), f, l), "amsterdam", lastSwitch, now, cfg) == DampingRule
  {
    var a := RunSamples(a0, Repeat(95, 2), Limits, Window);
    Settled(a0, 95, 2, false);
    assert !a.isHealthy && a.consecutiveUnhealthyCount == 2;
    assert Peers3(a, f, l)["amsterdam"] == a;
  }

  /**
   * Degradation and switch: after the third cycle at 95 ms, with frankfurt
   * at 53 ms and london at 56 ms, the ranking picks frankfurt, the reason is
   * "degraded, 50 ms above baseline", and the switch is not a failback.
   */
  lemma DegradationSwitchesToFastestHealthy(a0: Peer, f0: Peer, l0: Peer, m: nat, lastSwitch: Option<int>, now: int)
    requires a0.config == Amsterdam && f0.config == Frankfurt && l0.config == London
    requires a0.isHealthy && CountersAgree(a0) && m >= 1
    requires !InCooldown(lastSwitch, now, Policy)
    ensures var cfg := ExampleConfig(Failback(false, 0, false), "");
      var peers := Peers3(RunSamples(a0, Repeat(95, 3), Limits, Window),
                          RunSamples(f0, Repeat(53, m), Limits, Window),
                          RunSamples(l0, Repeat(56, m), Limits, Window));
      && Decide(peers, "amsterdam", lastSwitch, now, cfg) == RankingRule
      && IsBestPeer(peers, "frankfurt", Limits)
      && !IsBestPeer(peers, "london", Limits) && !IsBestPeer(peers, "amsterdam", Limits)
      && BuildSwitchReason(peers["amsterdam"], peers["frankfurt"], Limits) == PrimaryDegraded(50)
      && Classify(peers["amsterdam"], PrimaryDegraded(50)) == Switch
  {
    var a := RunSamples(a0, Repeat(95, 3), Limits, Window);
    var f := RunSamples(f0, Repeat(53, m), Limits, Window);
    var l := RunSamples(l0, Repeat(56, m), Limits, Window);
    Settled(a0, 95, 3, false);
    Settled(f0, 53, m, true);
    Settled(l0, 56, m, true);
    FrankfurtRanksFirst(a, f, l);
    assert Peers3(a, f, l)["amsterdam"] == a;
  }

  /**
   * All unhealthy: every peer over the absolute maximum for three cycles.
   * The ranking still picks one, the least-bad (frankfurt at 200 ms), and
   * the reason is that the primary exceeds the absolute maximum.
   */
  lemma AllUnhealthyPicksLeastBad(a0: Peer, f0: Peer, l0: Peer, lastSwitch: Option<int>, now: int)
    requires a0.config == Amsterdam && f0.config == Frankfurt && l0.config == London
    requires a0.isHealthy && CountersAgree(a0)
    requires !InCooldown(lastSwitch, now, Policy)
    ensures var cfg := ExampleConfig(Failback(false, 0, false), "");
      var peers := Peers3(RunSamples(a0, Repeat(220, 3), Limits, Window),
                          RunSamples(f0, Repeat(200, 3), Limits, Window),
                          RunSamples(l0, Repeat(210, 3), Limits, Window));
      && Decide(peers, "amsterdam", lastSwitch, now, cfg) == RankingRule
      && IsBestPeer(peers, "frankfurt", Limits)
      && BuildSwitchReason(peers["amsterdam"], peers["frankfurt"], Limits) == PrimaryExceedsAbsoluteMax(220, 150)
  {
    var a := RunSamples(a0, Repeat(220, 3), Limits, Window);
    var f := RunSamples(f0, Repeat(200, 3), Limits, Window);
    var l := RunSamples(l0, Repeat(210, 3), Limits, Window);
    Settled(a0, 220, 3, false);
    Settled(f0, 200, 3, false);
    Settled(l0, 210, 3, false);
    assert !a.isHealthy && a.consecutiveUnhealthyCount == 3 && a.currentLatency == 220;
    assert RankingLatency(f, Limits) == 200 < RankingLatency(l, Limits) == 210 < RankingLatency(a, Limits);
    FrankfurtRanksFirst(a, f, l);
    assert Peers3(a, f, l)["amsterdam"] == a;
  }

  /**
   * Failback: amsterdam is preferred, frankfurt is primary and comfortable,
   * and amsterdam has come back at 46 ms for the required five cycles. The
   * failback rule fires (during cooldown too, as cooldown is not required),
   * the reason is failback after five healthy measurements, and the switch
   * is classified as a failback.
   */
  lemma PreferredPeerFailsBack(a0: Peer, f0: Peer, l0: Peer, m: nat, lastSwitch: Option<int>, now: int)
    requires a0.config == Amsterdam && f0.config == Frankfurt && l0.config == London
    requires !a0.isHealthy && CountersAgree(a0) && m >= 1
    ensures var cfg := ExampleConfig(Failback(true, 5, false), "amsterdam");
      var peers := Peers3(RunSamples(a0, Repeat(46, 5), Limits, Window),
                          RunSamples(f0, Repeat(53, m), Limits, Window),
                          RunSamples(l0, Repeat(56, m), Limits, Window));
      var reason := BuildSwitchReason(peers["frankfurt"], peers["amsterdam"], Limits);
      && Decide(peers, "frankfurt", lastSwitch, now, cfg) == FailbackRule
      && reason == FailbackToPreferred(5)
      && Classify(peers["frankfurt"], reason) == FailbackSwitch
  {
    var a := RunSamples(a0, Repeat(46, 5), Limits, Window);
    var f := RunSamples(f0, Repeat(53, m), Limits, Window);
    Settled(a0, 46, 5, true);
    Settled(f0, 53, m, true);
    assert Peers3(a, f, RunSamples(l0, Repeat(56, m), Limits, Window))["amsterdam"] == a;
  }
}
