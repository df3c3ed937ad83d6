/**
 * The decision part of selectPrimary over one snapshot of the peer map, the
 * ranking order of findBestPeer, and the switch reason of buildSwitchReason.
 */
module Selection {
  import opened Wrappers
  import opened Settings
  import opened Health

  /** The rules of selectPrimary, in the order in which they are tried. */
  datatype Rule = FailbackRule | CooldownRule | ComfortRule | DampingRule | RankingRule

  /** Cooldown applies only once a switch has happened, and until cooldownPeriod seconds after it. */
  predicate InCooldown(lastSwitch: Option<int>, now: int, d: Damping)
  {
    lastSwitch.Some? && now - lastSwitch.value < d.cooldownPeriod
  }

  /** The preferred peer, when failback is on and one is named. */
  predicate FailbackConfigured(cfg: Config)
  {
    cfg.failback.enabled && cfg.startup.preferredPrimary != ""
  }

  /** The preferred peer is another peer of the map and has been healthy long enough. */
  predicate PreferredReady(peers: map<string, Peer>, current: string, cfg: Config)
  {
    var pref := cfg.startup.preferredPrimary;
    FailbackConfigured(cfg) && current != pref && pref in peers &&
    peers[pref].isHealthy &&
    peers[pref].consecutiveHealthyCount >= cfg.failback.consecutiveHealthyCount
  }

  /**
   * Which rule of selectPrimary decides this cycle: failback, then cooldown,
   * then comfort, then damping, and only otherwise the ranking.
   */
  function Decide(peers: map<string, Peer>, current: string, lastSwitch: Option<int>, now: int, cfg: Config): (r: Rule)
    requires current in peers
    ensures r == FailbackRule <==>
      PreferredReady(peers, current, cfg) &&
      !(cfg.failback.requireCooldownBeforeFailback && InCooldown(lastSwitch, now, cfg.damping))
    ensures r == RankingRule <==>
      r != FailbackRule && !InCooldown(lastSwitch, now, cfg.damping) &&
      !Comfortable(peers[current], cfg.thresholds) &&
      peers[current].consecutiveUnhealthyCount >= cfg.damping.consecutiveUnhealthyCount
  {
    var cooling := InCooldown(lastSwitch, now, cfg.damping);
    if PreferredReady(peers, current, cfg) && !(cfg.failback.requireCooldownBeforeFailback && cooling) then
      FailbackRule
    else if cooling then
      CooldownRule
    else if Comfortable(peers[current], cfg.thresholds) then
      ComfortRule
    else if peers[current].consecutiveUnhealthyCount < cfg.damping.consecutiveUnhealthyCount then
      DampingRule
    else
      RankingRule
  }

  /** Without the cooldown requirement, a ready preferred peer wins even during cooldown. */
  lemma FailbackOverridesCooldown(peers: map<string, Peer>, current: string, lastSwitch: Option<int>, now: int, cfg: Config)
    requires current in peers
    requires PreferredReady(peers, current, cfg) && !cfg.failback.requireCooldownBeforeFailback
    ensures Decide(peers, current, lastSwitch, now, cfg) == FailbackRule
  {
  }

  /** Cooldown never holds the primary before the first switch. */
  lemma NoCooldownBeforeFirstSwitch(peers: map<string, Peer>, current: string, now: int, cfg: Config)
    requires current in peers
    ensures Decide(peers, current, None, now, cfg) != CooldownRule
  {
  }

  /**
   * The keep-current gates: when failback does not fire, the ranking is
   * consulted only outside cooldown, with the primary out of its comfort zone
   * and unhealthy for at least the required number of cycles.
   */
  lemma RankingOnlyPastAllGates(peers: map<string, Peer>, current: string, lastSwitch: Option<int>, now: int, cfg: Config)
    requires current in peers
    requires Decide(peers, current, lastSwitch, now, cfg) != FailbackRule
    ensures Decide(peers, current, lastSwitch, now, cfg) == RankingRule ==>
      !InCooldown(lastSwitch, now, cfg.damping) &&
      !Comfortable(peers[current], cfg.thresholds) &&
      peers[current].consecutiveUnhealthyCount >= cfg.damping.consecutiveUnhealthyCount
    ensures InCooldown(lastSwitch, now, cfg.damping) ==> Decide(peers, current, lastSwitch, now, cfg) == CooldownRule
  {
  }

  /**
   * With damping of at least one cycle and the counter invariant, a healthy
   * primary is never handed to the ranking: only failback can replace it.
   */
  lemma HealthyPrimaryNeverRanked(peers: map<string, Peer>, current: string, lastSwitch: Option<int>, now: int, cfg: Config)
    requires current in peers && CountersAgree(peers[current]) && peers[current].isHealthy
    requires cfg.damping.consecutiveUnhealthyCount >= 1
    ensures Decide(peers, current, lastSwitch, now, cfg) != RankingRule
  {
  }

  // ---------------------------------------------------------------------
  // Ranking (findBestPeer)
  // ---------------------------------------------------------------------

  /** a sorts strictly before b: healthy first, then lower ranking latency. */
  predicate RanksBefore(a: Peer, b: Peer, t: Thresholds)
  {
    (a.isHealthy && !b.isHealthy) ||
    (a.isHealthy == b.isHealthy && RankingLatency(a, t) < RankingLatency(b, t))
  }

  /** name is a minimal peer of the map under RanksBefore (ties are unordered). */
  predicate IsBestPeer(peers: map<string, Peer>, name: string, t: Thresholds)
  {
    name in peers && forall k :: k in peers ==> !RanksBefore(peers[k], peers[name], t)
  }

  /**
   * A best peer is healthy whenever some peer is, and has the least ranking
   * latency of its health class; with every peer unhealthy it is the least-bad one.
   */
  lemma BestPeerIsHealthiestAndFastest(peers: map<string, Peer>, name: string, t: Thresholds)
    requires IsBestPeer(peers, name, t)
    ensures (exists k :: k in peers && peers[k].isHealthy) ==> peers[name].isHealthy
    ensures forall k :: k in peers && peers[k].isHealthy == peers[name].isHealthy ==>
      RankingLatency(peers[name], t) <= RankingLatency(peers[k], t)
  {
  }

  // ---------------------------------------------------------------------
  // Switch reasons (buildSwitchReason)
  // ---------------------------------------------------------------------

  datatype SwitchReason =
    | FailbackToPreferred(sustainedHealth: nat)
    | OutsideComfortZone(degradation: int)
    | PrimaryUnreachable
    | PrimaryExceedsAbsoluteMax(latency: int, maximum: int)
    | PrimaryDegraded(degradation: int)

  datatype SwitchKind = Switch | FailbackSwitch

  /**
   * buildSwitchReason, from the old primary's state: a healthy old primary
   * gives "failback" inside its comfort zone and "outside comfort zone"
   * otherwise; an unhealthy one is unreachable, over the absolute maximum or
   * degraded, in that order.
   */
  function BuildSwitchReason(oldPeer: Peer, newPeer: Peer, t: Thresholds): (r: SwitchReason)
    ensures r.FailbackToPreferred? <==> Comfortable(oldPeer, t)
    ensures r.FailbackToPreferred? ==> r.sustainedHealth == newPeer.consecutiveHealthyCount
    ensures r.OutsideComfortZone? <==> oldPeer.isHealthy && Degradation(oldPeer) > t.comfortThreshold
    ensures r.PrimaryUnreachable? <==> !oldPeer.isHealthy && oldPeer.currentLatency < 0
    ensures r.PrimaryExceedsAbsoluteMax? <==>
      !oldPeer.isHealthy && 0 <= oldPeer.currentLatency && oldPeer.currentLatency > t.absoluteMaxLatency
    ensures r.PrimaryDegraded? && oldPeer.isHealthy == IsPeerHealthy(oldPeer.currentLatency, oldPeer.config.expectedBaseline, t) ==>
      r.degradation == Degradation(oldPeer) > t.degradationThreshold
  {
    if oldPeer.isHealthy then
      if Degradation(oldPeer) <= t.comfortThreshold then FailbackToPreferred(newPeer.consecutiveHealthyCount)
      else OutsideComfortZone(Degradation(oldPeer))
    else if oldPeer.currentLatency < 0 then PrimaryUnreachable
    else if oldPeer.currentLatency > t.absoluteMaxLatency then
      PrimaryExceedsAbsoluteMax(oldPeer.currentLatency, t.absoluteMaxLatency)
    else PrimaryDegraded(Degradation(oldPeer))
  }

  /** Whether the rendered reason text contains the word "failback": only the failback template does. */
  predicate MentionsFailback(r: SwitchReason)
  {
    r.FailbackToPreferred?
  }

  /** switchPrimary's classification: failback only when the old peer is healthy and the reason says failback. */
  function Classify(oldPeer: Peer, r: SwitchReason): (k: SwitchKind)
    ensures k == FailbackSwitch <==> oldPeer.isHealthy && MentionsFailback(r)
  {
    if oldPeer.isHealthy && MentionsFailback(r) then FailbackSwitch else Switch
  }

  /**
   * A switch chosen by the ranking is never classified as a failback: the
   * ranking is reached only when the old primary is out of its comfort zone.
   * So a failback event always comes from the failback rule.
   */
  lemma RankedSwitchIsNotFailback(peers: map<string, Peer>, current: string, target: string,
                                  lastSwitch: Option<int>, now: int, cfg: Config)
    requires current in peers && target in peers
    requires Decide(peers, current, lastSwitch, now, cfg) == RankingRule
    ensures Classify(peers[current], BuildSwitchReason(peers[current], peers[target], cfg.thresholds)) == Switch
  {
  }
}
