/**
 * The controller state of lagbuster.go (AppState) and the operations of one
 * monitoring cycle: record samples, evaluate health, select a primary,
 * switch, and compute the priorities and define lines written for BIRD.
 */
module Monitor {
  import opened Wrappers
  import opened Settings
  import opened Health
  import opened Selection
  import opened Priorities
  import opened BirdOutput

  /** The switch or failback event handed to the event sinks. */
  datatype SwitchEvent = SwitchEvent(kind: SwitchKind, oldPrimary: string, newPrimary: string, reason: SwitchReason)

  /** findBestPeer's peerScore record. */
  datatype PeerScore = PeerScore(name: string, latency: int, healthy: bool)

  /** findBestPeer's sort comparator: healthy first, then lower latency. */
  predicate ScoreLess(a: PeerScore, b: PeerScore)
  {
    if a.healthy != b.healthy then a.healthy else a.latency < b.latency
  }

  function ScoreNames(s: seq<PeerScore>): set<string>
  {
    set i | 0 <= i < |s| :: s[i].name
  }

  lemma ScoreNamesAppend(s: seq<PeerScore>, x: PeerScore)
    ensures ScoreNames(s + [x]) == ScoreNames(s) + {x.name}
  {
    var t := s + [x];
    forall n | n in ScoreNames(t)
      ensures n in ScoreNames(s) + {x.name}
    {
      var k :| 0 <= k < |t| && t[k].name == n;
      if k < |s| {
        assert t[k] == s[k];
      }
    }
    forall n | n in ScoreNames(s)
      ensures n in ScoreNames(t)
    {
      var k :| 0 <= k < |s| && s[k].name == n;
      assert t[k] == s[k];
    }
    assert t[|s|] == x;
  }

  /** The state of one peer after this cycle's sample and health evaluation. */
  function CycledPeers(peers: map<string, Peer>, samples: map<string, int>, t: Thresholds, window: int): (r: map<string, Peer>)
    requires peers.Keys <= samples.Keys
    ensures r.Keys == peers.Keys
    ensures forall k :: k in r ==> r[k] == PeerCycle(peers[k], samples[k], t, window)
  {
    map k | k in peers :: PeerCycle(peers[k], samples[k], t, window)
  }

  /** The BIRD priority of a configured peer; a missing entry reads as 0, as a Go map does. */
  function PriorityOf(prio: map<string, int>, name: string): int
  {
    if name in prio then prio[name] else 0
  }

  /** The define lines generateBirdConfig writes, one per configured peer, in configuration order. */
  function ConfigBindings(ps: seq<PeerConfig>, prio: map<string, int>): (r: seq<Binding>)
    ensures |r| == |ps|
    ensures forall i :: 0 <= i < |ps| ==> r[i] == Binding(ps[i].birdVariable, PriorityOf(prio, ps[i].name))
  {
    seq(|ps|, i requires 0 <= i < |ps| => Binding(ps[i].birdVariable, PriorityOf(prio, ps[i].name)))
  }

  /**
   * The peer map initializeState builds: one fresh peer per configured name;
   * when a name is configured twice, the later entry wins.
   */
  method InitialPeers(ps: seq<PeerConfig>, initialPrimary: string) returns (m: map<string, Peer>)
    ensures m.Keys == ConfiguredNames(ps)
    ensures forall k :: k in m ==>
      m[k].config.name == k && m[k].config in ps && m[k] == InitialPeer(m[k].config, initialPrimary)
    ensures forall j :: 0 <= j < |ps| && (forall j' :: j < j' < |ps| ==> ps[j'].name != ps[j].name) ==>
      m[ps[j].name].config == ps[j]
  {
    m := map[];
    var i := 0;
    while i < |ps|
      invariant 0 <= i <= |ps|
      invariant m.Keys == set j | 0 <= j < i :: ps[j].name
      invariant forall k :: k in m ==>
        m[k].config.name == k && m[k].config in ps && m[k] == InitialPeer(m[k].config, initialPrimary)
      invariant forall j :: 0 <= j < i && (forall j' :: j < j' < i ==> ps[j'].name != ps[j].name) ==>
        m[ps[j].name].config == ps[j]
    {
      m := m[ps[i].name := InitialPeer(ps[i], initialPrimary)];
      i := i + 1;
    }
  }

  /** With the primary flag matching the current primary, exactly one peer is primary. */
  lemma ExactlyOnePrimary(peers: map<string, Peer>, current: string)
    requires forall k :: k in peers ==> (peers[k].isPrimary <==> k == current)
    requires current in peers
    ensures (set k | k in peers && peers[k].isPrimary) == {current}
  {
  }

  /**
   * The second half of assignPriorities: the primary ranked 1 and the i-th
   * name of the sorted list ranked i + 2.
   */
  method PriorityMap(sorted: seq<PeerLatency>, primary: string) returns (prio: map<string, int>)
    requires DistinctNames(sorted) && primary !in NameSet(sorted)
    ensures prio.Keys == {primary} + NameSet(sorted)
    ensures prio[primary] == 1
    ensures forall j :: 0 <= j < |sorted| ==> prio[sorted[j].name] == j + 2
    ensures |prio| == |sorted| + 1 && IsRankPermutation(prio)
  {
    prio := map[primary := 1];
    var i := 0;
    while i < |sorted|
      invariant 0 <= i <= |sorted|
      invariant prio.Keys == {primary} + NameSet(sorted[..i])
      invariant prio[primary] == 1
      invariant forall j :: 0 <= j < i ==> prio[sorted[j].name] == j + 2
    {
      assert NameSet(sorted[..i + 1]) == NameSet(sorted[..i]) + {sorted[i].name} by {
        assert sorted[..i + 1] == sorted[..i] + [sorted[i]];
        assert forall n :: n in NameSet(sorted[..i + 1]) ==> n in NameSet(sorted[..i]) + {sorted[i].name};
      }
      assert sorted[i].name != primary by {
        assert sorted[i].name in NameSet(sorted);
      }
      prio := prio[sorted[i].name := i + 2];
      i := i + 1;
    }
    assert sorted[..|sorted|] == sorted;
    RanksFromOrder(sorted, primary, prio);
  }

  /**
   * Ranks given from a latency-sorted permutation of the candidates order
   * the candidates by ranking latency.
   */
  lemma OrderedByLatency(peers: map<string, Peer>, primary: string, t: Thresholds,
                         remaining: seq<PeerLatency>, sorted: seq<PeerLatency>, prio: map<string, int>)
    requires forall j :: 0 <= j < |remaining| ==>
      remaining[j].name in peers && remaining[j].latency == RankingLatency(peers[remaining[j].name], t)
    requires NameSet(remaining) == peers.Keys - {primary}
    requires SortedByLatency(sorted) && multiset(sorted) == multiset(remaining) && NameSet(sorted) == NameSet(remaining)
    requires prio.Keys == {primary} + NameSet(sorted)
    requires forall j :: 0 <= j < |sorted| ==> prio[sorted[j].name] == j + 2
    ensures forall a, b :: a in peers && b in peers && a != primary && b != primary && prio[a] < prio[b] ==>
      RankingLatency(peers[a], t) <= RankingLatency(peers[b], t)
  {
    forall a, b | a in peers && b in peers && a != primary && b != primary && prio[a] < prio[b]
      ensures RankingLatency(peers[a], t) <= RankingLatency(peers[b], t)
    {
      assert a in NameSet(sorted) && b in NameSet(sorted);
      var ja :| 0 <= ja < |sorted| && sorted[ja].name == a;
      var jb :| 0 <= jb < |sorted| && sorted[jb].name == b;
      assert sorted[ja] in multiset(remaining) && sorted[jb] in multiset(remaining);
    }
  }

  /** All peers but the primary, each once: one fewer than the peers. */
  lemma CandidateCount(remaining: seq<PeerLatency>, peers: map<string, Peer>, primary: string)
    requires DistinctNames(remaining) && NameSet(remaining) == peers.Keys - {primary} && primary in peers
    ensures |remaining| + 1 == |peers|
  {
    DistinctNameSetSize(remaining);
    var others := peers.Keys - {primary};
    assert peers.Keys == others + {primary};
    assert |peers.Keys| == |others| + 1;
  }

  /**
   * The per-peer part of the controller invariant: the peer is stored under
   * its own name, it is primary exactly when it is the current primary, the
   * counter opposite to its health flag is zero, and its window is within
   * its bound.
   */
  predicate PeerValid(k: string, p: Peer, current: string, window: int)
  {
    p.config.name == k && (p.isPrimary <==> k == current) && CountersAgree(p) && |p.measurements| <= window
  }

  /** Recording a sample and reclassifying keep the per-peer invariant. */
  lemma CycleKeepsPeerValid(k: string, p: Peer, current: string, latency: int, t: Thresholds, window: int)
    requires PeerValid(k, p, current, window)
    ensures PeerValid(k, RecordSample(p, latency, window), current, window)
    ensures PeerValid(k, Evaluate(p, t), current, window)
  {
  }

  /** The measurement loop of runMonitoringCycle over the peer map: every peer records its sample. */
  method RecordAll(peers: map<string, Peer>, samples: map<string, int>, window: int) returns (m: map<string, Peer>)
    requires peers.Keys <= samples.Keys
    ensures m.Keys == peers.Keys
    ensures forall k :: k in m ==> m[k] == RecordSample(peers[k], samples[k], window)
  {
    m := map[];
    var todo := peers.Keys;
    while todo != {}
      invariant todo <= peers.Keys
      invariant m.Keys == peers.Keys - todo
      invariant forall k :: k in m ==> m[k] == RecordSample(peers[k], samples[k], window)
      decreases todo
    {
      var k :| k in todo;
      m := m[k := RecordSample(peers[k], samples[k], window)];
      todo := todo - {k};
    }
  }

  /**
   * The loop of evaluatePeerHealth over the peer map: every peer is
   * reclassified, and a health-change event is recorded for, and only for,
   * each peer whose flag changed.
   */
  method EvaluateAll(peers: map<string, Peer>, t: Thresholds) returns (m: map<string, Peer>, changes: map<string, HealthChange>)
    ensures m.Keys == peers.Keys
    ensures forall k :: k in m ==> m[k] == Evaluate(peers[k], t)
    ensures changes.Keys == set k | k in m && peers[k].isHealthy != m[k].isHealthy
    ensures forall k :: k in changes ==> Some(changes[k]) == HealthTransition(peers[k].isHealthy, m[k], t)
  {
    m := map[];
    changes := map[];
    var todo := peers.Keys;
    while todo != {}
      invariant todo <= peers.Keys
      invariant m.Keys == peers.Keys - todo
      invariant forall k :: k in m ==> m[k] == Evaluate(peers[k], t)
      invariant changes.Keys == set k | k in m && peers[k].isHealthy != m[k].isHealthy
      invariant forall k :: k in changes ==> Some(changes[k]) == HealthTransition(peers[k].isHealthy, m[k], t)
      decreases todo
    {
      var k :| k in todo;
      var wasHealthy := peers[k].isHealthy;
      var p := Evaluate(peers[k], t);
      m := m[k := p];
      var change := HealthTransition(wasHealthy, p, t);
      if change.Some? {
        changes := changes[k := change.value];
      }
      todo := todo - {k};
    }
  }

  /**
   * Recording every sample and then evaluating every peer is the same as
   * running each peer's cycle; health flags before the evaluation are the
   * flags before the cycle.
   */
  lemma TwoPassesAreOneCycle(before: map<string, Peer>, recorded: map<string, Peer>, after: map<string, Peer>,
                             samples: map<string, int>, t: Thresholds, window: int)
    requires before.Keys <= samples.Keys && recorded.Keys == before.Keys && after.Keys == before.Keys
    requires forall k :: k in recorded ==> recorded[k] == RecordSample(before[k], samples[k], window)
    requires forall k :: k in after ==> after[k] == Evaluate(recorded[k], t)
    ensures after == CycledPeers(before, samples, t, window)
    ensures (set k | k in recorded && recorded[k].isHealthy != after[k].isHealthy) ==
            (set k | k in before && before[k].isHealthy != after[k].isHealthy)
  {
    SameFlagsBeforeEvaluation(before, recorded, after, samples, window);
  }

  lemma SameFlagsBeforeEvaluation(before: map<string, Peer>, recorded: map<string, Peer>, after: map<string, Peer>,
                                  samples: map<string, int>, window: int)
    requires before.Keys <= samples.Keys && recorded.Keys == before.Keys && after.Keys == before.Keys
    requires forall k :: k in recorded ==> recorded[k] == RecordSample(before[k], samples[k], window)
    ensures (set k | k in recorded && recorded[k].isHealthy != after[k].isHealthy) ==
            (set k | k in before && before[k].isHealthy != after[k].isHealthy)
  {
    forall k | k in recorded
      ensures recorded[k].isHealthy == before[k].isHealthy
    {
    }
  }

  /**
   * What assignPriorities promises: the primary and every peer get a rank,
   * the primary gets 1, the ranks are a bijection onto 1..N, and among the
   * other peers a lower rank never has a higher ranking latency.
   */
  predicate PriorityAssignment(prio: map<string, int>, peers: map<string, Peer>, primary: string, t: Thresholds)
  {
    prio.Keys == peers.Keys + {primary} && prio[primary] == 1 && IsRankPermutation(prio) &&
    forall a, b :: a in peers && b in peers && a != primary && b != primary && prio[a] < prio[b] ==>
      RankingLatency(peers[a], t) <= RankingLatency(peers[b], t)
  }

  /** content is the define-line text of some priority assignment for these peers and this primary. */
  ghost predicate IsPrioritiesFile(content: string, peers: map<string, Peer>, primary: string, cfg: Config)
  {
    exists prio :: PriorityAssignment(prio, peers, primary, cfg.thresholds) &&
      content == Render(ConfigBindings(cfg.peers, prio))
  }

  /**
   * The peer map after a switch from oldPrimary to newPrimary: the new
   * primary gains its flag with both counters reset, the old one loses its
   * flag, and every other peer is untouched.
   */
  predicate SwitchedPeers(before: map<string, Peer>, oldPrimary: string, newPrimary: string, after: map<string, Peer>)
  {
    oldPrimary in before && newPrimary in before && after.Keys == before.Keys &&
    after[newPrimary] == before[newPrimary].(isPrimary := true, consecutiveUnhealthyCount := 0, consecutiveHealthyCount := 0) &&
    (newPrimary != oldPrimary ==> after[oldPrimary] == before[oldPrimary].(isPrimary := false)) &&
    forall k :: k in before && k != newPrimary && k != oldPrimary ==> after[k] == before[k]
  }

  /**
   * The select-and-switch half of runMonitoringCycle, from the peers before
   * it (primary `primary`, last switch `last`) to the peers after it
   * (primary `current`, last switch `last'`). Failback always switches, the
   * keep rules never do, and the ranking switches exactly when its best
   * peer is another one. A switch updates the peers as SwitchedPeers says,
   * reports the reason and classification from the state before it, and
   * yields the priorities file unless in dry-run mode; no switch changes
   * nothing.
   */
  ghost predicate SwitchOutcome(cfg: Config, now: int,
                                before: map<string, Peer>, primary: string, last: Option<int>,
                                after: map<string, Peer>, current: string, last': Option<int>,
                                switched: Option<SwitchEvent>, artifact: Option<string>)
    requires primary in before
  {
    var rule := Decide(before, primary, last, now, cfg);
    && after.Keys == before.Keys && current in after
    && (rule == FailbackRule ==> switched.Some?)
    && (rule in {CooldownRule, ComfortRule, DampingRule} ==> switched.None?)
    && (switched.None? <==> current == primary)
    && (switched.None? ==>
          && after == before && last' == last && artifact.None?
          && (rule == RankingRule ==> IsBestPeer(before, primary, cfg.thresholds)))
    && (switched.Some? ==>
          var reason := BuildSwitchReason(before[primary], before[current], cfg.thresholds);
          && last' == Some(now)
          && (rule == FailbackRule ==> current == cfg.startup.preferredPrimary)
          && (rule == RankingRule ==> IsBestPeer(before, current, cfg.thresholds))
          && SwitchedPeers(before, primary, current, after)
          && switched.value == SwitchEvent(Classify(before[primary], reason), primary, current, reason)
          && (artifact.Some? <==> !cfg.dryRun)
          && (artifact.Some? ==> IsPrioritiesFile(artifact.value, after, current, cfg)))
  }

  class AppState {
    const config: Config
    var peers: map<string, Peer>
    var currentPrimary: string
    /** None until the first switch (Go's zero time.Time). */
    var lastSwitchTime: Option<int>
    const startTime: int

    /**
     * The controller invariant: each peer is stored under its own name, it
     * is primary exactly when it is the current primary, the counter opposite
     * to its health flag is zero, and its window is within its bound.
     */
    ghost predicate Valid()
      reads this
    {
      config.damping.measurementWindow >= 0 &&
      forall k :: k in peers ==> PeerValid(k, peers[k], currentPrimary, config.damping.measurementWindow)
    }

    /**
     * initializeState: every configured peer fresh, the configured initial
     * primary current, and no switch yet. The initial primary is the only
     * peer flagged primary; it is in the map only if it is configured.
     */
    constructor (cfg: Config, now: int)
      requires cfg.damping.measurementWindow >= 0
      ensures Valid()
      ensures config == cfg && startTime == now
      ensures currentPrimary == cfg.startup.initialPrimary && lastSwitchTime == None
      ensures peers.Keys == ConfiguredNames(cfg.peers)
      ensures forall k :: k in peers ==>
        peers[k].config in cfg.peers && peers[k] == InitialPeer(peers[k].config, cfg.startup.initialPrimary)
      ensures forall j :: 0 <= j < |cfg.peers| && (forall j' :: j < j' < |cfg.peers| ==> cfg.peers[j'].name != cfg.peers[j].name) ==>
        peers[cfg.peers[j].name].config == cfg.peers[j]
    {
      var m := InitialPeers(cfg.peers, cfg.startup.initialPrimary);
      config := cfg;
      peers := m;
      currentPrimary := cfg.startup.initialPrimary;
      lastSwitchTime := None;
      startTime := now;
    }

    /**
     * The measurement loop of runMonitoringCycle: each peer takes its new
     * sample as current latency and pushes it onto its window.
     */
    method RecordSamples(samples: map<string, int>)
      requires Valid() && peers.Keys <= samples.Keys
      modifies this
      ensures Valid()
      ensures peers.Keys == old(peers.Keys)
      ensures forall k :: k in peers ==>
        peers[k] == RecordSample(old(peers[k]), samples[k], config.damping.measurementWindow)
      ensures currentPrimary == old(currentPrimary) && lastSwitchTime == old(lastSwitchTime)
    {
      var m := RecordAll(peers, samples, config.damping.measurementWindow);
      forall k | k in m
        ensures PeerValid(k, m[k], currentPrimary, config.damping.measurementWindow)
      {
        CycleKeepsPeerValid(k, peers[k], currentPrimary, samples[k], config.thresholds, config.damping.measurementWindow);
      }
      peers := m;
    }

    /**
     * evaluatePeerHealth: every peer is reclassified and its counters
     * updated; a health-change event is produced for, and only for, each
     * peer whose flag changed.
     */
    method EvaluatePeerHealth() returns (changes: map<string, HealthChange>)
      requires Valid()
      modifies this
      ensures Valid()
      ensures peers.Keys == old(peers.Keys)
      ensures forall k :: k in peers ==> peers[k] == Evaluate(old(peers[k]), config.thresholds)
      ensures changes.Keys == set k | k in old(peers) && old(peers[k]).isHealthy != peers[k].isHealthy
      ensures forall k :: k in changes ==>
        Some(changes[k]) == HealthTransition(old(peers[k]).isHealthy, peers[k], config.thresholds)
      ensures currentPrimary == old(currentPrimary) && lastSwitchTime == old(lastSwitchTime)
    {
      var m;
      m, changes := EvaluateAll(peers, config.thresholds);
      forall k | k in m
        ensures PeerValid(k, m[k], currentPrimary, config.damping.measurementWindow)
      {
        CycleKeepsPeerValid(k, peers[k], currentPrimary, 0, config.thresholds, config.damping.measurementWindow);
      }
      peers := m;
    }

    /**
     * findBestPeer: collect a score for every peer (a failed sample scores
     * the timeout latency), then take the first under the sort order. The
     * result is a peer that no other peer ranks before; ties are unordered.
     */
    method FindBestPeer() returns (best: string)
      requires |peers| > 0
      ensures IsBestPeer(peers, best, config.thresholds)
    {
      var t := config.thresholds;
      var scores: seq<PeerScore> := [];
      var todo := peers.Keys;
      while todo != {}
        invariant todo <= peers.Keys
        invariant forall j :: 0 <= j < |scores| ==>
          scores[j].name in peers &&
          scores[j] == PeerScore(scores[j].name, RankingLatency(peers[scores[j].name], t), peers[scores[j].name].isHealthy)
        invariant ScoreNames(scores) == peers.Keys - todo
        decreases todo
      {
        var name :| name in todo;
        var peer := peers[name];
        var latency := peer.currentLatency;
        if latency < 0 {
          latency := t.timeoutLatency;
        }
        ScoreNamesAppend(scores, PeerScore(name, latency, peer.isHealthy));
        scores := scores + [PeerScore(name, latency, peer.isHealthy)];
        todo := todo - {name};
      }
      var some :| some in peers;
      assert some in ScoreNames(scores);
      var b := 0;
      var i := 1;
      while i < |scores|
        invariant 0 <= b < |scores| && 1 <= i <= |scores|
        invariant forall j :: 0 <= j < i ==> !ScoreLess(scores[j], scores[b])
      {
        if ScoreLess(scores[i], scores[b]) {
          b := i;
        }
        i := i + 1;
      }
      best := scores[b].name;
      forall k | k in peers
        ensures !RanksBefore(peers[k], peers[best], t)
      {
        assert k in ScoreNames(scores);
        var j :| 0 <= j < |scores| && scores[j].name == k;
        assert !ScoreLess(scores[j], scores[b]);
      }
    }

    /**
     * selectPrimary: the rule Decide picks; failback selects the preferred
     * peer, the keep rules the current primary, the ranking a best peer.
     */
    method SelectPrimary(now: int) returns (selected: string)
      requires currentPrimary in peers
      ensures selected in peers
      ensures var rule := Decide(peers, currentPrimary, lastSwitchTime, now, config);
        && (rule == FailbackRule ==> selected == config.startup.preferredPrimary)
        && (rule in {CooldownRule, ComfortRule, DampingRule} ==> selected == currentPrimary)
        && (rule == RankingRule ==> IsBestPeer(peers, selected, config.thresholds))
    {
      var rule := Decide(peers, currentPrimary, lastSwitchTime, now, config);
      match rule
      case FailbackRule => selected := config.startup.preferredPrimary;
      case RankingRule => selected := FindBestPeer();
      case _ => selected := currentPrimary;
    }

    /**
     * switchPrimary's state update: the old primary loses its flag, the new
     * one gains it with both counters reset, the switch time is now, and
     * every other peer is untouched. The event carries the reason and its
     * switch/failback classification, taken from the state before the update.
     */
    method SwitchPrimary(newPrimary: string, now: int) returns (ev: SwitchEvent)
      requires Valid() && currentPrimary in peers && newPrimary in peers
      modifies this
      ensures Valid()
      ensures currentPrimary == newPrimary && lastSwitchTime == Some(now)
      ensures SwitchedPeers(old(peers), old(currentPrimary), newPrimary, peers)
      ensures var reason := BuildSwitchReason(old(peers[currentPrimary]), old(peers[newPrimary]), config.thresholds);
        ev == SwitchEvent(Classify(old(peers[currentPrimary]), reason), old(currentPrimary), newPrimary, reason)
    {
      var oldPrimary := currentPrimary;
      var oldPeer := peers[oldPrimary];
      var newPeer := peers[newPrimary];
      var reason := BuildSwitchReason(oldPeer, newPeer, config.thresholds);
      ev := SwitchEvent(Classify(oldPeer, reason), oldPrimary, newPrimary, reason);
      peers := peers[oldPrimary := peers[oldPrimary].(isPrimary := false)];
      peers := peers[newPrimary := peers[newPrimary].(isPrimary := true)];
      currentPrimary := newPrimary;
      lastSwitchTime := Some(now);
      peers := peers[newPrimary := peers[newPrimary].(consecutiveUnhealthyCount := 0, consecutiveHealthyCount := 0)];
    }

    /**
     * The first half of assignPriorities: every peer other than the current
     * primary, once, with its ranking latency.
     */
    method RankingCandidates() returns (remaining: seq<PeerLatency>)
      ensures NameSet(remaining) == peers.Keys - {currentPrimary}
      ensures DistinctNames(remaining)
      ensures currentPrimary in peers ==> |remaining| + 1 == |peers|
      ensures forall j :: 0 <= j < |remaining| ==>
        remaining[j].name in peers && remaining[j].latency == RankingLatency(peers[remaining[j].name], config.thresholds)
    {
      var t := config.thresholds;
      remaining := [];
      var todo := peers.Keys;
      while todo != {}
        invariant todo <= peers.Keys
        invariant forall j :: 0 <= j < |remaining| ==>
          remaining[j].name in peers && remaining[j].latency == RankingLatency(peers[remaining[j].name], t)
        invariant NameSet(remaining) == peers.Keys - todo - {currentPrimary}
        invariant DistinctNames(remaining)
        decreases todo
      {
        var name :| name in todo;
        todo := todo - {name};
        if name == currentPrimary {
          continue;
        }
        var latency := peers[name].currentLatency;
        if latency < 0 {
          latency := t.timeoutLatency;
        }
        AppendFreshName(remaining, PeerLatency(name, latency));
        remaining := remaining + [PeerLatency(name, latency)];
      }
      if currentPrimary in peers {
        CandidateCount(remaining, peers, currentPrimary);
      }
    }

    /**
     * assignPriorities: the current primary gets 1 and the other peers 2, 3,
     * ... by ascending ranking latency, health not consulted. The result is
     * a bijection from its keys onto 1..N; with the primary among the peers,
     * N is the number of peers.
     */
    method AssignPriorities() returns (prio: map<string, int>)
      requires |peers| > 0
      ensures PriorityAssignment(prio, peers, currentPrimary, config.thresholds)
      ensures currentPrimary in peers ==> |prio| == |peers|
    {
      var remaining := RankingCandidates();
      var sorted := SortByLatency(remaining);
      prio := PriorityMap(sorted, currentPrimary);
      OrderedByLatency(peers, currentPrimary, config.thresholds, remaining, sorted, prio);
    }

    /**
     * The define-line part of generateBirdConfig: one line per configured
     * peer, in configuration order, binding its BIRD variable to its
     * priority. Read back, the text gives exactly those bindings.
     */
    method GenerateBirdConfig(prio: map<string, int>) returns (content: string)
      ensures content == Render(ConfigBindings(config.peers, prio))
      ensures (forall i :: 0 <= i < |config.peers| ==> ValidVariable(config.peers[i].birdVariable)) ==>
        ParseDefines(content) == Some(ConfigBindings(config.peers, prio))
    {
      var ps := config.peers;
      ghost var bs := ConfigBindings(ps, prio);
      content := "";
      var i := 0;
      while i < |ps|
        invariant 0 <= i <= |ps|
        invariant content == Render(bs[..i])
      {
        var b := Binding(ps[i].birdVariable, PriorityOf(prio, ps[i].name));
        assert b == bs[i];
        RenderAppend(bs[..i], b);
        assert bs[..i + 1] == bs[..i] + [b];
        content := content + DefineLine(b);
        i := i + 1;
      }
      assert bs[..|ps|] == bs;
      if forall i :: 0 <= i < |ps| ==> ValidVariable(ps[i].birdVariable) {
        RenderParses(bs);
      }
    }

    /**
     * The computation part of applyBirdConfiguration: the priorities file
     * content for the current state. Writing it and running `birdc
     * configure` are not modelled.
     */
    method ApplyBirdConfiguration() returns (content: string, prio: map<string, int>)
      requires |peers| > 0
      ensures PriorityAssignment(prio, peers, currentPrimary, config.thresholds)
      ensures content == Render(ConfigBindings(config.peers, prio))
      ensures IsPrioritiesFile(content, peers, currentPrimary, config)
    {
      prio := AssignPriorities();
      content := GenerateBirdConfig(prio);
    }

    /**
     * The first half of runMonitoringCycle: record every peer's sample, then
     * evaluate every peer's health. The peers end as CycledPeers of the old
     * ones, and an event is reported for each peer whose flag changed.
     */
    method MeasureAndEvaluate(samples: map<string, int>) returns (changes: map<string, HealthChange>)
      requires Valid() && peers.Keys <= samples.Keys
      modifies this
      ensures Valid()
      ensures peers == CycledPeers(old(peers), samples, config.thresholds, config.damping.measurementWindow)
      ensures changes.Keys == set k | k in old(peers) && old(peers[k]).isHealthy != peers[k].isHealthy
      ensures forall k :: k in changes ==>
        Some(changes[k]) == HealthTransition(old(peers[k]).isHealthy, peers[k], config.thresholds)
      ensures currentPrimary == old(currentPrimary) && lastSwitchTime == old(lastSwitchTime)
    {
      ghost var before := peers;
      RecordSamples(samples);
      ghost var recorded := peers;
      changes := EvaluatePeerHealth();
      TwoPassesAreOneCycle(before, recorded, peers, samples, config.thresholds, config.damping.measurementWindow);
    }

    /**
     * The second half of runMonitoringCycle: select, switch exactly when the
     * selection differs from the current primary, and after a switch produce
     * the priorities file content unless in dry-run mode (SwitchOutcome).
     */
    method SelectAndSwitch(now: int) returns (switched: Option<SwitchEvent>, artifact: Option<string>)
      requires Valid() && currentPrimary in peers
      modifies this
      ensures Valid() && currentPrimary in peers
      ensures SwitchOutcome(config, now, old(peers), old(currentPrimary), old(lastSwitchTime),
                            peers, currentPrimary, lastSwitchTime, switched, artifact)
    {
      var next := SelectPrimary(now);
      artifact := None;
      if next != currentPrimary {
        var ev := SwitchPrimary(next, now);
        switched := Some(ev);
        if !config.dryRun {
          var content, prio := ApplyBirdConfiguration();
          artifact := Some(content);
        }
      } else {
        switched := None;
      }
    }

    /**
     * One runMonitoringCycle: every peer takes its sample and is reevaluated,
     * with an event for each peer whose flag changed; then the select and
     * switch outcome is decided on that evaluated snapshot.
     */
    method RunMonitoringCycle(samples: map<string, int>, now: int)
      returns (changes: map<string, HealthChange>, switched: Option<SwitchEvent>, artifact: Option<string>)
      requires Valid() && currentPrimary in peers && peers.Keys <= samples.Keys
      modifies this
      ensures Valid() && currentPrimary in peers
      ensures var snapshot := CycledPeers(old(peers), samples, config.thresholds, config.damping.measurementWindow);
        && changes.Keys == (set k | k in old(peers) && old(peers[k]).isHealthy != snapshot[k].isHealthy)
        && (forall k :: k in changes ==>
              Some(changes[k]) == HealthTransition(old(peers[k]).isHealthy, snapshot[k], config.thresholds))
        && SwitchOutcome(config, now, snapshot, old(currentPrimary), old(lastSwitchTime),
                         peers, currentPrimary, lastSwitchTime, switched, artifact)
    {
      changes := MeasureAndEvaluate(samples);
      switched, artifact := SelectAndSwitch(now);
    }
  }
}
