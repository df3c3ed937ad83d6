/**
 * The validated configuration handed to the controller (the YAML records of
 * lagbuster.go). Latencies are whole milliseconds, durations whole seconds.
 * Only the fields the decision logic reads are kept.
 */
module Settings {

  /** One configured peer: its name, its static baseline and the BIRD variable it drives. */
  datatype PeerConfig = PeerConfig(name: string, expectedBaseline: int, birdVariable: string)

  datatype Thresholds = Thresholds(
    degradationThreshold: int,
    comfortThreshold: int,
    absoluteMaxLatency: int,
    timeoutLatency: int)

  datatype Damping = Damping(
    consecutiveUnhealthyCount: int,
    measurementInterval: int,
    cooldownPeriod: int,
    measurementWindow: int)

  /** `preferredPrimary == ""` means that no preferred primary is configured. */
  datatype Startup = Startup(initialPrimary: string, preferredPrimary: string)

  datatype Failback = Failback(
    enabled: bool,
    consecutiveHealthyCount: int,
    requireCooldownBeforeFailback: bool)

  datatype Config = Config(
    peers: seq<PeerConfig>,
    thresholds: Thresholds,
    damping: Damping,
    startup: Startup,
    failback: Failback,
    dryRun: bool)

  /** The names of the configured peers. */
  function ConfiguredNames(ps: seq<PeerConfig>): set<string>
  {
    set j | 0 <= j < |ps| :: ps[j].name
  }
}
