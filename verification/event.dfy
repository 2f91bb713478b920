/** The records the reconstructor reads and writes, and its four thresholds. */
module Event {
  import opened Kinematics

  datatype Option<T> = None | Some(value: T)

  /** A charged-particle track: its four-momentum and its charge. A track's
      identity is its position in the event's track list. */
  datatype Track = Track(momentum: Momentum, charge: int)

  /** A reconstructed hadronic tau candidate. The source stores the visible
      momentum as (PT, Eta, Phi, Mass) read off the summed four-vector; the
      model keeps the four-vector itself. */
  datatype Tau = Tau(
    momentum: Momentum,
    charge: int,
    prongs: int,
    photons: int,
    neutralHadrons: int,
    isolation: real)

  /** The four thresholds of the module. */
  datatype Config = Config(
    minSeedPt: real,      // MinTauSeedPT
    maxSeedEta: real,     // MaxTauSeedEta
    maxIsolDeltaR: real,  // MaxTauIsolDeltaR
    maxCoreDeltaR: real)  // MaxTauCoreDeltaR

  /** The defaults set by the constructor and used by Init when a parameter
      is not configured. */
  function DefaultConfig(): Config {
    Config(5.0, 2.5, 0.5, 0.3)
  }

  /** The largest number of prongs an emitted tau may have. */
  const MaxProngs: int := 5
}
