/** The per-seed fragment scan: the body of the second loop of the pass. */
module Clustering {
  import opened Kinematics
  import opened Event

  /** The working variables of one seed's scan: the running tau momentum
      (recoTau), the summed charge, the prong count, the isolation sum and
      whether the seed is still selected. */
  datatype State = State(
    momentum: Momentum,
    charge: int,
    prongs: int,
    isolation: real,
    selected: bool)

  /** The state a seed's scan starts from: the seed's own momentum and
      charge, one prong, no isolation, selected. */
  function Start(seed: Track): State {
    State(seed.momentum, seed.charge, 1, 0.0, true)
  }

  /** Scans `tracks[j..]` as fragments of the seed at position `seed`.
      Each fragment is measured against the running momentum; one that lies
      in the isolation cone and is harder than the seed deselects the seed
      and ends the scan; otherwise a fragment in the core cone is merged and
      one in the isolation annulus adds its pT to the isolation sum. */
  function Scan(cfg: Config, g: Geometry, tracks: seq<Track>, seed: nat, j: nat, st: State): (r: State)
    requires seed < |tracks| && j <= |tracks|
    ensures st.prongs <= r.prongs <= st.prongs + (|tracks| - j)
    ensures j <= seed ==> r.prongs <= st.prongs + (|tracks| - j) - 1
    ensures r.selected ==> st.selected
    decreases |tracks| - j
  {
    if j == |tracks| then st
    else if j == seed then Scan(cfg, g, tracks, seed, j + 1, st)
    else
      var fragment := tracks[j];
      var deltaR := g.deltaR(st.momentum, fragment.momentum);
      if deltaR < cfg.maxIsolDeltaR then
        if g.pt(fragment.momentum) > g.pt(tracks[seed].momentum) then
          st.(selected := false)
        else if deltaR < cfg.maxCoreDeltaR then
          Scan(cfg, g, tracks, seed, j + 1,
               st.(momentum := Add(st.momentum, fragment.momentum),
                   charge := st.charge + fragment.charge,
                   prongs := st.prongs + 1))
        else
          Scan(cfg, g, tracks, seed, j + 1,
               st.(isolation := st.isolation + g.pt(fragment.momentum)))
      else
        Scan(cfg, g, tracks, seed, j + 1, st)
  }

  /** The final state of the seed at position `seed`. */
  function Cluster(cfg: Config, g: Geometry, tracks: seq<Track>, seed: nat): (r: State)
    requires seed < |tracks|
    ensures 1 <= r.prongs <= |tracks|
  {
    Scan(cfg, g, tracks, seed, 0, Start(tracks[seed]))
  }

  /** The tau a finished scan yields, if any: a seed that stayed selected
      and has at most five prongs yields one, carrying the scan's sums;
      photon and neutral-hadron counts are always zero. */
  function TauOf(st: State): (r: Option<Tau>)
    requires st.prongs >= 1
    ensures r.Some? <==> st.selected && st.prongs <= MaxProngs
    ensures r.Some? ==> 1 <= r.value.prongs <= MaxProngs
    ensures r.Some? ==> r.value.photons == 0 && r.value.neutralHadrons == 0
  {
    if st.selected && st.prongs <= MaxProngs then
      Some(Tau(st.momentum, st.charge, st.prongs, 0, 0, st.isolation))
    else
      None
  }

  /** The tau the seed at position `seed` yields, if any. */
  function SeedTau(cfg: Config, g: Geometry, tracks: seq<Track>, seed: nat): (r: Option<Tau>)
    requires seed < |tracks|
    ensures r.Some? ==> 1 <= r.value.prongs <= MaxProngs
    ensures r.Some? ==> r.value.photons == 0 && r.value.neutralHadrons == 0
  {
    TauOf(Cluster(cfg, g, tracks, seed))
  }
}
