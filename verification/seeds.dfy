/** Seed selection: the first loop of the pass. */
module SeedSelection {
  import opened Kinematics
  import opened Event

  /** A track is a seed unless its pT is below the minimum or its |eta| is
      above the maximum; both rejection tests are strict. */
  predicate IsSeed(cfg: Config, g: Geometry, t: Track) {
    !(g.pt(t.momentum) < cfg.minSeedPt || Abs(g.eta(t.momentum)) > cfg.maxSeedEta)
  }

  predicate StrictlyIncreasing(s: seq<nat>) {
    forall i, j :: 0 <= i < j < |s| ==> s[i] < s[j]
  }

  /** The positions of the seeds among `tracks`, in input order. */
  function Seeds(cfg: Config, g: Geometry, tracks: seq<Track>): (r: seq<nat>)
    ensures forall k :: 0 <= k < |r| ==> r[k] < |tracks|
    ensures StrictlyIncreasing(r)
    ensures forall i :: 0 <= i < |tracks| ==>
      (i in r <==> g.pt(tracks[i].momentum) >= cfg.minSeedPt
                   && Abs(g.eta(tracks[i].momentum)) <= cfg.maxSeedEta)
    decreases |tracks|
  {
    if |tracks| == 0 then []
    else
      var last := |tracks| - 1;
      Seeds(cfg, g, tracks[..last]) + (if IsSeed(cfg, g, tracks[last]) then [last] else [])
  }

  /** With the default thresholds a track exactly at pT = 5 and |eta| = 2.5
      is still a seed. */
  lemma DefaultBoundaryIsSeed(g: Geometry, t: Track)
    requires g.pt(t.momentum) == 5.0 && Abs(g.eta(t.momentum)) == 2.5
    ensures IsSeed(DefaultConfig(), g, t)
  {
  }
}
