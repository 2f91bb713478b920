/** The whole per-event pass: select the seeds, cluster each one, keep the
    taus that survive. */
module Reconstructor {
  import opened Kinematics
  import opened Event
  import opened SeedSelection
  import opened Clustering

  function Emit(o: Option<Tau>): seq<Tau> {
    if o.Some? then [o.value] else []
  }

  predicate ValidSeeds(tracks: seq<Track>, seeds: seq<nat>) {
    forall k :: 0 <= k < |seeds| ==> seeds[k] < |tracks|
  }

  /** The taus yielded by `seeds`, evaluated one after another: at most one
      per seed, each with one to five prongs and no photons or neutral
      hadrons. */
  function Collect(cfg: Config, g: Geometry, tracks: seq<Track>, seeds: seq<nat>): (r: seq<Tau>)
    requires ValidSeeds(tracks, seeds)
    ensures |r| <= |seeds|
    ensures forall t :: t in r ==>
      1 <= t.prongs <= MaxProngs && t.photons == 0 && t.neutralHadrons == 0
    decreases |seeds|
  {
    if |seeds| == 0 then []
    else
      Collect(cfg, g, tracks, seeds[..|seeds| - 1])
      + Emit(SeedTau(cfg, g, tracks, seeds[|seeds| - 1]))
  }

  /** The taus of one event. */
  function Reconstruct(cfg: Config, g: Geometry, tracks: seq<Track>): (r: seq<Tau>)
    ensures |r| <= |Seeds(cfg, g, tracks)|
    ensures forall t :: t in r ==>
      1 <= t.prongs <= MaxProngs && t.photons == 0 && t.neutralHadrons == 0
  {
    Collect(cfg, g, tracks, Seeds(cfg, g, tracks))
  }

  /** Seeds are evaluated independently and in order: the taus of a
      concatenation of seed lists are the concatenation of their taus. */
  lemma {:induction false} CollectAppend(cfg: Config, g: Geometry, tracks: seq<Track>, a: seq<nat>, b: seq<nat>)
    requires ValidSeeds(tracks, a) && ValidSeeds(tracks, b)
    ensures ValidSeeds(tracks, a + b)
    ensures Collect(cfg, g, tracks, a + b) == Collect(cfg, g, tracks, a) + Collect(cfg, g, tracks, b)
    decreases |b|
  {
    if |b| > 0 {
      var b' := b[..|b| - 1];
      assert (a + b)[..|a + b| - 1] == a + b';
      CollectAppend(cfg, g, tracks, a, b');
    } else {
      assert a + b == a;
    }
  }

  /** A tau is emitted from a seed list exactly when some seed in it yields
      that tau. */
  lemma {:induction false} CollectMembers(cfg: Config, g: Geometry, tracks: seq<Track>, seeds: seq<nat>, t: Tau)
    requires ValidSeeds(tracks, seeds)
    ensures t in Collect(cfg, g, tracks, seeds)
            <==> exists k :: 0 <= k < |seeds| && SeedTau(cfg, g, tracks, seeds[k]) == Some(t)
    decreases |seeds|
  {
    if |seeds| > 0 {
      var init := seeds[..|seeds| - 1];
      CollectMembers(cfg, g, tracks, init, t);
      if exists k :: 0 <= k < |seeds| && SeedTau(cfg, g, tracks, seeds[k]) == Some(t) {
        var k :| 0 <= k < |seeds| && SeedTau(cfg, g, tracks, seeds[k]) == Some(t);
        if k < |seeds| - 1 {
          assert init[k] == seeds[k];
        }
      }
      if exists k :: 0 <= k < |init| && SeedTau(cfg, g, tracks, init[k]) == Some(t) {
        var k :| 0 <= k < |init| && SeedTau(cfg, g, tracks, init[k]) == Some(t);
        assert seeds[k] == init[k];
      }
    }
  }

  /** The event's taus are exactly the taus its seeds yield. */
  lemma ReconstructMembers(cfg: Config, g: Geometry, tracks: seq<Track>, t: Tau)
    ensures t in Reconstruct(cfg, g, tracks)
            <==> exists i :: 0 <= i < |tracks| && IsSeed(cfg, g, tracks[i])
                             && SeedTau(cfg, g, tracks, i) == Some(t)
  {
    var seeds := Seeds(cfg, g, tracks);
    CollectMembers(cfg, g, tracks, seeds, t);
    if t in Reconstruct(cfg, g, tracks) {
      var k :| 0 <= k < |seeds| && SeedTau(cfg, g, tracks, seeds[k]) == Some(t);
      assert seeds[k] in seeds;
      assert IsSeed(cfg, g, tracks[seeds[k]]);
    } else {
      forall i | 0 <= i < |tracks| && IsSeed(cfg, g, tracks[i])
        ensures SeedTau(cfg, g, tracks, i) != Some(t)
      {
        assert i in seeds;
        var k :| 0 <= k < |seeds| && seeds[k] == i;
      }
    }
  }

  /** There are no more taus than seeds and no more seeds than tracks, so an
      event without tracks has no taus. */
  lemma ReconstructLength(cfg: Config, g: Geometry, tracks: seq<Track>)
    ensures |Reconstruct(cfg, g, tracks)| <= |Seeds(cfg, g, tracks)| <= |tracks|
  {
  }

  /** The first loop of the pass: keeps, in input order, the position of
      every track that passes both seed thresholds. */
  method SelectSeeds(cfg: Config, g: Geometry, tracks: seq<Track>) returns (seeds: seq<nat>)
    ensures seeds == Seeds(cfg, g, tracks)
  {
    seeds := [];
    var i := 0;
    while i < |tracks|
      invariant 0 <= i <= |tracks|
      invariant seeds == Seeds(cfg, g, tracks[..i])
    {
      assert tracks[..i + 1][..i] == tracks[..i];
      var m := tracks[i].momentum;
      if g.pt(m) < cfg.minSeedPt || Abs(g.eta(m)) > cfg.maxSeedEta {
      } else {
        seeds := seeds + [i];
      }
      i := i + 1;
    }
    assert tracks[..|tracks|] == tracks;
  }

  /** The fragment loop of one seed: resets the working variables, then
      visits every other track, stopping at the first veto. */
  method ScanSeed(cfg: Config, g: Geometry, tracks: seq<Track>, seed: nat) returns (st: State)
    requires seed < |tracks|
    ensures st == Cluster(cfg, g, tracks, seed)
  {
    st := Start(tracks[seed]);
    var j := 0;
    while j < |tracks|
      invariant 0 <= j <= |tracks|
      invariant st.selected
      invariant Scan(cfg, g, tracks, seed, j, st) == Cluster(cfg, g, tracks, seed)
    {
      if j != seed {
        var fragment := tracks[j];
        var deltaR := g.deltaR(st.momentum, fragment.momentum);
        if deltaR < cfg.maxIsolDeltaR {
          if g.pt(fragment.momentum) > g.pt(tracks[seed].momentum) {
            st := st.(selected := false);
            return;
          } else if deltaR < cfg.maxCoreDeltaR {
            st := st.(momentum := Add(st.momentum, fragment.momentum),
                      charge := st.charge + fragment.charge,
                      prongs := st.prongs + 1);
          } else {
            st := st.(isolation := st.isolation + g.pt(fragment.momentum));
          }
        }
      }
      j := j + 1;
    }
  }

  lemma CollectStep(cfg: Config, g: Geometry, tracks: seq<Track>, seeds: seq<nat>, n: nat)
    requires ValidSeeds(tracks, seeds) && n < |seeds|
    ensures Collect(cfg, g, tracks, seeds[..n + 1])
            == Collect(cfg, g, tracks, seeds[..n]) + Emit(SeedTau(cfg, g, tracks, seeds[n]))
  {
    assert seeds[..n + 1][..n] == seeds[..n];
  }

  /** The seed loop of the pass: scans each seed in turn and appends a tau
      for every selected seed with at most five prongs. */
  method ClusterSeeds(cfg: Config, g: Geometry, tracks: seq<Track>, seeds: seq<nat>) returns (taus: seq<Tau>)
    requires ValidSeeds(tracks, seeds)
    ensures taus == Collect(cfg, g, tracks, seeds)
  {
    taus := [];
    var n := 0;
    while n < |seeds|
      invariant 0 <= n <= |seeds|
      invariant taus == Collect(cfg, g, tracks, seeds[..n])
    {
      var st := ScanSeed(cfg, g, tracks, seeds[n]);
      if st.selected && st.prongs <= MaxProngs {
        taus := taus + [Tau(st.momentum, st.charge, st.prongs, 0, 0, st.isolation)];
      }
      CollectStep(cfg, g, tracks, seeds, n);
      n := n + 1;
    }
    assert seeds[..|seeds|] == seeds;
  }

  /** The pass as the module runs it: collect the seeds, then cluster them.
      It returns the list of taus it builds. */
  method Process(cfg: Config, g: Geometry, tracks: seq<Track>) returns (taus: seq<Tau>)
    ensures taus == Reconstruct(cfg, g, tracks)
    ensures forall t :: t in taus ==> 1 <= t.prongs <= MaxProngs
  {
    var seeds := SelectSeeds(cfg, g, tracks);
    taus := ClusterSeeds(cfg, g, tracks, seeds);
  }

  // ---------------------------------------------------------------------
  // The list of taus is never published.

  /** The pass exactly as written. The taus are built into a local list,
      `recTaus`, but the method never writes the output collection, so
      `output'` is `output` unchanged. */
  method ProcessAsWritten(cfg: Config, g: Geometry, tracks: seq<Track>, output: seq<Tau>)
    returns (output': seq<Tau>, recTaus: seq<Tau>)
    ensures recTaus == Reconstruct(cfg, g, tracks)
    ensures output' == output
  {
    var seeds := SelectSeeds(cfg, g, tracks);
    recTaus := ClusterSeeds(cfg, g, tracks, seeds);
    output' := output;
  }

  /** The event of one isolated track with pT 10 at eta 0. */
  function LoneTrackEvent(): seq<Track> {
    [Track(Momentum(10.0, 0.0, 0.0, 10.0), 1)]
  }

  /** A geometry where pT is px, every eta is 0 and all tracks are far apart. */
  function FarApart(): Geometry {
    Geometry((m: Momentum) => m.px, (m: Momentum) => 0.0, (a: Momentum, b: Momentum) => 1.0)
  }

  /** Take the lone track of `LoneTrackEvent`, with an output collection
      that starts empty for the event. The pass as written builds one tau,
      yet the collection it leaves behind does not hold it. The requires
      are what `ProcessAsWritten` promises for this input. */
  lemma OutputAsWrittenLosesTaus(output': seq<Tau>, recTaus: seq<Tau>)
    requires recTaus == Reconstruct(DefaultConfig(), FarApart(), LoneTrackEvent())
    requires output' == []
    ensures |recTaus| == 1
    ensures output' != recTaus
  {
    var g := FarApart();
    var tracks := LoneTrackEvent();
    var cfg := DefaultConfig();
    assert Seeds(cfg, g, tracks) == [0] by {
      assert tracks[..0] == [];
    }
    assert Scan(cfg, g, tracks, 0, 0, Start(tracks[0])) == Start(tracks[0]);
    assert Collect(cfg, g, tracks, [0]) == [Tau(tracks[0].momentum, 1, 1, 0, 0, 0.0)] by {
      assert [0][..0] == [];
    }
  }
}
