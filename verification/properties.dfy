/** What a seed's outcome says about its neighbourhood. */
module TauProperties {
  import opened Kinematics
  import opened Event
  import opened Clustering
  import opened Trace

  /** A seed yields a tau exactly when its trace holds no veto and at most
      four core fragments; the tau's momentum is the seed's plus the core
      fragments', its charge the seed's plus theirs, its prong count one plus
      their number, and its isolation the pT summed over the isolation
      fragments. */
  lemma SeedTauFromTrace(cfg: Config, g: Geometry, tracks: seq<Track>, seed: nat, roles: seq<Role>)
    requires seed < |tracks| && Explains(cfg, g, tracks, seed, roles)
    ensures SeedTau(cfg, g, tracks, seed).Some?
            <==> Veto !in roles && 1 + CoreCount(roles, |roles|) <= MaxProngs
    ensures SeedTau(cfg, g, tracks, seed).Some? ==>
      SeedTau(cfg, g, tracks, seed).value ==
        Tau(Running(tracks, seed, roles, |roles|),
            tracks[seed].charge + CoreCharge(tracks, roles, |roles|),
            1 + CoreCount(roles, |roles|),
            0, 0,
            IsolationSum(g, tracks, roles, |roles|))
  {
    ClusterIsSummary(cfg, g, tracks, seed, roles);
  }

  /** A fragment inside the isolation cone that is harder than the seed
      vetoes it: the seed yields no tau and the scan reaches no later
      fragment. A fragment no harder than the seed (equal pT included) never
      vetoes, and the seed is never its own fragment. */
  lemma VetoRule(cfg: Config, g: Geometry, tracks: seq<Track>, seed: nat, roles: seq<Role>)
    requires seed < |tracks| && Explains(cfg, g, tracks, seed, roles)
    ensures forall k :: 0 <= k < |roles| && roles[k] == Veto ==>
      k == |roles| - 1 && SeedTau(cfg, g, tracks, seed).None?
    ensures forall k :: 0 <= k < |roles| && g.pt(tracks[k].momentum) <= g.pt(tracks[seed].momentum) ==>
      roles[k] != Veto
    ensures seed < |roles| ==> roles[seed] == SeedItself
  {
    SeedTauFromTrace(cfg, g, tracks, seed, roles);
    forall k | 0 <= k < |roles|
      ensures g.pt(tracks[k].momentum) <= g.pt(tracks[seed].momentum) ==> roles[k] != Veto
      ensures k == seed ==> roles[k] == SeedItself
    {
      assert RoleFits(cfg, g, tracks, seed, roles, k);
    }
  }

  lemma {:induction false} IsolationSumNonNegative(g: Geometry, tracks: seq<Track>, roles: seq<Role>, k: nat)
    requires PtNonNegative(g) && k <= |roles| <= |tracks|
    ensures IsolationSum(g, tracks, roles, k) >= 0.0
  {
    if k > 0 {
      IsolationSumNonNegative(g, tracks, roles, k - 1);
      assert g.pt(tracks[k - 1].momentum) >= 0.0;
    }
  }

  lemma {:induction false} IsolationSumZero(g: Geometry, tracks: seq<Track>, roles: seq<Role>, k: nat)
    requires k <= |roles| <= |tracks|
    requires forall i :: 0 <= i < k ==> roles[i] != Isolation
    ensures IsolationSum(g, tracks, roles, k) == 0.0
  {
    if k > 0 {
      IsolationSumZero(g, tracks, roles, k - 1);
    }
  }

  /** The isolation of an emitted tau is never negative, and it is zero when
      no fragment fell in the isolation annulus. */
  lemma IsolationBounds(cfg: Config, g: Geometry, tracks: seq<Track>, seed: nat, roles: seq<Role>)
    requires seed < |tracks| && Explains(cfg, g, tracks, seed, roles)
    requires SeedTau(cfg, g, tracks, seed).Some?
    ensures PtNonNegative(g) ==> SeedTau(cfg, g, tracks, seed).value.isolation >= 0.0
    ensures Isolation !in roles ==> SeedTau(cfg, g, tracks, seed).value.isolation == 0.0
  {
    SeedTauFromTrace(cfg, g, tracks, seed, roles);
    if PtNonNegative(g) {
      IsolationSumNonNegative(g, tracks, roles, |roles|);
    }
    if Isolation !in roles {
      IsolationSumZero(g, tracks, roles, |roles|);
    }
  }

  lemma {:induction false} LoneScan(cfg: Config, g: Geometry, tracks: seq<Track>, seed: nat, j: nat)
    requires seed < |tracks| && j <= |tracks|
    requires forall i :: 0 <= i < |tracks| && i != seed ==>
      g.deltaR(tracks[seed].momentum, tracks[i].momentum) >= cfg.maxIsolDeltaR
    ensures Scan(cfg, g, tracks, seed, j, Start(tracks[seed])) == Start(tracks[seed])
    decreases |tracks| - j
  {
    if j < |tracks| {
      LoneScan(cfg, g, tracks, seed, j + 1);
    }
  }

  /** A seed with no other track inside its isolation cone yields a tau with
      the seed's momentum and charge, one prong and zero isolation. */
  lemma LoneSeed(cfg: Config, g: Geometry, tracks: seq<Track>, seed: nat)
    requires seed < |tracks|
    requires forall i :: 0 <= i < |tracks| && i != seed ==>
      g.deltaR(tracks[seed].momentum, tracks[i].momentum) >= cfg.maxIsolDeltaR
    ensures SeedTau(cfg, g, tracks, seed)
            == Some(Tau(tracks[seed].momentum, tracks[seed].charge, 1, 0, 0, 0.0))
  {
    LoneScan(cfg, g, tracks, seed, 0);
  }

  lemma {:induction false} LeadingScan(cfg: Config, g: Geometry, tracks: seq<Track>, seed: nat, j: nat, st: State)
    requires seed < |tracks| && j <= |tracks| && st.selected
    requires forall i :: 0 <= i < |tracks| ==>
      g.pt(tracks[i].momentum) <= g.pt(tracks[seed].momentum)
    ensures Scan(cfg, g, tracks, seed, j, st).selected
    decreases |tracks| - j
  {
    if j < |tracks| {
      var fragment := tracks[j].momentum;
      LeadingScan(cfg, g, tracks, seed, j + 1, st);
      LeadingScan(cfg, g, tracks, seed, j + 1,
        st.(momentum := Add(st.momentum, fragment), charge := st.charge + tracks[j].charge, prongs := st.prongs + 1));
      LeadingScan(cfg, g, tracks, seed, j + 1, st.(isolation := st.isolation + g.pt(fragment)));
    }
  }

  /** The hardest track of the event is never vetoed: it yields a tau
      exactly when it gathers at most four core fragments. */
  lemma LeadingSeedNotVetoed(cfg: Config, g: Geometry, tracks: seq<Track>, seed: nat)
    requires seed < |tracks|
    requires forall i :: 0 <= i < |tracks| ==>
      g.pt(tracks[i].momentum) <= g.pt(tracks[seed].momentum)
    ensures Cluster(cfg, g, tracks, seed).selected
    ensures SeedTau(cfg, g, tracks, seed).Some? <==> Cluster(cfg, g, tracks, seed).prongs <= MaxProngs
  {
    LeadingScan(cfg, g, tracks, seed, 0, Start(tracks[seed]));
  }
}
