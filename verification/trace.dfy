/** A declarative account of one seed's scan.

    A trace gives every track the scan reached a role: the seed itself, a
    fragment outside the isolation cone, the fragment that vetoes the seed,
    a fragment merged into the core, or a fragment counted in isolation.
    `Explains` says when a trace is the right one, position by position,
    measuring each fragment against the momentum of the seed plus the core
    fragments before it. The lemmas show that exactly one trace explains a
    scan, and that the scan's final state is the summary of that trace.
 */
module Trace {
  import opened Kinematics
  import opened Event
  import opened Clustering

  datatype Role = SeedItself | Outside | Veto | Core | Isolation

  /** The seed's momentum plus the momenta of the core fragments among the
      first `k` positions. */
  function Running(tracks: seq<Track>, seed: nat, roles: seq<Role>, k: nat): Momentum
    requires seed < |tracks| && k <= |roles| <= |tracks|
  {
    if k == 0 then tracks[seed].momentum
    else
      var m := Running(tracks, seed, roles, k - 1);
      if roles[k - 1] == Core then Add(m, tracks[k - 1].momentum) else m
  }

  /** How many of the first `k` positions are core fragments. */
  function CoreCount(roles: seq<Role>, k: nat): nat
    requires k <= |roles|
  {
    if k == 0 then 0
    else CoreCount(roles, k - 1) + (if roles[k - 1] == Core then 1 else 0)
  }

  /** The summed charge of the core fragments among the first `k` positions. */
  function CoreCharge(tracks: seq<Track>, roles: seq<Role>, k: nat): int
    requires k <= |roles| <= |tracks|
  {
    if k == 0 then 0
    else CoreCharge(tracks, roles, k - 1) + (if roles[k - 1] == Core then tracks[k - 1].charge else 0)
  }

  /** The summed pT of the isolation fragments among the first `k` positions. */
  function IsolationSum(g: Geometry, tracks: seq<Track>, roles: seq<Role>, k: nat): real
    requires k <= |roles| <= |tracks|
  {
    if k == 0 then 0.0
    else IsolationSum(g, tracks, roles, k - 1)
         + (if roles[k - 1] == Isolation then g.pt(tracks[k - 1].momentum) else 0.0)
  }

  /** Position `k` has the role its distance from the running momentum and
      its pT relative to the seed call for. */
  predicate RoleFits(cfg: Config, g: Geometry, tracks: seq<Track>, seed: nat, roles: seq<Role>, k: nat)
    requires seed < |tracks| && k < |roles| <= |tracks|
  {
    var deltaR := g.deltaR(Running(tracks, seed, roles, k), tracks[k].momentum);
    var harder := g.pt(tracks[k].momentum) > g.pt(tracks[seed].momentum);
    match roles[k]
    case SeedItself => k == seed
    case Outside => k != seed && deltaR >= cfg.maxIsolDeltaR
    case Veto => k != seed && deltaR < cfg.maxIsolDeltaR && harder
    case Core => k != seed && deltaR < cfg.maxIsolDeltaR && !harder && deltaR < cfg.maxCoreDeltaR
    case Isolation => k != seed && deltaR < cfg.maxIsolDeltaR && !harder && deltaR >= cfg.maxCoreDeltaR
  }

  /** The first `|roles|` positions have fitting roles and none is a veto. */
  predicate FitsSoFar(cfg: Config, g: Geometry, tracks: seq<Track>, seed: nat, roles: seq<Role>)
    requires seed < |tracks|
  {
    && |roles| <= |tracks|
    && (forall k :: 0 <= k < |roles| ==> roles[k] != Veto)
    && (forall k :: 0 <= k < |roles| ==> RoleFits(cfg, g, tracks, seed, roles, k))
  }

  /** `roles` is the complete trace of the seed's scan: every reached
      position fits its role, a veto can only be the last role, and the scan
      stops before the end of the list only at a veto. */
  predicate Explains(cfg: Config, g: Geometry, tracks: seq<Track>, seed: nat, roles: seq<Role>)
    requires seed < |tracks|
  {
    && |roles| <= |tracks|
    && (forall k :: 0 <= k < |roles| - 1 ==> roles[k] != Veto)
    && (|roles| < |tracks| ==> |roles| > 0 && roles[|roles| - 1] == Veto)
    && (forall k :: 0 <= k < |roles| ==> RoleFits(cfg, g, tracks, seed, roles, k))
  }

  /** The scan state after the first `k` positions of a veto-free trace. */
  function StateAt(g: Geometry, tracks: seq<Track>, seed: nat, roles: seq<Role>, k: nat): State
    requires seed < |tracks| && k <= |roles| <= |tracks|
  {
    State(Running(tracks, seed, roles, k),
          tracks[seed].charge + CoreCharge(tracks, roles, k),
          1 + CoreCount(roles, k),
          IsolationSum(g, tracks, roles, k),
          true)
  }

  /** The final scan state a trace describes: the sums over all its
      positions, selected exactly when it holds no veto. */
  function Summary(g: Geometry, tracks: seq<Track>, seed: nat, roles: seq<Role>): State
    requires seed < |tracks| && |roles| <= |tracks|
  {
    StateAt(g, tracks, seed, roles, |roles|).(selected := Veto !in roles)
  }

  // ---------------------------------------------------------------------
  // The sums only look at the positions before `k`.

  lemma {:induction false} RunningPrefix(tracks: seq<Track>, seed: nat, a: seq<Role>, b: seq<Role>, k: nat)
    requires seed < |tracks| && k <= |a| <= |tracks| && k <= |b| <= |tracks|
    requires a[..k] == b[..k]
    ensures Running(tracks, seed, a, k) == Running(tracks, seed, b, k)
  {
    if k > 0 {
      assert a[..k - 1] == a[..k][..k - 1];
      assert b[..k - 1] == b[..k][..k - 1];
      assert a[k - 1] == a[..k][k - 1];
      assert b[k - 1] == b[..k][k - 1];
      RunningPrefix(tracks, seed, a, b, k - 1);
    }
  }

  lemma RoleFitsPrefix(cfg: Config, g: Geometry, tracks: seq<Track>, seed: nat, a: seq<Role>, b: seq<Role>, k: nat)
    requires seed < |tracks| && k < |a| <= |tracks| && k < |b| <= |tracks|
    requires a[..k + 1] == b[..k + 1]
    ensures RoleFits(cfg, g, tracks, seed, a, k) == RoleFits(cfg, g, tracks, seed, b, k)
  {
    assert a[..k] == a[..k + 1][..k] && b[..k] == b[..k + 1][..k];
    RunningPrefix(tracks, seed, a, b, k);
    assert a[k] == a[..k + 1][k] && b[k] == b[..k + 1][k];
  }

  // ---------------------------------------------------------------------
  // Existence: the trace built one position at a time explains the scan.

  /** The role the next position gets after a veto-free prefix. */
  function NextRole(cfg: Config, g: Geometry, tracks: seq<Track>, seed: nat, roles: seq<Role>): (r: Role)
    requires seed < |tracks| && |roles| < |tracks|
    ensures RoleFits(cfg, g, tracks, seed, roles + [r], |roles|)
  {
    var k := |roles|;
    RunningPrefix(tracks, seed, roles + [Outside], roles, k);
    var role :=
      if k == seed then SeedItself
      else
        var deltaR := g.deltaR(Running(tracks, seed, roles, k), tracks[k].momentum);
        if deltaR >= cfg.maxIsolDeltaR then Outside
        else if g.pt(tracks[k].momentum) > g.pt(tracks[seed].momentum) then Veto
        else if deltaR < cfg.maxCoreDeltaR then Core
        else Isolation;
    RunningPrefix(tracks, seed, roles + [role], roles, k);
    role
  }

  /** Extends a veto-free prefix to a complete trace. */
  function TraceFrom(cfg: Config, g: Geometry, tracks: seq<Track>, seed: nat, roles: seq<Role>): (r: seq<Role>)
    requires seed < |tracks| && FitsSoFar(cfg, g, tracks, seed, roles)
    ensures Explains(cfg, g, tracks, seed, r)
    decreases |tracks| - |roles|
  {
    if |roles| == |tracks| then roles
    else
      var role := NextRole(cfg, g, tracks, seed, roles);
      var next := roles + [role];
      assert forall k :: 0 <= k < |roles| ==> RoleFits(cfg, g, tracks, seed, next, k) by {
        forall k | 0 <= k < |roles|
          ensures RoleFits(cfg, g, tracks, seed, next, k)
        {
          assert next[..k + 1] == roles[..k + 1];
          RoleFitsPrefix(cfg, g, tracks, seed, next, roles, k);
        }
      }
      if role == Veto then next
      else TraceFrom(cfg, g, tracks, seed, next)
  }

  /** The trace of the seed at position `seed`. */
  function TraceOf(cfg: Config, g: Geometry, tracks: seq<Track>, seed: nat): (r: seq<Role>)
    requires seed < |tracks|
    ensures Explains(cfg, g, tracks, seed, r)
  {
    TraceFrom(cfg, g, tracks, seed, [])
  }

  // ---------------------------------------------------------------------
  // Uniqueness.

  /** The role a position can take is determined by the positions before it. */
  lemma FitsDeterminesRole(cfg: Config, g: Geometry, tracks: seq<Track>, seed: nat, a: seq<Role>, b: seq<Role>, k: nat)
    requires seed < |tracks| && k < |a| <= |tracks| && k < |b| <= |tracks|
    requires a[..k] == b[..k]
    requires RoleFits(cfg, g, tracks, seed, a, k) && RoleFits(cfg, g, tracks, seed, b, k)
    ensures a[k] == b[k]
  {
    RunningPrefix(tracks, seed, a, b, k);
  }

  /** At most one trace explains a seed's scan. */
  lemma {:induction false} ExplainsUnique(cfg: Config, g: Geometry, tracks: seq<Track>, seed: nat, a: seq<Role>, b: seq<Role>)
    requires seed < |tracks|
    requires Explains(cfg, g, tracks, seed, a) && Explains(cfg, g, tracks, seed, b)
    ensures a == b
  {
    var n := if |a| < |b| then |a| else |b|;
    var k := 0;
    while k < n
      invariant 0 <= k <= n
      invariant a[..k] == b[..k]
    {
      FitsDeterminesRole(cfg, g, tracks, seed, a, b, k);
      assert a[..k + 1] == a[..k] + [a[k]];
      assert b[..k + 1] == b[..k] + [b[k]];
      k := k + 1;
    }
    if |a| < |b| {
      assert false;
    } else if |b| < |a| {
      assert false;
    }
    assert a == a[..n] && b == b[..n];
  }

  // ---------------------------------------------------------------------
  // The scan follows the trace.

  lemma StepSums(g: Geometry, tracks: seq<Track>, seed: nat, roles: seq<Role>, k: nat)
    requires seed < |tracks| && k < |roles| <= |tracks|
    ensures roles[k] != Core ==> Running(tracks, seed, roles, k + 1) == Running(tracks, seed, roles, k)
    ensures roles[k] != Core ==> CoreCount(roles, k + 1) == CoreCount(roles, k)
    ensures roles[k] != Core ==> CoreCharge(tracks, roles, k + 1) == CoreCharge(tracks, roles, k)
    ensures roles[k] != Isolation ==> IsolationSum(g, tracks, roles, k + 1) == IsolationSum(g, tracks, roles, k)
  {
  }

  /** From the state after a veto-free prefix of the trace, the scan ends in
      the trace's summary. */
  lemma {:induction false} ScanFollows(cfg: Config, g: Geometry, tracks: seq<Track>, seed: nat, roles: seq<Role>, j: nat)
    requires seed < |tracks| && Explains(cfg, g, tracks, seed, roles)
    requires j <= |roles|
    requires forall k :: 0 <= k < j ==> roles[k] != Veto
    ensures Scan(cfg, g, tracks, seed, j, StateAt(g, tracks, seed, roles, j)) == Summary(g, tracks, seed, roles)
    decreases |roles| - j
  {
    var st := StateAt(g, tracks, seed, roles, j);
    if j == |roles| {
      assert Veto !in roles;
      if j < |tracks| {
        assert false;
      }
    } else {
      assert RoleFits(cfg, g, tracks, seed, roles, j);
      StepSums(g, tracks, seed, roles, j);
      match roles[j]
      case Veto =>
        assert j == |roles| - 1;
      case SeedItself =>
        ScanFollows(cfg, g, tracks, seed, roles, j + 1);
      case Outside =>
        ScanFollows(cfg, g, tracks, seed, roles, j + 1);
      case Core =>
        ScanFollows(cfg, g, tracks, seed, roles, j + 1);
      case Isolation =>
        ScanFollows(cfg, g, tracks, seed, roles, j + 1);
    }
  }

  /** The final state of a seed's scan is the summary of any trace that
      explains it. */
  lemma ClusterIsSummary(cfg: Config, g: Geometry, tracks: seq<Track>, seed: nat, roles: seq<Role>)
    requires seed < |tracks| && Explains(cfg, g, tracks, seed, roles)
    ensures Cluster(cfg, g, tracks, seed) == Summary(g, tracks, seed, roles)
  {
    ScanFollows(cfg, g, tracks, seed, roles, 0);
  }
}
