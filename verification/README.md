# Tau reconstruction from tracks: a Dafny model

This project models the per-event pass of Delphes' `TauReconstructor` module,
`TauReconstructor::Process`. It builds hadronic tau candidates from the event's
charged-particle tracks, and the pass has three steps:

1. **Seed selection.** A track is a seed unless its pT is below `MinTauSeedPT`
   or its |η| is above `MaxTauSeedEta`. Seeds keep input order.
2. **Fragment scan.** Each seed starts a fresh state: the seed's momentum, its
   charge, one prong and zero isolation. The scan then visits every other track
   in the event. It measures each fragment's ΔR against the running tau
   momentum:
   - ΔR at or beyond `MaxTauIsolDeltaR`: the fragment is ignored.
   - Inside the isolation cone and harder than the seed: the seed is vetoed and
     the scan stops.
   - Inside the core cone `MaxTauCoreDeltaR`: the fragment is merged. Its
     momentum and charge are added and the prong count goes up by one.
   - Otherwise: the fragment's pT is added to the isolation sum.
3. **Acceptance.** A seed that was not vetoed and has at most five prongs yields
   one tau. The tau's photon and neutral-hadron counts are zero.

The model's pieces, one file per module:

- `kinematics.dfy` (`Kinematics`): the `Momentum` four-vector over reals and
  its componentwise sum. It also holds a `Geometry` value that carries pT, η and
  ΔR as opaque functions, so every result holds for any choice of them.
- `event.dfy` (`Event`): the `Track` and `Tau` records, the `Config` of the four
  thresholds, and the defaults 5.0, 2.5, 0.5 and 0.3.
- `seeds.dfy` (`SeedSelection`): the seed filter.
- `clustering.dfy` (`Clustering`): the scan, written as a left fold
  (`Scan`), and the tau a seed yields (`SeedTau`).
- `trace.dfy` (`Trace`): a declarative reference for the scan. A trace gives
  each reached track a role: the seed itself, outside, veto, core or isolation.
  `Explains` says which trace is the right one, position by position. The
  lemmas prove that exactly one trace explains each scan, and that the scan's
  final state is that trace's summary.
- `properties.dfy` (`TauProperties`): the promised properties of one seed's
  outcome, derived from the trace.
- `reconstructor.dfy` (`Reconstructor`): the whole event.
  - `Reconstruct` is the functional definition.
  - `Process` is the imperative version. It mirrors the source's loops,
    including the `break` at a veto, and is proved equal to `Reconstruct`.

A track's identity is its position in the event's track list. The source tells
the seed apart from the other fragments by comparing pointers.

Two details of the code that the model keeps:

- ΔR is measured against the running sum `recoTau` (line 45), which each core
  merge updates (line 54). It is not measured against the seed's own direction.
- The isolation annulus is `core ≤ ΔR < isol`: line 46 admits ΔR below the
  isolation radius, and line 53 sends ΔR below the core radius to the core.

All functions are pure. Running the pass twice on the same tracks and
thresholds therefore gives the same list by construction.

## Model

| member | source | states |
|---|---|---|
| SeedSelection.Seeds | modules/TauReconstructor.cc:24-31 | The seed list holds the positions of exactly those tracks with pT ≥ the minimum and \|η\| ≤ the maximum, boundaries included. It lists them in strictly increasing input order, and every entry is a valid position. |
| SeedSelection.DefaultBoundaryIsSeed | modules/TauReconstructor.cc:27 | With the constructor defaults, a track at exactly pT = 5 and \|η\| = 2.5 is a seed, because both rejection tests are strict. |
| Clustering.Scan | modules/TauReconstructor.cc:42-65 | The scan never lowers the prong count. It adds at most one prong per visited track other than the seed, and it can deselect a seed but never reselect it. |
| Clustering.Cluster | modules/TauReconstructor.cc:36-65 | After the reset and the scan of one seed, the prong count is at least 1 and at most the number of tracks in the event, since the seed never merges itself. |
| Clustering.TauOf | modules/TauReconstructor.cc:102-117 | A finished scan yields a tau exactly when the seed is still selected and has at most five prongs. The tau then has 1 to 5 prongs and zero photons and neutral hadrons. |
| Clustering.SeedTau | modules/TauReconstructor.cc:36-117 | Every tau a seed yields has 1 to 5 prongs and zero photon and neutral-hadron counts. |
| Trace.TraceOf | modules/TauReconstructor.cc:42-65 | Every seed's scan has a trace that explains it. Each reached track gets a role: the seed is its own role, and every fragment's role matches its ΔR to the running momentum and its pT against the seed's. A veto can only be last, and the trace ends early only at a veto. |
| Trace.ExplainsUnique | modules/TauReconstructor.cc:42-65 | At most one trace explains a seed's scan, so a fragment's role is determined by the tracks before it. |
| Trace.ClusterIsSummary | modules/TauReconstructor.cc:37-65 | The scan ends in the summary of its trace. The momentum is the seed's plus the core fragments', and the charge is the seed's plus theirs. The prong count is one plus their number, and the isolation is the pT summed over the isolation fragments. The seed stays selected exactly when the trace has no veto. |
| TauProperties.SeedTauFromTrace | modules/TauReconstructor.cc:38-116 | A seed yields a tau exactly when its trace has no veto and 1 + (number of core fragments) ≤ 5. That tau's momentum, charge, prong count and isolation are the trace's sums, and its photon and neutral-hadron counts are 0. |
| TauProperties.VetoRule | modules/TauReconstructor.cc:44-50 | A harder fragment inside the isolation cone is the last track the scan reaches, and the seed yields no tau. A fragment whose pT is at most the seed's, equal pT included, never vetoes. The seed is never its own fragment. |
| TauProperties.IsolationBounds | modules/TauReconstructor.cc:39-61 | An emitted tau's isolation is ≥ 0 whenever pT is never negative. It is exactly 0 when no fragment fell in the isolation annulus. |
| TauProperties.LoneSeed | modules/TauReconstructor.cc:38-45 | A seed with no other track inside its isolation cone yields a tau with the seed's momentum and charge, one prong and zero isolation. |
| TauProperties.LeadingSeedNotVetoed | modules/TauReconstructor.cc:46-50 | A seed at least as hard as every track in the event is never vetoed. It yields a tau exactly when it has at most five prongs. |
| Reconstructor.Collect | modules/TauReconstructor.cc:34-119 | A seed list yields at most one tau per seed. Each tau has 1 to 5 prongs and zero photon and neutral-hadron counts. |
| Reconstructor.CollectAppend | modules/TauReconstructor.cc:34-35 | Seeds are evaluated independently and in order: the taus of two concatenated seed lists are the concatenation of their taus. |
| Reconstructor.CollectMembers | modules/TauReconstructor.cc:34-116 | A tau comes out of a seed list exactly when some seed in the list yields it. |
| Reconstructor.Reconstruct | modules/TauReconstructor.cc:23-119 | The event's taus number at most the seeds. Each has 1 to 5 prongs and zero photon and neutral-hadron counts. |
| Reconstructor.ReconstructMembers | modules/TauReconstructor.cc:23-119 | The event's taus are exactly the taus that its seeds yield. |
| Reconstructor.ReconstructLength | modules/TauReconstructor.cc:26-34 | There are at most as many taus as seeds, and at most as many seeds as tracks. An event without tracks therefore has no taus. |
| Reconstructor.SelectSeeds | modules/TauReconstructor.cc:24-31 | The seed-selection loop computes exactly the seed list. |
| Reconstructor.ScanSeed | modules/TauReconstructor.cc:36-65 | The reset and fragment loop of one seed, including the early exit at a veto, end in the state of the functional scan. |
| Reconstructor.ClusterSeeds | modules/TauReconstructor.cc:34-119 | The seed loop builds exactly the functional list of taus for its seeds. |
| Reconstructor.Process | modules/TauReconstructor.cc:23-121 | The pass returns exactly the event's taus, and each has 1 to 5 prongs. |
| Reconstructor.ProcessAsWritten | modules/TauReconstructor.cc:23-121 | The pass as written builds exactly the event's taus into its local list, and it leaves the output collection exactly as it found it. |
| Reconstructor.OutputAsWrittenLosesTaus | modules/TauReconstructor.cc:116-121 | Take one isolated track with pT 10 and η 0, and an output collection that is empty at the start of the event. The pass as written builds one tau, yet the collection it leaves does not hold it. |

## Findings

| source | as written | input that shows it | evidently intended | confidence | as-written member | corrected member |
|---|---|---|---|---|---|---|
| modules/TauReconstructor.cc:116-121 | The taus are appended to the local vector `recTaus`, which goes out of scope; nothing is ever added to `fOutputArray` | one track with pT 10, η 0 and no neighbours, with the output collection empty at the start of the event: a tau is built but the collection stays empty | the taus are published to the output collection | high; not executed | Reconstructor.ProcessAsWritten (shown by Reconstructor.OutputAsWrittenLosesTaus) | Reconstructor.Process |

The rest of the model uses the corrected behaviour: `Process` returns the list of taus.

## Left out

- `Init` and the framework plumbing (`GetDouble`, `GetString`, `ImportArray`,
  `ExportArray`, iterators) are framework I/O. The thresholds are an immutable
  `Config` value, and the event's tracks are a sequence argument.
- `TLorentzVector` internals (`Pt`, `Eta`, `Phi`, `M`, `DeltaR`,
  `SetPtEtaPhiM`) are floating-point, trigonometric routines of a foreign
  library. pT, η and ΔR are opaque functions in `Geometry`. Momenta are exact
  reals, so there is no rounding, NaN or infinity. For example, the model does
  not show that a NaN pT passes both seed tests.
- At line 38 the source rebuilds the seed momentum from its (pT, η, φ, m). The
  model takes the seed's four-vector itself. In exact arithmetic that is the
  same vector when E ≥ 0 and pT > 0, which holds for every physical seed under
  a positive `MinTauSeedPT`. The rebuild would flip a negative E, and at
  pT = 0 η is not finite.
- The tau's stored `PT`, `Eta`, `Phi` and `Mass` are read off the summed
  four-vector by `TLorentzVector`. The model's `Tau` keeps the four-vector.
- The commented-out photon and neutral-hadron loops and the commented `tau.T`
  are inactive code. Only their always-zero counters are modelled.
- Track identity: the model assumes each track object appears once in the
  input. A track is its position in the list, while line 44 compares pointers.
  If one object sat at two positions, the source would skip both for that seed,
  but the model would treat the second copy as a fragment.
- The constructor, destructor and `Finish` are empty. The constructor's
  defaults are `DefaultConfig`.
- Integer widths: the charge sum and prong count are `int` and the seed index is
  `UInt_t`. They are unbounded in the model, because no event has enough tracks
  to overflow them.
