/** The parts of an interaction that the modelled decisions read. Only the
    discrete descriptor matters to them; the continuous kinematics are
    carried along so that "depends only on" can be stated. */
module Interactions {
  import opened Wrappers
  import opened Pdg

  datatype ScatteringType = QuasiElastic | Resonant | DeepInelastic | Coherent | GlashowResonance | UnknownScattering

  /** The struck constituents of the target: nucleon, parton and whether the
      parton came from the sea. `None` means the field was never set. */
  datatype Target = Target(hitNucleon: Option<Nucleon>, hitQuark: Option<Quark>, quarkFromSea: bool)

  datatype InitialState = InitialState(probe: Probe, target: Target, probeEnergy: real)

  datatype ProcessInfo = ProcessInfo(current: Current, scattering: ScatteringType)

  /** An interaction: initial state, process description, the hadronic
      invariant mass W and the skip-process-check status bit. */
  datatype Interaction = Interaction(
    initState: InitialState,
    procInfo: ProcessInfo,
    hadronicW: real,
    skipProcessCheck: bool)
}
