/** Particle codes as enumerations. The PDG code tables and the `pdg::Is*`
    helpers are not part of this model; each helper becomes a test on the
    enumeration below. */
module Pdg {

  datatype LeptonFlavour = Electron | Muon | Tau

  /** The probe of an interaction. */
  datatype Probe =
    | Neutrino(flavour: LeptonFlavour)
    | AntiNeutrino(flavour: LeptonFlavour)
    | NonNeutrino(pdg: int)

  predicate IsNeutrino(p: Probe) { p.Neutrino? }
  predicate IsAntiNeutrino(p: Probe) { p.AntiNeutrino? }
  predicate IsAntiNuE(p: Probe) { p == AntiNeutrino(Electron) }

  datatype Nucleon = Proton | Neutron

  datatype QuarkFlavour = Down | Up | Strange | Charm | Bottom | Top

  /** A quark or, when `anti` is set, an antiquark. */
  datatype Quark = Quark(flavour: QuarkFlavour, anti: bool)

  const UQuark := Quark(Up, false)
  const DQuark := Quark(Down, false)
  const UQuarkBar := Quark(Up, true)
  const DQuarkBar := Quark(Down, true)

  predicate IsUQuark(q: Quark) { q == UQuark }
  predicate IsDQuark(q: Quark) { q == DQuark }
  predicate IsUAntiQuark(q: Quark) { q == UQuarkBar }
  predicate IsDAntiQuark(q: Quark) { q == DQuarkBar }

  /** The spin-1 light diquarks; `NoDiquark` stands for the PDG code 0. */
  datatype Diquark = NoDiquark | UUDiquarkS1 | UDDiquarkS1 | DDDiquarkS1

  /** The interaction type recorded in a process description. */
  datatype Current = WeakCC | WeakNC | WeakMix | Electromagnetic | Strong | UnknownInteraction

  predicate IsWeakCC(c: Current) { c == WeakCC }
  predicate IsWeakNC(c: Current) { c == WeakNC }
  predicate IsWeak(c: Current) { c == WeakCC || c == WeakNC || c == WeakMix }
}
