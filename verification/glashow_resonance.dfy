/** The Glashow-resonance cross section (nubar_e e- -> W-): its
    process and kinematics guards and the early returns of Integral. */
module GlashowResonance {
  import opened Pdg
  import opened Interactions

  /** The kinematic phase space a differential cross section is asked in. */
  datatype PhaseSpace = PhaseSpace(name: string)

  /** The differential cross section is not implemented: 0 for every input. */
  function XSec(i: Interaction, kps: PhaseSpace): (r: real)
    ensures r == 0.0
  {
    0.0
  }

  /** Every interaction has valid kinematics for this model. */
  function ValidKinematics(i: Interaction): (ok: bool)
    ensures ok
  {
    true
  }

  /** The process guard: a set skip-process-check bit accepts everything;
      otherwise each of three tests can reject in turn. */
  function ValidProcess(i: Interaction): (ok: bool)
    ensures i.skipProcessCheck ==> ok
    ensures !i.skipProcessCheck ==>
              (ok <==>
                 IsAntiNuE(i.initState.probe)
                 && i.initState.target.hitNucleon.None?
                 && IsWeakCC(i.procInfo.current))
  {
    if i.skipProcessCheck then true
    else
      var nuok := IsAntiNuE(i.initState.probe);
      var nucok := !i.initState.target.hitNucleon.Some?;
      var ccprcok := IsWeakCC(i.procInfo.current);
      if !nuok then false
      else if !nucok then false
      else if !ccprcok then false
      else true
  }

  /** The integrated cross section. The numeric formula (an energy-dependent
      Breit-Wigner in the W mass and width) is the parameter `resonance`;
      the guards in front of it are modelled. */
  function Integral(i: Interaction, resonance: Interaction -> real): (r: real)
    ensures !ValidProcess(i) ==> r == 0.0
    ensures !ValidKinematics(i) ==> r == 0.0
    ensures ValidProcess(i) ==> r == resonance(i)
  {
    if !ValidProcess(i) then 0.0
    else if !ValidKinematics(i) then 0.0
    else resonance(i)
  }

  // ---------------------------------------------------------------------
  // Properties

  /** ValidProcess reads nothing but the skip bit, the probe, whether a hit
      nucleon is set and whether the process is weak CC: two interactions
      that agree on these are judged alike, whatever their energies,
      struck quarks, scattering types or W. */
  lemma ValidProcessDependsOnlyOnChannel(i: Interaction, j: Interaction)
    requires i.skipProcessCheck == j.skipProcessCheck
    requires i.initState.probe == j.initState.probe
    requires i.initState.target.hitNucleon.Some? == j.initState.target.hitNucleon.Some?
    requires IsWeakCC(i.procInfo.current) == IsWeakCC(j.procInfo.current)
    ensures ValidProcess(i) == ValidProcess(j)
  {
  }

  /** Integral is zero unless the process is valid; the formula alone
      decides the value of a valid one. */
  lemma IntegralVanishesOffChannel(i: Interaction, resonance: Interaction -> real, other: Interaction -> real)
    ensures !ValidProcess(i) ==> Integral(i, resonance) == Integral(i, other) == 0.0
    ensures resonance(i) == other(i) ==> Integral(i, resonance) == Integral(i, other)
  {
  }
}
