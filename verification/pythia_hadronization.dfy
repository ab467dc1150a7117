/** The decision part of the PYTHIA hadronizer: which quark / diquark
    system is handed to the string fragmentation for a given struck parton.
    The fragmentation call itself is not part of this model. */
module PythiaHadronization {
  import opened Wrappers
  import opened Pdg
  import opened Interactions

  /** Why the hadronizer refuses an interaction. Each constructor is one
      `exit(1)` or `assert` of the source. */
  datatype HadronizationError =
    | StruckQuarkNotSet          // assert: target has a struck quark
    | UnhandledNucleon           // exit: hit nucleon neither p nor n
    | NotWeakInteraction         // exit: neither weak CC nor weak NC
    | NonNeutrinoProbe           // exit: probe neither nu nor nubar
    | ModeNotAllowed             // assert: allowed interaction mode
    | NotWeakProcess             // assert: process is weak
    | NoFinalQuarkAssignment     // exit: CC case without a final quark
    | NoRemnantDiquark           // assert: diquark != 0

  /** The system that initiates the hadronization: the outgoing quark and
      the remnant diquark. */
  datatype QuarkSystem = QuarkSystem(finalQuark: Quark, diquark: Diquark)

  /** The remnant diquark for a quark hit. The source sets it by four
      independent `if`s, so a later match would overwrite an earlier one;
      the cases exclude each other, so at most one fires. */
  function QuarkHitDiquark(isp: bool, isn: bool, isu: bool, isd: bool): Diquark
  {
    var d0 := NoDiquark;
    var d1 := if isp && isu then UDDiquarkS1 else d0;
    var d2 := if isp && isd then UUDiquarkS1 else d1;
    var d3 := if isn && isu then DDDiquarkS1 else d2;
    if isn && isd then UDDiquarkS1 else d3
  }

  /** The sea-antiquark overrides: eight independent `if`s that each set
      both the final quark and the diquark, applied to the values the
      earlier steps produced. */
  function SeaAntiquarkOverride(sys: QuarkSystem, isp: bool, isn: bool, isub: bool, isdb: bool, iscc: bool, isnc: bool): QuarkSystem
  {
    var s1 := if isp && isub && iscc then QuarkSystem(UQuark, UUDiquarkS1) else sys;
    var s2 := if isp && isub && isnc then QuarkSystem(UQuark, UDDiquarkS1) else s1;
    var s3 := if isp && isdb && iscc then QuarkSystem(DQuark, UDDiquarkS1) else s2;
    var s4 := if isp && isdb && isnc then QuarkSystem(DQuark, UUDiquarkS1) else s3;
    var s5 := if isn && isub && iscc then QuarkSystem(UQuark, UDDiquarkS1) else s4;
    var s6 := if isn && isub && isnc then QuarkSystem(UQuark, DDDiquarkS1) else s5;
    var s7 := if isn && isdb && iscc then QuarkSystem(DQuark, DDDiquarkS1) else s6;
    if isn && isdb && isnc then QuarkSystem(DQuark, UDDiquarkS1) else s7
  }

  /** The checks and the quark / diquark selection of Hadronize, in the
      order the source performs them. */
  function SelectQuarkSystem(i: Interaction): (r: Result<QuarkSystem, HadronizationError>)
    ensures r.Success? ==> r.value.diquark != NoDiquark
    ensures r.Success? ==> r.value.finalQuark in {UQuark, DQuark, UQuarkBar, DQuarkBar}
    ensures r.Success? ==> i.initState.target.hitNucleon.Some?
    ensures r.Success? ==> IsNeutrino(i.initState.probe) || IsAntiNeutrino(i.initState.probe)
    ensures r.Success? ==> IsWeakCC(i.procInfo.current) || IsWeakNC(i.procInfo.current)
  {
    var tgt := i.initState.target;
    var probe := i.initState.probe;
    var current := i.procInfo.current;
    if tgt.hitQuark.None? then Failure(StruckQuarkNotSet)
    else
      var q := tgt.hitQuark.value;
      var isp := tgt.hitNucleon == Some(Proton);
      var isn := tgt.hitNucleon == Some(Neutron);
      var isv := IsNeutrino(probe);
      var isvb := IsAntiNeutrino(probe);
      var iscc := IsWeakCC(current);
      var isnc := IsWeakNC(current);
      if !(isp || isn) then Failure(UnhandledNucleon)
      else if !(iscc || isnc) then Failure(NotWeakInteraction)
      else if !(isv || isvb) then Failure(NonNeutrinoProbe)
      else
        var isu := IsUQuark(q);
        var isd := IsDQuark(q);
        var isub := IsUAntiQuark(q);
        var isdb := IsDAntiQuark(q);
        var allowed :=
          (iscc && isv && (isd || isub)) ||
          (iscc && isvb && (isu || isdb)) ||
          (isnc && (isv || isvb) && (isu || isd || isub || isdb));
        if !allowed then Failure(ModeNotAllowed)
        else if !IsWeak(current) then Failure(NotWeakProcess)
        else
          var finalQuark: Option<Quark> :=
            if isnc then Some(q)
            else if isv && isd then Some(UQuark)
            else if isv && isub then Some(DQuarkBar)
            else if isvb && isu then Some(DQuark)
            else if isvb && isdb then Some(UQuarkBar)
            else None;
          if finalQuark.None? then Failure(NoFinalQuarkAssignment)
          else
            var sys := QuarkSystem(finalQuark.value, QuarkHitDiquark(isp, isn, isu, isd));
            var sys' := if !tgt.quarkFromSea then sys else SeaAntiquarkOverride(sys, isp, isn, isub, isdb, iscc, isnc);
            if sys'.diquark == NoDiquark then Failure(NoRemnantDiquark)
            else Success(sys')
  }

  // ---------------------------------------------------------------------
  // An independent statement of the physics the table encodes

  /** Valence content of the nucleons: p = uud, n = udd. */
  function Valence(n: Nucleon): multiset<QuarkFlavour>
  {
    match n
    case Proton => multiset{Up, Up, Down}
    case Neutron => multiset{Up, Down, Down}
  }

  /** The diquark made of two light quarks. */
  function DiquarkOf(pair: multiset<QuarkFlavour>): Diquark
  {
    if pair == multiset{Up, Up} then UUDiquarkS1
    else if pair == multiset{Up, Down} then UDDiquarkS1
    else if pair == multiset{Down, Down} then DDDiquarkS1
    else NoDiquark
  }

  /** What is left of the nucleon's valence quarks once one quark of
      flavour `f` is taken out (struck, or annihilated). */
  function Remnant(n: Nucleon, f: QuarkFlavour): Diquark
  {
    DiquarkOf(Valence(n) - multiset{f})
  }

  /** A charged-current interaction turns u into d and d into u. */
  function WeakPartner(f: QuarkFlavour, current: Current): QuarkFlavour
  {
    if current == WeakCC then
      match f
      case Up => Down
      case Down => Up
      case _ => f
    else f
  }

  /** The interactions the hadronizer accepts: a struck light parton in a
      nucleon, hit by a neutrino or antineutrino through a weak current
      that can absorb it (CC nu on d or ubar, CC nubar on u or dbar, NC on
      any of the four), and a valence hit only on a quark. */
  predicate Accepted(i: Interaction)
  {
    var tgt := i.initState.target;
    var probe := i.initState.probe;
    var current := i.procInfo.current;
    && tgt.hitQuark.Some?
    && tgt.hitNucleon.Some?
    && (IsNeutrino(probe) || IsAntiNeutrino(probe))
    && var q := tgt.hitQuark.value;
       && q.flavour in {Up, Down}
       && (tgt.quarkFromSea || !q.anti)
       && match current
          case WeakCC => q.anti == ((q.flavour == Up) == IsNeutrino(probe))
          case WeakNC => true
          case _ => false
  }

  /** The system the physics calls for. A struck quark leaves the nucleon
      minus that quark and goes out as itself (NC) or as its weak partner
      (CC). A struck sea antiquark materialises its partner quark, which
      goes out; the outgoing antiquark annihilates with a valence quark of
      its own flavour, and the nucleon minus that quark is the diquark. */
  function ExpectedSystem(i: Interaction): QuarkSystem
    requires Accepted(i)
  {
    var n := i.initState.target.hitNucleon.value;
    var q := i.initState.target.hitQuark.value;
    var current := i.procInfo.current;
    if !q.anti then
      QuarkSystem(Quark(WeakPartner(q.flavour, current), false), Remnant(n, q.flavour))
    else
      QuarkSystem(Quark(q.flavour, false), Remnant(n, WeakPartner(q.flavour, current)))
  }

  // ---------------------------------------------------------------------
  // Properties

  /** Taking one quark out of a nucleon: p - u = ud, p - d = uu,
      n - u = dd, n - d = ud. */
  lemma RemnantTable()
    ensures Remnant(Proton, Up) == UDDiquarkS1
    ensures Remnant(Proton, Down) == UUDiquarkS1
    ensures Remnant(Neutron, Up) == DDDiquarkS1
    ensures Remnant(Neutron, Down) == UDDiquarkS1
  {
    ProtonMinusUp();
    ProtonMinusDown();
    NeutronMinusUp();
    NeutronMinusDown();
  }

  // The rows of RemnantTable, one multiset difference each.

  lemma ProtonMinusUp()
    ensures Remnant(Proton, Up) == UDDiquarkS1
  {
    assert Valence(Proton) - multiset{Up} == multiset{Up, Down};
  }

  lemma ProtonMinusDown()
    ensures Remnant(Proton, Down) == UUDiquarkS1
  {
    assert Valence(Proton) - multiset{Down} == multiset{Up, Up};
  }

  lemma NeutronMinusUp()
    ensures Remnant(Neutron, Up) == DDDiquarkS1
  {
    assert Valence(Neutron) - multiset{Up} == multiset{Down, Down};
  }

  lemma NeutronMinusDown()
    ensures Remnant(Neutron, Down) == UDDiquarkS1
  {
    assert Valence(Neutron) - multiset{Down} == multiset{Up, Down};
  }

  /** The hadronizer succeeds exactly on the accepted interactions, and
      then produces the system the physics calls for. */
  lemma SelectionMatchesPhysics(i: Interaction)
    ensures SelectQuarkSystem(i).Success? <==> Accepted(i)
    ensures Accepted(i) ==> SelectQuarkSystem(i) == Success(ExpectedSystem(i))
  {
    var tgt := i.initState.target;
    if tgt.hitQuark.Some? && tgt.hitNucleon.Some? && tgt.hitQuark.value.flavour in {Up, Down}
       && i.procInfo.current in {WeakCC, WeakNC} && !i.initState.probe.NonNeutrino? {
      var q := tgt.hitQuark.value;
      if !q.anti {
        QuarkCase(i);
      } else if tgt.quarkFromSea {
        SeaAntiquarkCase(i);
      } else {
        ValenceAntiquarkRejected(i);
      }
    }
  }

  /** A struck quark, sea or valence: the weak current takes it to its
      partner (CC) or leaves it (NC), and the nucleon minus the struck
      quark is the diquark. */
  lemma QuarkCase(i: Interaction)
    requires i.initState.target.hitQuark.Some? && i.initState.target.hitNucleon.Some?
    requires i.initState.target.hitQuark.value.flavour in {Up, Down}
    requires !i.initState.target.hitQuark.value.anti
    requires i.procInfo.current in {WeakCC, WeakNC}
    requires !i.initState.probe.NonNeutrino?
    ensures SelectQuarkSystem(i).Success? <==> Accepted(i)
    ensures Accepted(i) ==> SelectQuarkSystem(i) == Success(ExpectedSystem(i))
  {
    RemnantTable();
    match i.procInfo.current
    case WeakNC => NeutralQuarkCase(i);
    case WeakCC => ChargedQuarkCase(i);
  }

  /** NC on a quark: it goes out as itself. */
  lemma NeutralQuarkCase(i: Interaction)
    requires i.initState.target.hitQuark.Some? && i.initState.target.hitNucleon.Some?
    requires i.initState.target.hitQuark.value in {UQuark, DQuark}
    requires i.procInfo.current == WeakNC
    requires !i.initState.probe.NonNeutrino?
    ensures var q := i.initState.target.hitQuark.value;
            SelectQuarkSystem(i) == Success(QuarkSystem(q, Remnant(i.initState.target.hitNucleon.value, q.flavour)))
  {
    QuarkHitLeavesRemnant(i.initState.target.hitNucleon.value, i.initState.target.hitQuark.value);
  }

  /** CC on a quark: nu turns d into u, nubar turns u into d, and the other
      two combinations fail the allowed-mode assertion. */
  lemma ChargedQuarkCase(i: Interaction)
    requires i.initState.target.hitQuark.Some? && i.initState.target.hitNucleon.Some?
    requires i.initState.target.hitQuark.value in {UQuark, DQuark}
    requires i.procInfo.current == WeakCC
    requires !i.initState.probe.NonNeutrino?
    ensures var q := i.initState.target.hitQuark.value;
            var dq := Remnant(i.initState.target.hitNucleon.value, q.flavour);
            var p := i.initState.probe;
            && (p.Neutrino? && q == DQuark ==> SelectQuarkSystem(i) == Success(QuarkSystem(UQuark, dq)))
            && (p.AntiNeutrino? && q == UQuark ==> SelectQuarkSystem(i) == Success(QuarkSystem(DQuark, dq)))
            && (p.Neutrino? == (q == UQuark) ==> SelectQuarkSystem(i) == Failure(ModeNotAllowed))
  {
    QuarkHitLeavesRemnant(i.initState.target.hitNucleon.value, i.initState.target.hitQuark.value);
  }

  /** The four valence `if`s compute the nucleon minus the struck quark. */
  lemma QuarkHitLeavesRemnant(n: Nucleon, q: Quark)
    requires q in {UQuark, DQuark}
    ensures QuarkHitDiquark(n == Proton, n == Neutron, IsUQuark(q), IsDQuark(q)) == Remnant(n, q.flavour)
    ensures Remnant(n, q.flavour) != NoDiquark
  {
    RemnantTable();
  }

  /** A struck sea antiquark: the materialised partner quark goes out and
      the antiquark annihilates with a valence quark. */
  lemma SeaAntiquarkCase(i: Interaction)
    requires i.initState.target.hitQuark.Some? && i.initState.target.hitNucleon.Some?
    requires i.initState.target.hitQuark.value.flavour in {Up, Down}
    requires i.initState.target.hitQuark.value.anti
    requires i.initState.target.quarkFromSea
    requires i.procInfo.current in {WeakCC, WeakNC}
    requires !i.initState.probe.NonNeutrino?
    ensures SelectQuarkSystem(i).Success? <==> Accepted(i)
    ensures Accepted(i) ==> SelectQuarkSystem(i) == Success(ExpectedSystem(i))
  {
    RemnantTable();
    match i.initState.target.hitNucleon.value
    case Proton => SeaAntiquarkOnProton(i);
    case Neutron => SeaAntiquarkOnNeutron(i);
  }

  /** The four proton rows of the sea-antiquark table: ubar p -> u + uu
      (CC) or u + ud (NC), dbar p -> d + ud (CC) or d + uu (NC). A CC
      current that cannot absorb the antiquark fails the allowed-mode
      assertion. */
  lemma SeaAntiquarkOnProton(i: Interaction)
    requires i.initState.target.hitQuark.Some? && i.initState.target.hitNucleon == Some(Proton)
    requires i.initState.target.hitQuark.value in {UQuarkBar, DQuarkBar}
    requires i.initState.target.quarkFromSea
    requires i.procInfo.current in {WeakCC, WeakNC}
    requires !i.initState.probe.NonNeutrino?
    ensures var q := i.initState.target.hitQuark.value;
            var c := i.procInfo.current;
            var nu := IsNeutrino(i.initState.probe);
            && (q == UQuarkBar && c == WeakCC && nu ==> SelectQuarkSystem(i) == Success(QuarkSystem(UQuark, UUDiquarkS1)))
            && (q == UQuarkBar && c == WeakNC ==> SelectQuarkSystem(i) == Success(QuarkSystem(UQuark, UDDiquarkS1)))
            && (q == DQuarkBar && c == WeakCC && !nu ==> SelectQuarkSystem(i) == Success(QuarkSystem(DQuark, UDDiquarkS1)))
            && (q == DQuarkBar && c == WeakNC ==> SelectQuarkSystem(i) == Success(QuarkSystem(DQuark, UUDiquarkS1)))
            && (c == WeakCC && nu != (q == UQuarkBar) ==> SelectQuarkSystem(i) == Failure(ModeNotAllowed))
  {
  }

  /** The four neutron rows: ubar n -> u + ud (CC) or u + dd (NC),
      dbar n -> d + dd (CC) or d + ud (NC). */
  lemma SeaAntiquarkOnNeutron(i: Interaction)
    requires i.initState.target.hitQuark.Some? && i.initState.target.hitNucleon == Some(Neutron)
    requires i.initState.target.hitQuark.value in {UQuarkBar, DQuarkBar}
    requires i.initState.target.quarkFromSea
    requires i.procInfo.current in {WeakCC, WeakNC}
    requires !i.initState.probe.NonNeutrino?
    ensures var q := i.initState.target.hitQuark.value;
            var c := i.procInfo.current;
            var nu := IsNeutrino(i.initState.probe);
            && (q == UQuarkBar && c == WeakCC && nu ==> SelectQuarkSystem(i) == Success(QuarkSystem(UQuark, UDDiquarkS1)))
            && (q == UQuarkBar && c == WeakNC ==> SelectQuarkSystem(i) == Success(QuarkSystem(UQuark, DDDiquarkS1)))
            && (q == DQuarkBar && c == WeakCC && !nu ==> SelectQuarkSystem(i) == Success(QuarkSystem(DQuark, DDDiquarkS1)))
            && (q == DQuarkBar && c == WeakNC ==> SelectQuarkSystem(i) == Success(QuarkSystem(DQuark, UDDiquarkS1)))
            && (c == WeakCC && nu != (q == UQuarkBar) ==> SelectQuarkSystem(i) == Failure(ModeNotAllowed))
  {
  }

  /** The antiquark rows of the CC final-quark table never reach the
      result: a valence antiquark is rejected and a sea antiquark is
      overridden by its partner quark. Every success hands a light quark,
      not an antiquark, to the fragmentation. */
  lemma FinalQuarkIsLightQuark(i: Interaction)
    requires SelectQuarkSystem(i).Success?
    ensures !SelectQuarkSystem(i).value.finalQuark.anti
    ensures SelectQuarkSystem(i).value.finalQuark in {UQuark, DQuark}
  {
  }

  /** The checks fire in source order: a missing struck quark first, then
      the nucleon, then the current, then the probe, and then the
      allowed-mode assertion, which rejects exactly the combinations other
      than CC nu on d or ubar, CC nubar on u or dbar, and NC on any of the
      four. */
  lemma ChecksInSourceOrder(i: Interaction)
    ensures i.initState.target.hitQuark.None? ==> SelectQuarkSystem(i) == Failure(StruckQuarkNotSet)
    ensures i.initState.target.hitQuark.Some? && i.initState.target.hitNucleon.None?
            ==> SelectQuarkSystem(i) == Failure(UnhandledNucleon)
    ensures i.initState.target.hitQuark.Some? && i.initState.target.hitNucleon.Some?
            && !(IsWeakCC(i.procInfo.current) || IsWeakNC(i.procInfo.current))
            ==> SelectQuarkSystem(i) == Failure(NotWeakInteraction)
    ensures i.initState.target.hitQuark.Some? && i.initState.target.hitNucleon.Some?
            && (IsWeakCC(i.procInfo.current) || IsWeakNC(i.procInfo.current))
            && i.initState.probe.NonNeutrino?
            ==> SelectQuarkSystem(i) == Failure(NonNeutrinoProbe)
    ensures i.initState.target.hitQuark.Some? && i.initState.target.hitNucleon.Some?
            && (IsWeakCC(i.procInfo.current) || IsWeakNC(i.procInfo.current))
            && (IsNeutrino(i.initState.probe) || IsAntiNeutrino(i.initState.probe))
            ==> var q := i.initState.target.hitQuark.value;
                var modeAllowed :=
                  || (IsWeakCC(i.procInfo.current) && IsNeutrino(i.initState.probe) && q in {DQuark, UQuarkBar})
                  || (IsWeakCC(i.procInfo.current) && IsAntiNeutrino(i.initState.probe) && q in {UQuark, DQuarkBar})
                  || (IsWeakNC(i.procInfo.current) && q in {UQuark, DQuark, UQuarkBar, DQuarkBar});
                (SelectQuarkSystem(i) == Failure(ModeNotAllowed) <==> !modeAllowed)
  {
    var n := i.initState.target.hitNucleon;
    if n.Some? {
      match n.value
      case Proton => assert i.initState.target.hitNucleon == Some(Proton);
      case Neutron => assert i.initState.target.hitNucleon == Some(Neutron);
    }
  }

  /** Once the mode is allowed the later `exit` on a CC case without a
      final quark and the weak-process assertion can never fire. */
  lemma LateExitsUnreachable(i: Interaction)
    ensures SelectQuarkSystem(i) != Failure(NoFinalQuarkAssignment)
    ensures SelectQuarkSystem(i) != Failure(NotWeakProcess)
  {
  }

  /** The CC final-quark table: nu d -> u, nu ubar -> dbar, nubar u -> d,
      nubar dbar -> ubar, as long as no sea override applies. */
  lemma ChargedCurrentFinalQuark(i: Interaction)
    requires SelectQuarkSystem(i).Success?
    requires i.procInfo.current == WeakCC
    requires !i.initState.target.quarkFromSea
    ensures var q := i.initState.target.hitQuark.value;
            var f := SelectQuarkSystem(i).value.finalQuark;
            && (IsNeutrino(i.initState.probe) && q == DQuark ==> f == UQuark)
            && (IsAntiNeutrino(i.initState.probe) && q == UQuark ==> f == DQuark)
  {
  }

  /** For NC the outgoing quark is the struck quark unless a sea antiquark
      was hit, in which case it is the antiquark's partner quark. */
  lemma NeutralCurrentFinalQuark(i: Interaction)
    requires SelectQuarkSystem(i).Success?
    requires i.procInfo.current == WeakNC
    ensures var q := i.initState.target.hitQuark.value;
            SelectQuarkSystem(i).value.finalQuark == Quark(q.flavour, false)
    ensures !i.initState.target.hitQuark.value.anti
            ==> SelectQuarkSystem(i).value.finalQuark == i.initState.target.hitQuark.value
  {
  }

  /** A struck quark leaves the same diquark whether it came from the sea
      or from the valence: p u -> ud, p d -> uu, n u -> dd, n d -> ud. */
  lemma QuarkHitDiquarkIgnoresSea(i: Interaction)
    requires SelectQuarkSystem(i).Success?
    requires !i.initState.target.hitQuark.value.anti
    ensures var j := i.(initState := i.initState.(target := i.initState.target.(quarkFromSea := !i.initState.target.quarkFromSea)));
            SelectQuarkSystem(j).Success? && SelectQuarkSystem(j).value == SelectQuarkSystem(i).value
  {
  }

  /** An antiquark flagged as valence leaves the diquark at 0. Whenever the
      allowed-mode assertion lets it through (NC, CC nu on ubar, CC nubar on
      dbar) the final `diquark != 0` assertion stops the hadronizer. */
  lemma ValenceAntiquarkRejected(i: Interaction)
    requires i.initState.target.hitQuark.Some?
    requires i.initState.target.hitQuark.value.anti
    requires !i.initState.target.quarkFromSea
    ensures SelectQuarkSystem(i).Failure?
    ensures var p := i.initState.probe;
            var c := i.procInfo.current;
            var q := i.initState.target.hitQuark.value;
            i.initState.target.hitNucleon.Some?
            && (|| (IsWeakNC(c) && (IsNeutrino(p) || IsAntiNeutrino(p)) && q in {UQuarkBar, DQuarkBar})
                || (IsWeakCC(c) && IsNeutrino(p) && q == UQuarkBar)
                || (IsWeakCC(c) && IsAntiNeutrino(p) && q == DQuarkBar))
            ==> SelectQuarkSystem(i) == Failure(NoRemnantDiquark)
  {
    var n := i.initState.target.hitNucleon;
    if n.Some? {
      match n.value
      case Proton => assert i.initState.target.hitNucleon == Some(Proton);
      case Neutron => assert i.initState.target.hitNucleon == Some(Neutron);
    }
  }
}
