# GENIE core decisions in Dafny

This project models five small pieces of discrete logic from the GENIE neutrino event generator and proves properties of them:

- **Interaction list** (`InteractionLists`). An ordered vector of owned `Interaction` pointers with deep-copy semantics. It has `Reset`, `Append`, `Copy`, the copy constructor, `operator=`, the destructor and `Print`. Lists live in a store indexed by object identity. This lets the model tell `l = l` (one object) apart from `a = b` with equal contents. An element is a `Slot`: `Null` is a null pointer and `Entry(i)` is an owned interaction. The interaction itself is a type parameter, an opaque value with equality.
- **PYTHIA hadronization, decision part** (`PythiaHadronization`). It checks the struck quark, the nucleon, the current and the probe. Then it selects the final quark and the remnant diquark handed to the string fragmentation. Every `exit(1)` and failed `assert` becomes a `Failure` with its own error value.
- **Glashow resonance guards** (`GlashowResonance`). `ValidProcess`, `ValidKinematics`, the constant `XSec`, and the early returns of `Integral`.
- **Class-name macros** (`Messenger`, on top of `StdString`). `__P2__`, `__P3__`, `__P4__` and `__GCLASS` are modelled as chained `std::string::erase` calls. `size_type` arithmetic is written out: `npos` is 2^64 − 1, `npos + 1` wraps to 0 and `0 - 1` wraps to `npos`. `erase` throws `out_of_range` when its start is past the end.
- **Cross-section algorithm map** (`AlgorithmMap`). The state is a key → algorithm-reference map, a generator-list reference, an initial state and an owned interaction list. It has `UseGeneratorList`, `BuildMap`, and the two `const` queries `FindXSecAlgorithm` and `GetInteractionList`. How `BuildMap` merges the generators' interactions, and how a key is derived from an interaction, are not shown in the header. Both are parameters (`BuildRule`, `KeyRule`). A sequence of member calls (`Run`) is modelled so that "const calls change nothing" can be stated.

Shared types are in `Wrappers` (`Option`, `Result`), `Pdg` (particle enumerations) and `Interactions` (initial state, target, process information, interaction).

The copy operation agrees with "reset, then append" whenever source and destination are different objects. On one object it empties the list; see Findings.

## Model

| member | source | states |
|---|---|---|
| InteractionLists.PushCopies | src/EVGCore/InteractionList.cxx:63-81 | The push_back loop over a null-free source yields the old list followed by every source element, in order |
| InteractionLists.Reset | src/EVGCore/InteractionList.cxx:51-61 | After Reset the list is empty and every other list is unchanged |
| InteractionLists.ResetIsIdempotent | src/EVGCore/InteractionList.cxx:51-61 | A second Reset changes nothing |
| InteractionLists.Append | src/EVGCore/InteractionList.cxx:63-70 | The new length is the sum of the two lengths, the old entries keep their positions, the source follows them, and other lists are untouched; self-append and null source entries are excluded as undefined |
| InteractionLists.AppendKeepsDuplicates | src/EVGCore/InteractionList.cxx:63-70 | Append adds multisets: an element in both lists appears at least twice afterwards |
| InteractionLists.AppendedCopiesOutliveSource | src/EVGCore/InteractionList.cxx:63-70 | Appended elements are copies: resetting or destroying the source afterwards leaves them in place |
| InteractionLists.Copy | src/EVGCore/InteractionList.cxx:72-81 | Copy from a distinct list makes the target equal to the source; copy of a list onto itself leaves it empty; other lists are untouched |
| InteractionLists.CopyIsResetThenAppend | src/EVGCore/InteractionList.cxx:51-81 | For distinct lists, Copy equals Reset followed by Append |
| InteractionLists.CopyDiscardsPrevious | src/EVGCore/InteractionList.cxx:72-81 | The target's previous contents have no influence on the result of Copy |
| InteractionLists.CopyConstruct | src/EVGCore/InteractionList.cxx:40-44 | The copy constructor creates a new list equal to the source and leaves all existing lists unchanged |
| InteractionLists.Assign | src/EVGCore/InteractionList.cxx:94-98 | `operator=` as written: from a distinct list the target becomes equal to the source; assigned to itself the list becomes empty; other lists are untouched |
| InteractionLists.AssignmentCopiesSource | src/EVGCore/InteractionList.cxx:94-98 | Assignment between distinct lists makes the target equal to the source and keeps the source |
| InteractionLists.SelfAssignmentEmpties | src/EVGCore/InteractionList.cxx:72-98 | `l = l` leaves `l` empty, so any non-empty list differs from itself after self-assignment |
| InteractionLists.SelfAssignmentLosesElement | src/EVGCore/InteractionList.cxx:72-98 | Concretely, a one-element list self-assigned with the source's operator is empty, and with the guarded operator it keeps its element |
| InteractionLists.AssignGuarded | src/EVGCore/InteractionList.cxx:94-98 | The guarded assignment leaves the target equal to the source even when both are one object, and accepts `l = l` whatever `l` holds, null entries included |
| InteractionLists.Destroy | src/EVGCore/InteractionList.cxx:46-49 | The destructor removes the list and leaves every other list unchanged |
| InteractionLists.Print | src/EVGCore/InteractionList.cxx:83-92 | An empty list prints nothing, and a one-element list prints exactly that element's text (the placeholder for a null) |
| InteractionLists.PrintConcat | src/EVGCore/InteractionList.cxx:83-92 | Printing a concatenation prints the parts one after the other |
| InteractionLists.EveryEntryIsPrinted | src/EVGCore/InteractionList.cxx:83-92 | No entry is skipped: the output is at least as long as any single entry's text, and at least as long as the null placeholder if any entry is null |
| InteractionLists.PrintInOrder | src/EVGCore/InteractionList.cxx:83-92 | The k-th element's text sits between the text of the elements before and after it; a null element prints the fixed NULL INTERACTION placeholder |
| PythiaHadronization.SelectQuarkSystem | src/Fragmentation/PythiaHadronization.cxx:69-177 | Every success has a non-zero diquark, a final quark among u, d, ubar, dbar, a set hit nucleon, a neutrino or antineutrino probe, and a weak CC or NC current |
| PythiaHadronization.RemnantTable | src/Fragmentation/PythiaHadronization.cxx:137-149 | Removing one quark from the valence content gives p−u=ud, p−d=uu, n−u=dd and n−d=ud |
| PythiaHadronization.SelectionMatchesPhysics | src/Fragmentation/PythiaHadronization.cxx:83-177 | The hadronizer succeeds iff the interaction is in the accepted set, and then returns the system that the valence-content and annihilation picture predicts (both directions) |
| PythiaHadronization.NeutralQuarkCase | src/Fragmentation/PythiaHadronization.cxx:121-141 | NC on a u or d quark succeeds with the struck quark going out and the nucleon minus that quark as the diquark |
| PythiaHadronization.ChargedQuarkCase | src/Fragmentation/PythiaHadronization.cxx:104-141 | CC on a quark: nu on d gives u, nubar on u gives d, each with the nucleon minus the struck quark; nu on u and nubar on d fail the allowed-mode assertion |
| PythiaHadronization.QuarkHitLeavesRemnant | src/Fragmentation/PythiaHadronization.cxx:137-149 | The four diquark assignments for a struck u or d quark give the nucleon's valence content minus that quark, never 0 |
| PythiaHadronization.SeaAntiquarkOnProton | src/Fragmentation/PythiaHadronization.cxx:159-166 | On a proton: CC nu on a sea ubar gives u + uu, NC on ubar gives u + ud, CC nubar on dbar gives d + ud, NC on dbar gives d + uu; CC with the other probe fails the allowed-mode assertion |
| PythiaHadronization.SeaAntiquarkOnNeutron | src/Fragmentation/PythiaHadronization.cxx:167-175 | On a neutron: CC nu on a sea ubar gives u + ud, NC on ubar gives u + dd, CC nubar on dbar gives d + dd, NC on dbar gives d + ud; CC with the other probe fails the allowed-mode assertion |
| PythiaHadronization.FinalQuarkIsLightQuark | src/Fragmentation/PythiaHadronization.cxx:121-175 | Every success hands a u or d quark (never an antiquark) to the fragmentation |
| PythiaHadronization.ChecksInSourceOrder | src/Fragmentation/PythiaHadronization.cxx:69-112 | A missing struck quark, a bad nucleon, a non-weak process and a non-neutrino probe are reported in that order, each with its own error; once those pass, the allowed-mode assertion fails exactly for combinations other than CC nu on d or ubar, CC nubar on u or dbar, and NC on u, d, ubar or dbar |
| PythiaHadronization.LateExitsUnreachable | src/Fragmentation/PythiaHadronization.cxx:109-132 | Once the allowed-mode assertion passes, the weak-process assertion and the CC no-final-quark exit never fire |
| PythiaHadronization.ChargedCurrentFinalQuark | src/Fragmentation/PythiaHadronization.cxx:122-132 | For a valence CC hit, nu on d gives u and nubar on u gives d |
| PythiaHadronization.NeutralCurrentFinalQuark | src/Fragmentation/PythiaHadronization.cxx:121-175 | For NC the final quark is the struck quark, or the partner quark of a struck sea antiquark |
| PythiaHadronization.QuarkHitDiquarkIgnoresSea | src/Fragmentation/PythiaHadronization.cxx:137-149 | A quark hit gives the same result whether it is flagged sea or valence |
| PythiaHadronization.ValenceAntiquarkRejected | src/Fragmentation/PythiaHadronization.cxx:104-177 | A valence-flagged antiquark is always rejected; in every case the allowed-mode assertion lets through (NC on ubar or dbar, CC nu on ubar, CC nubar on dbar) the rejection is the diquark != 0 assertion |
| GlashowResonance.XSec | src/VHE/GlashowResonancePXSec.cxx:48-52 | The differential cross section is 0 for every interaction and phase space |
| GlashowResonance.ValidKinematics | src/VHE/GlashowResonancePXSec.cxx:97-100 | Every interaction has valid kinematics |
| GlashowResonance.ValidProcess | src/VHE/GlashowResonancePXSec.cxx:79-95 | With the skip bit set the process is valid; otherwise it is valid iff the probe is nubar_e, no hit nucleon is set and the process is weak CC |
| GlashowResonance.ValidProcessDependsOnlyOnChannel | src/VHE/GlashowResonancePXSec.cxx:79-95 | Interactions that agree on the skip bit, probe, hit-nucleon-set flag and CC flag get the same verdict |
| GlashowResonance.Integral | src/VHE/GlashowResonancePXSec.cxx:54-57 | Integral is 0 when the process or the kinematics is invalid, and otherwise equals the resonance formula |
| GlashowResonance.IntegralVanishesOffChannel | src/VHE/GlashowResonancePXSec.cxx:54-57 | Off the channel, Integral is 0 whatever the formula; on it, only the formula's value matters |
| StdString.FindFirstOf | src/Messenger/Messenger.h:60 | Returns npos iff the character is absent; otherwise an index holding it with none before |
| StdString.FindLastOf | src/Messenger/Messenger.h:61-62 | Returns npos iff the character is absent; otherwise an index holding it with none after |
| StdString.FirstIndexIsFound | src/Messenger/Messenger.h:60 | Conversely, an index holding the character with none before it is the one found |
| StdString.LastIndexIsFound | src/Messenger/Messenger.h:61-62 | Conversely, an index holding the character with none after it is the one found |
| StdString.Erase | src/Messenger/Messenger.h:60-62 | erase throws iff the start is past the end; otherwise it removes min(len, size − pos) characters at pos and keeps the rest |
| Messenger.StripArguments | src/Messenger/Messenger.h:60 | Succeeds iff the input has a '('; the result is the prefix before the first '(' |
| Messenger.ArgumentsEndAtFirstParen | src/Messenger/Messenger.h:60 | The kept prefix ends exactly at the index find_first_of reports |
| Messenger.StripArgumentsAt | src/Messenger/Messenger.h:60 | Given the first '(' at k, the result is the prefix of length k |
| Messenger.StripMemberName | src/Messenger/Messenger.h:61 | With no ':' the result is empty; it throws iff the only ':' is at index 0; otherwise it is the prefix ending one before the last ':' |
| Messenger.StripMemberNameAt | src/Messenger/Messenger.h:61 | Given the last ':' at k ≥ 1, the result is the prefix of length k − 1 |
| Messenger.StripReturnType | src/Messenger/Messenger.h:62 | Never throws; the result is the suffix after the last ' ', holds no ' ', and is the whole string when there is no ' ' |
| Messenger.StripReturnTypeAt | src/Messenger/Messenger.h:62 | Given the last ' ' at k, the result is the suffix from k + 1 |
| Messenger.ClassName | src/Messenger/Messenger.h:59-63 | Fails iff there is no '(' or the part before it has its only ':' at index 0; a result has no ' ' and no '(' and is a substring of the input |
| Messenger.StepsCutOneRun | src/Messenger/Messenger.h:59-63 | The three steps together keep one contiguous run of the input, free of ' ' and '(' |
| Messenger.ClassNameComposesSteps | src/Messenger/Messenger.h:59-63 | The class name is the result of the three steps applied in turn |
| Messenger.FreeFunctionHasEmptyClassName | src/Messenger/Messenger.h:59-63 | A function name with no ':' before its argument list yields the empty class name |
| Messenger.NoArgumentListThrows | src/Messenger/Messenger.h:60 | Without a '(' the class name throws out_of_range |
| Messenger.MemberFunctionExample | src/Messenger/Messenger.h:59-63 | "double genie::Foo::Bar(int) const" yields "genie::Foo" |
| AlgorithmMap.UseGeneratorList | src/EVGCore/XSecAlgorithmMap.h:47 | Records the generator-list reference and leaves the entries, the initial state and the interaction list unchanged |
| AlgorithmMap.UseGeneratorListKeepsLookups | src/EVGCore/XSecAlgorithmMap.h:47-51 | Recording a generator list does not change what either query returns |
| AlgorithmMap.BuildMap | src/EVGCore/XSecAlgorithmMap.h:48 | Building keeps the recorded generator list and records the initial state it was built for |
| AlgorithmMap.BuildMapDeterminedByListAndState | src/EVGCore/XSecAlgorithmMap.h:6-8 | Under the full-rebuild reading of the class comment (see Left out), two maps with the same recorded generator list build to the same map for one initial state |
| AlgorithmMap.BuildMapIdempotent | src/EVGCore/XSecAlgorithmMap.h:6-8 | Under the same full-rebuild reading, building twice for the same initial state is building once |
| AlgorithmMap.UseThenBuildDependsOnArgumentsOnly | src/EVGCore/XSecAlgorithmMap.h:47-48 | Under the same full-rebuild reading, recording a list and then building gives a map determined by that list and the initial state |
| AlgorithmMap.FindXSecAlgorithm | src/EVGCore/XSecAlgorithmMap.h:50 | Finds an algorithm iff the interaction's key is present, and returns the stored reference unchanged |
| AlgorithmMap.GetInteractionList | src/EVGCore/XSecAlgorithmMap.h:51 | Returns the map's own interaction list, not a different one |
| AlgorithmMap.QueriesAfterBuild | src/EVGCore/XSecAlgorithmMap.h:48-51 | After a build, lookups answer from the built entries and the list view is the built interaction list |
| AlgorithmMap.ConstCallsLeaveMapUnchanged | src/EVGCore/XSecAlgorithmMap.h:50-51 | Any sequence of FindXSecAlgorithm and GetInteractionList calls leaves the whole state unchanged |
| AlgorithmMap.ConstCallsDoNotAffectState | src/EVGCore/XSecAlgorithmMap.h:47-51 | A run of calls ends in the same state as the run of its mutating calls alone |

## Left out

- The PYTHIA call `py2ent_`, `TPythia6`, the `TClonesArray` copy and ownership transfer (src/Fragmentation/PythiaHadronization.cxx:185-209). These are foreign calls. The hadronic mass W is carried in the interaction but is only passed on to them.
- Assertions in the hadronizer are modelled as enabled, so a failed `assert` aborts. A build with `NDEBUG` would skip them and is not modelled.
- `pdg::Is*` helpers and PDG code values: `PDG/PDGUtils.h` and `PDG/PDGCodes.h` are not part of this model. Particles are enumerations, and the diquark code 0 is the `NoDiquark` value.
- Logging: the `LOG` calls, the `Messenger` singleton, log4cpp categories, priority macros and `Cleaner` are logging infrastructure.
- The Glashow `Integral` formula (src/VHE/GlashowResonancePXSec.cxx:59-76) is floating-point numerics plus a particle-table lookup. It is the parameter `resonance` of `Integral`.
- The Interaction class and its stream operator are not part of this model. The list is generic in the element type, and `Print` takes the element's rendering as a parameter. The list's own `operator<<` (src/EVGCore/InteractionList.cxx:26-31) just calls `Print`.
- The default constructor of the interaction list (src/EVGCore/InteractionList.cxx:34-38) is the empty list that `CopyConstruct` starts from. Deleting owned interactions has no counterpart in a value model.
- InteractionLists.Append, InteractionLists.Copy, InteractionLists.Assign and InteractionLists.CopyConstruct exclude null entries in a source that is a different object from the target, and Append excludes self-append. The source dereferences every entry it walks, and appending a vector to itself while iterating it is undefined. A self-copy walks an already emptied list, so it accepts any contents.
- XSecAlgorithmMap constructors, destructor, `Reset`, `Copy`, `Print`, `operator=`, `operator<<`, `Init` and `CleanUp`: only the header is part of this model, so their behaviour is unknown.
- AlgorithmMap.BuildMap: assumes a full rebuild. The new contents depend only on the recorded generator list and the initial state, and nothing held before survives. This reading comes from the class comment at src/EVGCore/XSecAlgorithmMap.h:6-8; the implementation file is not part of this model. BuildMapDeterminedByListAndState, BuildMapIdempotent and UseThenBuildDependsOnArgumentsOnly follow from that assumption, not from code.
- AlgorithmMap.BuildMap takes the merge and de-duplication policy and the key derivation as parameters. Beyond the full rebuild, the model fixes no conflict rule such as first-claimant-wins, because the implementation is not shown. The same goes for the key-to-interaction correspondence.
- Each key maps to at most one algorithm because the state is a Dafny `map`. No separate lemma states it.
- Algorithm references are opaque values. No modelled operation can alter one, and `FindXSecAlgorithm` returns the stored value itself.
- src/BaryonResonance/BreitWignerLRes.cxx, src/MEC/MECPXSec.h and src/ValidationTools/eA/gVldeRESXSec.cxx are floating-point physics, registry lookups and plotting tools outside these five pieces.

## Findings

| source | as written | input that shows it | evidently intended | confidence | as-written member | corrected member |
|---|---|---|---|---|---|---|
| src/EVGCore/InteractionList.cxx:72-98 | `operator=` calls `Copy`, and `Copy` resets `this` before walking the source, with no self-assignment check | `l = l` with `l` holding one interaction: afterwards `l` is empty | assignment to itself leaves the list unchanged | not executed; follows from reading the two function bodies | InteractionLists.SelfAssignmentLosesElement | InteractionLists.AssignGuarded |
