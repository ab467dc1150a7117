/** The cross-section algorithm map: string keys derived from interactions,
    each bound to a non-owning reference to the cross-section algorithm
    responsible for it, built for one event-generator list and one initial
    state.

    Only the class declaration is part of this model. How BuildMap asks the
    generators for their interactions, how it merges them and how a key is
    derived from an interaction are not shown, so both stay parameters:
    `BuildRule` gives the contents built for a generator list and an initial
    state, `KeyRule` the key of an interaction. */
module AlgorithmMap {
  import opened Wrappers
  import opened Interactions
  import opened InteractionLists

  /** A non-owning, read-only reference to a configured cross-section
      algorithm; the algorithm registry owns the instance. */
  datatype AlgorithmRef = AlgorithmRef(name: string, config: string)

  /** A non-owning reference to an event-generator list. */
  datatype GeneratorListRef = GeneratorListRef(id: nat)

  /** The map's state. A `map` holds at most one algorithm per key, as the
      underlying `std::map` does. */
  datatype XSecAlgorithmMap = XSecAlgorithmMap(
    entries: map<string, AlgorithmRef>,
    generatorList: Option<GeneratorListRef>,
    initState: Option<InitialState>,
    interactions: InteractionList<Interaction>)

  /** What one build produces: the entries and the owned interaction list. */
  datatype MapContents = MapContents(entries: map<string, AlgorithmRef>, interactions: InteractionList<Interaction>)

  type BuildRule = (Option<GeneratorListRef>, InitialState) -> MapContents

  type KeyRule = Interaction -> string

  /** Records which generator list the next build consults, and nothing else. */
  function UseGeneratorList(m: XSecAlgorithmMap, list: Option<GeneratorListRef>): (r: XSecAlgorithmMap)
    ensures r.generatorList == list
    ensures r.entries == m.entries
    ensures r.initState == m.initState
    ensures r.interactions == m.interactions
  {
    m.(generatorList := list)
  }

  /** Builds the map for the recorded generator list and `init`. */
  function BuildMap(m: XSecAlgorithmMap, init: InitialState, rule: BuildRule): (r: XSecAlgorithmMap)
    ensures r.generatorList == m.generatorList
    ensures r.initState == Some(init)
  {
    var contents := rule(m.generatorList, init);
    XSecAlgorithmMap(contents.entries, m.generatorList, Some(init), contents.interactions)
  }

  /** The algorithm bound to the interaction's key, or a null reference. */
  function FindXSecAlgorithm(m: XSecAlgorithmMap, i: Interaction, key: KeyRule): (r: Option<AlgorithmRef>)
    ensures r.Some? <==> key(i) in m.entries
    ensures r.Some? ==> r.value in m.entries.Values && r.value == m.entries[key(i)]
  {
    if key(i) in m.entries then Some(m.entries[key(i)]) else None
  }

  /** A read-only view of the owned interaction list: the list itself,
      not a copy that could differ from it. */
  function GetInteractionList(m: XSecAlgorithmMap): (r: InteractionList<Interaction>)
    ensures r == m.interactions
  {
    m.interactions
  }

  // ---------------------------------------------------------------------
  // Calls on one map object, so that const-ness can be stated

  datatype Call =
    | UseGeneratorListCall(list: Option<GeneratorListRef>)
    | BuildMapCall(init: InitialState)
    | FindXSecAlgorithmCall(interaction: Interaction)
    | GetInteractionListCall

  datatype Reply = Done | Algorithm(found: Option<AlgorithmRef>) | Interactions(list: InteractionList<Interaction>)

  /** The two members declared `const`. */
  predicate IsConstCall(c: Call)
  {
    c.FindXSecAlgorithmCall? || c.GetInteractionListCall?
  }

  /** One member call: the state after it and what it returned. */
  function Step(m: XSecAlgorithmMap, c: Call, rule: BuildRule, key: KeyRule): (XSecAlgorithmMap, Reply)
  {
    match c
    case UseGeneratorListCall(list) => (UseGeneratorList(m, list), Done)
    case BuildMapCall(init) => (BuildMap(m, init, rule), Done)
    case FindXSecAlgorithmCall(i) => (m, Algorithm(FindXSecAlgorithm(m, i, key)))
    case GetInteractionListCall => (m, Interactions(GetInteractionList(m)))
  }

  /** A sequence of member calls: the final state and the replies in order. */
  function Run(m: XSecAlgorithmMap, calls: seq<Call>, rule: BuildRule, key: KeyRule): (r: (XSecAlgorithmMap, seq<Reply>))
    ensures |r.1| == |calls|
    decreases |calls|
  {
    if calls == [] then (m, [])
    else
      var (m1, reply) := Step(m, calls[0], rule, key);
      var (final, replies) := Run(m1, calls[1..], rule, key);
      (final, [reply] + replies)
  }

  /** The calls that may change the map, in their original order. */
  function Mutators(calls: seq<Call>): (r: seq<Call>)
    ensures |r| <= |calls|
    ensures forall k :: 0 <= k < |r| ==> !IsConstCall(r[k])
    decreases |calls|
  {
    if calls == [] then []
    else if IsConstCall(calls[0]) then Mutators(calls[1..])
    else [calls[0]] + Mutators(calls[1..])
  }

  // ---------------------------------------------------------------------
  // Properties

  /** Any run of const calls leaves every part of the map as it was. */
  lemma {:induction false} ConstCallsLeaveMapUnchanged(m: XSecAlgorithmMap, calls: seq<Call>, rule: BuildRule, key: KeyRule)
    requires forall k :: 0 <= k < |calls| ==> IsConstCall(calls[k])
    ensures Run(m, calls, rule, key).0 == m
    decreases |calls|
  {
    if calls != [] {
      ConstCallsLeaveMapUnchanged(m, calls[1..], rule, key);
    }
  }

  /** Interleaving const calls anywhere does not change the state a run
      ends in: only the mutating calls count. */
  lemma {:induction false} ConstCallsDoNotAffectState(m: XSecAlgorithmMap, calls: seq<Call>, rule: BuildRule, key: KeyRule)
    ensures Run(m, calls, rule, key).0 == Run(m, Mutators(calls), rule, key).0
    decreases |calls|
  {
    if calls != [] {
      var m1 := Step(m, calls[0], rule, key).0;
      if IsConstCall(calls[0]) {
        ConstCallsDoNotAffectState(m, calls[1..], rule, key);
      } else {
        ConstCallsDoNotAffectState(m1, calls[1..], rule, key);
        var rest := Mutators(calls[1..]);
        assert ([calls[0]] + rest)[1..] == rest;
      }
    }
  }

  /** The contents of a built map are fixed by the recorded generator list
      and the initial state; nothing held before the build survives. */
  lemma BuildMapDeterminedByListAndState(m1: XSecAlgorithmMap, m2: XSecAlgorithmMap, init: InitialState, rule: BuildRule)
    requires m1.generatorList == m2.generatorList
    ensures BuildMap(m1, init, rule) == BuildMap(m2, init, rule)
  {
  }

  /** Building twice for the same initial state is building once. */
  lemma BuildMapIdempotent(m: XSecAlgorithmMap, init: InitialState, rule: BuildRule)
    ensures BuildMap(BuildMap(m, init, rule), init, rule) == BuildMap(m, init, rule)
  {
  }

  /** Recording a list and building from it gives a map that depends on
      that list and the initial state alone. */
  lemma UseThenBuildDependsOnArgumentsOnly(m1: XSecAlgorithmMap, m2: XSecAlgorithmMap, list: Option<GeneratorListRef>, init: InitialState, rule: BuildRule)
    ensures BuildMap(UseGeneratorList(m1, list), init, rule) == BuildMap(UseGeneratorList(m2, list), init, rule)
  {
  }

  /** After a build, a lookup answers from the built contents, and the list
      view is the built interaction list. */
  lemma QueriesAfterBuild(m: XSecAlgorithmMap, init: InitialState, rule: BuildRule, i: Interaction, key: KeyRule)
    ensures var built := rule(m.generatorList, init);
            && FindXSecAlgorithm(BuildMap(m, init, rule), i, key)
                 == (if key(i) in built.entries then Some(built.entries[key(i)]) else None)
            && GetInteractionList(BuildMap(m, init, rule)) == built.interactions
  {
  }

  /** Recording a generator list does not change what a lookup finds. */
  lemma UseGeneratorListKeepsLookups(m: XSecAlgorithmMap, list: Option<GeneratorListRef>, i: Interaction, key: KeyRule)
    ensures FindXSecAlgorithm(UseGeneratorList(m, list), i, key) == FindXSecAlgorithm(m, i, key)
    ensures GetInteractionList(UseGeneratorList(m, list)) == GetInteractionList(m)
  {
  }
}
