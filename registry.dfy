/** The binding registry as values: the controller's own commands (`bindings.activate`,
    `bindings.next`, `bindings.previous`), the build of the binding sets from an already
    parsed configuration, and the resolution of a key press to its list of actions. */
module Registry {
  import opened Outcomes
  import opened Text
  import opened CommandsMap
  import opened Cycle
  import Obs
  import ObsClient

  // ---------------------------------------------------------------------------------
  // The controller as a target

  datatype BindingsCommand = ActivateCommand | NextCommand | PreviousCommand

  /** The controller's `commandsMap`. */
  const BindingsCommands: map<string, BindingsCommand> := map[
    "activate" := ActivateCommand,
    "next" := NextCommand,
    "previous" := PreviousCommand
  ]

  /** activateBindingsCheck, against the names of the sets that exist when it runs. */
  function ActivateBindingsCheck(names: set<string>, parameters: seq<Value>): (r: Outcome)
    requires |parameters| == 1 ==> parameters[0].Str?
    ensures r.Ok? <==> |parameters| == 1 && parameters[0].s in names
    ensures |parameters| != 1 ==> r == Fail(InvalidParameterCount)
    ensures |parameters| == 1 && parameters[0].s !in names ==> r == Fail(InvalidBindingsName(parameters[0].s))
  {
    if |parameters| != 1 then Fail(InvalidParameterCount)
    else if parameters[0].s !in names then Fail(InvalidBindingsName(parameters[0].s))
    else Ok
  }

  /** The one panic of the controller's commands: a single non-string `activate` argument. */
  predicate BindingsCodeSafe(code: BindingsCommand, parameters: seq<Value>) {
    code == ActivateCommand && |parameters| == 1 ==> parameters[0].Str?
  }

  predicate BindingsCommandSafe(command: string, parameters: seq<Value>) {
    match LookupIn(BindingsCommands, command)
    case Failure(_) => true
    case Success(code) => BindingsCodeSafe(code, parameters)
  }

  function BindingsCheckFunc(names: set<string>, code: BindingsCommand, parameters: seq<Value>): Outcome
    requires BindingsCodeSafe(code, parameters)
  {
    match code
    case ActivateCommand => ActivateBindingsCheck(names, parameters)
    case _ => NoParmsCheck(parameters)
  }

  /** The controller's CheckCommand, through its case-insensitive table. */
  function BindingsCheckCommand(names: set<string>, command: string, parameters: seq<Value>): Outcome
    requires BindingsCommandSafe(command, parameters)
  {
    CheckIn(BindingsCommands, command, parameters,
            (code, p) requires BindingsCodeSafe(code, p) => BindingsCheckFunc(names, code, p))
  }

  datatype BindingsStep = BindingsStep(active: string, outcome: Outcome)

  /** activateBindingsExec, nextBindingsExec and prevBindingsExec: only the active set
      changes. `activate` does not look the name up again. */
  function BindingsExec(order: seq<string>, active: string, code: BindingsCommand, parameters: seq<Value>): BindingsStep
    requires |order| > 0 && BindingsCodeSafe(code, parameters)
  {
    match code
    case ActivateCommand =>
      if |parameters| != 1 then BindingsStep(active, Fail(InvalidParameterCount))
      else BindingsStep(parameters[0].s, Ok)
    case NextCommand => BindingsStep(Next(order, active), Ok)
    case PreviousCommand => BindingsStep(Prev(order, active), Ok)
  }

  /** The controller's ExecuteCommand. */
  function ExecuteBindingsCommand(order: seq<string>, active: string, command: string, parameters: seq<Value>): BindingsStep
    requires |order| > 0 && BindingsCommandSafe(command, parameters)
  {
    match LookupIn(BindingsCommands, command)
    case Failure(e) => BindingsStep(active, Fail(e))
    case Success(code) => BindingsExec(order, active, code, parameters)
  }

  // ---------------------------------------------------------------------------------
  // Targets, actions and the parsed configuration

  /** A command target: the controller itself, or an OBS target object. */
  datatype Target = BindingsTarget | ObsTarget(obs: ObsClient.ObsCommandTarget)

  /** `keybindingRuntimeItem`. */
  datatype Action = Action(target: Target, command: string, parameters: seq<Value>)

  datatype CommandItem = CommandItem(command: string, parameters: seq<Value>)
  datatype BindingItem = BindingItem(keys: seq<string>, commands: seq<CommandItem>)
  datatype BindingDefinition = BindingDefinition(name: string, bindings: seq<BindingItem>)

  /** One set: key identifier (`key` or `source.key`) to its actions. */
  type BindingSet = map<string, seq<Action>>

  /** `keybindings`, `bindingsOrder` and `activeBindings`. */
  datatype Bindings = Bindings(sets: map<string, BindingSet>, order: seq<string>, active: string)

  /** The targets map: the configured targets under their names, and the controller
      under "bindings", which replaces a configured target of that name. */
  function Targets(configured: map<string, ObsClient.ObsCommandTarget>): (r: map<string, Target>)
    ensures "bindings" in r && r["bindings"] == BindingsTarget
    ensures forall n :: n in configured && n != "bindings" ==> n in r && r[n] == ObsTarget(configured[n])
    ensures forall n :: n in r ==> n == "bindings" || n in configured
  {
    (map n | n in configured :: ObsTarget(configured[n]))["bindings" := BindingsTarget]
  }

  /** The targets map always holds the controller, so it is never empty. */
  lemma TargetsNeverEmpty(configured: map<string, ObsClient.ObsCommandTarget>)
    ensures |Targets(configured)| > 0
  {
    assert "bindings" in Targets(configured);
  }

  predicate TargetCheckSafe(t: Target, command: string, parameters: seq<Value>) {
    t.BindingsTarget? ==> BindingsCommandSafe(command, parameters)
  }

  /** A target's CheckCommand; the controller's depends on the sets built so far. */
  function TargetCheck(names: set<string>, t: Target, command: string, parameters: seq<Value>): Outcome
    requires TargetCheckSafe(t, command, parameters)
  {
    match t
    case BindingsTarget => BindingsCheckCommand(names, command, parameters)
    case ObsTarget(_) => Obs.CheckCommand(command, parameters)
  }

  /** A configured command whose check does not panic: a name without a dot must not
      name a target (the missing second part would be read), and the controller's
      `activate` must not get a single non-string argument. */
  predicate CommandSafe(targets: map<string, Target>, item: CommandItem) {
    var parts := SplitAtDot(item.command);
    parts.head in targets ==> parts.tail.Some? && TargetCheckSafe(targets[parts.head], parts.tail.value, item.parameters)
  }

  /** One configured command: its target is the text before the first dot, and it is
      validated by that target's check. */
  function ResolveCommand(targets: map<string, Target>, names: set<string>, item: CommandItem): Result<Action>
    requires CommandSafe(targets, item)
  {
    var parts := SplitAtDot(item.command);
    if parts.head !in targets then Failure(InvalidCommandTarget(parts.head))
    else
      var t := targets[parts.head];
      var err := TargetCheck(names, t, parts.tail.value, item.parameters);
      if err.Fail? then Failure(err.error) else Success(Action(t, parts.tail.value, item.parameters))
  }

  /** CommandSafe and ResolveCommand as the guard and the step of a list run. */
  function Safety(targets: map<string, Target>): CommandItem -> bool {
    item => CommandSafe(targets, item)
  }

  function Resolver(targets: map<string, Target>, names: set<string>): CommandItem --> Result<Action> {
    item requires CommandSafe(targets, item) => ResolveCommand(targets, names, item)
  }

  lemma ResolverGuarded(targets: map<string, Target>, names: set<string>)
    ensures Guards(Safety(targets), Resolver(targets, names))
    ensures forall item :: CommandSafe(targets, item) ==> Resolver(targets, names)(item) == ResolveCommand(targets, names, item)
  {
  }

  /** Each command is safe unless an earlier one already failed. */
  ghost predicate ResolveSafe(targets: map<string, Target>, names: set<string>, items: seq<CommandItem>) {
    ResolverGuarded(targets, names);
    DefinedUntilFailure(Safety(targets), Resolver(targets, names), items)
  }

  /** The command list of one binding, resolved in order; the first error ends the build. */
  function ResolveAll(targets: map<string, Target>, names: set<string>, items: seq<CommandItem>): Result<seq<Action>>
    requires ResolveSafe(targets, names, items)
  {
    ResolverGuarded(targets, names);
    UntilFailure(Safety(targets), Resolver(targets, names), items)
  }

  /** One step of ResolveAll, as the build's loop takes it. */
  lemma ResolveAllStep(targets: map<string, Target>, names: set<string>, items: seq<CommandItem>, i: nat)
    requires i < |items| && ResolveSafe(targets, names, items[i..])
    ensures CommandSafe(targets, items[i])
    ensures var first := ResolveCommand(targets, names, items[i]);
      && (first.Failure? ==> ResolveAll(targets, names, items[i..]) == Failure(first.error))
      && (first.Success? ==> ResolveSafe(targets, names, items[i + 1..])
                               && ResolveAll(targets, names, items[i..]) ==
                                    Prepend([first.value], ResolveAll(targets, names, items[i + 1..])))
  {
    ResolverGuarded(targets, names);
    UntilFailureStep(Safety(targets), Resolver(targets, names), items, i);
  }

  /** Every key of a binding gets the same list; a key bound before is overwritten. */
  function BindKeys(bindings: BindingSet, keys: seq<string>, actions: seq<Action>): BindingSet {
    bindings + map k | k in keys :: actions
  }

  ghost predicate SetSafe(targets: map<string, Target>, names: set<string>, items: seq<BindingItem>)
    decreases |items|
  {
    items == [] ||
    (ResolveSafe(targets, names, items[0].commands) &&
     (ResolveAll(targets, names, items[0].commands).Success? ==> SetSafe(targets, names, items[1..])))
  }

  /** One binding set, from the bindings of its definition, onto `acc`. */
  function BuildSetFrom(targets: map<string, Target>, names: set<string>, acc: BindingSet,
                        items: seq<BindingItem>): Result<BindingSet>
    requires SetSafe(targets, names, items)
    decreases |items|
  {
    if items == [] then Success(acc)
    else
      match ResolveAll(targets, names, items[0].commands)
      case Failure(e) => Failure(e)
      case Success(actions) => BuildSetFrom(targets, names, BindKeys(acc, items[0].keys, actions), items[1..])
  }

  /** An unnamed set is called "default". */
  function SetName(def: BindingDefinition): (r: string)
    ensures r != ""
  {
    if def.name == "" then "default" else def.name
  }

  function SetNames(defs: seq<BindingDefinition>): (r: seq<string>)
    ensures |r| == |defs|
    ensures forall i :: 0 <= i < |defs| ==> r[i] == SetName(defs[i])
  {
    if defs == [] then [] else [SetName(defs[0])] + SetNames(defs[1..])
  }

  ghost predicate BuildSafe(targets: map<string, Target>, names: set<string>, defs: seq<BindingDefinition>)
    decreases |defs|
  {
    defs == [] ||
    (SetSafe(targets, names, defs[0].bindings) &&
     (BuildSetFrom(targets, names, map[], defs[0].bindings).Success? ==>
        BuildSafe(targets, names + {SetName(defs[0])}, defs[1..])))
  }

  /** The definitions in order: each set is checked against the sets before it, then
      stored under its name, appended to the order and, if none is active yet, activated. */
  function BuildFrom(targets: map<string, Target>, b: Bindings, defs: seq<BindingDefinition>): Result<Bindings>
    requires BuildSafe(targets, b.sets.Keys, defs)
    decreases |defs|
  {
    if defs == [] then Success(b)
    else
      match BuildSetFrom(targets, b.sets.Keys, map[], defs[0].bindings)
      case Failure(e) => Failure(e)
      case Success(built) => BuildFrom(targets, AfterDefinition(b, defs[0], built), defs[1..])
  }

  const NoBindings := Bindings(map[], [], "")

  /** All definitions, from no sets at all. */
  function Build(targets: map<string, Target>, defs: seq<BindingDefinition>): Result<Bindings>
    requires BuildSafe(targets, {}, defs)
  {
    assert NoBindings.sets.Keys == {};
    BuildFrom(targets, NoBindings, defs)
  }

  /** The binding part of CreateAndInitController and its final emptiness check. */
  function CreateBindings(keypads: set<string>, targets: map<string, Target>, defs: seq<BindingDefinition>): Result<Bindings>
    requires BuildSafe(targets, {}, defs)
  {
    match Build(targets, defs)
    case Failure(e) => Failure(e)
    case Success(b) =>
      if |keypads| == 0 || |b.sets| == 0 || |targets| == 0 then Failure(MissingConfiguration) else Success(b)
  }

  /** processKeypress's lookup in the active set: `source.key` first, then `key`. */
  function Resolve(b: Bindings, source: string, key: string): Option<seq<Action>> {
    if b.active !in b.sets then None
    else
      var active := b.sets[b.active];
      if source + "." + key in active then Some(active[source + "." + key])
      else if key in active then Some(active[key])
      else None
  }

  // ---------------------------------------------------------------------------------
  // Properties of the controller's commands

  /** `activate` accepts exactly one name of an existing set; `next` and `previous` take
      no parameters; anything else is an unknown command. */
  lemma BindingsCheckAccepts(names: set<string>, command: string, parameters: seq<Value>)
    requires BindingsCommandSafe(command, parameters)
    ensures Lower(command) == "activate" ==>
              (BindingsCheckCommand(names, command, parameters).Ok? <==> |parameters| == 1 && parameters[0].s in names)
    ensures Lower(command) == "next" || Lower(command) == "previous" ==>
              (BindingsCheckCommand(names, command, parameters).Ok? <==> parameters == [])
    ensures Lower(command) !in {"activate", "next", "previous"} ==>
              BindingsCheckCommand(names, command, parameters) == Fail(InvalidCommand(command))
  {
  }

  /** Check and execute go through the same lookup: a name is unknown to one exactly when
      it is unknown to the other, and then neither looks at the parameters. */
  lemma CheckAndExecuteShareLookup(names: set<string>, order: seq<string>, active: string,
                                   command: string, parameters: seq<Value>)
    requires |order| > 0 && BindingsCommandSafe(command, parameters)
    ensures BindingsCheckCommand(names, command, parameters) == Fail(InvalidCommand(command)) <==>
              Lower(command) !in BindingsCommands
    ensures ExecuteBindingsCommand(order, active, command, parameters).outcome == Fail(InvalidCommand(command)) <==>
              Lower(command) !in BindingsCommands
    ensures Lower(command) !in BindingsCommands ==> ExecuteBindingsCommand(order, active, command, parameters).active == active
  {
  }

  /** The three names of the table resolve to themselves. */
  lemma ActivateResolves()
    ensures LookupIn(BindingsCommands, "activate") == Success(ActivateCommand)
  {
    NameResolves("activate");
  }

  lemma NextResolves()
    ensures LookupIn(BindingsCommands, "next") == Success(NextCommand)
  {
    NameResolves("next");
  }

  lemma PreviousResolves()
    ensures LookupIn(BindingsCommands, "previous") == Success(PreviousCommand)
  {
    NameResolves("previous");
  }

  lemma NameResolves(name: string)
    requires name in BindingsCommands
    ensures LookupIn(BindingsCommands, name) == Success(BindingsCommands[name])
  {
    assert IsLower(name);
    LowerFixesLowerCase(name);
  }

  /** activateBindings: the named set is active afterwards; activating the active set
      changes nothing. */
  lemma ActivateSelects(order: seq<string>, active: string, name: string)
    requires |order| > 0
    ensures ExecuteBindingsCommand(order, active, "activate", [Str(name)]) == BindingsStep(name, Ok)
    ensures ExecuteBindingsCommand(order, name, "activate", [Str(name)]) == BindingsStep(name, Ok)
  {
    ActivateResolves();
  }

  /** `next` moves the active set to its successor in the order. */
  lemma NextStep(order: seq<string>, active: string)
    requires |order| > 0
    ensures ExecuteBindingsCommand(order, active, "next", []) == BindingsStep(Next(order, active), Ok)
  {
    NextResolves();
  }

  /** `previous` moves the active set to its predecessor in the order. */
  lemma PreviousStep(order: seq<string>, active: string)
    requires |order| > 0
    ensures ExecuteBindingsCommand(order, active, "previous", []) == BindingsStep(Prev(order, active), Ok)
  {
    PreviousResolves();
  }

  /** With distinct names `next` and `previous` undo each other. */
  lemma NextPreviousUndo(order: seq<string>, active: string)
    requires Distinct(order) && active in order
    ensures ExecuteBindingsCommand(order, Next(order, active), "previous", []).active == active
    ensures ExecuteBindingsCommand(order, Prev(order, active), "next", []).active == active
  {
    PreviousStep(order, Next(order, active));
    NextStep(order, Prev(order, active));
    PrevOfNext(order, active);
  }

  /** With a single set `next` and `previous` both stay put. */
  lemma SingleSetStaysPut(active: string)
    ensures ExecuteBindingsCommand([active], active, "next", []).active == active
    ensures ExecuteBindingsCommand([active], active, "previous", []).active == active
  {
    NextStep([active], active);
    PreviousStep([active], active);
    SingleElementSteps([active], active);
  }

  // ---------------------------------------------------------------------------------
  // Properties of the build

  /** processKeypress's lookup: a bound `source.key` wins over a bound `key`, and a key
      bound neither way in the active set resolves to nothing. */
  lemma ResolvePrefersQualified(b: Bindings, source: string, key: string)
    requires b.active in b.sets
    ensures source + "." + key in b.sets[b.active] ==>
              Resolve(b, source, key) == Some(b.sets[b.active][source + "." + key])
    ensures source + "." + key !in b.sets[b.active] && key in b.sets[b.active] ==>
              Resolve(b, source, key) == Some(b.sets[b.active][key])
    ensures Resolve(b, source, key).None? <==>
              source + "." + key !in b.sets[b.active] && key !in b.sets[b.active]
  {
  }

  /** A command naming no known target fails with that name. */
  lemma UnknownTargetFails(targets: map<string, Target>, names: set<string>, item: CommandItem)
    requires SplitAtDot(item.command).head !in targets
    ensures ResolveCommand(targets, names, item) == Failure(InvalidCommandTarget(SplitAtDot(item.command).head))
  {
  }

  /** A command list resolves exactly when each of its commands does. */
  lemma ResolveAllIff(targets: map<string, Target>, names: set<string>, items: seq<CommandItem>)
    requires forall i :: 0 <= i < |items| ==> CommandSafe(targets, items[i])
    ensures ResolveSafe(targets, names, items)
    ensures ResolveAll(targets, names, items).Success? <==>
              forall i :: 0 <= i < |items| ==> ResolveCommand(targets, names, items[i]).Success?
  {
    ResolverGuarded(targets, names);
    UntilFailureIff(Safety(targets), Resolver(targets, names), items);
  }

  /** A list that resolves gives one action per command, in order. */
  lemma ResolveAllActions(targets: map<string, Target>, names: set<string>, items: seq<CommandItem>)
    requires ResolveSafe(targets, names, items) && ResolveAll(targets, names, items).Success?
    ensures var actions := ResolveAll(targets, names, items).value;
      && |actions| == |items|
      && forall i :: 0 <= i < |items| ==>
           CommandSafe(targets, items[i]) && ResolveCommand(targets, names, items[i]) == Success(actions[i])
  {
    ResolverGuarded(targets, names);
    UntilFailureValues(Safety(targets), Resolver(targets, names), items);
  }

  /** An action that passed its target's check, with a target of the map. */
  predicate Checked(targets: map<string, Target>, names: set<string>, a: Action) {
    a.target in targets.Values && TargetCheckSafe(a.target, a.command, a.parameters)
    && TargetCheck(names, a.target, a.command, a.parameters).Ok?
  }

  /** Every action of every set passed its check. */
  predicate AllChecked(targets: map<string, Target>, names: set<string>, sets: map<string, BindingSet>) {
    forall n, k, i :: n in sets && k in sets[n] && 0 <= i < |sets[n][k]| ==> Checked(targets, names, sets[n][k][i])
  }

  predicate SetChecked(targets: map<string, Target>, names: set<string>, bindings: BindingSet) {
    forall k, i :: k in bindings && 0 <= i < |bindings[k]| ==> Checked(targets, names, bindings[k][i])
  }

  /** A check that passed keeps passing once more sets exist. */
  lemma CheckedGrows(targets: map<string, Target>, names: set<string>, names': set<string>, a: Action)
    requires names <= names' && Checked(targets, names, a)
    ensures Checked(targets, names', a)
  {
    if a.target.BindingsTarget? {
      LookupIgnoresCase(BindingsCommands, a.command);
    }
  }

  /** A command that resolves passed its target's check. */
  lemma ResolvedChecked(targets: map<string, Target>, names: set<string>, item: CommandItem)
    requires CommandSafe(targets, item) && ResolveCommand(targets, names, item).Success?
    ensures Checked(targets, names, ResolveCommand(targets, names, item).value)
  {
  }

  lemma ResolveAllChecked(targets: map<string, Target>, names: set<string>, items: seq<CommandItem>)
    requires ResolveSafe(targets, names, items)
    requires ResolveAll(targets, names, items).Success?
    ensures forall i :: 0 <= i < |ResolveAll(targets, names, items).value| ==>
              Checked(targets, names, ResolveAll(targets, names, items).value[i])
  {
    ResolveAllActions(targets, names, items);
    forall i | 0 <= i < |items| {
      ResolvedChecked(targets, names, items[i]);
    }
  }

  lemma {:induction false} BuildSetChecked(targets: map<string, Target>, names: set<string>, acc: BindingSet,
                                           items: seq<BindingItem>)
    requires SetSafe(targets, names, items)
    requires BuildSetFrom(targets, names, acc, items).Success?
    requires SetChecked(targets, names, acc)
    ensures SetChecked(targets, names, BuildSetFrom(targets, names, acc, items).value)
    decreases |items|
  {
    if items != [] {
      var actions := ResolveAll(targets, names, items[0].commands).value;
      ResolveAllChecked(targets, names, items[0].commands);
      BuildSetChecked(targets, names, BindKeys(acc, items[0].keys, actions), items[1..]);
    }
  }

  /** `bindings.activate` inside a set names a set defined before it: the set being
      built is not yet among `names`. */
  lemma ActivateNamesEarlierSet(targets: map<string, Target>, names: set<string>, items: seq<BindingItem>,
                                k: string, i: int)
    requires SetSafe(targets, names, items)
    requires BuildSetFrom(targets, names, map[], items).Success?
    requires var built := BuildSetFrom(targets, names, map[], items).value;
      k in built && 0 <= i < |built[k]| && built[k][i].target.BindingsTarget? && Lower(built[k][i].command) == "activate"
    ensures var a := BuildSetFrom(targets, names, map[], items).value[k][i];
      |a.parameters| == 1 && a.parameters[0].Str? && a.parameters[0].s in names
  {
    BuildSetChecked(targets, names, map[], items);
  }

  /** `activate` of a name no set has yet is refused by the check. */
  lemma ActivateUnknownRefused(names: set<string>, name: string)
    requires name !in names
    ensures BindingsCommandSafe("activate", [Str(name)])
    ensures BindingsCheckCommand(names, "activate", [Str(name)]) == Fail(InvalidBindingsName(name))
  {
    NameResolves("activate");
  }

  /** A first set that activates itself is refused: its own name does not exist yet. */
  lemma SelfActivationRefused(keypads: set<string>, configured: map<string, ObsClient.ObsCommandTarget>,
                              name: string, keys: seq<string>)
    requires name != ""
    ensures var defs := [BindingDefinition(name, [BindingItem(keys, [CommandItem("bindings" + "." + "activate", [Str(name)])])])];
      BuildSafe(Targets(configured), {}, defs)
      && CreateBindings(keypads, Targets(configured), defs) == Failure(InvalidBindingsName(name))
  {
    var targets := Targets(configured);
    var item := CommandItem("bindings" + "." + "activate", [Str(name)]);
    assert '.' !in "bindings" by {
      assert forall i :: 0 <= i < |"bindings"| ==> "bindings"[i] != '.';
    }
    SplitAtDotOfJoin("bindings", "activate");
    ActivateUnknownRefused({}, name);
    assert ResolveCommand(targets, {}, item) == Failure(InvalidBindingsName(name));
    assert ResolveSafe(targets, {}, [item]);
    assert ResolveAll(targets, {}, [item]) == Failure(InvalidBindingsName(name));
    var binding := BindingItem(keys, [item]);
    assert SetSafe(targets, {}, [binding]);
    assert BuildSetFrom(targets, {}, map[], [binding]) == Failure(InvalidBindingsName(name));
    var defs := [BindingDefinition(name, [binding])];
    assert BuildSafe(targets, {}, defs);
    assert NoBindings.sets.Keys == {};
    assert Build(targets, defs) == Failure(InvalidBindingsName(name));
  }

  /** Among the bindings of one set, the last one naming a key decides its actions. */
  lemma {:induction false} LastBindingWins(targets: map<string, Target>, names: set<string>, acc: BindingSet,
                                           items: seq<BindingItem>, j: int, k: string)
    requires SetSafe(targets, names, items)
    requires BuildSetFrom(targets, names, acc, items).Success?
    requires 0 <= j < |items| && k in items[j].keys
    requires forall j' :: j < j' < |items| ==> k !in items[j'].keys
    ensures ResolveSafe(targets, names, items[j].commands) && ResolveAll(targets, names, items[j].commands).Success?
    ensures var built := BuildSetFrom(targets, names, acc, items).value;
      k in built && built[k] == ResolveAll(targets, names, items[j].commands).value
    decreases |items|
  {
    var actions := ResolveAll(targets, names, items[0].commands).value;
    var acc' := BindKeys(acc, items[0].keys, actions);
    if j == 0 {
      KeptUntilRebound(targets, names, acc', items[1..], k);
    } else {
      LastBindingWins(targets, names, acc', items[1..], j - 1, k);
    }
  }

  /** A key no later binding names keeps the actions it had. */
  lemma {:induction false} KeptUntilRebound(targets: map<string, Target>, names: set<string>, acc: BindingSet,
                                            items: seq<BindingItem>, k: string)
    requires SetSafe(targets, names, items)
    requires BuildSetFrom(targets, names, acc, items).Success?
    requires k in acc && forall j :: 0 <= j < |items| ==> k !in items[j].keys
    ensures var built := BuildSetFrom(targets, names, acc, items).value;
      k in built && built[k] == acc[k]
    decreases |items|
  {
    if items != [] {
      var actions := ResolveAll(targets, names, items[0].commands).value;
      KeptUntilRebound(targets, names, BindKeys(acc, items[0].keys, actions), items[1..], k);
    }
  }

  /** The state after one definition. */
  function AfterDefinition(b: Bindings, def: BindingDefinition, built: BindingSet): (r: Bindings)
    ensures r.sets.Keys == b.sets.Keys + {SetName(def)}
  {
    var name := SetName(def);
    Bindings(b.sets[name := built], b.order + [name], if b.active == "" then name else b.active)
  }

  /** BuildFrom, one definition at a time. */
  lemma BuildFromStep(targets: map<string, Target>, b: Bindings, defs: seq<BindingDefinition>)
    requires BuildSafe(targets, b.sets.Keys, defs) && defs != []
    requires BuildFrom(targets, b, defs).Success?
    ensures SetSafe(targets, b.sets.Keys, defs[0].bindings)
    ensures BuildSetFrom(targets, b.sets.Keys, map[], defs[0].bindings).Success?
    ensures var b' := AfterDefinition(b, defs[0], BuildSetFrom(targets, b.sets.Keys, map[], defs[0].bindings).value);
      BuildSafe(targets, b'.sets.Keys, defs[1..]) && BuildFrom(targets, b, defs) == BuildFrom(targets, b', defs[1..])
  {
  }

  /** One turn of the build's outer loop: the next set is built, and either its error
      ends the build or the build goes on from the bindings with that set added. */
  lemma BuildFromNext(targets: map<string, Target>, b: Bindings, defs: seq<BindingDefinition>, i: nat)
    requires i < |defs| && BuildSafe(targets, b.sets.Keys, defs[i..])
    ensures SetSafe(targets, b.sets.Keys, defs[i].bindings)
    ensures var built := BuildSetFrom(targets, b.sets.Keys, map[], defs[i].bindings);
      && (built.Failure? ==> BuildFrom(targets, b, defs[i..]) == Failure(built.error))
      && (built.Success? ==>
            var b' := AfterDefinition(b, defs[i], built.value);
            BuildSafe(targets, b'.sets.Keys, defs[i + 1..]) && BuildFrom(targets, b, defs[i..]) == BuildFrom(targets, b', defs[i + 1..]))
  {
    assert defs[i..][0] == defs[i] && defs[i..][1..] == defs[i + 1..];
  }

  /** The order lists the set names in definition order, repeats included. */
  lemma {:induction false} BuildFromOrder(targets: map<string, Target>, b: Bindings, defs: seq<BindingDefinition>)
    requires BuildSafe(targets, b.sets.Keys, defs)
    requires BuildFrom(targets, b, defs).Success?
    ensures BuildFrom(targets, b, defs).value.order == b.order + SetNames(defs)
    decreases |defs|
  {
    if defs != [] {
      BuildFromStep(targets, b, defs);
      var b' := AfterDefinition(b, defs[0], BuildSetFrom(targets, b.sets.Keys, map[], defs[0].bindings).value);
      BuildFromOrder(targets, b', defs[1..]);
      assert SetNames(defs) == [SetName(defs[0])] + SetNames(defs[1..]);
    }
  }

  /** The sets are exactly those that existed and those just named. */
  lemma {:induction false} BuildFromNames(targets: map<string, Target>, b: Bindings, defs: seq<BindingDefinition>)
    requires BuildSafe(targets, b.sets.Keys, defs)
    requires BuildFrom(targets, b, defs).Success?
    ensures forall n :: n in BuildFrom(targets, b, defs).value.sets <==> n in b.sets || n in SetNames(defs)
    decreases |defs|
  {
    if defs != [] {
      BuildFromStep(targets, b, defs);
      var b' := AfterDefinition(b, defs[0], BuildSetFrom(targets, b.sets.Keys, map[], defs[0].bindings).value);
      BuildFromNames(targets, b', defs[1..]);
      assert SetNames(defs) == [SetName(defs[0])] + SetNames(defs[1..]);
    }
  }

  /** The first set becomes active, unless one already was. */
  lemma {:induction false} BuildFromActive(targets: map<string, Target>, b: Bindings, defs: seq<BindingDefinition>)
    requires BuildSafe(targets, b.sets.Keys, defs)
    requires BuildFrom(targets, b, defs).Success?
    ensures BuildFrom(targets, b, defs).value.active ==
              if b.active != "" || defs == [] then b.active else SetName(defs[0])
    decreases |defs|
  {
    if defs != [] {
      BuildFromStep(targets, b, defs);
      var b' := AfterDefinition(b, defs[0], BuildSetFrom(targets, b.sets.Keys, map[], defs[0].bindings).value);
      BuildFromActive(targets, b', defs[1..]);
    }
  }

  /** Every action of every set passed its target's check. */
  lemma {:induction false} BuildFromChecked(targets: map<string, Target>, b: Bindings, defs: seq<BindingDefinition>)
    requires BuildSafe(targets, b.sets.Keys, defs)
    requires BuildFrom(targets, b, defs).Success?
    requires AllChecked(targets, b.sets.Keys, b.sets)
    ensures var r := BuildFrom(targets, b, defs).value; AllChecked(targets, r.sets.Keys, r.sets)
    decreases |defs|
  {
    if defs != [] {
      BuildFromStep(targets, b, defs);
      var built := BuildSetFrom(targets, b.sets.Keys, map[], defs[0].bindings).value;
      var b' := AfterDefinition(b, defs[0], built);
      BuildSetChecked(targets, b.sets.Keys, map[], defs[0].bindings);
      forall n, k, i | n in b'.sets && k in b'.sets[n] && 0 <= i < |b'.sets[n][k]|
        ensures Checked(targets, b'.sets.Keys, b'.sets[n][k][i])
      {
        CheckedGrows(targets, b.sets.Keys, b'.sets.Keys, b'.sets[n][k][i]);
      }
      BuildFromChecked(targets, b', defs[1..]);
    }
  }

  /** CreateAndInitController's bindings on success: one set per definition name, listed
      in definition order, the first of them active, and every action checked. */
  lemma CreateBindingsSucceeds(keypads: set<string>, targets: map<string, Target>, defs: seq<BindingDefinition>)
    requires BuildSafe(targets, {}, defs)
    requires CreateBindings(keypads, targets, defs).Success?
    ensures var r := CreateBindings(keypads, targets, defs).value;
      && keypads != {} && defs != []
      && r.order == SetNames(defs)
      && r.active == SetName(defs[0]) && r.active in r.sets
      && (forall n :: n in r.sets <==> n in r.order)
      && AllChecked(targets, r.sets.Keys, r.sets)
  {
    assert NoBindings.sets.Keys == {};
    BuildFromOrder(targets, NoBindings, defs);
    BuildFromNames(targets, NoBindings, defs);
    BuildFromActive(targets, NoBindings, defs);
    BuildFromChecked(targets, NoBindings, defs);
    var r := BuildFrom(targets, NoBindings, defs).value;
    assert r.order[0] == SetName(defs[0]);
  }

  /** A configuration whose sets all build is refused exactly when it has no keypad or no
      set; the targets never make it fail, since they hold the controller. */
  lemma CreateBindingsNeedsKeypadsAndSets(keypads: set<string>, configured: map<string, ObsClient.ObsCommandTarget>,
                                          defs: seq<BindingDefinition>)
    requires BuildSafe(Targets(configured), {}, defs)
    requires Build(Targets(configured), defs).Success?
    ensures var r := CreateBindings(keypads, Targets(configured), defs);
      (r.Failure? <==> keypads == {} || defs == []) && (r.Failure? ==> r.error == MissingConfiguration)
  {
    var targets := Targets(configured);
    TargetsNeverEmpty(configured);
    assert NoBindings.sets.Keys == {};
    BuildFromNames(targets, NoBindings, defs);
    var r := BuildFrom(targets, NoBindings, defs).value;
    if defs != [] {
      assert SetName(defs[0]) in r.sets;
    } else {
      assert r.sets.Keys == {};
    }
  }

  // ---------------------------------------------------------------------------------
  // The effect of a key press

  /** What an OBS action can touch: the target's fields, whether its client is
      connected, and the command requests written to its socket. */
  datatype ObsView = ObsView(state: Obs.State, connected: bool, sent: seq<Obs.Request>)

  /** Everything a run of actions can reach: the active set and every OBS target. */
  datatype World = World(active: string, views: map<ObsClient.ObsCommandTarget, ObsView>)

  /** One action's outcome and the world after it. */
  datatype Ran = Ran(outcome: Outcome, world: World)

  /** The outcomes of a run of actions and the world after them. */
  datatype Run = Run(results: seq<Outcome>, world: World)

  /** An OBS action on a connected target must be runnable in that target's state:
      `nextscene` and its kin need a non-empty list. */
  predicate Runnable(w: World, a: Action) {
    a.target.ObsTarget? && a.target.obs in w.views && w.views[a.target.obs].connected ==>
      Obs.CommandSafe(w.views[a.target.obs].state, a.command, a.parameters)
  }

  /** An action that runs without a panic in `w`, on a target `w` holds. */
  predicate ActionSafe(w: World, a: Action) {
    match a.target
    case BindingsTarget => BindingsCommandSafe(a.command, a.parameters)
    case ObsTarget(o) => o in w.views && Runnable(w, a)
  }

  predicate RunSafe(w: World, actions: seq<Action>) {
    forall i :: 0 <= i < |actions| ==> ActionSafe(w, actions[i])
  }

  /** The worlds agree on what decides whether an action may run: the targets, their
      connections and their lists. */
  predicate SameLists(w: World, w': World) {
    && w'.views.Keys == w.views.Keys
    && forall o :: o in w.views ==>
         && w'.views[o].connected == w.views[o].connected
         && w'.views[o].state.scenes == w.views[o].state.scenes
         && w'.views[o].state.sceneCollections == w.views[o].state.sceneCollections
  }

  /** The active set after one action: the controller's own command moves it, the other
      targets' commands leave it alone. */
  function AfterAction(order: seq<string>, active: string, a: Action): string
    requires |order| > 0 && (a.target.BindingsTarget? ==> BindingsCommandSafe(a.command, a.parameters))
  {
    if a.target.BindingsTarget? then ExecuteBindingsCommand(order, active, a.command, a.parameters).active
    else active
  }

  /** `item.Target.ExecuteCommand(item.Command, item.Parameters)`: the controller's own
      command moves the active set; an OBS command runs on its target, whose next
      request is answered as the one after those already in its log. */
  function RunStep(order: seq<string>, w: World, a: Action): Ran
    requires |order| > 0 && ActionSafe(w, a)
  {
    match a.target
    case BindingsTarget =>
      var s := ExecuteBindingsCommand(order, w.active, a.command, a.parameters);
      Ran(s.outcome, w.(active := s.active))
    case ObsTarget(o) =>
      var v := w.views[o];
      var s := Obs.ExecuteCommand(v.state, v.connected, o.client.answer, |v.sent|, a.command, a.parameters);
      Ran(s.outcome, w.(views := w.views[o := ObsView(s.state, v.connected, v.sent + s.sent)]))
  }

  /** One action keeps every target's lists and connection, and moves the active set as
      AfterAction says. */
  lemma RunStepKeepsLists(order: seq<string>, w: World, a: Action)
    requires |order| > 0 && ActionSafe(w, a)
    ensures SameLists(w, RunStep(order, w, a).world)
    ensures RunStep(order, w, a).world.active == AfterAction(order, w.active, a)
  {
    if a.target.ObsTarget? {
      var o := a.target.obs;
      var v := w.views[o];
      Obs.ExecuteCommandKeepsLists(v.state, v.connected, o.client.answer, |v.sent|, a.command, a.parameters);
    }
  }

  lemma SafeUnderSameLists(w: World, w': World, a: Action)
    requires SameLists(w, w') && ActionSafe(w, a)
    ensures ActionSafe(w', a)
  {
    if a.target.ObsTarget? {
      var o := a.target.obs;
      Obs.CommandSafeDependsOnLists(w.views[o].state, w'.views[o].state, a.command, a.parameters);
    }
  }

  lemma RunSafeUnderSameLists(w: World, w': World, actions: seq<Action>)
    requires SameLists(w, w') && RunSafe(w, actions)
    ensures RunSafe(w', actions)
  {
    forall i | 0 <= i < |actions| {
      SafeUnderSameLists(w, w', actions[i]);
    }
  }

  /** The loop of processKeypress: the actions run in order, and the first error ends it. */
  function RunAll(order: seq<string>, w: World, actions: seq<Action>): Run
    requires |order| > 0 && RunSafe(w, actions)
    decreases |actions|
  {
    if actions == [] then Run([], w)
    else
      var first := RunStep(order, w, actions[0]);
      if first.outcome.Fail? then Run([first.outcome], first.world)
      else
        assert RunSafe(w, actions[1..]) by {
          assert forall i :: 0 <= i < |actions[1..]| ==> actions[1..][i] == actions[i + 1];
        }
        RunStepKeepsLists(order, w, actions[0]);
        RunSafeUnderSameLists(w, first.world, actions[1..]);
        var rest := RunAll(order, first.world, actions[1..]);
        Run([first.outcome] + rest.results, rest.world)
  }

  /** Outcomes already collected, in front of a run that follows them. */
  function Join(done: seq<Outcome>, rest: Run): Run {
    Run(done + rest.results, rest.world)
  }

  lemma JoinNothing(rest: Run)
    ensures Join([], rest) == rest
  {
    assert [] + rest.results == rest.results;
  }

  lemma JoinTwice(first: seq<Outcome>, second: seq<Outcome>, rest: Run)
    ensures Join(first, Join(second, rest)) == Join(first + second, rest)
  {
    assert first + (second + rest.results) == first + second + rest.results;
  }

  /** One turn of the dispatch loop: an error ends the run with that error, a success
      is followed by the run of the remaining actions in the world it left. */
  lemma RunAllStep(order: seq<string>, w: World, actions: seq<Action>, i: nat)
    requires |order| > 0 && i < |actions| && RunSafe(w, actions[i..])
    ensures ActionSafe(w, actions[i])
    ensures var s := RunStep(order, w, actions[i]);
      && (s.outcome.Fail? ==> RunAll(order, w, actions[i..]) == Run([s.outcome], s.world))
      && (s.outcome.Ok? ==> RunSafe(s.world, actions[i + 1..])
                            && RunAll(order, w, actions[i..]) == Join([s.outcome], RunAll(order, s.world, actions[i + 1..])))
  {
    assert actions[i..][0] == actions[i] && actions[i..][1..] == actions[i + 1..];
    var rest := actions[i + 1..];
    forall j | 0 <= j < |rest|
      ensures ActionSafe(w, rest[j])
    {
      assert rest[j] == actions[i..][j + 1];
    }
    RunStepKeepsLists(order, w, actions[i]);
    RunSafeUnderSameLists(w, RunStep(order, w, actions[i]).world, actions[i + 1..]);
  }

  /** The outcomes of running `n` actions in order until the first error: every outcome
      but the last is a success, and the run ends early only on an error. */
  predicate FailFast(results: seq<Outcome>, n: nat) {
    && |results| <= n
    && (forall i :: 0 <= i < |results| - 1 ==> results[i].Ok?)
    && (|results| < n ==> results != [] && results[|results| - 1].Fail?)
  }

  /** A run stops at its first error and only there. */
  lemma {:induction false} RunAllFailFast(order: seq<string>, w: World, actions: seq<Action>)
    requires |order| > 0 && RunSafe(w, actions)
    ensures FailFast(RunAll(order, w, actions).results, |actions|)
    decreases |actions|
  {
    if actions != [] {
      var first := RunStep(order, w, actions[0]);
      if first.outcome.Ok? {
        RunAllStep(order, w, actions, 0);
        assert actions[0..] == actions;
        RunAllFailFast(order, first.world, actions[1..]);
      }
    }
  }

  /** Once an action has failed, the actions after it never run: appending more actions
      to a failed run changes neither its outcomes nor the world it leaves. */
  lemma {:induction false} RunAllStopsAtFailure(order: seq<string>, w: World, actions: seq<Action>, more: seq<Action>)
    requires |order| > 0 && RunSafe(w, actions) && RunSafe(w, more)
    requires var r := RunAll(order, w, actions).results; r != [] && r[|r| - 1].Fail?
    ensures RunSafe(w, actions + more)
    ensures RunAll(order, w, actions + more) == RunAll(order, w, actions)
    decreases |actions|
  {
    var all := actions + more;
    assert RunSafe(w, all) by {
      assert forall i :: 0 <= i < |all| ==> all[i] == if i < |actions| then actions[i] else more[i - |actions|];
    }
    assert all[0] == actions[0];
    var first := RunStep(order, w, actions[0]);
    if first.outcome.Ok? {
      RunAllStep(order, w, actions, 0);
      RunAllStep(order, w, all, 0);
      assert actions[0..] == actions && all[0..] == all;
      assert all[1..] == actions[1..] + more;
      RunStepKeepsLists(order, w, actions[0]);
      RunSafeUnderSameLists(w, first.world, more);
      RunAllStopsAtFailure(order, first.world, actions[1..], more);
    }
  }

  /** A target that no action names keeps its fields, its connection and its log. */
  lemma {:induction false} RunAllUntouched(order: seq<string>, w: World, actions: seq<Action>,
                                           o: ObsClient.ObsCommandTarget)
    requires |order| > 0 && RunSafe(w, actions) && o in w.views
    requires forall i :: 0 <= i < |actions| ==> actions[i].target != ObsTarget(o)
    ensures o in RunAll(order, w, actions).world.views
    ensures RunAll(order, w, actions).world.views[o] == w.views[o]
    decreases |actions|
  {
    if actions != [] {
      var first := RunStep(order, w, actions[0]);
      RunStepKeepsLists(order, w, actions[0]);
      if first.outcome.Ok? {
        RunAllStep(order, w, actions, 0);
        assert actions[0..] == actions;
        RunAllUntouched(order, first.world, actions[1..], o);
      }
    }
  }

  /** A key press never changes a target's lists or its connection. */
  lemma {:induction false} RunAllKeepsLists(order: seq<string>, w: World, actions: seq<Action>)
    requires |order| > 0 && RunSafe(w, actions)
    ensures SameLists(w, RunAll(order, w, actions).world)
    decreases |actions|
  {
    if actions != [] {
      var first := RunStep(order, w, actions[0]);
      RunStepKeepsLists(order, w, actions[0]);
      if first.outcome.Ok? {
        RunAllStep(order, w, actions, 0);
        assert actions[0..] == actions;
        RunAllKeepsLists(order, first.world, actions[1..]);
      }
    }
  }

  /** A checked command of the controller never fails when run. */
  lemma CheckedBindingsCommandSucceeds(targets: map<string, Target>, names: set<string>, order: seq<string>,
                                       active: string, a: Action)
    requires |order| > 0 && a.target.BindingsTarget? && Checked(targets, names, a)
    ensures ExecuteBindingsCommand(order, active, a.command, a.parameters).outcome == Ok
  {
  }

  /** A checked action keeps the active set among the existing sets: `activate` names
      one that passed the check, and `next`/`previous` pick one from the order. */
  lemma AfterActionStaysKnown(targets: map<string, Target>, sets: map<string, BindingSet>,
                              order: seq<string>, active: string, a: Action)
    requires |order| > 0 && (forall i :: 0 <= i < |order| ==> order[i] in sets)
    requires Checked(targets, sets.Keys, a) && active in sets
    ensures a.target.BindingsTarget? ==> BindingsCommandSafe(a.command, a.parameters)
    ensures AfterAction(order, active, a) in sets
  {
    if a.target.BindingsTarget? {
      LookupIgnoresCase(BindingsCommands, a.command);
    }
  }

  /** The same along a run of checked actions. */
  lemma {:induction false} RunAllStaysKnown(targets: map<string, Target>, sets: map<string, BindingSet>,
                                            order: seq<string>, w: World, actions: seq<Action>)
    requires |order| > 0 && (forall i :: 0 <= i < |order| ==> order[i] in sets)
    requires forall i :: 0 <= i < |actions| ==> Checked(targets, sets.Keys, actions[i])
    requires w.active in sets && RunSafe(w, actions)
    ensures RunAll(order, w, actions).world.active in sets
    decreases |actions|
  {
    if actions != [] {
      var first := RunStep(order, w, actions[0]);
      RunStepKeepsLists(order, w, actions[0]);
      AfterActionStaysKnown(targets, sets, order, w.active, actions[0]);
      if first.outcome.Ok? {
        RunAllStep(order, w, actions, 0);
        assert actions[0..] == actions;
        RunAllStaysKnown(targets, sets, order, first.world, actions[1..]);
      }
    }
  }
}
