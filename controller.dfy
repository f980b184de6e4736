/** The keypad controller: it owns the binding sets, builds them from the parsed
    configuration in nested loops, is itself the "bindings" target, and dispatches each
    key press to the actions bound to it. Every method is proved against the functions
    of module Registry. */
module Controller {
  import opened Outcomes
  import opened Text
  import opened CommandsMap
  import opened Cycle
  import opened Registry
  import Obs
  import ObsClient

  /** What a key press led to: nothing bound, or the outcomes of the actions that ran. */
  datatype Dispatch = Dropped | Processed(results: seq<Outcome>)

  /** Each configured OBS target has its own websocket client. */
  ghost predicate OwnClients(configured: map<string, ObsClient.ObsCommandTarget>) {
    forall n, m :: n in configured && m in configured && configured[n] != configured[m] ==>
      configured[n].client != configured[m].client
  }

  class KeypadsController {
    const keypads: set<string>
    const targets: map<string, Target>
    var keybindings: map<string, BindingSet>
    var bindingsOrder: seq<string>
    var activeBindings: string
    const commandsMap: CommandMap<BindingsCommand>
    /** The OBS targets the actions may reach. */
    ghost const obsTargets: set<ObsClient.ObsCommandTarget>

    function State(): Bindings
      reads this
    {
      Bindings(keybindings, bindingsOrder, activeBindings)
    }

    ghost function ObsTables(): set<CommandMap<Obs.ObsCommand>> {
      set o | o in obsTargets :: o.commandsMap
    }

    ghost function Clients(): set<ObsClient.Connection> {
      set o | o in obsTargets :: o.client
    }

    /** What an action can touch on one OBS target. */
    ghost function View(o: ObsClient.ObsCommandTarget): ObsView
      reads o, o.client
    {
      ObsView(o.Snapshot(), o.client.connected, o.client.sent)
    }

    /** Everything a run of actions reads and writes: the active set and every OBS target. */
    ghost function Reach(): World
      reads this, obsTargets, Clients()
    {
      World(activeBindings, map o | o in obsTargets :: View(o))
    }

    /** The tables every check reads: the controller's own, and each OBS target's. */
    ghost predicate TablesValid()
      reads commandsMap, ObsTables()
    {
      && commandsMap.commands == BindingsCommands
      && "bindings" in targets && targets["bindings"] == BindingsTarget
      && (forall n :: n in targets && targets[n].ObsTarget? ==> targets[n].obs in obsTargets)
      && (forall o :: o in obsTargets ==> o.Valid())
      && (forall o, p :: o in obsTargets && p in obsTargets && o != p ==> o.client != p.client)
    }

    /** A built controller: the order names exactly the sets, and every bound action
        passed its target's check. */
    ghost predicate Valid()
      reads this`keybindings, this`bindingsOrder, commandsMap, ObsTables()
    {
      TablesValid() && Built()
    }

    ghost predicate Built()
      reads this`keybindings, this`bindingsOrder
    {
      && |bindingsOrder| > 0
      && (forall n :: n in keybindings <==> n in bindingsOrder)
      && AllChecked(targets, keybindings.Keys, keybindings)
    }

    /** The in-memory part of CreateAndInitController before the sets are built: the
        configured targets, and the controller itself under "bindings". */
    constructor (keypads: set<string>, configured: map<string, ObsClient.ObsCommandTarget>)
      requires forall n :: n in configured ==> configured[n].Valid()
      requires OwnClients(configured)
      ensures this.keypads == keypads && targets == Targets(configured)
      ensures obsTargets == configured.Values
      ensures State() == NoBindings
      ensures TablesValid()
    {
      this.keypads := keypads;
      targets := Targets(configured);
      obsTargets := configured.Values;
      keybindings := map[];
      bindingsOrder := [];
      activeBindings := "";
      var m := new CommandMap<BindingsCommand>();
      m.Init(BindingsCommands);
      commandsMap := m;
    }

    /** The controller's CheckCommand, against the sets that exist now. */
    function CheckCommand(command: string, parameters: seq<Value>): (r: Outcome)
      reads this, commandsMap
      requires commandsMap.commands == BindingsCommands && BindingsCommandSafe(command, parameters)
      ensures r == BindingsCheckCommand(keybindings.Keys, command, parameters)
    {
      var names := keybindings.Keys;
      commandsMap.CheckCommand(command, parameters,
                               (code, p) requires BindingsCodeSafe(code, p) => BindingsCheckFunc(names, code, p))
    }

    /** A target's CheckCommand, when the target is one of the map's. */
    function TargetCheckCommand(t: Target, command: string, parameters: seq<Value>): (r: Outcome)
      reads this, commandsMap, obsTargets, ObsTables()
      requires TablesValid() && (t.ObsTarget? ==> t.obs in obsTargets) && TargetCheckSafe(t, command, parameters)
      ensures r == TargetCheck(keybindings.Keys, t, command, parameters)
    {
      match t
      case BindingsTarget => CheckCommand(command, parameters)
      case ObsTarget(o) => o.CheckCommand(command, parameters)
    }

    /** One command of a binding: its target named before the first dot, then that
        target's check of the rest. */
    method ResolveCommand(item: CommandItem) returns (r: Result<Action>)
      requires TablesValid() && CommandSafe(targets, item)
      ensures r == Registry.ResolveCommand(targets, keybindings.Keys, item)
    {
      var parts := SplitAtDot(item.command);
      if parts.head !in targets {
        return Failure(InvalidCommandTarget(parts.head));
      }
      var target := targets[parts.head];
      var err := TargetCheckCommand(target, parts.tail.value, item.parameters);
      if err.Fail? {
        return Failure(err.error);
      }
      r := Success(Action(target, parts.tail.value, item.parameters));
    }

    /** One turn of the innermost loop: the next command, resolved against ResolveAll. */
    method ResolveNext(items: seq<CommandItem>, i: nat) returns (action: Result<Action>)
      requires TablesValid() && i < |items| && ResolveSafe(targets, keybindings.Keys, items[i..])
      ensures action.Failure? ==> ResolveAll(targets, keybindings.Keys, items[i..]) == Failure(action.error)
      ensures action.Success? ==>
                && ResolveSafe(targets, keybindings.Keys, items[i + 1..])
                && ResolveAll(targets, keybindings.Keys, items[i..]) ==
                     Prepend([action.value], ResolveAll(targets, keybindings.Keys, items[i + 1..]))
    {
      ResolveAllStep(targets, keybindings.Keys, items, i);
      action := ResolveCommand(items[i]);
    }

    /** The innermost loop of the build: one binding's commands, resolved and checked in
        order until the first error. */
    method ResolveCommands(items: seq<CommandItem>) returns (r: Result<seq<Action>>)
      requires TablesValid() && ResolveSafe(targets, keybindings.Keys, items)
      ensures r == ResolveAll(targets, keybindings.Keys, items)
    {
      var actions: seq<Action> := [];
      var i := 0;
      assert items[0..] == items;
      PrependNothing(ResolveAll(targets, keybindings.Keys, items));
      while i < |items|
        invariant 0 <= i <= |items|
        invariant ResolveSafe(targets, keybindings.Keys, items[i..])
        invariant ResolveAll(targets, keybindings.Keys, items) ==
                    Prepend(actions, ResolveAll(targets, keybindings.Keys, items[i..]))
      {
        var action := ResolveNext(items, i);
        if action.Failure? {
          return Failure(action.error);
        }
        PrependTwice(actions, [action.value], ResolveAll(targets, keybindings.Keys, items[i + 1..]));
        actions := actions + [action.value];
        i := i + 1;
      }
      assert items[i..] == [] && actions + [] == actions;
      r := Success(actions);
    }

    /** Every key of a binding is bound to the same list. */
    static method BindKeys(bindings: BindingSet, keys: seq<string>, actions: seq<Action>) returns (r: BindingSet)
      ensures r == Registry.BindKeys(bindings, keys, actions)
    {
      r := bindings;
      var i := 0;
      while i < |keys|
        invariant 0 <= i <= |keys|
        invariant r == bindings + map k | k in keys[..i] :: actions
      {
        assert keys[..i + 1] == keys[..i] + [keys[i]];
        r := r[keys[i] := actions];
        i := i + 1;
      }
      assert keys[..i] == keys;
    }

    /** One binding set: its bindings in order, each resolved and then bound to its keys. */
    method BuildSet(items: seq<BindingItem>) returns (r: Result<BindingSet>)
      requires TablesValid() && SetSafe(targets, keybindings.Keys, items)
      ensures r == BuildSetFrom(targets, keybindings.Keys, map[], items)
    {
      var bindingsmap: BindingSet := map[];
      var i := 0;
      while i < |items|
        invariant 0 <= i <= |items|
        invariant SetSafe(targets, keybindings.Keys, items[i..])
        invariant BuildSetFrom(targets, keybindings.Keys, map[], items) ==
                    BuildSetFrom(targets, keybindings.Keys, bindingsmap, items[i..])
      {
        assert items[i..][0] == items[i] && items[i..][1..] == items[i + 1..];
        var actions := ResolveCommands(items[i].commands);
        if actions.Failure? {
          return Failure(actions.error);
        }
        bindingsmap := BindKeys(bindingsmap, items[i].keys, actions.value);
        i := i + 1;
      }
      r := Success(bindingsmap);
    }

    /** The end of one turn of the outer loop: the set is stored under its name and
        appended to the order, and becomes active if none is. */
    method AddSet(def: BindingDefinition, bindingsmap: BindingSet)
      modifies this`keybindings, this`bindingsOrder, this`activeBindings
      ensures State() == AfterDefinition(old(State()), def, bindingsmap)
    {
      var name := "default";
      if def.name != "" {
        name := def.name;
      }
      bindingsOrder := bindingsOrder + [name];
      keybindings := keybindings[name := bindingsmap];
      if activeBindings == "" {
        activeBindings := name;
      }
    }

    /** One turn of the outer loop: the next definition's set is built and stored, or its
        error ends the build. */
    method BuildNext(defs: seq<BindingDefinition>, i: nat) returns (err: Outcome)
      requires TablesValid() && i < |defs| && BuildSafe(targets, keybindings.Keys, defs[i..])
      modifies this`keybindings, this`bindingsOrder, this`activeBindings
      ensures err.Fail? ==> BuildFrom(targets, old(State()), defs[i..]) == Failure(err.error)
      ensures err.Ok? ==>
                && BuildSafe(targets, keybindings.Keys, defs[i + 1..])
                && BuildFrom(targets, old(State()), defs[i..]) == BuildFrom(targets, State(), defs[i + 1..])
    {
      BuildFromNext(targets, State(), defs, i);
      var bindingsmap := BuildSet(defs[i].bindings);
      if bindingsmap.Failure? {
        return Fail(bindingsmap.error);
      }
      AddSet(defs[i], bindingsmap.value);
      err := Ok;
    }

    /** The outer loop of the build: each definition's set in turn. */
    method BuildBindings(defs: seq<BindingDefinition>) returns (err: Outcome)
      requires TablesValid() && BuildSafe(targets, keybindings.Keys, defs)
      modifies this`keybindings, this`bindingsOrder, this`activeBindings
      ensures var r := BuildFrom(targets, old(State()), defs);
        (r.Failure? ==> err == Fail(r.error)) && (r.Success? ==> err == Ok && State() == r.value)
    {
      var i := 0;
      assert defs[0..] == defs;
      while i < |defs|
        invariant 0 <= i <= |defs|
        invariant BuildSafe(targets, keybindings.Keys, defs[i..])
        invariant BuildFrom(targets, old(State()), defs) == BuildFrom(targets, State(), defs[i..])
      {
        err := BuildNext(defs, i);
        if err.Fail? {
          return;
        }
        i := i + 1;
      }
      assert defs[i..] == [];
      err := Ok;
    }

    /** Sets that CreateBindings accepts make a built controller. */
    lemma CreatedIsBuilt(keypads': set<string>, defs: seq<BindingDefinition>)
      requires BuildSafe(targets, {}, defs) && CreateBindings(keypads', targets, defs) == Success(State())
      ensures Built()
    {
      CreateBindingsSucceeds(keypads', targets, defs);
    }

    method GetBindingsPos(bindings: string) returns (index: int)
      ensures index == IndexOf(bindingsOrder, bindings)
    {
      index := Find(bindingsOrder, bindings);
    }

    /** activateBindings: the named set becomes active; it is written only if it differs. */
    method ActivateBindings(bindings: string)
      modifies this`activeBindings
      ensures activeBindings == bindings
    {
      if activeBindings != bindings {
        activeBindings := bindings;
      }
    }

    /** The controller's ExecuteCommand: the table's ExecuteCommand on its own commands. */
    method ExecuteCommand(command: string, parameters: seq<Value>) returns (err: Outcome)
      requires commandsMap.commands == BindingsCommands && |bindingsOrder| > 0
      requires BindingsCommandSafe(command, parameters)
      modifies this`activeBindings
      ensures var step := ExecuteBindingsCommand(bindingsOrder, old(activeBindings), command, parameters);
        activeBindings == step.active && err == step.outcome
    {
      match commandsMap.Lookup(command)
      case Failure(e) =>
        err := Fail(e);
      case Success(code) =>
        match code
        case ActivateCommand =>
          if |parameters| != 1 {
            return Fail(InvalidParameterCount);
          }
          ActivateBindings(parameters[0].s);
          err := Ok;
        case NextCommand =>
          var index := GetBindingsPos(activeBindings);
          ActivateBindings(bindingsOrder[NextIndex(index, |bindingsOrder|)]);
          err := Ok;
        case PreviousCommand =>
          var index := GetBindingsPos(activeBindings);
          ActivateBindings(bindingsOrder[PrevIndex(index, |bindingsOrder|)]);
          err := Ok;
    }

    /** A change to the active set alone. */
    twostate lemma ReachAfterActive()
      requires unchanged(obsTargets) && unchanged(Clients())
      ensures Reach() == old(Reach()).(active := activeBindings)
    {
    }

    /** A change to one OBS target alone: every other target and client is as it was. */
    twostate lemma ReachAfterObs(o: ObsClient.ObsCommandTarget)
      requires o in obsTargets && TablesValid()
      requires unchanged(this)
      requires forall p :: p in obsTargets && p != o ==> unchanged(p) && unchanged(p.client)
      ensures Reach() == old(Reach()).(views := old(Reach()).views[o := View(o)])
    {
      forall p | p in obsTargets && p != o
        ensures View(p) == old(View(p))
      {
        assert p.client != o.client;
      }
    }

    /** An OBS action runs on its target, and nothing else in the world changes. */
    method RunObsAction(a: Action) returns (err: Outcome)
      requires TablesValid() && |bindingsOrder| > 0 && a.target.ObsTarget? && ActionSafe(Reach(), a)
      modifies obsTargets, Clients()
      ensures Ran(err, Reach()) == RunStep(bindingsOrder, old(Reach()), a)
    {
      var o := a.target.obs;
      err := o.ExecuteCommand(a.command, a.parameters);
      ReachAfterObs(o);
    }

    /** One bound action on its target: the controller's own command moves the active
        set, an OBS command runs on its target, and nothing else in the world changes. */
    method RunAction(a: Action) returns (err: Outcome)
      requires TablesValid() && |bindingsOrder| > 0 && ActionSafe(Reach(), a)
      modifies this`activeBindings, obsTargets, Clients()
      ensures Ran(err, Reach()) == RunStep(bindingsOrder, old(Reach()), a)
    {
      match a.target
      case BindingsTarget =>
        err := ExecuteCommand(a.command, a.parameters);
        ReachAfterActive();
      case ObsTarget(o) =>
        err := RunObsAction(a);
    }

    /** One turn of the dispatch loop: the next action runs, and the run of the actions
        from it on either ends with its error or goes on from the world it left. */
    method RunNext(items: seq<Action>, i: nat) returns (err: Outcome)
      requires TablesValid() && |bindingsOrder| > 0 && i < |items| && RunSafe(Reach(), items[i..])
      modifies this`activeBindings, obsTargets, Clients()
      ensures err.Fail? ==> RunAll(bindingsOrder, old(Reach()), items[i..]) == Run([err], Reach())
      ensures err.Ok? ==>
                && RunSafe(Reach(), items[i + 1..])
                && RunAll(bindingsOrder, old(Reach()), items[i..]) == Join([err], RunAll(bindingsOrder, Reach(), items[i + 1..]))
    {
      RunAllStep(bindingsOrder, Reach(), items, i);
      err := RunAction(items[i]);
    }

    /** The loop of processKeypress: each action in turn until one fails. */
    method RunActions(items: seq<Action>) returns (results: seq<Outcome>)
      requires TablesValid() && |bindingsOrder| > 0 && RunSafe(Reach(), items)
      modifies this`activeBindings, obsTargets, Clients()
      ensures Run(results, Reach()) == RunAll(bindingsOrder, old(Reach()), items)
    {
      results := [];
      var i := 0;
      var failed := false;
      assert items[0..] == items;
      JoinNothing(RunAll(bindingsOrder, Reach(), items));
      while i < |items| && !failed
        invariant 0 <= i <= |items|
        invariant !failed ==>
                    && RunSafe(Reach(), items[i..])
                    && RunAll(bindingsOrder, old(Reach()), items) == Join(results, RunAll(bindingsOrder, Reach(), items[i..]))
        invariant failed ==> RunAll(bindingsOrder, old(Reach()), items) == Run(results, Reach())
      {
        var err := RunNext(items, i);
        if err.Ok? {
          JoinTwice(results, [err], RunAll(bindingsOrder, Reach(), items[i + 1..]));
        }
        results := results + [err];
        i := i + 1;
        failed := err.Fail?;
      }
      if !failed {
        assert items[i..] == [] && results + [] == results;
      }
    }

    /** Every action bound to the key can run without a panic. */
    ghost predicate KeypressSafe(source: string, key: string)
      reads this, obsTargets, Clients()
    {
      match Resolve(State(), source, key)
      case None => true
      case Some(items) => RunSafe(Reach(), items)
    }

    /** processKeypress: the qualified key, else the bare key, in the active set; a key
        bound neither way is dropped and nothing changes; otherwise its actions run in
        order until the first error, as RunAll says, and the active set stays a known one. */
    method ProcessKeypress(source: string, key: string) returns (r: Dispatch)
      requires Valid() && KeypressSafe(source, key)
      modifies this`activeBindings, obsTargets, Clients()
      ensures Valid()
      ensures var items := Resolve(old(State()), source, key);
        && (r.Dropped? <==> items.None?)
        && (r.Processed? ==>
              && Run(r.results, Reach()) == RunAll(bindingsOrder, old(Reach()), items.value)
              && FailFast(r.results, |items.value|))
      ensures r.Dropped? ==> activeBindings == old(activeBindings) && unchanged(obsTargets) && unchanged(Clients())
      ensures old(activeBindings) in keybindings ==> activeBindings in keybindings
    {
      if activeBindings !in keybindings {
        return Dropped;
      }
      var bindings := keybindings[activeBindings];
      var items: seq<Action>;
      if source + "." + key in bindings {
        items := bindings[source + "." + key];
      } else if key in bindings {
        items := bindings[key];
      } else {
        return Dropped;
      }
      ghost var w := Reach();
      var results := RunActions(items);
      RunAllFailFast(bindingsOrder, w, items);
      assert forall j :: 0 <= j < |items| ==> Checked(targets, keybindings.Keys, items[j]);
      RunAllStaysKnown(targets, keybindings, bindingsOrder, w, items);
      r := Processed(results);
    }
  }

  /** CreateAndInitController from an already parsed configuration: the targets, then
      the sets, then the check that there is a keypad, a set and a target. */
  method CreateAndInitController(keypads: set<string>, configured: map<string, ObsClient.ObsCommandTarget>,
                                 defs: seq<BindingDefinition>) returns (r: Result<KeypadsController>)
    requires forall n :: n in configured ==> configured[n].Valid()
    requires OwnClients(configured)
    requires BuildSafe(Targets(configured), {}, defs)
    ensures var spec := CreateBindings(keypads, Targets(configured), defs);
      && (spec.Failure? ==> r == Failure(spec.error))
      && (spec.Success? ==> r.Success? && fresh(r.value) && r.value.Valid()
                            && r.value.State() == spec.value && r.value.targets == Targets(configured)
                            && r.value.keypads == keypads)
  {
    var controller := new KeypadsController(keypads, configured);
    assert controller.keybindings.Keys == {};
    var err := controller.BuildBindings(defs);
    assert controller.TablesValid();
    if err.Fail? {
      return Failure(err.error);
    }
    assert Build(Targets(configured), defs) == Success(controller.State());
    if |controller.keypads| == 0 || |controller.keybindings| == 0 || |controller.targets| == 0 {
      return Failure(MissingConfiguration);
    }
    controller.CreatedIsBuilt(keypads, defs);
    r := Success(controller);
  }
}
