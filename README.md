# Keypad router: a Dafny model of its binding engine and its targets

The router turns key presses from keypads into commands on targets. The model covers the parts that hold its logic:

- the case-insensitive command table each target is built on (`targets.Map`);
- the keypad controller:
  - it builds the binding sets from the parsed configuration;
  - it is itself the `bindings` target (`activate`, `next`, `previous`);
  - it dispatches a key press to its list of actions, stopping at the first error;
- the OBS target: a state machine over the scene and collection lists, the active scene and collection, and the recording, pause and streaming flags. OBS itself is an oracle, `answer(n, request)`: its reply to a command request when `n` command requests were written before it. Only command requests are counted: the refresh requests are not logged, and the log is kept across reconnects;
- the validation of the virtual-keyboard target (`keypress` with one key and any modifiers).

Modules, in dependency order:

| module | file | form |
|---|---|---|
| `Outcomes` | outcomes.dfy | values, errors, results, and a generic "run steps until the first failure" fold with its lemmas |
| `Text` | text.dfy | `strings.ToLower` (ASCII) and `strings.SplitN(s, ".", 2)` |
| `CommandsMap` | commands_map.dfy | the table as functions, and the `Map` object as class `CommandMap` |
| `Cycle` | cycle.dfy | the index-scanning loop and the wrap-around steps |
| `Keyboard` | keyboard.dfy | pure functions over the constant key and modifier sets |
| `Obs` | obs.dfy | the OBS commands as functions from the target's state to a step (new state, requests sent, outcome) |
| `ObsClient` | obs_client.dfy | the OBS target object (class `ObsCommandTarget`) and its websocket (class `Connection`). Each command method is proved to perform exactly the step of module `Obs`; the refreshes end in the state the `Obs` refresh functions give, and the event handlers and index loops state their effect directly |
| `Registry` | registry.dfy | the controller's commands, the binding build as a fold, key resolution, and the run of a key press's actions over the active set and every OBS target, as functions and lemmas |
| `Controller` | controller.dfy | class `KeypadsController`. A nested loop builds the sets, and the dispatch loop runs a key press. Each loop is proved equal to its `Registry` function: the build loops to `Registry.BuildFrom`, the dispatch loop to `Registry.RunAll` |

Go panics become preconditions. They are:

- a single non-string argument to `bindings.activate`;
- a bound command without a dot whose first part names a target;
- `nextscene`/`prevscene` (and the collection variants) on an empty list;
- a missing or non-string argument to `activatescene` or `activatescenecollection` at execution time.

Each configured OBS target has its own websocket client (`Controller.OwnClients`), as every target's `Init` creates one.

Three behaviours of the code a reader might not expect:

- Cycling through an empty scene list is not refused when the binding is checked. `NoParmsCheck` never looks at the list. The panic at run time is a precondition (`Obs.ExecSafe`, `Registry.Runnable`).
- `bindings.activate` does not look the name up again when it runs (`activateBindingsExec`). Only the build-time check refuses unknown names, so `Registry.BindingsExec` sets whatever name it is given.
- Two definitions without a name are both called "default". The order then holds "default" twice, and the later set replaces the earlier one in `keybindings` (keypad-controller.go:156-160, 192-193). The model keeps this (`Registry.BuildFromOrder` says "repeats included"); `Registry.NextPreviousUndo` assumes distinct names.

## Model

| member | source | states |
|---|---|---|
| `Text.Lower` | go/targets/commandsmap.go:28 | the lower-cased name has the same length, and each character is folded on its own |
| `Text.LowerIsLower` | go/targets/commandsmap.go:28 | no upper-case ASCII letter survives lower-casing |
| `Text.LowerIdempotent` | go/targets/commandsmap.go:28 | lower-casing twice equals lower-casing once |
| `Text.LowerFixesLowerCase` | go/targets/commandsmap.go:28-30 | a name without upper-case letters is its own lower-case form |
| `Text.SplitAtDot` | go/controller/keypad-controller.go:168 | there is no second part exactly when the text has no dot; otherwise head + "." + tail is the text; the head never contains a dot |
| `Text.SplitAtDotOfJoin` | go/controller/keypad-controller.go:168 | splitting "head.tail" with a dot-free head gives back head and tail |
| `CommandsMap.LookupIn` | go/targets/commandsmap.go:28-34 | defines the lookup: the entry under the lower-cased name, or the invalid-command error carrying the name as given |
| `CommandsMap.CheckIn` | go/targets/commandsmap.go:27-37 | an unknown lower-cased name fails with "invalid command" carrying the name as given; a known name returns exactly its validator's verdict on the same parameters |
| `CommandsMap.LookupIgnoresCase` | go/targets/commandsmap.go:28-30 | any casing of a name resolves exactly as its lower-case form |
| `CommandsMap.LookupSameForSameLowerCase` | go/targets/commandsmap.go:41-43 | two names equal up to case resolve to the same command |
| `CommandsMap.LowerCaseTableReachable` | go/targets/commandsmap.go:28-30 | every lower-case key of a table is reached by itself, so no entry is dead |
| `CommandsMap.NoParmsCheck` | go/targets/commandsmap.go:53-58 | succeeds exactly when there are no parameters; the error is "command has no parameters" |
| `CommandsMap.CommandMap.constructor` | go/controller/keypad-controller.go:96 | a new table object is empty |
| `CommandsMap.CommandMap.Init` | go/targets/commandsmap.go:21-24 | the object holds exactly the given table afterwards |
| `CommandsMap.CommandMap.Lookup` | go/targets/commandsmap.go:40-47 | it succeeds exactly when the lower-cased name is in the table, with that entry; otherwise the error names the command |
| `CommandsMap.CommandMap.CheckCommand` | go/targets/commandsmap.go:27-37 | as `CheckIn`, on the table the object holds |
| `Cycle.IndexOf` | go/controller/keypad-controller.go:343-350 | -1 exactly when the name is absent; otherwise the first position holding it |
| `Cycle.Find` | go/targets/obs.go:482-498 | the scanning loop returns `IndexOf` |
| `Cycle.NextIndex` | go/controller/keypad-controller.go:303-309 | a position in range: one further, or 0 past the end |
| `Cycle.PrevIndex` | go/controller/keypad-controller.go:318-324 | a position in range: one back, or the last one below 0 |
| `Cycle.StepsAreInverse` | go/controller/keypad-controller.go:300-328 | stepping forward then back, or back then forward, returns to a listed position |
| `Cycle.IndexOfDistinct` | go/controller/keypad-controller.go:343-350 | in a list without repeats every element is found at its own position |
| `Cycle.Next` | go/controller/keypad-controller.go:300-313 | the successor in cyclic order is a listed element |
| `Cycle.Prev` | go/controller/keypad-controller.go:315-328 | the predecessor in cyclic order is a listed element |
| `Cycle.PrevOfNext` | go/controller/keypad-controller.go:300-328 | with distinct names, predecessor of successor and successor of predecessor are the identity on listed names |
| `Cycle.UnlistedSteps` | go/controller/keypad-controller.go:303-309 | an unlisted name steps to the first element forward and to the last one back |
| `Cycle.SingleElementSteps` | go/controller/keypad-controller.go:300-328 | in a one-element list both steps stay put |
| `Keyboard.CheckModifiers` | go/targets/keyboard.go:104-112 | succeeds exactly when every parameter after the key is a known modifier name |
| `Keyboard.CheckModifiersFirstBad` | go/targets/keyboard.go:104-112 | on failure, the first bad modifier decides the error: a type error if it is not a string, an invalid-modifier error otherwise |
| `Keyboard.KeySequenceCheck` | go/targets/keyboard.go:90-115 | succeeds exactly when there is a first parameter naming a key and every later one names a modifier; each failure has the source's error (count, type, key value) |
| `Keyboard.CheckCommand` | go/targets/keyboard.go:150-152 | the keyboard's check through its table: `keypress` in any casing goes to `KeySequenceCheck` |
| `Keyboard.ExecuteCommand` | go/targets/keyboard.go:154-156 | the keyboard's execute through the same lookup; the key injection's outcome is a parameter |
| `Keyboard.CheckCommandAccepts` | go/targets/keyboard.go:150-152 | the only command is `keypress` in any casing, valid exactly as `KeySequenceCheck` says; any other name is an invalid command |
| `Keyboard.ExecuteCommandDelegates` | go/targets/keyboard.go:154-156 | a name other than `keypress` fails without injecting keys; `keypress` returns the injection's outcome unchanged |
| `Keyboard.KeyNamesAreCaseSensitive` | go/targets/keyboard.go:21-78 | "A", "F1", "space" and "enter" are keys; "a" and "Space" are not |
| `Keyboard.AIsNoKey` | go/targets/keyboard.go:21-78 | "a" is not a key name |
| `Keyboard.SpaceIsNoKey` | go/targets/keyboard.go:21-78 | "Space" is not a key name |
| `Keyboard.ModifiersRepeatInAnyOrder` | go/targets/keyboard.go:104-112 | modifiers may repeat and come in any order; a key name is not a modifier; a number is a type error |
| `Obs.ActivateSceneCheck` | go/targets/obs.go:87-98 | succeeds exactly with one string parameter; otherwise the count error or the type error |
| `Obs.CheckCommand` | go/targets/obs.go:39-85 | defines the OBS check: the `obsCommands` table looked up case-insensitively, each name with the validator obs.go:39-85 assigns it |
| `Obs.ActivateSceneStep` | go/targets/obs.go:500-511 | defines `activateScene`: one request, and the active scene is set only on success |
| `Obs.ActivateSceneCollectionStep` | go/targets/obs.go:513-528 | defines `activateSceneCollection`: an unlisted name fails with no request; otherwise one request, and the collection is set only on success |
| `Obs.StartRecordingStep` | go/targets/obs.go:530-541 | defines `startRecording`: nothing when recording, else one request whose reply is the result |
| `Obs.StopRecordingStep` | go/targets/obs.go:543-554 | defines `stopRecording`: nothing unless recording |
| `Obs.PauseRecordingStep` | go/targets/obs.go:556-567 | defines `pauseRecording`: nothing unless recording and not paused |
| `Obs.ResumeRecordingStep` | go/targets/obs.go:569-580 | defines `resumeRecording`: nothing unless recording and paused |
| `Obs.StartStreamingStep` | go/targets/obs.go:582-593 | defines `startStreaming`: nothing when streaming |
| `Obs.StopStreamingStep` | go/targets/obs.go:595-606 | defines `stopStreaming`: nothing unless streaming |
| `Obs.ActivateSceneExec` | go/targets/obs.go:100-123 | defines `activateSceneExec`: a listed scene is activated; an unlisted one without a dot fails; "collection.scene" switches the collection first |
| `Obs.Exec` | go/targets/obs.go:125-224 | defines the `*Exec` functions, one per command code, including the cycling and toggle logic |
| `Obs.ExecuteCommand` | go/targets/obs.go:230-242 | defines the OBS `ExecuteCommand`: "not connected" when disconnected, otherwise the table lookup and the command's `Exec` |
| `Obs.RefreshScenes` | go/targets/obs.go:348-367 | defines `refreshScenes`: the active scene is cleared, then on success the list and the current scene are taken from the reply |
| `Obs.RefreshSceneCollections` | go/targets/obs.go:369-399 | defines `refreshSceneCollections`: both selections cleared, then the collection list, the current collection and the scenes, stopping at the first failed reply |
| `Obs.RefreshObsState` | go/targets/obs.go:401-414 | defines `refreshOBSState`: the streaming and recording flags from the reply, untouched on failure |
| `Obs.CheckCommandAccepts` | go/targets/obs.go:39-85 | the two activate commands are checked by `activateSceneCheck`, every other listed command by `NoParmsCheck`, and an unlisted name is an invalid command |
| `Obs.CommandSafeDependsOnLists` | go/targets/obs.go:125-170 | whether a command can run without a panic depends only on the two lists |
| `Obs.ExecKeepsFlagsAndLists` | go/targets/obs.go:100-224 | no command changes the lists or the flags; at most the active scene and the active collection change |
| `Obs.ActivateSceneExecKeepsFlagsAndLists` | go/targets/obs.go:100-123 | the same for `activatescene` with its collection fallback |
| `Obs.ExecuteCommandKeepsLists` | go/targets/obs.go:230-242 | running any command keeps both lists |
| `Obs.DisconnectedDoesNothing` | go/targets/obs.go:231-233 | while disconnected nothing is sent, nothing changes, and the error is "not connected" |
| `Obs.UnknownCommandDoesNothing` | go/targets/obs.go:416-418 | an unlisted name sends nothing, changes nothing, and fails as an invalid command |
| `Obs.RecordingShortCircuits` | go/targets/obs.go:530-580 | start when recording, stop when not, pause unless recording and not paused, and resume unless recording and paused all succeed without a request; otherwise exactly one request is sent and OBS's reply is the outcome |
| `Obs.StreamingShortCircuits` | go/targets/obs.go:582-606 | the same for starting and stopping the stream |
| `Obs.StartIsIdempotent` | go/targets/obs.go:309-333 | once an event handler has set the flag, a repeated start or stop sends nothing |
| `Obs.TogglesChooseByFlag` | go/targets/obs.go:182-224 | `togglerecording` and `togglestreaming` send stop when the flag is on and start otherwise; `togglepauserecording` sends nothing unless recording, else resume when paused and pause otherwise |
| `Obs.ActivateSceneFollowsReply` | go/targets/obs.go:500-511 | one request; the active scene becomes the name only if OBS accepts it |
| `Obs.ActivateSceneCollectionChecksFirst` | go/targets/obs.go:513-528 | an unlisted collection is refused without a request; a listed one sends one request and becomes active only if OBS accepts it |
| `Obs.UnlistedSceneWithoutDot` | go/targets/obs.go:105-108 | an unlisted scene name without a dot is an error, with no request and no change |
| `Obs.UnlistedSceneSwitchesCollectionFirst` | go/targets/obs.go:100-123 | for an unlisted "collection.scene", the collection is switched first. An unlisted collection or a refused switch ends the command. Otherwise the scene request follows as the next request |
| `Obs.SceneCyclingWraps` | go/targets/obs.go:125-143 | `nextscene` and `prevscene` request the scene one position further or back, wrapping at both ends; an unlisted active scene goes to the first scene forward and the last back |
| `Obs.CollectionCyclingWraps` | go/targets/obs.go:152-170 | the same for scene collections |
| `Obs.NextThenPrevScene` | go/targets/obs.go:125-143 | with distinct scenes, an accepted `nextscene` followed by `prevscene` requests the scene that was active |
| `Obs.RefreshFailureClearsSelection` | go/targets/obs.go:369-399 | a failed refresh leaves no active scene (and no active collection when the list requests failed); the refresh succeeds exactly when all three replies do, and then takes lists and selections from them |
| `Obs.RefreshesAreSeparate` | go/targets/obs.go:348-414 | refreshing the lists never touches the flags; `refreshOBSState` touches only the streaming and recording flags |
| `ObsClient.Connection.constructor` | go/targets/obs.go:263-267 | a new client is disconnected and has sent nothing |
| `ObsClient.Connection.SendReceive` | go/targets/obs.go:501-503 | one request is appended to the log and the reply is the oracle's answer to it as the n-th request |
| `ObsClient.Connection.Connect` | go/targets/obs.go:437 | the connection state is the network's verdict |
| `ObsClient.Connection.Disconnect` | go/targets/obs.go:433-435 | the client is disconnected afterwards |
| `ObsClient.ObsCommandTarget.constructor` | go/targets/obs.go:244-280 | the target holds the OBS table, the lists are empty and the flags are off |
| `ObsClient.ObsCommandTarget.GetSceneIndex` | go/targets/obs.go:482-489 | the position of the scene, or -1 |
| `ObsClient.ObsCommandTarget.GetSceneCollectionIndex` | go/targets/obs.go:491-498 | the position of the collection, or -1 |
| `ObsClient.ObsCommandTarget.ActivateScene` | go/targets/obs.go:500-511 | performs `Obs.ActivateSceneStep`: the fields, the request log and the result are that step's |
| `ObsClient.ObsCommandTarget.ActivateSceneCollection` | go/targets/obs.go:513-528 | performs `Obs.ActivateSceneCollectionStep` |
| `ObsClient.ObsCommandTarget.StartRecording` | go/targets/obs.go:530-541 | performs `Obs.StartRecordingStep` |
| `ObsClient.ObsCommandTarget.StopRecording` | go/targets/obs.go:543-554 | performs `Obs.StopRecordingStep` |
| `ObsClient.ObsCommandTarget.PauseRecording` | go/targets/obs.go:556-567 | performs `Obs.PauseRecordingStep` |
| `ObsClient.ObsCommandTarget.ResumeRecording` | go/targets/obs.go:569-580 | performs `Obs.ResumeRecordingStep` |
| `ObsClient.ObsCommandTarget.StartStreaming` | go/targets/obs.go:582-593 | performs `Obs.StartStreamingStep` |
| `ObsClient.ObsCommandTarget.StopStreaming` | go/targets/obs.go:595-606 | performs `Obs.StopStreamingStep` |
| `ObsClient.ObsCommandTarget.ActivateSceneExec` | go/targets/obs.go:100-123 | performs `Obs.ActivateSceneExec`, the collection fallback included |
| `ObsClient.ObsCommandTarget.Exec` | go/targets/obs.go:125-224 | performs `Obs.Exec` for every command code |
| `ObsClient.ObsCommandTarget.ProcessCommand` | go/targets/obs.go:416-418 | performs `Obs.ExecuteCommand` on a connected client |
| `ObsClient.ObsCommandTarget.ExecuteCommand` | go/targets/obs.go:230-242 | performs `Obs.ExecuteCommand`, refusing while disconnected |
| `ObsClient.ObsCommandTarget.CheckCommand` | go/targets/obs.go:226-228 | the check through the target's own table is `Obs.CheckCommand` |
| `ObsClient.ObsCommandTarget.OnSwitchScenes` | go/targets/obs.go:282-286 | only the active scene changes, to the event's scene |
| `ObsClient.ObsCommandTarget.OnScenesChanged` | go/targets/obs.go:288-296 | only the scene list changes, to the event's list |
| `ObsClient.ObsCommandTarget.RefreshScenes` | go/targets/obs.go:348-367 | the new state and the result are `Obs.RefreshScenes` of the reply |
| `ObsClient.ObsCommandTarget.OnSceneCollectionChanged` | go/targets/obs.go:298-303 | the event's collection becomes active, then the scenes are refreshed and the refresh error is dropped |
| `ObsClient.ObsCommandTarget.RefreshSceneCollections` | go/targets/obs.go:369-399 | the new state and the result are `Obs.RefreshSceneCollections` of the three replies |
| `ObsClient.ObsCommandTarget.OnSceneCollectionListChanged` | go/targets/obs.go:305-307 | the state after a full refresh, with its error dropped |
| `ObsClient.ObsCommandTarget.RefreshObsState` | go/targets/obs.go:401-414 | the new state and the result are `Obs.RefreshObsState` of the reply |
| `ObsClient.ObsCommandTarget.OnRecordingStarting` | go/targets/obs.go:309-312 | recording on, pause off, nothing else changes |
| `ObsClient.ObsCommandTarget.OnRecordingStopping` | go/targets/obs.go:314-317 | recording and pause off, nothing else changes |
| `ObsClient.ObsCommandTarget.OnRecordingPaused` | go/targets/obs.go:319-321 | pause on, nothing else changes |
| `ObsClient.ObsCommandTarget.OnRecordingResumed` | go/targets/obs.go:323-325 | pause off, nothing else changes |
| `ObsClient.ObsCommandTarget.OnStreamingStarting` | go/targets/obs.go:327-329 | streaming on, nothing else changes |
| `ObsClient.ObsCommandTarget.OnStreamingStopping` | go/targets/obs.go:331-333 | streaming off, nothing else changes |
| `Registry.BindingsCheckCommand` | go/controller/keypad-controller.go:260-285 | defines the controller's check: its three-command table looked up case-insensitively, `activate` through `activateBindingsCheck`, the others through `NoParmsCheck` |
| `Registry.BindingsExec` | go/controller/keypad-controller.go:287-328 | defines `activateBindingsExec`, `nextBindingsExec` and `prevBindingsExec` as a new active set and an outcome |
| `Registry.ExecuteBindingsCommand` | go/controller/keypad-controller.go:339-341 | defines the controller's `ExecuteCommand`: the table lookup, then `BindingsExec` |
| `Registry.ActivateBindingsCheck` | go/controller/keypad-controller.go:272-285 | succeeds exactly with one parameter naming an existing set; otherwise the count error or the unknown-name error carrying the name |
| `Registry.CheckAndExecuteShareLookup` | go/targets/commandsmap.go:27-50 | the controller's check and execute fail as an unknown command exactly for the same names, and then the active set does not move |
| `Registry.BindingsCheckAccepts` | go/controller/keypad-controller.go:260-285 | `activate` is valid exactly with one existing set name, `next`/`previous` exactly without parameters, and any other name is an invalid command |
| `Registry.ActivateResolves` | go/controller/keypad-controller.go:261-263 | "activate" resolves to the activate command |
| `Registry.NextResolves` | go/controller/keypad-controller.go:264-266 | "next" resolves to the next command |
| `Registry.PreviousResolves` | go/controller/keypad-controller.go:267-269 | "previous" resolves to the previous command |
| `Registry.NameResolves` | go/controller/keypad-controller.go:260-270 | every name of the controller's table resolves to its own entry |
| `Registry.ActivateSelects` | go/controller/keypad-controller.go:287-298 | `activate(name)` makes that set active and succeeds; activating the active set leaves it active |
| `Registry.NextStep` | go/controller/keypad-controller.go:300-313 | `next` makes the successor of the active set in the order active |
| `Registry.PreviousStep` | go/controller/keypad-controller.go:315-328 | `previous` makes the predecessor active |
| `Registry.NextPreviousUndo` | go/controller/keypad-controller.go:300-328 | with distinct set names, `previous` after `next` and `next` after `previous` return to the set that was active |
| `Registry.SingleSetStaysPut` | go/controller/keypad-controller.go:300-328 | with a single set, `next` and `previous` keep it active |
| `Registry.CheckedBindingsCommandSucceeds` | go/controller/keypad-controller.go:287-328 | a controller command that passed its check never fails when run |
| `Registry.Targets` | go/controller/keypad-controller.go:149-152 | "bindings" names the controller and replaces a configured target of that name; every other configured target keeps its name |
| `Registry.TargetsNeverEmpty` | go/controller/keypad-controller.go:152 | the targets map is never empty |
| `Registry.ResolveCommand` | go/controller/keypad-controller.go:168-184 | defines one command's resolution: the target before the first dot, an unknown target error, then that target's check |
| `Registry.ResolveAll` | go/controller/keypad-controller.go:165-185 | defines the command loop: each command resolved in order until the first error |
| `Registry.BindKeys` | go/controller/keypad-controller.go:187-189 | defines the key loop: every key of the binding mapped to the same list |
| `Registry.BuildSetFrom` | go/controller/keypad-controller.go:162-190 | defines the bindings loop of one set |
| `Registry.BuildFrom` | go/controller/keypad-controller.go:155-198 | defines the outer loop: each definition built and stored in turn until the first error |
| `Registry.Build` | go/controller/keypad-controller.go:153-198 | the outer loop from no sets |
| `Registry.CreateBindings` | go/controller/keypad-controller.go:152-204 | defines the binding part of construction and its final emptiness check |
| `Registry.Resolve` | go/controller/keypad-controller.go:237-246 | defines the lookup of `processKeypress`: `source.key`, then `key`, in the active set |
| `Registry.ResolvePrefersQualified` | go/controller/keypad-controller.go:237-246 | a bound `source.key` wins over a bound `key`; a key bound neither way resolves to nothing |
| `Registry.UnknownTargetFails` | go/controller/keypad-controller.go:168-174 | a command whose text before the first dot names no target fails with that text |
| `Registry.ResolvedChecked` | go/controller/keypad-controller.go:176-184 | a command that resolves became an action of a known target that passed its check |
| `Registry.ResolveAllStep` | go/controller/keypad-controller.go:167-185 | one turn of the command loop: an error ends the list with that error, a success is prepended to the rest |
| `Registry.ResolveAllIff` | go/controller/keypad-controller.go:165-185 | a binding's command list resolves exactly when every one of its commands does |
| `Registry.ResolveAllActions` | go/controller/keypad-controller.go:182-184 | a list that resolves gives one action per command, in order, each the command's own resolution |
| `Registry.ResolveAllChecked` | go/controller/keypad-controller.go:176-180 | every resolved action passed its target's check |
| `Registry.CheckedGrows` | go/controller/keypad-controller.go:281-283 | a check that passed keeps passing once more sets exist |
| `Registry.BuildSetChecked` | go/controller/keypad-controller.go:164-190 | every action of a built set passed its check |
| `Registry.ActivateNamesEarlierSet` | go/controller/keypad-controller.go:176-193 | an `activate` bound inside a set names a set that existed before that set was built |
| `Registry.ActivateUnknownRefused` | go/controller/keypad-controller.go:281-283 | `activate` of a name that no set has yet fails with that name |
| `Registry.SelfActivationRefused` | go/controller/keypad-controller.go:155-198 | a first set that binds `bindings.activate` of its own name is refused, since it is stored only after its bindings are checked |
| `Registry.LastBindingWins` | go/controller/keypad-controller.go:187-189 | among the bindings of a set, the last one naming a key decides its actions, all keys of a binding get the same list |
| `Registry.KeptUntilRebound` | go/controller/keypad-controller.go:187-189 | a key that no later binding names keeps its actions |
| `Registry.SetName` | go/controller/keypad-controller.go:156-160 | a set's name is never empty: "default" stands for no name |
| `Registry.SetNames` | go/controller/keypad-controller.go:155-160 | the names of the definitions, one per definition in order |
| `Registry.AfterDefinition` | go/controller/keypad-controller.go:192-197 | a stored definition adds exactly its own name to the set names |
| `Registry.BuildFromStep` | go/controller/keypad-controller.go:155-198 | a build that succeeds built its first set and goes on from the bindings with that set added |
| `Registry.BuildFromNext` | go/controller/keypad-controller.go:155-198 | one turn of the outer loop: the set's error ends the build, or the build goes on with the set stored |
| `Registry.BuildFromOrder` | go/controller/keypad-controller.go:153-192 | the order lists the set names in definition order, repeats included |
| `Registry.BuildFromNames` | go/controller/keypad-controller.go:193 | the sets are exactly those that existed and those the definitions name |
| `Registry.BuildFromActive` | go/controller/keypad-controller.go:195-197 | the first set becomes active, unless one already was |
| `Registry.BuildFromChecked` | go/controller/keypad-controller.go:164-198 | every action of every set passed its check against the sets that exist at the end |
| `Registry.CreateBindingsSucceeds` | go/controller/keypad-controller.go:152-204 | on success there is a keypad and a definition; the order is the definition names, the first one is active, the sets are exactly the names in the order, and every action passed its check |
| `Registry.CreateBindingsNeedsKeypadsAndSets` | go/controller/keypad-controller.go:200-202 | once the sets build, construction fails exactly when there is no keypad or no set, with the missing-configuration error; the targets never make it fail |
| `Registry.AfterAction` | go/controller/keypad-controller.go:249 | defines the active set after one action: moved by the controller's own commands, kept by every other target's |
| `Registry.AfterActionStaysKnown` | go/controller/keypad-controller.go:249 | a checked action leaves the active set among the existing sets |
| `Registry.RunStep` | go/controller/keypad-controller.go:249 | defines one action: the controller's command moves the active set; an OBS command performs `Obs.ExecuteCommand` on its own target's view, its requests appended to that target's log |
| `Registry.RunStepKeepsLists` | go/controller/keypad-controller.go:249 | one action keeps every target's lists and connection, and moves the active set as `AfterAction` says |
| `Registry.RunAll` | go/controller/keypad-controller.go:248-255 | defines the dispatch loop: the actions in order, ending with the first error's outcome |
| `Registry.RunAllStep` | go/controller/keypad-controller.go:248-255 | one turn: a failing action ends the run with its outcome and the world it left; a successful one is followed by the run of the rest from that world |
| `Registry.RunAllFailFast` | go/controller/keypad-controller.go:248-255 | every outcome but the last is a success, and the run is shorter than the list only when its last outcome is an error |
| `Registry.RunAllStopsAtFailure` | go/controller/keypad-controller.go:251-253 | once an action has failed, the actions after it never run: appending actions changes neither the outcomes nor the world, so no later target sends a request |
| `Registry.RunAllUntouched` | go/controller/keypad-controller.go:248-255 | a target no action names keeps its fields, its connection and its request log |
| `Registry.RunAllKeepsLists` | go/controller/keypad-controller.go:248-255 | a key press never changes a target's lists or its connection |
| `Registry.RunAllStaysKnown` | go/controller/keypad-controller.go:248-255 | along a list of checked actions the active set stays an existing set |
| `Controller.KeypadsController.constructor` | go/controller/keypad-controller.go:91-98 | no sets, no order, no active set; the targets are the configured ones plus the controller under "bindings"; the controller's table is bound |
| `Controller.KeypadsController.CheckCommand` | go/controller/keypad-controller.go:335-337 | the controller's check through its own table, against the sets that exist now |
| `Controller.KeypadsController.TargetCheckCommand` | go/controller/keypad-controller.go:176 | the check of the target a command names |
| `Controller.KeypadsController.ResolveCommand` | go/controller/keypad-controller.go:168-184 | one configured command gives `Registry.ResolveCommand` |
| `Controller.KeypadsController.ResolveNext` | go/controller/keypad-controller.go:167-185 | one turn of the command loop, as `Registry.ResolveAllStep` states it |
| `Controller.KeypadsController.ResolveCommands` | go/controller/keypad-controller.go:165-185 | the command loop returns `Registry.ResolveAll` |
| `Controller.KeypadsController.BindKeys` | go/controller/keypad-controller.go:187-189 | the key loop binds every key to the same list |
| `Controller.KeypadsController.BuildSet` | go/controller/keypad-controller.go:162-190 | the bindings loop returns `Registry.BuildSetFrom` |
| `Controller.KeypadsController.AddSet` | go/controller/keypad-controller.go:156-160 | the state after storing one set is `Registry.AfterDefinition` |
| `Controller.KeypadsController.BuildNext` | go/controller/keypad-controller.go:155-198 | one turn of the outer loop, as `Registry.BuildFromNext` states it |
| `Controller.KeypadsController.BuildBindings` | go/controller/keypad-controller.go:153-198 | the outer loop fails with `Registry.BuildFrom`'s error, or leaves exactly its bindings |
| `Controller.KeypadsController.GetBindingsPos` | go/controller/keypad-controller.go:343-350 | the position of the set in the order, or -1 |
| `Controller.KeypadsController.ActivateBindings` | go/controller/keypad-controller.go:352-357 | the named set is active afterwards |
| `Controller.KeypadsController.ExecuteCommand` | go/controller/keypad-controller.go:339-341 | the active set and the result are `Registry.ExecuteBindingsCommand` |
| `Controller.KeypadsController.RunObsAction` | go/controller/keypad-controller.go:249 | an OBS action's outcome and the world after it are `Registry.RunStep`'s: only its own target and client change |
| `Controller.KeypadsController.RunAction` | go/controller/keypad-controller.go:249 | the outcome and the world after one action, the active set and every OBS target's fields, connection and request log, are `Registry.RunStep`'s |
| `Controller.KeypadsController.RunNext` | go/controller/keypad-controller.go:248-255 | one turn of the dispatch loop, as `Registry.RunAllStep` states it: an error ends the run with that outcome, a success is followed by the run of the rest |
| `Controller.KeypadsController.RunActions` | go/controller/keypad-controller.go:248-255 | the outcomes and the world the loop leaves are exactly `Registry.RunAll` of the actions, so each outcome is its own action's and nothing after the first error runs |
| `Controller.KeypadsController.ProcessKeypress` | go/controller/keypad-controller.go:235-258 | a key press is dropped exactly when the key is bound neither way in the active set, and then nothing changes. Otherwise the outcomes and the new world are `Registry.RunAll` of the resolved actions, fail-fast, and the active set stays a known one |
| `Controller.CreateAndInitController` | go/controller/keypad-controller.go:152-204 | the controller fails with `Registry.CreateBindings`'s error, or is a fresh valid controller holding exactly its bindings and the given keypads and targets |

## Left out

- Reading the configuration file and YAML decoding, in `CreateAndInitController` and in every `Init`. The model starts from the parsed configuration: keypad names, configured targets and binding definitions.
- The keypad creation loop and the target creation loop of `CreateAndInitController` (keypad-controller.go:100-150). Only their results are parameters: the set of keypad names, and the map of configured OBS targets.
- `StartProcessing` with its channels, per-event goroutines and deferred closes. Dispatch is modelled sequentially, one key press per call. The unsynchronised concurrent access to `activeBindings` is not modelled.
- `manageWebSockCommunication`: the reconnect loop, the five-second ping, `pingObs` and `createEventHandlers`. The channel handoff in the OBS `ExecuteCommand` is a direct call to `ProcessCommand`. `Connect` takes the network's verdict as a parameter.
- The replies to `GetSceneList`, `ListSceneCollections`, `GetCurrentSceneCollection` and `GetStreamingStatus`. They are parameters of the refresh methods. The requests themselves are not logged, because they are not commands.
- OBS's answers to command requests: the oracle `answer(n, request)`. The requests are modelled without the websocket framing.
- `keySequenceExec` and the keyboard's `Init`: reflection over `keybd_event` and OS key injection. Their outcome is the parameter `injected` of `Keyboard.ExecuteCommand`.
- The keyboard target is not one of the controller's targets, because the target factory knows only "obs". Its check and execute are modelled on their own.
- The keypad drivers (serial port I/O) and the program's entry point: go/keypads/serial.go, go/keypads/keypad.go and go/keypad.go are not part of this model.
- Log messages.
- `Text.Lower`: folds only ASCII letters, whereas `strings.ToLower` folds all of Unicode. The tables hold only ASCII names, but a configured name with a non-ASCII letter that Go folds to ASCII is refused by the model and accepted by Go: "\u212Aeypress" (Kelvin sign) lower-cases to "keypress" in Go, and U+0130 folds to "i".
- `CommandsMap.CommandMap.Init`: `Init(target, commands)` also stores the owner in `target`. The model keeps only `commands`, because every owner binds its own table with itself as the target, so the owner is always the object calling the lookup.
- `Registry.BuildFrom`, `Registry.AfterDefinition`, `Controller.KeypadsController.AddSet`: `bindingsOrder` is allocated with one slot per definition and filled by index. The model appends instead. Both give the same list, because every definition either fills its slot or ends the build with an error that discards the controller.
- Go panics are preconditions rather than modelled behaviour: `Registry.CommandSafe`, `Registry.BindingsCommandSafe`, `Obs.ExecSafe`, `Registry.Runnable` and `Registry.ActionSafe`.
