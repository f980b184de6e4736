/** The command logic of the OBS target, as functions from the target's state to one
    step: the new state, the requests sent to OBS, and the command's outcome.

    OBS itself is an oracle: `answer(n, req)` is OBS's reply to the `n`-th request of
    the session, so every lemma here holds for every behaviour of the remote side. */
module Obs {
  import opened Outcomes
  import opened Text
  import opened CommandsMap
  import opened Cycle

  datatype ObsCommand =
    | ActivateScene | PrevScene | NextScene
    | ActivateSceneCollection | PrevSceneCollection | NextSceneCollection
    | StartRecording | StopRecording | ToggleRecording
    | PauseRecording | ResumeRecording | TogglePauseRecording
    | StartStreaming | StopStreaming | ToggleStreaming

  /** `obsCommands`. */
  const ObsCommands: map<string, ObsCommand> := map[
    "activatescene" := ActivateScene,
    "prevscene" := PrevScene,
    "nextscene" := NextScene,
    "activatescenecollection" := ActivateSceneCollection,
    "prevscenecollection" := PrevSceneCollection,
    "nextscenecollection" := NextSceneCollection,
    "startrecording" := StartRecording,
    "stoprecording" := StopRecording,
    "togglerecording" := ToggleRecording,
    "pauserecording" := PauseRecording,
    "resumerecording" := ResumeRecording,
    "togglepauserecording" := TogglePauseRecording,
    "startstreaming" := StartStreaming,
    "stopstreaming" := StopStreaming,
    "togglestreaming" := ToggleStreaming
  ]

  /** The validator of activatescene and activatescenecollection. */
  function ActivateSceneCheck(parameters: seq<Value>): (r: Outcome)
    ensures r.Ok? <==> |parameters| == 1 && parameters[0].Str?
    ensures |parameters| != 1 ==> r == Fail(InvalidSceneParameterCount)
    ensures |parameters| == 1 && !parameters[0].Str? ==> r == Fail(InvalidSceneParameterType)
  {
    if |parameters| != 1 then Fail(InvalidSceneParameterCount)
    else if !parameters[0].Str? then Fail(InvalidSceneParameterType)
    else Ok
  }

  function CheckFunc(code: ObsCommand, parameters: seq<Value>): Outcome {
    match code
    case ActivateScene => ActivateSceneCheck(parameters)
    case ActivateSceneCollection => ActivateSceneCheck(parameters)
    case _ => NoParmsCheck(parameters)
  }

  /** The target's CheckCommand, through the case-insensitive table. */
  function CheckCommand(command: string, parameters: seq<Value>): Outcome {
    CheckIn(ObsCommands, command, parameters, CheckFunc)
  }

  /** The websocket requests the commands send. */
  datatype Request =
    | SetCurrentSceneRequest(scene: string)
    | SetCurrentSceneCollectionRequest(collection: string)
    | StartRecordingRequest | StopRecordingRequest
    | PauseRecordingRequest | ResumeRecordingRequest
    | StartStreamingRequest | StopStreamingRequest

  /** OBS's reply to the n-th request of the session. */
  type Oracle = (nat, Request) -> Outcome

  /** The fields of the target the commands and event handlers read and write. */
  datatype State = State(
    sceneCollections: seq<string>,
    activeCollection: string,
    scenes: seq<string>,
    activeScene: string,
    streaming: bool,
    recording: bool,
    recordingPaused: bool)

  datatype Step = Step(state: State, sent: seq<Request>, outcome: Outcome)

  /** Sends `req` as the n-th request; the state becomes `after` only if OBS accepts it. */
  function Send(st: State, answer: Oracle, n: nat, req: Request, after: State): Step {
    var out := answer(n, req);
    Step(if out.Ok? then after else st, [req], out)
  }

  /** activateScene. */
  function ActivateSceneStep(st: State, answer: Oracle, n: nat, name: string): Step {
    Send(st, answer, n, SetCurrentSceneRequest(name), st.(activeScene := name))
  }

  /** activateSceneCollection: an unknown collection is refused before any request. */
  function ActivateSceneCollectionStep(st: State, answer: Oracle, n: nat, name: string): Step {
    if IndexOf(st.sceneCollections, name) == -1 then Step(st, [], Fail(InvalidCollectionName))
    else Send(st, answer, n, SetCurrentSceneCollectionRequest(name), st.(activeCollection := name))
  }

  /** The start/stop/pause/resume methods: a request only when the flag says it is needed;
      the flags themselves are left to the event handlers. */
  function StartRecordingStep(st: State, answer: Oracle, n: nat): Step {
    if st.recording then Step(st, [], Ok) else Send(st, answer, n, StartRecordingRequest, st)
  }

  function StopRecordingStep(st: State, answer: Oracle, n: nat): Step {
    if !st.recording then Step(st, [], Ok) else Send(st, answer, n, StopRecordingRequest, st)
  }

  function PauseRecordingStep(st: State, answer: Oracle, n: nat): Step {
    if !st.recording || st.recordingPaused then Step(st, [], Ok) else Send(st, answer, n, PauseRecordingRequest, st)
  }

  function ResumeRecordingStep(st: State, answer: Oracle, n: nat): Step {
    if !st.recording || !st.recordingPaused then Step(st, [], Ok) else Send(st, answer, n, ResumeRecordingRequest, st)
  }

  function StartStreamingStep(st: State, answer: Oracle, n: nat): Step {
    if st.streaming then Step(st, [], Ok) else Send(st, answer, n, StartStreamingRequest, st)
  }

  function StopStreamingStep(st: State, answer: Oracle, n: nat): Step {
    if !st.streaming then Step(st, [], Ok) else Send(st, answer, n, StopStreamingRequest, st)
  }

  /** activateSceneExec: a listed scene is activated directly; otherwise "collection.scene"
      switches the collection first and stops if that fails. */
  function ActivateSceneExec(st: State, answer: Oracle, n: nat, name: string): Step {
    if IndexOf(st.scenes, name) != -1 then ActivateSceneStep(st, answer, n, name)
    else if '.' !in name then Step(st, [], Fail(InvalidSceneName(name)))
    else
      var parts := SplitAtDot(name);
      var c := ActivateSceneCollectionStep(st, answer, n, parts.head);
      if c.outcome.Fail? then c
      else
        var s := ActivateSceneStep(c.state, answer, n + |c.sent|, parts.tail.value);
        Step(s.state, c.sent + s.sent, s.outcome)
  }

  /** A command the router can run without a Go panic: a string first parameter where it is
      read, and a non-empty list where one is cycled through. */
  predicate ExecSafe(st: State, code: ObsCommand, parameters: seq<Value>) {
    match code
    case ActivateScene => |parameters| > 0 && parameters[0].Str?
    case ActivateSceneCollection => |parameters| > 0 && parameters[0].Str?
    case NextScene => |st.scenes| > 0
    case PrevScene => |st.scenes| > 0
    case NextSceneCollection => |st.sceneCollections| > 0
    case PrevSceneCollection => |st.sceneCollections| > 0
    case _ => true
  }

  /** The `*Exec` functions, selected by the command code. */
  function Exec(st: State, answer: Oracle, n: nat, code: ObsCommand, parameters: seq<Value>): Step
    requires ExecSafe(st, code, parameters)
  {
    match code
    case ActivateScene => ActivateSceneExec(st, answer, n, parameters[0].s)
    case PrevScene => ActivateSceneStep(st, answer, n, Prev(st.scenes, st.activeScene))
    case NextScene => ActivateSceneStep(st, answer, n, Next(st.scenes, st.activeScene))
    case ActivateSceneCollection => ActivateSceneCollectionStep(st, answer, n, parameters[0].s)
    case PrevSceneCollection => ActivateSceneCollectionStep(st, answer, n, Prev(st.sceneCollections, st.activeCollection))
    case NextSceneCollection => ActivateSceneCollectionStep(st, answer, n, Next(st.sceneCollections, st.activeCollection))
    case StartRecording => StartRecordingStep(st, answer, n)
    case StopRecording => StopRecordingStep(st, answer, n)
    case ToggleRecording =>
      if st.recording then StopRecordingStep(st, answer, n) else StartRecordingStep(st, answer, n)
    case PauseRecording => PauseRecordingStep(st, answer, n)
    case ResumeRecording => ResumeRecordingStep(st, answer, n)
    case TogglePauseRecording =>
      if st.recordingPaused then ResumeRecordingStep(st, answer, n) else PauseRecordingStep(st, answer, n)
    case StartStreaming => StartStreamingStep(st, answer, n)
    case StopStreaming => StopStreamingStep(st, answer, n)
    case ToggleStreaming =>
      if st.streaming then StopStreamingStep(st, answer, n) else StartStreamingStep(st, answer, n)
  }

  predicate CommandSafe(st: State, command: string, parameters: seq<Value>) {
    match LookupIn(ObsCommands, command)
    case Failure(_) => true
    case Success(code) => ExecSafe(st, code, parameters)
  }

  /** ExecuteCommand followed by processCommand: refused while disconnected, then looked up
      in the table and executed. */
  function ExecuteCommand(st: State, connected: bool, answer: Oracle, n: nat,
                          command: string, parameters: seq<Value>): Step
    requires connected ==> CommandSafe(st, command, parameters)
  {
    if !connected then Step(st, [], Fail(NotConnected))
    else
      match LookupIn(ObsCommands, command)
      case Failure(e) => Step(st, [], Fail(e))
      case Success(code) => Exec(st, answer, n, code, parameters)
  }

  // ---------------------------------------------------------------------------------
  // Refreshes. Their Get* requests are not commands: the replies are parameters.

  /** The reply to GetSceneList. */
  datatype SceneList = SceneList(currentScene: string, scenes: seq<string>)

  /** The reply to GetStreamingStatus. */
  datatype StreamingStatus = StreamingStatus(streaming: bool, recording: bool)

  datatype Refreshed = Refreshed(state: State, outcome: Outcome)

  /** refreshScenes: the active scene is cleared first, so a failed request leaves it empty. */
  function RefreshScenes(st: State, reply: Result<SceneList>): Refreshed {
    var cleared := st.(activeScene := "");
    match reply
    case Failure(e) => Refreshed(cleared, Fail(e))
    case Success(list) => Refreshed(cleared.(scenes := list.scenes, activeScene := list.currentScene), Ok)
  }

  /** refreshSceneCollections: ListSceneCollections, GetCurrentSceneCollection, then
      refreshScenes; the first failure ends it. */
  function RefreshSceneCollections(st: State, collections: Result<seq<string>>, current: Result<string>,
                                   sceneList: Result<SceneList>): Refreshed {
    var cleared := st.(activeCollection := "", activeScene := "");
    match collections
    case Failure(e) => Refreshed(cleared, Fail(e))
    case Success(names) =>
      var listed := cleared.(sceneCollections := names);
      match current
      case Failure(e) => Refreshed(listed, Fail(e))
      case Success(name) => RefreshScenes(listed.(activeCollection := name), sceneList)
  }

  /** refreshOBSState: the streaming and recording flags as OBS reports them. */
  function RefreshObsState(st: State, reply: Result<StreamingStatus>): Refreshed {
    match reply
    case Failure(e) => Refreshed(st, Fail(e))
    case Success(status) => Refreshed(st.(streaming := status.streaming, recording := status.recording), Ok)
  }

  // ---------------------------------------------------------------------------------
  // Properties

  /** The check: the two activate commands take one string, every other listed name takes
      no parameters, and a name missing from the table is an error carrying it. */
  lemma CheckCommandAccepts(command: string, parameters: seq<Value>)
    ensures Lower(command) !in ObsCommands ==> CheckCommand(command, parameters) == Fail(InvalidCommand(command))
    ensures Lower(command) == "activatescene" || Lower(command) == "activatescenecollection" ==>
              CheckCommand(command, parameters) == ActivateSceneCheck(parameters)
    ensures Lower(command) in ObsCommands && Lower(command) != "activatescene" && Lower(command) != "activatescenecollection" ==>
              CheckCommand(command, parameters) == NoParmsCheck(parameters)
  {
  }

  /** Whether a command may run depends only on the two lists, never on the selection or
      the flags. */
  lemma CommandSafeDependsOnLists(st: State, st': State, command: string, parameters: seq<Value>)
    requires st.scenes == st'.scenes && st.sceneCollections == st'.sceneCollections
    ensures CommandSafe(st, command, parameters) == CommandSafe(st', command, parameters)
  {
  }

  /** Commands never touch the flags or the lists: those change only through the event
      handlers. At most the active scene and the active collection change. */
  lemma ExecKeepsFlagsAndLists(st: State, answer: Oracle, n: nat, code: ObsCommand, parameters: seq<Value>)
    requires ExecSafe(st, code, parameters)
    ensures var r := Exec(st, answer, n, code, parameters).state;
      r == st.(activeScene := r.activeScene, activeCollection := r.activeCollection)
  {
    if code == ActivateScene {
      ActivateSceneExecKeepsFlagsAndLists(st, answer, n, parameters[0].s);
    }
  }

  lemma ActivateSceneExecKeepsFlagsAndLists(st: State, answer: Oracle, n: nat, name: string)
    ensures var r := ActivateSceneExec(st, answer, n, name).state;
      r == st.(activeScene := r.activeScene, activeCollection := r.activeCollection)
  {
    if IndexOf(st.scenes, name) == -1 && '.' in name {
      var parts := SplitAtDot(name);
      var c := ActivateSceneCollectionStep(st, answer, n, parts.head);
      assert c.state == st.(activeCollection := c.state.activeCollection);
    }
  }

  /** No command changes the lists, so whether a later command may run is not affected. */
  lemma ExecuteCommandKeepsLists(st: State, connected: bool, answer: Oracle, n: nat,
                                 command: string, parameters: seq<Value>)
    requires connected ==> CommandSafe(st, command, parameters)
    ensures var r := ExecuteCommand(st, connected, answer, n, command, parameters).state;
      r.scenes == st.scenes && r.sceneCollections == st.sceneCollections
  {
    if connected && LookupIn(ObsCommands, command).Success? {
      ExecKeepsFlagsAndLists(st, answer, n, LookupIn(ObsCommands, command).value, parameters);
    }
  }

  /** While disconnected nothing is sent and nothing changes. */
  lemma DisconnectedDoesNothing(st: State, answer: Oracle, n: nat, command: string, parameters: seq<Value>)
    ensures ExecuteCommand(st, false, answer, n, command, parameters) == Step(st, [], Fail(NotConnected))
  {
  }

  /** An unknown command sends nothing and changes nothing. */
  lemma UnknownCommandDoesNothing(st: State, answer: Oracle, n: nat, command: string, parameters: seq<Value>)
    requires Lower(command) !in ObsCommands
    ensures ExecuteCommand(st, true, answer, n, command, parameters) == Step(st, [], Fail(InvalidCommand(command)))
  {
  }

  /** Starting what runs and stopping what does not run succeed without a request;
      otherwise exactly one request is sent and OBS's reply is the outcome. */
  lemma RecordingShortCircuits(st: State, answer: Oracle, n: nat)
    ensures st.recording ==> StartRecordingStep(st, answer, n) == Step(st, [], Ok)
    ensures !st.recording ==> StartRecordingStep(st, answer, n) == Step(st, [StartRecordingRequest], answer(n, StartRecordingRequest))
    ensures !st.recording ==> StopRecordingStep(st, answer, n) == Step(st, [], Ok)
    ensures st.recording ==> StopRecordingStep(st, answer, n) == Step(st, [StopRecordingRequest], answer(n, StopRecordingRequest))
    ensures (!st.recording || st.recordingPaused) ==> PauseRecordingStep(st, answer, n) == Step(st, [], Ok)
    ensures (st.recording && !st.recordingPaused) ==>
              PauseRecordingStep(st, answer, n) == Step(st, [PauseRecordingRequest], answer(n, PauseRecordingRequest))
    ensures (!st.recording || !st.recordingPaused) ==> ResumeRecordingStep(st, answer, n) == Step(st, [], Ok)
    ensures (st.recording && st.recordingPaused) ==>
              ResumeRecordingStep(st, answer, n) == Step(st, [ResumeRecordingRequest], answer(n, ResumeRecordingRequest))
  {
  }

  lemma StreamingShortCircuits(st: State, answer: Oracle, n: nat)
    ensures st.streaming ==> StartStreamingStep(st, answer, n) == Step(st, [], Ok)
    ensures !st.streaming ==> StartStreamingStep(st, answer, n) == Step(st, [StartStreamingRequest], answer(n, StartStreamingRequest))
    ensures !st.streaming ==> StopStreamingStep(st, answer, n) == Step(st, [], Ok)
    ensures st.streaming ==> StopStreamingStep(st, answer, n) == Step(st, [StopStreamingRequest], answer(n, StopStreamingRequest))
  {
  }

  /** Repeating a start or a stop: once the event handler has set the flag, the second call
      sends nothing. */
  lemma StartIsIdempotent(st: State, answer: Oracle, n: nat, m: nat)
    ensures StartRecordingStep(st.(recording := true, recordingPaused := false), answer, m).sent == []
    ensures StopRecordingStep(st.(recording := false, recordingPaused := false), answer, m).sent == []
    ensures StartStreamingStep(st.(streaming := true), answer, m).sent == []
    ensures StopStreamingStep(st.(streaming := false), answer, m).sent == []
  {
  }

  /** togglerecording and togglestreaming always send exactly one request, chosen by the
      flag; togglepauserecording sends nothing unless recording. */
  lemma TogglesChooseByFlag(st: State, answer: Oracle, n: nat)
    ensures Exec(st, answer, n, ToggleRecording, []).sent ==
              [if st.recording then StopRecordingRequest else StartRecordingRequest]
    ensures Exec(st, answer, n, ToggleStreaming, []).sent ==
              [if st.streaming then StopStreamingRequest else StartStreamingRequest]
    ensures Exec(st, answer, n, TogglePauseRecording, []).sent ==
              if !st.recording then [] else [if st.recordingPaused then ResumeRecordingRequest else PauseRecordingRequest]
  {
  }

  /** activateScene: one request; the active scene follows only an accepted request. */
  lemma ActivateSceneFollowsReply(st: State, answer: Oracle, n: nat, name: string)
    ensures ActivateSceneStep(st, answer, n, name).sent == [SetCurrentSceneRequest(name)]
    ensures ActivateSceneStep(st, answer, n, name).outcome == answer(n, SetCurrentSceneRequest(name))
    ensures ActivateSceneStep(st, answer, n, name).state ==
              if answer(n, SetCurrentSceneRequest(name)).Ok? then st.(activeScene := name) else st
  {
  }

  /** activateSceneCollection: an unknown name is refused without a request; a known one
      sends one request and is recorded as active only if OBS accepts it. */
  lemma ActivateSceneCollectionChecksFirst(st: State, answer: Oracle, n: nat, name: string)
    ensures name !in st.sceneCollections ==>
              ActivateSceneCollectionStep(st, answer, n, name) == Step(st, [], Fail(InvalidCollectionName))
    ensures name in st.sceneCollections ==>
              var r := ActivateSceneCollectionStep(st, answer, n, name);
              r.sent == [SetCurrentSceneCollectionRequest(name)]
              && r.outcome == answer(n, SetCurrentSceneCollectionRequest(name))
              && r.state == if r.outcome.Ok? then st.(activeCollection := name) else st
  {
  }

  /** activatescene on an unlisted name without a dot: an error, and no request. */
  lemma UnlistedSceneWithoutDot(st: State, answer: Oracle, n: nat, name: string)
    requires name !in st.scenes && '.' !in name
    ensures ActivateSceneExec(st, answer, n, name) == Step(st, [], Fail(InvalidSceneName(name)))
  {
  }

  /** activatescene on an unlisted "collection.scene": the collection is switched first,
      and the scene is requested only if that succeeded. */
  lemma UnlistedSceneSwitchesCollectionFirst(st: State, answer: Oracle, n: nat,
                                             collection: string, scene: string)
    requires '.' !in collection
    requires collection + "." + scene !in st.scenes
    ensures var r := ActivateSceneExec(st, answer, n, collection + "." + scene);
      var setCollection := SetCurrentSceneCollectionRequest(collection);
      var setScene := SetCurrentSceneRequest(scene);
      && (collection !in st.sceneCollections ==> r == Step(st, [], Fail(InvalidCollectionName)))
      && (collection in st.sceneCollections && answer(n, setCollection).Fail? ==>
            r == Step(st, [setCollection], answer(n, setCollection)))
      && (collection in st.sceneCollections && answer(n, setCollection).Ok? ==>
            r.sent == [setCollection, setScene] && r.outcome == answer(n + 1, setScene)
            && r.state.activeCollection == collection
            && r.state.activeScene == if r.outcome.Ok? then scene else st.activeScene)
  {
    SplitAtDotOfJoin(collection, scene);
    assert '.' in collection + "." + scene by {
      assert (collection + "." + scene)[|collection|] == '.';
    }
  }

  /** nextscene and prevscene step from the active scene's position with wrap-around; an
      active scene that is not listed goes to the first scene forward and to the last back. */
  lemma SceneCyclingWraps(st: State, answer: Oracle, n: nat)
    requires |st.scenes| > 0
    ensures var i := IndexOf(st.scenes, st.activeScene);
      && Exec(st, answer, n, NextScene, []).sent ==
           [SetCurrentSceneRequest(st.scenes[if i + 1 == |st.scenes| then 0 else i + 1])]
      && Exec(st, answer, n, PrevScene, []).sent ==
           [SetCurrentSceneRequest(st.scenes[if i <= 0 then |st.scenes| - 1 else i - 1])]
    ensures st.activeScene !in st.scenes ==>
      && Exec(st, answer, n, NextScene, []).sent == [SetCurrentSceneRequest(st.scenes[0])]
      && Exec(st, answer, n, PrevScene, []).sent == [SetCurrentSceneRequest(st.scenes[|st.scenes| - 1])]
  {
  }

  lemma CollectionCyclingWraps(st: State, answer: Oracle, n: nat)
    requires |st.sceneCollections| > 0
    ensures var i := IndexOf(st.sceneCollections, st.activeCollection);
      && Exec(st, answer, n, NextSceneCollection, []).sent ==
           [SetCurrentSceneCollectionRequest(st.sceneCollections[if i + 1 == |st.sceneCollections| then 0 else i + 1])]
      && Exec(st, answer, n, PrevSceneCollection, []).sent ==
           [SetCurrentSceneCollectionRequest(st.sceneCollections[if i <= 0 then |st.sceneCollections| - 1 else i - 1])]
    ensures st.activeCollection !in st.sceneCollections ==>
      && Exec(st, answer, n, NextSceneCollection, []).sent == [SetCurrentSceneCollectionRequest(st.sceneCollections[0])]
      && Exec(st, answer, n, PrevSceneCollection, []).sent ==
           [SetCurrentSceneCollectionRequest(st.sceneCollections[|st.sceneCollections| - 1])]
  {
    var next := Next(st.sceneCollections, st.activeCollection);
    var prev := Prev(st.sceneCollections, st.activeCollection);
    assert IndexOf(st.sceneCollections, next) != -1 && IndexOf(st.sceneCollections, prev) != -1;
  }

  /** nextscene then prevscene, both accepted, come back to the scene that was active. */
  lemma NextThenPrevScene(st: State, answer: Oracle, n: nat)
    requires Distinct(st.scenes) && st.activeScene in st.scenes
    requires answer(n, SetCurrentSceneRequest(Next(st.scenes, st.activeScene))).Ok?
    ensures var s1 := Exec(st, answer, n, NextScene, []).state;
      Exec(s1, answer, n + 1, PrevScene, []).sent == [SetCurrentSceneRequest(st.activeScene)]
  {
    PrevOfNext(st.scenes, st.activeScene);
  }

  /** A refresh that fails never leaves a stale scene selected, and a full refresh that
      succeeds takes every list and selection from OBS's replies. */
  lemma RefreshFailureClearsSelection(st: State, collections: Result<seq<string>>, current: Result<string>,
                                      sceneList: Result<SceneList>)
    ensures var r := RefreshSceneCollections(st, collections, current, sceneList);
      && (r.outcome.Fail? ==> r.state.activeScene == "")
      && (r.outcome.Fail? && !(collections.Success? && current.Success?) ==> r.state.activeCollection == "")
      && (r.outcome.Ok? <==> collections.Success? && current.Success? && sceneList.Success?)
      && (r.outcome.Ok? ==> r.state == st.(sceneCollections := collections.value,
                                           activeCollection := current.value,
                                           scenes := sceneList.value.scenes,
                                           activeScene := sceneList.value.currentScene))
  {
  }

  /** The refreshes of the lists never touch the flags; refreshOBSState never touches the
      lists, the selection or the pause flag. */
  lemma RefreshesAreSeparate(st: State, collections: Result<seq<string>>, current: Result<string>,
                             sceneList: Result<SceneList>, status: Result<StreamingStatus>)
    ensures var r := RefreshSceneCollections(st, collections, current, sceneList).state;
      r.streaming == st.streaming && r.recording == st.recording && r.recordingPaused == st.recordingPaused
    ensures var r := RefreshObsState(st, status).state;
      r == st.(streaming := r.streaming, recording := r.recording)
  {
  }
}
