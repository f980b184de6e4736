/** The OBS target as the object the router holds: its fields are updated in place by the
    commands and by the event handlers, and each command method is proved to perform
    exactly the step that the functions of module Obs describe. */
module ObsClient {
  import opened Outcomes
  import opened Text
  import opened CommandsMap
  import opened Cycle
  import opened Obs

  /** The websocket client. What OBS replies is the oracle `answer`; `sent` is the log of
      the command requests written to the socket, so the n-th request is answered by
      `answer(n, ·)`. */
  class Connection {
    var connected: bool
    var sent: seq<Request>
    const answer: Oracle

    constructor (answer: Oracle)
      ensures this.answer == answer && !connected && sent == []
    {
      this.answer := answer;
      connected := false;
      sent := [];
    }

    /** `SendReceive`: one request written, OBS's reply returned. */
    method SendReceive(req: Request) returns (err: Outcome)
      modifies this`sent
      ensures sent == old(sent) + [req]
      ensures err == answer(|old(sent)|, req)
    {
      err := answer(|sent|, req);
      sent := sent + [req];
    }

    /** `Connect`, whose success is decided by the network. */
    method Connect(succeeded: bool)
      modifies this`connected
      ensures connected == succeeded
    {
      connected := succeeded;
    }

    method Disconnect()
      modifies this`connected
      ensures !connected
    {
      connected := false;
    }
  }

  class ObsCommandTarget {
    const client: Connection
    const commandsMap: CommandMap<ObsCommand>
    var sceneCollections: seq<string>
    var activeCollection: string
    var scenes: seq<string>
    var activeScene: string
    var streaming: bool
    var recording: bool
    var recordingPaused: bool

    function Snapshot(): State
      reads this
    {
      State(sceneCollections, activeCollection, scenes, activeScene, streaming, recording, recordingPaused)
    }

    /** The target's table is the OBS command table. */
    ghost predicate Valid()
      reads commandsMap
    {
      commandsMap.commands == ObsCommands
    }

    /** The fields are now `step.state`, exactly `step.sent` was written to the socket after
        what was there before, and the method returned `step.outcome`. */
    twostate predicate Performed(step: Step, err: Outcome)
      reads this, client
    {
      && Snapshot() == step.state
      && client.sent == old(client.sent) + step.sent
      && err == step.outcome
    }

    /** `Init` once the configuration is read: the table is bound, and the flags are off
        until the first refresh. */
    constructor (client: Connection)
      ensures this.client == client && fresh(commandsMap)
      ensures Valid()
      ensures Snapshot() == State([], "", [], "", false, false, false)
    {
      this.client := client;
      var m := new CommandMap<ObsCommand>();
      m.Init(ObsCommands);
      commandsMap := m;
      sceneCollections, activeCollection := [], "";
      scenes, activeScene := [], "";
      streaming, recording, recordingPaused := false, false, false;
    }

    method GetSceneIndex(sceneName: string) returns (index: int)
      ensures index == IndexOf(scenes, sceneName)
    {
      index := Find(scenes, sceneName);
    }

    method GetSceneCollectionIndex(sceneCollectionName: string) returns (index: int)
      ensures index == IndexOf(sceneCollections, sceneCollectionName)
    {
      index := Find(sceneCollections, sceneCollectionName);
    }

    method ActivateScene(sceneName: string) returns (err: Outcome)
      modifies this, client`sent
      ensures Performed(ActivateSceneStep(old(Snapshot()), client.answer, |old(client.sent)|, sceneName), err)
    {
      err := client.SendReceive(SetCurrentSceneRequest(sceneName));
      if err.Fail? {
        return;
      }
      activeScene := sceneName;
    }

    method ActivateSceneCollection(collectionName: string) returns (err: Outcome)
      modifies this, client`sent
      ensures Performed(ActivateSceneCollectionStep(old(Snapshot()), client.answer, |old(client.sent)|, collectionName), err)
    {
      var index := GetSceneCollectionIndex(collectionName);
      if index == -1 {
        return Fail(InvalidCollectionName);
      }
      err := client.SendReceive(SetCurrentSceneCollectionRequest(collectionName));
      if err.Fail? {
        return;
      }
      activeCollection := collectionName;
    }

    method StartRecording() returns (err: Outcome)
      modifies client`sent
      ensures Performed(StartRecordingStep(old(Snapshot()), client.answer, |old(client.sent)|), err)
    {
      if recording {
        return Ok;
      }
      err := client.SendReceive(StartRecordingRequest);
    }

    method StopRecording() returns (err: Outcome)
      modifies client`sent
      ensures Performed(StopRecordingStep(old(Snapshot()), client.answer, |old(client.sent)|), err)
    {
      if !recording {
        return Ok;
      }
      err := client.SendReceive(StopRecordingRequest);
    }

    method PauseRecording() returns (err: Outcome)
      modifies client`sent
      ensures Performed(PauseRecordingStep(old(Snapshot()), client.answer, |old(client.sent)|), err)
    {
      if !recording || recordingPaused {
        return Ok;
      }
      err := client.SendReceive(PauseRecordingRequest);
    }

    method ResumeRecording() returns (err: Outcome)
      modifies client`sent
      ensures Performed(ResumeRecordingStep(old(Snapshot()), client.answer, |old(client.sent)|), err)
    {
      if !recording || !recordingPaused {
        return Ok;
      }
      err := client.SendReceive(ResumeRecordingRequest);
    }

    method StartStreaming() returns (err: Outcome)
      modifies client`sent
      ensures Performed(StartStreamingStep(old(Snapshot()), client.answer, |old(client.sent)|), err)
    {
      if streaming {
        return Ok;
      }
      err := client.SendReceive(StartStreamingRequest);
    }

    method StopStreaming() returns (err: Outcome)
      modifies client`sent
      ensures Performed(StopStreamingStep(old(Snapshot()), client.answer, |old(client.sent)|), err)
    {
      if !streaming {
        return Ok;
      }
      err := client.SendReceive(StopStreamingRequest);
    }

    /** activateSceneExec. */
    method ActivateSceneExec(sceneName: string) returns (err: Outcome)
      modifies this, client`sent
      ensures Performed(Obs.ActivateSceneExec(old(Snapshot()), client.answer, |old(client.sent)|, sceneName), err)
    {
      var index := GetSceneIndex(sceneName);
      var name := sceneName;
      if index == -1 {
        if '.' !in sceneName {
          return Fail(InvalidSceneName(sceneName));
        }
        var parts := SplitAtDot(sceneName);
        name := parts.tail.value;
        err := ActivateSceneCollection(parts.head);
        if err.Fail? {
          return;
        }
      }
      err := ActivateScene(name);
    }

    /** The `*Exec` functions, dispatched on the command code. */
    method Exec(code: ObsCommand, parameters: seq<Value>) returns (err: Outcome)
      requires ExecSafe(Snapshot(), code, parameters)
      modifies this, client`sent
      ensures Performed(Obs.Exec(old(Snapshot()), client.answer, |old(client.sent)|, code, parameters), err)
    {
      match code
      case ActivateScene =>
        err := ActivateSceneExec(parameters[0].s);
      case PrevScene =>
        var index := GetSceneIndex(activeScene);
        err := ActivateScene(scenes[PrevIndex(index, |scenes|)]);
      case NextScene =>
        var index := GetSceneIndex(activeScene);
        err := ActivateScene(scenes[NextIndex(index, |scenes|)]);
      case ActivateSceneCollection =>
        err := ActivateSceneCollection(parameters[0].s);
      case PrevSceneCollection =>
        var index := GetSceneCollectionIndex(activeCollection);
        err := ActivateSceneCollection(sceneCollections[PrevIndex(index, |sceneCollections|)]);
      case NextSceneCollection =>
        var index := GetSceneCollectionIndex(activeCollection);
        err := ActivateSceneCollection(sceneCollections[NextIndex(index, |sceneCollections|)]);
      case StartRecording =>
        err := StartRecording();
      case StopRecording =>
        err := StopRecording();
      case ToggleRecording =>
        if recording {
          err := StopRecording();
        } else {
          err := StartRecording();
        }
      case PauseRecording =>
        err := PauseRecording();
      case ResumeRecording =>
        err := ResumeRecording();
      case TogglePauseRecording =>
        if recordingPaused {
          err := ResumeRecording();
        } else {
          err := PauseRecording();
        }
      case StartStreaming =>
        err := StartStreaming();
      case StopStreaming =>
        err := StopStreaming();
      case ToggleStreaming =>
        if streaming {
          err := StopStreaming();
        } else {
          err := StartStreaming();
        }
    }

    /** processCommand: the table's ExecuteCommand on this target. */
    method ProcessCommand(command: string, parameters: seq<Value>) returns (err: Outcome)
      requires Valid() && CommandSafe(Snapshot(), command, parameters)
      modifies this, client`sent
      ensures Performed(Obs.ExecuteCommand(old(Snapshot()), true, client.answer, |old(client.sent)|, command, parameters), err)
    {
      match commandsMap.Lookup(command)
      case Failure(e) =>
        err := Fail(e);
      case Success(code) =>
        err := Exec(code, parameters);
    }

    /** ExecuteCommand: refused while the socket is down; otherwise the command is run by the
        communication loop, whose reply is this call's result. */
    method ExecuteCommand(command: string, parameters: seq<Value>) returns (err: Outcome)
      requires Valid() && (client.connected ==> CommandSafe(Snapshot(), command, parameters))
      modifies this, client`sent
      ensures Performed(Obs.ExecuteCommand(old(Snapshot()), client.connected, client.answer, |old(client.sent)|,
                                           command, parameters), err)
    {
      if !client.connected {
        return Fail(NotConnected);
      }
      err := ProcessCommand(command, parameters);
    }

    /** CheckCommand, through the target's own table. */
    function CheckCommand(command: string, parameters: seq<Value>): (r: Outcome)
      reads this, commandsMap
      requires Valid()
      ensures r == Obs.CheckCommand(command, parameters)
    {
      commandsMap.CheckCommand(command, parameters, CheckFunc)
    }

    // -------------------------------------------------------------------------------
    // Event handlers and refreshes. The replies of the Get* requests are parameters.

    method OnSwitchScenes(sceneName: string)
      modifies this
      ensures Snapshot() == old(Snapshot()).(activeScene := sceneName)
    {
      activeScene := sceneName;
    }

    method OnScenesChanged(sceneNames: seq<string>)
      modifies this
      ensures Snapshot() == old(Snapshot()).(scenes := sceneNames)
    {
      scenes := sceneNames;
    }

    method RefreshScenes(reply: Result<SceneList>) returns (err: Outcome)
      modifies this
      ensures Snapshot() == Obs.RefreshScenes(old(Snapshot()), reply).state
      ensures err == Obs.RefreshScenes(old(Snapshot()), reply).outcome
    {
      activeScene := "";
      if reply.Failure? {
        return Fail(reply.error);
      }
      scenes := reply.value.scenes;
      activeScene := reply.value.currentScene;
      err := Ok;
    }

    /** onScenesCollectionChanged: the new collection, then its scenes; the refresh's error
        is dropped. */
    method OnSceneCollectionChanged(collection: string, reply: Result<SceneList>)
      modifies this
      ensures Snapshot() == Obs.RefreshScenes(old(Snapshot()).(activeCollection := collection), reply).state
    {
      activeCollection := collection;
      var _ := RefreshScenes(reply);
    }

    method RefreshSceneCollections(collections: Result<seq<string>>, current: Result<string>,
                                   sceneList: Result<SceneList>) returns (err: Outcome)
      modifies this
      ensures Snapshot() == Obs.RefreshSceneCollections(old(Snapshot()), collections, current, sceneList).state
      ensures err == Obs.RefreshSceneCollections(old(Snapshot()), collections, current, sceneList).outcome
    {
      activeCollection := "";
      activeScene := "";
      if collections.Failure? {
        return Fail(collections.error);
      }
      sceneCollections := collections.value;
      if current.Failure? {
        return Fail(current.error);
      }
      activeCollection := current.value;
      err := RefreshScenes(sceneList);
    }

    /** onSceneCollectionListChanged: the refresh's error is dropped. */
    method OnSceneCollectionListChanged(collections: Result<seq<string>>, current: Result<string>,
                                        sceneList: Result<SceneList>)
      modifies this
      ensures Snapshot() == Obs.RefreshSceneCollections(old(Snapshot()), collections, current, sceneList).state
    {
      var _ := RefreshSceneCollections(collections, current, sceneList);
    }

    method RefreshObsState(reply: Result<StreamingStatus>) returns (err: Outcome)
      modifies this
      ensures Snapshot() == Obs.RefreshObsState(old(Snapshot()), reply).state
      ensures err == Obs.RefreshObsState(old(Snapshot()), reply).outcome
    {
      if reply.Failure? {
        return Fail(reply.error);
      }
      streaming := reply.value.streaming;
      recording := reply.value.recording;
      err := Ok;
    }

    method OnRecordingStarting()
      modifies this
      ensures Snapshot() == old(Snapshot()).(recording := true, recordingPaused := false)
    {
      recording, recordingPaused := true, false;
    }

    method OnRecordingStopping()
      modifies this
      ensures Snapshot() == old(Snapshot()).(recording := false, recordingPaused := false)
    {
      recording, recordingPaused := false, false;
    }

    method OnRecordingPaused()
      modifies this
      ensures Snapshot() == old(Snapshot()).(recordingPaused := true)
    {
      recordingPaused := true;
    }

    method OnRecordingResumed()
      modifies this
      ensures Snapshot() == old(Snapshot()).(recordingPaused := false)
    {
      recordingPaused := false;
    }

    method OnStreamingStarting()
      modifies this
      ensures Snapshot() == old(Snapshot()).(streaming := true)
    {
      streaming := true;
    }

    method OnStreamingStopping()
      modifies this
      ensures Snapshot() == old(Snapshot()).(streaming := false)
    {
      streaming := false;
    }
  }
}
