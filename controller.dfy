/**
 * The driving client's controller: the recording state machine driven by
 * key presses, frame and episode limits and the writer's completion; the
 * append-only recording buffers; the command write-back; and the per-tick
 * traffic-light and speed-limit tracking on top of the two proximity
 * resolvers.
 */
module Controller {
  import opened Wrappers
  import opened Geometry
  import opened Helpers
  import opened Enums
  import opened History
  import opened DiskWriting
  import Timing
  import NonPlayer
  import opened Recording

  /** How one pass of the main loop ends: go on, stop the client, or an uncaught `IndexError`. */
  datatype LoopEnd = Proceed | Quit | IndexErrorRaised

  /** The columns of the driving log. */
  const Columns: seq<string> := [
    "CenterRGB", "LeftRGB", "RightRGB", "Depth", "SemSeg", "Location", "Speed", "Controls",
    "APControls", "HLC", "SpeedLimit", "TrafficLight", "AutoPilotEnabled", "WeatherID"]

  /** The light state and squared distance the tracker falls back to: `(NONE, 15)`, the distance squared. */
  const NoLight: (TrafficLight, real) := (NONE, 225.0)

  /** The speed limit assumed at the start of every episode, in km/h. */
  const DefaultSpeedLimit: int := 30

  /**
   * The row `_save_to_history` appends: the five image references of the
   * frame, the location, the speed in km/h, the driver's and the autopilot's
   * controls, an unset command, the speed limit, the light's value, whether
   * the autopilot drives, and the weather.
   */
  function LogRow(frame: nat, m: Measurements, control: Control, speedLimit: int,
                  light: TrafficLight, autopilotEnabled: bool, weatherId: int): (row: Row)
    ensures |row| == |Columns| && RowOfFrame(row, frame)
    ensures IsUnset(row, HlcColumn)
  {
    [Text(ImageReference(frame, RgbCenter)), Text(ImageReference(frame, RgbLeft)),
     Text(ImageReference(frame, RgbRight)), Text(ImageReference(frame, Depth)),
     Text(ImageReference(frame, SemSeg)),
     Tuple([m.player.location.x, m.player.location.y]),
     Num(m.forwardSpeed * 3.6),
     ControlCell(control),
     ControlCell(m.autopilot),
     Int(0),
     Int(speedLimit),
     Int(light.Value()),
     Int(BoolToInt(autopilotEnabled)),
     Int(weatherId)]
  }

  /** The parameters of `DiskWriter.__init__` after `self`; all but the last lack a default. */
  const WriterParams: seq<string> := ["episode_path", "images", "driving_log", "on_complete"]
  const WriterRequiredParams: nat := 3

  /**
   * Whether Python binds a call to `DiskWriter(...)` with `positional`
   * positional arguments and the keyword arguments `keywords` without raising
   * `TypeError`: not too many positionals, no keyword that is unknown or
   * already given positionally, and every parameter without default given.
   */
  predicate WriterCallBinds(positional: nat, keywords: seq<string>)
  {
    positional <= |WriterParams|
    && (forall kw :: kw in keywords ==> kw in WriterParams[positional..])
    && (forall j :: positional <= j < WriterRequiredParams ==> WriterParams[j] in keywords)
  }

  /**
   * `_write_history_to_disk` as written passes the frame history as a fourth
   * positional argument and `on_complete` by keyword: `on_complete` receives
   * two values and the call raises `TypeError`. Nothing on the way up catches
   * it (`execute` has only `finally`, `main` catches only connection errors),
   * so the client stops with a traceback when the first recording ends, and
   * that recording is never written.
   */
  lemma WriterCallAsWrittenRaises()
    ensures !WriterCallBinds(4, ["on_complete"])
  {
    assert "on_complete" in ["on_complete"];
    assert WriterParams[4..] == [];
  }

  /** The call the model makes instead, with the images named by frame, binds. */
  lemma WriterCallCorrectedBinds()
    ensures WriterCallBinds(3, ["on_complete"])
  {
  }

  /** `int(x)`: truncation toward zero. */
  function TruncToInt(x: real): (n: int)
    ensures x >= 0.0 ==> n as real <= x < n as real + 1.0
    ensures x < 0.0 ==> n as real - 1.0 < x <= n as real
  {
    if x >= 0.0 then x.Floor else -((-x).Floor)
  }

  /** `agent.state` of a light sub-object (the message default for any other body). */
  function StateOf(b: Body): TrafficLight
  {
    if b.TrafficLightAgent? then b.state else GREEN
  }

  /** `agent.speed_limit` of a sign sub-object (the message default for any other body). */
  function SpeedLimitOf(b: Body): real
  {
    if b.SpeedLimitSign? then b.speedLimit else 0.0
  }

  /**
   * The tracked light after one tick. With a light in sight the stored
   * distance becomes the new one, and the state is taken from the light only
   * when it is no farther than the stored distance; otherwise the stored state
   * is kept. With none in sight the tracker resets to `(NONE, 15)`.
   */
  function Hysteresis(current: (TrafficLight, real), found: NonPlayer.Closest): (next: (TrafficLight, real))
    requires found.agent.Some? <==> found.distance.Some?
    ensures found.agent.None? ==> next == NoLight
    ensures found.agent.Some? ==> next.1 == found.distance.value
    ensures found.agent.Some? ==>
              next.0 == (if found.distance.value <= current.1 then StateOf(found.agent.value) else current.0)
  {
    match found.agent
    case None => NoLight
    case Some(agent) =>
      var (oldState, oldDist) := current;
      var newDist := found.distance.value;
      if newDist <= oldDist then (StateOf(agent), newDist) else (oldState, newDist)
  }

  /** The tracked light after a light query: `Hysteresis` of its answer, unchanged when it raised. */
  function LightAfter(current: (TrafficLight, real), found: Outcome<NonPlayer.Closest>): (TrafficLight, real)
    requires found.Returned? ==> (found.value.agent.Some? <==> found.value.distance.Some?)
  {
    if found.Returned? then Hysteresis(current, found.value) else current
  }

  /** The speed limit after a sign query: the found sign's limit in km/h, truncated, else unchanged. */
  function LimitAfter(current: int, found: Outcome<NonPlayer.Closest>): int
  {
    if found.Returned? && found.value.agent.Some? then TruncToInt(SpeedLimitOf(found.value.agent.value) * 3.6)
    else current
  }

  /**
   * With the sign list `update_agents` builds as written, a frame whose only
   * agent is a vehicle makes a car at the origin heading -90 degrees read a
   * speed limit of 0, whatever the limit was.
   */
  lemma HasattrSetsLimitZero(o: NonPlayer.NonPlayerObjects, v: Transform, current: int)
    requires o.Valid() && o.agentType == "speed_limit_sign"
    requires o.agents == Some(NonPlayer.SubObjectsAsWritten([Agent(1, Vehicle(v))], o.agentType))
    requires o.tree == Some(NonPlayer.Locations(o.agents.value))
    ensures LimitAfter(current, o.GetClosestWithRotation(Transform(Origin, -90.0), 12.0, -90.0, 20.0)) == 0
  {
  }

  /**
   * The sentinel distance 15 lies beyond the search radius 12, so the first
   * light seen after a reset always sets the tracked state.
   */
  lemma FirstSightingAdopted(found: NonPlayer.Closest, agent: Body, d2: real)
    requires found == NonPlayer.Closest(Some(agent), Some(d2)) && CloserThan(d2, 12.0)
    ensures Hysteresis(NoLight, found) == (StateOf(agent), d2)
  {
  }

  /**
   * Moving away from a light keeps the state seen when it was nearest:
   * whatever the light now shows, a strictly greater distance leaves the
   * tracked state alone.
   */
  lemma RecedingKeepsState(current: (TrafficLight, real), agent: Body, d2: real)
    requires d2 > current.1
    ensures Hysteresis(current, NonPlayer.Closest(Some(agent), Some(d2))) == (current.0, d2)
  {
  }

  class CarlaController {
    const timer: Timing.Timer
    const trafficLights: NonPlayer.NonPlayerObjects
    const speedLimits: NonPlayer.NonPlayerObjects
    /** `args.output_path`: where recordings go, `None` when recording is not configured. */
    const outputPath: Option<string>
    /** `FrameLimit`, `EpisodeLimit`, `AutoStartRecording` and `WeatherId` of the settings file. */
    const frameLimit: int
    const episodeLimit: int
    const autostartRecording: bool
    const weatherId: int

    /** Whether a drive model was loaded (`self._drive_model` is set). */
    var hasDriveModel: bool
    var gameState: GameState
    var newEpisodeFlag: bool
    var exitFlag: bool
    var vehicleInReverse: bool
    var autopilotEnabled: bool
    var driveModelEnabled: bool
    var currentHlc: Option<HighLevelCommand>
    /** The tracked light state and its squared distance. */
    var currentTrafficLight: (TrafficLight, real)
    var currentSpeedLimit: int
    var imageHistory: seq<Bundle>
    var frameHistory: seq<nat>
    var drivingHistory: Table
    /** The writer saving the last recording, `null` once a new episode starts. */
    var writer: DiskWriter?

    /** The three recording buffers grow together, row `i` describing frame `frameHistory[i]`. */
    ghost predicate HistoriesAligned()
      reads this
    {
      |imageHistory| == |frameHistory| && Aligned(frameHistory, drivingHistory, Columns)
    }

    ghost predicate Valid()
      reads this, timer, trafficLights, speedLimits
    {
      timer.Valid() && trafficLights.Valid() && speedLimits.Valid()
      && trafficLights != speedLimits
      && episodeLimit >= 0
      && HistoriesAligned()
      && (!exitFlag ==> FramesUpTo(frameHistory, timer.episodeFrame))
      && (exitFlag ==> newEpisodeFlag && episodeLimit != 0 && episodeLimit < timer.episodeNum)
    }

    /**
     * `__init__` followed by the episode start `_initialize_pygame` makes:
     * not recording, every flag off, empty buffers, the default speed limit
     * and no light, and the first episode begun.
     */
    constructor (outputPath: Option<string>, frameLimit: int, episodeLimit: int,
                 autostartRecording: bool, weatherId: int, now: string)
      requires episodeLimit >= 0
      ensures Valid()
      ensures fresh(timer) && fresh(trafficLights) && fresh(speedLimits)
      ensures trafficLights.agentType == "traffic_light" && speedLimits.agentType == "speed_limit_sign"
      ensures this.outputPath == outputPath && this.frameLimit == frameLimit && this.episodeLimit == episodeLimit
      ensures this.autostartRecording == autostartRecording && this.weatherId == weatherId
      ensures gameState == NOT_RECORDING
      ensures !newEpisodeFlag && !exitFlag && !vehicleInReverse && !autopilotEnabled && !driveModelEnabled
      ensures !hasDriveModel && currentHlc == None && writer == null
      ensures imageHistory == [] && frameHistory == [] && drivingHistory == Table(Columns, [])
      ensures currentSpeedLimit == DefaultSpeedLimit && currentTrafficLight == NoLight
      ensures timer.frame == 0 && timer.episodeFrame == 0 && timer.episodeNum == 1
      ensures !trafficLights.valid && !speedLimits.valid
    {
      timer := new Timing.Timer(now);
      trafficLights := new NonPlayer.NonPlayerObjects("traffic_light");
      speedLimits := new NonPlayer.NonPlayerObjects("speed_limit_sign");
      this.outputPath, this.frameLimit, this.episodeLimit := outputPath, frameLimit, episodeLimit;
      this.autostartRecording, this.weatherId := autostartRecording, weatherId;
      hasDriveModel := false;
      gameState := NOT_RECORDING;
      newEpisodeFlag, exitFlag := false, false;
      vehicleInReverse, autopilotEnabled, driveModelEnabled := false, false, false;
      currentHlc := None;
      currentTrafficLight := NoLight;
      currentSpeedLimit := DefaultSpeedLimit;
      imageHistory, frameHistory, drivingHistory := [], [], Table(Columns, []);
      writer := null;
      new;
      OnNewEpisode(now);
    }

    /**
     * `_initialize_drive_model`: a model is loaded when the model path is
     * truthy, that is, given and not the empty string.
     */
    method InitializeDriveModel(driveModelPath: Option<string>)
      requires Valid()
      modifies this`hasDriveModel
      ensures Valid()
      ensures hasDriveModel == ((driveModelPath.Some? && driveModelPath.value != "") || old(hasDriveModel))
    {
      if driveModelPath.Some? && driveModelPath.value != "" {
        hasDriveModel := true;
      }
    }

    /** `_initialize_history`: empty buffers and a log with the fourteen columns. */
    method InitializeHistory()
      modifies this`imageHistory, this`frameHistory, this`drivingHistory
      ensures HistoriesAligned()
      ensures imageHistory == [] && frameHistory == [] && drivingHistory == Table(Columns, [])
    {
      drivingHistory := Table(Columns, []);
      imageHistory := [];
      frameHistory := [];
    }

    /**
     * `_on_new_episode`: count the episode; past a non-zero episode limit set
     * the exit flag and change nothing else; otherwise clear the new-episode
     * flag, drop the writer, empty the buffers and reset the tracked speed
     * limit and light (and the command, when a model is loaded).
     */
    method OnNewEpisode(now: string)
      requires Valid()
      requires newEpisodeFlag || timer.episodeNum == 0
      modifies this`exitFlag, this`newEpisodeFlag, this`writer, this`imageHistory, this`frameHistory,
               this`drivingHistory, this`currentSpeedLimit, this`currentTrafficLight, this`currentHlc, timer
      ensures Valid()
      ensures timer.frame == old(timer.frame) && timer.episodeFrame == 0
      ensures timer.episodeNum == old(timer.episodeNum) + 1
      ensures gameState == old(gameState) && autopilotEnabled == old(autopilotEnabled)
      ensures vehicleInReverse == old(vehicleInReverse) && driveModelEnabled == old(driveModelEnabled)
      ensures hasDriveModel == old(hasDriveModel)
      ensures exitFlag <==> old(exitFlag) || (episodeLimit != 0 && episodeLimit < timer.episodeNum)
      ensures exitFlag ==>
        && newEpisodeFlag == old(newEpisodeFlag) && writer == old(writer)
        && imageHistory == old(imageHistory) && frameHistory == old(frameHistory)
        && drivingHistory == old(drivingHistory) && currentHlc == old(currentHlc)
        && currentSpeedLimit == old(currentSpeedLimit) && currentTrafficLight == old(currentTrafficLight)
      ensures !exitFlag ==>
        && !newEpisodeFlag && writer == null
        && imageHistory == [] && frameHistory == [] && drivingHistory == Table(Columns, [])
        && currentSpeedLimit == DefaultSpeedLimit && currentTrafficLight == NoLight
        && currentHlc == (if hasDriveModel then Some(FOLLOW_ROAD) else old(currentHlc))
    {
      timer.NewEpisode(now);
      if episodeLimit != 0 {
        if episodeLimit < timer.episodeNum {
          exitFlag := true;
          return;
        }
      }
      ResetEpisode();
    }

    /** The part of `_on_new_episode` after the episode-limit check. */
    method ResetEpisode()
      requires timer.Valid() && trafficLights.Valid() && speedLimits.Valid() && trafficLights != speedLimits
      requires episodeLimit >= 0 && !exitFlag
      modifies this`newEpisodeFlag, this`writer, this`imageHistory, this`frameHistory, this`drivingHistory,
               this`currentSpeedLimit, this`currentTrafficLight, this`currentHlc
      ensures Valid()
      ensures !newEpisodeFlag && writer == null
      ensures imageHistory == [] && frameHistory == [] && drivingHistory == Table(Columns, [])
      ensures currentSpeedLimit == DefaultSpeedLimit && currentTrafficLight == NoLight
      ensures currentHlc == (if hasDriveModel then Some(FOLLOW_ROAD) else old(currentHlc))
    {
      newEpisodeFlag := false;
      writer := null;
      InitializeHistory();
      currentSpeedLimit := DefaultSpeedLimit;
      currentTrafficLight := NoLight;
      if hasDriveModel {
        currentHlc := Some(FOLLOW_ROAD);
      }
    }

    /**
     * `_writeback_hlc_to_history`: walk the log and set the command of every
     * row among the newest 70 whose command is still 0.
     */
    method WritebackHlcToHistory(command: HighLevelCommand)
      requires Valid()
      modifies this`drivingHistory
      ensures Valid()
      ensures drivingHistory == old(drivingHistory).(rows := WriteBack(old(drivingHistory.rows), HlcColumn, command.Value()))
    {
      ghost var target := WriteBack(drivingHistory.rows, HlcColumn, command.Value());
      var n := |drivingHistory.rows|;
      var i := 0;
      while i < n
        invariant 0 <= i <= n
        invariant drivingHistory.columns == old(drivingHistory.columns) && |drivingHistory.rows| == n
        invariant forall k :: 0 <= k < i ==> drivingHistory.rows[k] == target[k]
        invariant forall k :: i <= k < n ==> drivingHistory.rows[k] == old(drivingHistory.rows)[k]
      {
        var row := drivingHistory.rows[i];
        if IsUnset(row, HlcColumn) {
          if i >= n - LookBack {
            drivingHistory := drivingHistory.(rows := drivingHistory.rows[i := row[HlcColumn := Int(command.Value())]]);
          }
        }
        i := i + 1;
      }
      assert drivingHistory.rows == target;
      WriteBackKeepsAligned(frameHistory, old(drivingHistory), Columns, command.Value());
    }

    /**
     * `_write_history_to_disk`: hand the recording to a new writer under
     * `<output path>/<episode timestamp>`, with `_write_complete` as callback.
     * The images are passed as `(file name, image)` pairs named as the log
     * rows reference them.
     */
    method WriteHistoryToDisk()
      requires Valid()
      modifies this`writer
      ensures Valid()
      ensures fresh(writer) && writer.progress == 0.0
      ensures writer.images == WriterImages(imageHistory, frameHistory)
      ensures writer.drivingLog == drivingHistory && writer.hasOnComplete
      ensures writer.episodePath == PathText(outputPath) + "/" + timer.episodeTimestampStr
    {
      writer := new DiskWriter(PathText(outputPath) + "/" + timer.episodeTimestampStr,
                               WriterImages(imageHistory, frameHistory), drivingHistory, true);
    }

    /** `_write_complete`, the writer's callback: back to not recording, with empty buffers. */
    method WriteComplete()
      requires Valid()
      modifies this`gameState, this`imageHistory, this`frameHistory, this`drivingHistory
      ensures Valid()
      ensures gameState == NOT_RECORDING
      ensures imageHistory == [] && frameHistory == [] && drivingHistory == Table(Columns, [])
    {
      gameState := NOT_RECORDING;
      InitializeHistory();
    }

    /**
     * `_update_current_traffic_light`: ask the light resolver for the nearest
     * light within 12 whose yaw is 75 to 105 degrees from the car's, and move
     * the tracked light as `Hysteresis` says.
     */
    method UpdateCurrentTrafficLight(player: Transform) returns (raised: bool)
      requires Valid()
      modifies this`currentTrafficLight
      ensures Valid()
      ensures var found := trafficLights.GetClosestWithRotation(player, 12.0, -90.0, 15.0);
              && raised == found.RaisedIndexError?
              && currentTrafficLight == if raised then old(currentTrafficLight)
                                        else Hysteresis(old(currentTrafficLight), found.value)
    {
      var (oldState, oldDist) := currentTrafficLight;
      var found := trafficLights.GetClosestWithRotation(player, 12.0, -90.0, 15.0);
      if found.RaisedIndexError? {
        return true;
      }
      var Closest(agent, newDist) := found.value;
      if agent.Some? {
        var newState := StateOf(agent.value);
        if newDist.value <= oldDist {
          currentTrafficLight := (newState, newDist.value);
        } else {
          currentTrafficLight := (oldState, newDist.value);
        }
      } else {
        currentTrafficLight := NoLight;
      }
      return false;
    }

    /**
     * `_update_current_speed_limit`: when the sign resolver finds a sign
     * within 12 whose yaw is 70 to 110 degrees from the car's, its limit
     * converted to km/h and truncated becomes the current limit; otherwise the
     * limit is kept.
     */
    method UpdateCurrentSpeedLimit(player: Transform) returns (raised: bool)
      requires Valid()
      modifies this`currentSpeedLimit
      ensures Valid()
      ensures var found := speedLimits.GetClosestWithRotation(player, 12.0, -90.0, 20.0);
              && raised == found.RaisedIndexError?
              && currentSpeedLimit == if found.Returned? && found.value.agent.Some?
                                      then TruncToInt(SpeedLimitOf(found.value.agent.value) * 3.6)
                                      else old(currentSpeedLimit)
    {
      var found := speedLimits.GetClosestWithRotation(player, 12.0, -90.0, 20.0);
      if found.RaisedIndexError? {
        return true;
      }
      var agent := found.value.agent;
      if agent.Some? {
        currentSpeedLimit := TruncToInt(SpeedLimitOf(agent.value) * 3.6);
      }
      return false;
    }

    /**
     * `_save_to_history`: append the frame's images, its number and its log
     * row. Called once per frame, after the tick, so the frame number is new.
     */
    method SaveToHistory(m: Measurements, bundle: Bundle, control: Control)
      requires Valid() && !exitFlag
      requires |frameHistory| > 0 ==> frameHistory[|frameHistory| - 1] < timer.episodeFrame
      modifies this`imageHistory, this`frameHistory, this`drivingHistory
      ensures Valid()
      ensures imageHistory == old(imageHistory) + [bundle]
      ensures frameHistory == old(frameHistory) + [timer.episodeFrame]
      ensures drivingHistory == Table(Columns, old(drivingHistory.rows) + [LogRow(timer.episodeFrame, m, control,
                                 currentSpeedLimit, currentTrafficLight.0, autopilotEnabled, weatherId)])
    {
      var frame := timer.episodeFrame;
      var row := LogRow(frame, m, control, currentSpeedLimit, currentTrafficLight.0, autopilotEnabled, weatherId);
      AlignedAppend(frameHistory, drivingHistory, Columns, frame, row);
      imageHistory := imageHistory + [bundle];
      frameHistory := frameHistory + [frame];
      drivingHistory := drivingHistory.(rows := drivingHistory.rows + [row]);
    }

    /**
     * `_on_loop`, one pass of the main loop. Autostart may begin a recording
     * at frame 40. Unless writing: tick; start a pending new episode (and quit
     * past the episode limit); refresh the light resolver and build its index
     * or track the light; build the sign index once or track the limit; and,
     * when recording, save the frame. Past a non-zero frame limit, a recording
     * is handed to the writer and a new episode is asked for.
     */
    method OnLoop(m: Measurements, bundle: Bundle, control: Control, now: string) returns (r: LoopEnd)
      requires Valid()
      modifies this, timer, trafficLights, speedLimits
      ensures Valid()
      ensures r == Quit <==>
                old(gameState) != WRITING && old(newEpisodeFlag)
                && episodeLimit != 0 && episodeLimit < old(timer.episodeNum) + 1
      ensures r == Quit ==> exitFlag
      ensures r == IndexErrorRaised <==>
                old(gameState) != WRITING
                && !(old(newEpisodeFlag) && episodeLimit != 0 && episodeLimit < old(timer.episodeNum) + 1)
                && QueryRaised(m, old(trafficLights.valid), old(speedLimits.valid))
      ensures old(gameState) == WRITING ==>
                && r == Proceed && gameState == WRITING
                && timer.frame == old(timer.frame) && timer.episodeFrame == old(timer.episodeFrame)
                && imageHistory == old(imageHistory) && frameHistory == old(frameHistory)
                && drivingHistory == old(drivingHistory) && writer == old(writer)
                && newEpisodeFlag == (old(newEpisodeFlag) || (frameLimit != 0 && frameLimit < timer.episodeFrame))
                && exitFlag == old(exitFlag)
                && currentTrafficLight == old(currentTrafficLight) && currentSpeedLimit == old(currentSpeedLimit)
                && unchanged(trafficLights, speedLimits)
      ensures r == Proceed && old(gameState) != WRITING ==>
                TrackedFrom(m, if old(newEpisodeFlag) then NoLight else old(currentTrafficLight),
                            if old(newEpisodeFlag) then DefaultSpeedLimit else old(currentSpeedLimit),
                            old(trafficLights.valid), old(speedLimits.valid))
      ensures r == Proceed && old(gameState) != WRITING ==>
                && timer.frame == old(timer.frame) + 1
                && frameHistory ==
                     (if old(newEpisodeFlag) then [] else old(frameHistory))
                     + (if AutostartState(old(gameState), autostartRecording, old(timer.episodeFrame)) == RECORDING
                        then [timer.episodeFrame] else [])
      ensures r == Proceed && frameLimit != 0 && frameLimit < timer.episodeFrame ==>
                newEpisodeFlag && gameState != RECORDING
    {
      gameState := AutostartState(gameState, autostartRecording, timer.episodeFrame);
      if gameState == WRITING {
        CheckFrameLimit();
        r := Proceed;
      } else {
        r := ActivePass(m, bundle, control, now);
      }
    }

    /** A pass of `_on_loop` outside writing: the tick, then, unless it ended the pass, the frame-limit check. */
    method ActivePass(m: Measurements, bundle: Bundle, control: Control, now: string) returns (r: LoopEnd)
      requires Valid() && gameState != WRITING
      modifies this, timer, trafficLights, speedLimits
      ensures Valid()
      ensures r == Quit <==> old(newEpisodeFlag) && episodeLimit != 0 && episodeLimit < old(timer.episodeNum) + 1
      ensures r == Quit ==> exitFlag
      ensures r == IndexErrorRaised <==>
                !(old(newEpisodeFlag) && episodeLimit != 0 && episodeLimit < old(timer.episodeNum) + 1)
                && QueryRaised(m, old(trafficLights.valid), old(speedLimits.valid))
      ensures r == Proceed ==>
                TrackedFrom(m, if old(newEpisodeFlag) then NoLight else old(currentTrafficLight),
                            if old(newEpisodeFlag) then DefaultSpeedLimit else old(currentSpeedLimit),
                            old(trafficLights.valid), old(speedLimits.valid))
      ensures r == Proceed ==>
                && timer.frame == old(timer.frame) + 1
                && frameHistory == (if old(newEpisodeFlag) then [] else old(frameHistory))
                                   + (if old(gameState) == RECORDING then [timer.episodeFrame] else [])
      ensures r == Proceed && frameLimit != 0 && frameLimit < timer.episodeFrame ==>
                newEpisodeFlag && gameState != RECORDING
    {
      r := Tick(m, bundle, control, now);
      if r == Proceed {
        CheckFrameLimit();
      }
    }

    /** The part of `_on_loop` that runs unless writing. */
    method Tick(m: Measurements, bundle: Bundle, control: Control, now: string) returns (r: LoopEnd)
      requires Valid() && gameState != WRITING
      modifies this, timer, trafficLights, speedLimits
      ensures Valid()
      ensures r == Quit <==> old(newEpisodeFlag) && episodeLimit != 0 && episodeLimit < old(timer.episodeNum) + 1
      ensures r == Quit ==> exitFlag
      ensures gameState == old(gameState)
      ensures r == IndexErrorRaised <==>
                !(old(newEpisodeFlag) && episodeLimit != 0 && episodeLimit < old(timer.episodeNum) + 1)
                && QueryRaised(m, old(trafficLights.valid), old(speedLimits.valid))
      ensures r == Proceed ==>
                && timer.frame == old(timer.frame) + 1
                && frameHistory == (if old(newEpisodeFlag) then [] else old(frameHistory))
                                   + (if gameState == RECORDING then [timer.episodeFrame] else [])
      ensures r == Proceed ==>
                TrackedFrom(m, if old(newEpisodeFlag) then NoLight else old(currentTrafficLight),
                            if old(newEpisodeFlag) then DefaultSpeedLimit else old(currentSpeedLimit),
                            old(trafficLights.valid), old(speedLimits.valid))
    {
      timer.Tick();
      if newEpisodeFlag {
        OnNewEpisode(now);
        if exitFlag {
          return Quit;
        }
      }
      r := Observe(m, bundle, control);
    }

    /**
     * The rest of a pass outside writing, once the episode is settled: track
     * the nearby agents and, when recording, save the frame. An `IndexError`
     * of a query ends the pass before anything is saved.
     */
    method Observe(m: Measurements, bundle: Bundle, control: Control) returns (r: LoopEnd)
      requires Valid() && !exitFlag
      requires |frameHistory| > 0 ==> frameHistory[|frameHistory| - 1] < timer.episodeFrame
      modifies trafficLights, speedLimits, this`currentTrafficLight, this`currentSpeedLimit,
               this`imageHistory, this`frameHistory, this`drivingHistory
      ensures Valid()
      ensures r == Proceed || r == IndexErrorRaised
      ensures r == IndexErrorRaised <==> QueryRaised(m, old(trafficLights.valid), old(speedLimits.valid))
      ensures r == Proceed ==>
                frameHistory == old(frameHistory) + (if gameState == RECORDING then [timer.episodeFrame] else [])
      ensures r == Proceed ==>
                TrackedFrom(m, old(currentTrafficLight), old(currentSpeedLimit),
                            old(trafficLights.valid), old(speedLimits.valid))
    {
      var raised := TrackNearbyAgents(m);
      if raised {
        return IndexErrorRaised;
      }
      if gameState == RECORDING {
        SaveToHistory(m, bundle, control);
      }
      return Proceed;
    }

    /**
     * The resolver part of `_on_loop`: the light resolver takes this frame's
     * agents every time, and builds its index while it has none or else
     * tracks the light; the sign resolver takes agents and builds its index
     * only while it has none, and else tracks the speed limit. An `IndexError`
     * of the light query ends the pass before the signs are looked at.
     */
    method TrackNearbyAgents(m: Measurements) returns (raised: bool)
      requires Valid()
      modifies trafficLights, speedLimits, this`currentTrafficLight, this`currentSpeedLimit
      ensures Valid()
      ensures trafficLights.agents == Some(NonPlayer.SubObjects(m.agents, trafficLights.agentType))
      ensures old(trafficLights.valid) ==> trafficLights.tree == old(trafficLights.tree)
      ensures !old(trafficLights.valid) ==>
                && trafficLights.valid == (|trafficLights.agents.value| > 0)
                && trafficLights.tree == (if trafficLights.valid then Some(NonPlayer.Locations(trafficLights.agents.value)) else None)
      ensures currentTrafficLight ==
                if old(trafficLights.valid)
                then LightAfter(old(currentTrafficLight), trafficLights.GetClosestWithRotation(m.player, 12.0, -90.0, 15.0))
                else old(currentTrafficLight)
      ensures var lightRaised := old(trafficLights.valid)
                                 && trafficLights.GetClosestWithRotation(m.player, 12.0, -90.0, 15.0).RaisedIndexError?;
              && (raised <==> lightRaised
                              || (old(speedLimits.valid)
                                  && speedLimits.GetClosestWithRotation(m.player, 12.0, -90.0, 20.0).RaisedIndexError?))
              && (lightRaised || old(speedLimits.valid) ==>
                    speedLimits.agents == old(speedLimits.agents) && speedLimits.tree == old(speedLimits.tree)
                    && speedLimits.valid == old(speedLimits.valid))
              && (lightRaised ==> currentSpeedLimit == old(currentSpeedLimit))
              && (!lightRaised && !old(speedLimits.valid) ==>
                    && speedLimits.agents == Some(NonPlayer.SubObjects(m.agents, speedLimits.agentType))
                    && speedLimits.valid == (|speedLimits.agents.value| > 0)
                    && speedLimits.tree == (if speedLimits.valid then Some(NonPlayer.Locations(speedLimits.agents.value)) else None)
                    && currentSpeedLimit == old(currentSpeedLimit))
              && (!lightRaised && old(speedLimits.valid) ==>
                    currentSpeedLimit ==
                      LimitAfter(old(currentSpeedLimit), speedLimits.GetClosestWithRotation(m.player, 12.0, -90.0, 20.0)))
    {
      raised := TrackTrafficLight(m);
      if raised {
        return;
      }
      raised := TrackSpeedLimit(m);
    }

    /**
     * The light part: take this frame's light agents, then build the index
     * if there is none yet, or else track the light.
     */
    method TrackTrafficLight(m: Measurements) returns (raised: bool)
      requires Valid()
      modifies trafficLights, this`currentTrafficLight
      ensures Valid()
      ensures trafficLights.agents == Some(NonPlayer.SubObjects(m.agents, trafficLights.agentType))
      ensures old(trafficLights.valid) ==> trafficLights.tree == old(trafficLights.tree)
      ensures !old(trafficLights.valid) ==>
                && trafficLights.valid == (|trafficLights.agents.value| > 0)
                && trafficLights.tree == (if trafficLights.valid then Some(NonPlayer.Locations(trafficLights.agents.value)) else None)
      ensures raised <==> old(trafficLights.valid)
                          && trafficLights.GetClosestWithRotation(m.player, 12.0, -90.0, 15.0).RaisedIndexError?
      ensures currentTrafficLight ==
                if old(trafficLights.valid)
                then LightAfter(old(currentTrafficLight), trafficLights.GetClosestWithRotation(m.player, 12.0, -90.0, 15.0))
                else old(currentTrafficLight)
    {
      trafficLights.UpdateAgents(m.agents);
      if !trafficLights.valid {
        trafficLights.InitializeKDTree();
        raised := false;
      } else {
        raised := UpdateCurrentTrafficLight(m.player);
      }
    }

    /**
     * The sign part: while there is no sign index, take this frame's sign
     * agents and build it; once there is one, track the speed limit.
     */
    method TrackSpeedLimit(m: Measurements) returns (raised: bool)
      requires Valid()
      modifies speedLimits, this`currentSpeedLimit
      ensures Valid()
      ensures old(speedLimits.valid) ==>
                && speedLimits.agents == old(speedLimits.agents) && speedLimits.tree == old(speedLimits.tree)
                && speedLimits.valid
                && (raised <==> speedLimits.GetClosestWithRotation(m.player, 12.0, -90.0, 20.0).RaisedIndexError?)
                && currentSpeedLimit ==
                     LimitAfter(old(currentSpeedLimit), speedLimits.GetClosestWithRotation(m.player, 12.0, -90.0, 20.0))
      ensures !old(speedLimits.valid) ==>
                && !raised
                && speedLimits.agents == Some(NonPlayer.SubObjects(m.agents, speedLimits.agentType))
                && speedLimits.valid == (|speedLimits.agents.value| > 0)
                && speedLimits.tree == (if speedLimits.valid then Some(NonPlayer.Locations(speedLimits.agents.value)) else None)
                && currentSpeedLimit == old(currentSpeedLimit)
    {
      if !speedLimits.valid {
        speedLimits.UpdateAgents(m.agents);
        speedLimits.InitializeKDTree();
        raised := false;
      } else {
        raised := UpdateCurrentSpeedLimit(m.player);
      }
    }

    /**
     * The trackers after a pass that started from `light` and `limit`: each
     * moved by its query when its index existed before the pass, and kept
     * otherwise.
     */
    ghost predicate TrackedFrom(m: Measurements, light: (TrafficLight, real), limit: int,
                                lightsIndexed: bool, signsIndexed: bool)
      requires trafficLights.Valid() && speedLimits.Valid()
      reads this, trafficLights, speedLimits
    {
      && currentTrafficLight ==
           (if lightsIndexed then LightAfter(light, trafficLights.GetClosestWithRotation(m.player, 12.0, -90.0, 15.0))
            else light)
      && currentSpeedLimit ==
           (if signsIndexed then LimitAfter(limit, speedLimits.GetClosestWithRotation(m.player, 12.0, -90.0, 20.0))
            else limit)
    }

    /**
     * Whether a pass's queries raise `IndexError`: the light query when the
     * light index existed before the pass, or the sign query when the sign
     * index did. Either ends the pass.
     */
    ghost predicate QueryRaised(m: Measurements, lightsIndexed: bool, signsIndexed: bool)
      requires trafficLights.Valid() && speedLimits.Valid()
      reads this, trafficLights, speedLimits
    {
      || (lightsIndexed && trafficLights.GetClosestWithRotation(m.player, 12.0, -90.0, 15.0).RaisedIndexError?)
      || (signsIndexed && speedLimits.GetClosestWithRotation(m.player, 12.0, -90.0, 20.0).RaisedIndexError?)
    }

    /** The frame-limit check at the end of `_on_loop`. */
    method CheckFrameLimit()
      requires Valid()
      modifies this`gameState, this`newEpisodeFlag, this`writer
      ensures Valid()
      ensures frameLimit != 0 && frameLimit < timer.episodeFrame ==>
                newEpisodeFlag && gameState == (if old(gameState) == RECORDING then WRITING else old(gameState))
      ensures !(frameLimit != 0 && frameLimit < timer.episodeFrame) ==>
                newEpisodeFlag == old(newEpisodeFlag) && gameState == old(gameState) && writer == old(writer)
      ensures old(gameState) == RECORDING && gameState == WRITING ==>
                fresh(writer) && writer.images == WriterImages(imageHistory, frameHistory)
                && writer.drivingLog == drivingHistory && writer.hasOnComplete
      ensures !(old(gameState) == RECORDING && gameState == WRITING) ==> writer == old(writer)
    {
      if frameLimit != 0 {
        if frameLimit < timer.episodeFrame {
          if gameState == RECORDING {
            gameState := WRITING;
            WriteHistoryToDisk();
          }
          newEpisodeFlag := true;
        }
      }
    }

    /** The recording state and the four switches keys act on. */
    function Switches(): Flags
      reads this
    {
      Flags(gameState, newEpisodeFlag, autopilotEnabled, vehicleInReverse, driveModelEnabled)
    }

    /**
     * `_handle_keydown_event`: the state and switches move as `KeyFlags`
     * says; while recording, keypad 8, 4, 6 write a command back; while the
     * model drives, keypad 8, 4, 6, 5 choose its command. The writer is
     * started exactly when recording ends.
     */
    method HandleKeydown(key: Key)
      requires Valid()
      modifies this`gameState, this`newEpisodeFlag, this`autopilotEnabled, this`vehicleInReverse,
               this`driveModelEnabled, this`currentHlc, this`writer, this`drivingHistory
      ensures Valid()
      ensures Switches() == KeyFlags(old(Switches()), key, outputPath.Some?, hasDriveModel)
      ensures currentHlc == (
        if driveModelEnabled && DriveKey(key).Some? then DriveKey(key)
        else if old(gameState) != WRITING && key == KeyM && hasDriveModel then Some(FOLLOW_ROAD)
        else old(currentHlc))
      ensures old(gameState) == RECORDING && gameState == WRITING ==>
                fresh(writer) && writer.images == WriterImages(imageHistory, frameHistory)
                && writer.drivingLog == old(drivingHistory) && writer.hasOnComplete
      ensures !(old(gameState) == RECORDING && gameState == WRITING) ==> writer == old(writer)
      ensures drivingHistory.rows == (
        if gameState == RECORDING && CommandKey(key).Some?
        then WriteBack(old(drivingHistory.rows), HlcColumn, CommandKey(key).value.Value())
        else old(drivingHistory.rows))
    {
      if gameState != WRITING {
        KeyOutsideWriting(key);
      }
      KeyWhileRecording(key);
      KeyWhileModelDrives(key);
    }

    /** The second branch of `_handle_keydown_event`: keypad 8, 4, 6 write a command back while recording. */
    method KeyWhileRecording(key: Key)
      requires Valid()
      modifies this`drivingHistory
      ensures Valid()
      ensures drivingHistory.rows == (
        if gameState == RECORDING && CommandKey(key).Some?
        then WriteBack(old(drivingHistory.rows), HlcColumn, CommandKey(key).value.Value())
        else old(drivingHistory.rows))
    {
      if gameState == RECORDING {
        if key == KeyKP8 {
          WritebackHlcToHistory(STRAIGHT_AHEAD);
        } else if key == KeyKP4 {
          WritebackHlcToHistory(TURN_LEFT);
        } else if key == KeyKP6 {
          WritebackHlcToHistory(TURN_RIGHT);
        }
      }
    }

    /** The third branch of `_handle_keydown_event`: keypad 8, 4, 6, 5 choose the model's command. */
    method KeyWhileModelDrives(key: Key)
      modifies this`currentHlc
      ensures currentHlc == if driveModelEnabled && DriveKey(key).Some? then DriveKey(key) else old(currentHlc)
    {
      if driveModelEnabled {
        if key == KeyKP8 {
          currentHlc := Some(STRAIGHT_AHEAD);
        } else if key == KeyKP4 {
          currentHlc := Some(TURN_LEFT);
        } else if key == KeyKP6 {
          currentHlc := Some(TURN_RIGHT);
        } else if key == KeyKP5 {
          currentHlc := Some(FOLLOW_ROAD);
        }
      }
    }

    /** The first branch of `_handle_keydown_event`, taken outside `WRITING`. */
    method KeyOutsideWriting(key: Key)
      requires Valid() && gameState != WRITING
      modifies this`gameState, this`newEpisodeFlag, this`autopilotEnabled, this`vehicleInReverse,
               this`driveModelEnabled, this`currentHlc, this`writer
      ensures Valid()
      ensures Switches() == KeyFlags(old(Switches()), key, outputPath.Some?, hasDriveModel)
      ensures currentHlc == (if key == KeyM && hasDriveModel then Some(FOLLOW_ROAD) else old(currentHlc))
      ensures old(gameState) == RECORDING && gameState == WRITING ==>
                fresh(writer) && writer.images == WriterImages(imageHistory, frameHistory)
                && writer.drivingLog == drivingHistory && writer.hasOnComplete
      ensures !(old(gameState) == RECORDING && gameState == WRITING) ==> writer == old(writer)
    {
      if key == KeyP {
        autopilotEnabled := !autopilotEnabled;
      } else if key == KeyM {
        if hasDriveModel {
          driveModelEnabled := !driveModelEnabled;
          currentHlc := Some(FOLLOW_ROAD);
        }
      } else if key == KeyQ {
        vehicleInReverse := !vehicleInReverse;
      } else if key == KeyE {
        EpisodeKey();
      } else if key == KeyR {
        RecordKey();
      }
    }

    /** The `e` branch: end a recording and ask for a new episode. */
    method EpisodeKey()
      requires Valid() && gameState != WRITING
      modifies this`gameState, this`newEpisodeFlag, this`writer
      ensures Valid()
      ensures Switches() == KeyFlags(old(Switches()), KeyE, outputPath.Some?, hasDriveModel)
      ensures old(gameState) == RECORDING ==>
                fresh(writer) && writer.images == WriterImages(imageHistory, frameHistory)
                && writer.drivingLog == drivingHistory && writer.hasOnComplete
      ensures old(gameState) != RECORDING ==> writer == old(writer)
    {
      if gameState == RECORDING {
        StopRecording();
      }
      newEpisodeFlag := true;
    }

    /** The `r` branch: start recording given an output path, or end the recording. */
    method RecordKey()
      requires Valid() && gameState != WRITING
      modifies this`gameState, this`writer
      ensures Valid()
      ensures Switches() == KeyFlags(old(Switches()), KeyR, outputPath.Some?, hasDriveModel)
      ensures old(gameState) == RECORDING ==>
                fresh(writer) && writer.images == WriterImages(imageHistory, frameHistory)
                && writer.drivingLog == drivingHistory && writer.hasOnComplete
      ensures old(gameState) != RECORDING ==> writer == old(writer)
    {
      if gameState == NOT_RECORDING && outputPath.Some? {
        gameState := RECORDING;
      } else if gameState == RECORDING {
        StopRecording();
      }
    }

    /** Ending a recording by key: enter `WRITING` and start the writer. */
    method StopRecording()
      requires Valid() && gameState == RECORDING
      modifies this`gameState, this`writer
      ensures Valid() && gameState == WRITING
      ensures fresh(writer) && writer.images == WriterImages(imageHistory, frameHistory)
              && writer.drivingLog == drivingHistory && writer.hasOnComplete
    {
      gameState := WRITING;
      WriteHistoryToDisk();
    }
  }

  /** The autostart step of `_on_loop`: at frame 40 of an episode recording begins by itself. */
  function AutostartState(state: GameState, autostart: bool, episodeFrame: nat): (next: GameState)
    ensures next != state ==> state == NOT_RECORDING && next == RECORDING
    ensures next == RECORDING <==> state == RECORDING || (state == NOT_RECORDING && autostart && episodeFrame == 40)
  {
    if state == NOT_RECORDING && autostart && episodeFrame == 40 then RECORDING else state
  }

  /** The command keypad 8, 4, 6 and 5 give the drive model. */
  function DriveKey(key: Key): (h: Option<HighLevelCommand>)
    ensures h.Some? <==> key == KeyKP8 || key == KeyKP4 || key == KeyKP6 || key == KeyKP5
  {
    match key
    case KeyKP8 => Some(STRAIGHT_AHEAD)
    case KeyKP4 => Some(TURN_LEFT)
    case KeyKP6 => Some(TURN_RIGHT)
    case KeyKP5 => Some(FOLLOW_ROAD)
    case _ => None
  }

}
