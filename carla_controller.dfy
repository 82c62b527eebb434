/**
 * The earlier manual-control client: keyboard driving with autopilot and
 * reverse switches, recording into a ten-column log, command write-back,
 * new episodes on request, and a head-up display of the governing traffic
 * light found through a spatial index built from the first frame's agents.
 */
module LegacyController {
  import opened Wrappers
  import opened Geometry
  import opened Helpers
  import opened Enums
  import opened History
  import opened DiskWriting
  import opened Recording
  import Timing

  /** The columns of this client's driving log; the command is the tenth. */
  const Columns: seq<string> := [
    "CenterRGB", "LeftRGB", "RightRGB", "Depth", "SemSeg", "Location", "ForwardSpeed",
    "PlayerControl", "AutopilotControls", "HighLevelCommand"]

  /**
   * The row `_save_to_history` appends: the five image references of the
   * frame, the location, the forward speed as reported, the driver's and the
   * autopilot's controls, and an unset command.
   */
  function LogRow(frame: nat, m: Measurements, control: Control): (row: Row)
    ensures |row| == |Columns| && RowOfFrame(row, frame)
    ensures Columns[HlcColumn] == "HighLevelCommand" && IsUnset(row, HlcColumn)
  {
    [Text(ImageReference(frame, RgbCenter)), Text(ImageReference(frame, RgbLeft)),
     Text(ImageReference(frame, RgbRight)), Text(ImageReference(frame, Depth)),
     Text(ImageReference(frame, SemSeg)),
     Tuple([m.player.location.x, m.player.location.y]),
     Num(m.forwardSpeed),
     ControlCell(control),
     ControlCell(m.autopilot),
     Int(0)]
  }

  class CarlaController {
    const timer: Timing.Timer
    /** `args.output_path`: where recordings go, `None` when recording is not configured. */
    const outputPath: Option<string>

    /** The last measurement received, `None` before the first one. */
    var measurements: Option<Measurements>
    var kdTreeInitialized: bool
    var trafficLightsTree: KDResult
    var speedLimitSignsTree: KDResult
    var gameState: GameState
    var newEpisodeFlag: bool
    var vehicleInReverse: bool
    var autopilotEnabled: bool
    /** The recorded `(file name, image)` pairs, five per frame. */
    var imageHistory: seq<(string, Image)>
    var drivingHistory: Table
    /** The writer saving the last recording, `null` once a new episode starts. */
    var writer: DiskWriter?
    /** The camera images and the numbers of the recorded frames, in order. */
    ghost var bundles: seq<Bundle>
    ghost var frames: seq<nat>

    /**
     * The image list holds the five pairs of every recorded frame, named as
     * that frame's log row references them; the recorded frames increase and
     * none lies beyond the current one. The sign index is never built.
     */
    ghost predicate Valid()
      reads this, timer
    {
      timer.Valid()
      && |bundles| == |frames|
      && imageHistory == WriterImages(bundles, frames)
      && Aligned(frames, drivingHistory, Columns)
      && FramesUpTo(frames, timer.episodeFrame)
      && (trafficLightsTree.Tree? ==> |trafficLightsTree.points| == |trafficLightsTree.ids|)
      && (!kdTreeInitialized ==> trafficLightsTree == NoTree)
      && speedLimitSignsTree == NoTree
    }

    /**
     * `__init__` followed by the episode start `_initialize_pygame` makes:
     * not recording, every switch off, no index and no measurement yet, empty
     * buffers, and the first episode begun.
     */
    constructor (outputPath: Option<string>, now: string)
      ensures Valid()
      ensures fresh(timer)
      ensures this.outputPath == outputPath
      ensures measurements == None && !kdTreeInitialized && trafficLightsTree == NoTree
      ensures gameState == NOT_RECORDING && !newEpisodeFlag && !vehicleInReverse && !autopilotEnabled
      ensures writer == null && imageHistory == [] && drivingHistory == Table(Columns, [])
      ensures timer.frame == 0 && timer.episodeFrame == 0 && timer.episodeNum == 1
    {
      timer := new Timing.Timer(now);
      this.outputPath := outputPath;
      measurements := None;
      kdTreeInitialized := false;
      trafficLightsTree, speedLimitSignsTree := NoTree, NoTree;
      gameState := NOT_RECORDING;
      newEpisodeFlag, vehicleInReverse, autopilotEnabled := false, false, false;
      imageHistory, drivingHistory := [], Table(Columns, []);
      bundles, frames := [], [];
      writer := null;
      new;
      OnNewEpisode(now);
    }

    /** `_initialize_history`: an empty log with the ten columns and no images. */
    method InitializeHistory()
      requires timer.Valid()
      requires (trafficLightsTree.Tree? ==> |trafficLightsTree.points| == |trafficLightsTree.ids|)
      requires (!kdTreeInitialized ==> trafficLightsTree == NoTree) && speedLimitSignsTree == NoTree
      modifies this`imageHistory, this`drivingHistory, this`bundles, this`frames
      ensures Valid()
      ensures imageHistory == [] && drivingHistory == Table(Columns, [])
      ensures bundles == [] && frames == []
    {
      drivingHistory := Table(Columns, []);
      imageHistory := [];
      bundles, frames := [], [];
    }

    /**
     * `_on_new_episode`: count the episode and restart its frames, clear the
     * new-episode flag, drop the writer and empty the buffers.
     */
    method OnNewEpisode(now: string)
      requires timer.Valid()
      requires (trafficLightsTree.Tree? ==> |trafficLightsTree.points| == |trafficLightsTree.ids|)
      requires (!kdTreeInitialized ==> trafficLightsTree == NoTree) && speedLimitSignsTree == NoTree
      modifies this`newEpisodeFlag, this`writer, this`imageHistory, this`drivingHistory,
               this`bundles, this`frames, timer
      ensures Valid()
      ensures timer.frame == old(timer.frame) && timer.episodeFrame == 0
      ensures timer.episodeNum == old(timer.episodeNum) + 1 && timer.episodeTimestampStr == now
      ensures !newEpisodeFlag && writer == null
      ensures imageHistory == [] && drivingHistory == Table(Columns, [])
      ensures frames == []
    {
      timer.NewEpisode(now);
      newEpisodeFlag := false;
      writer := null;
      imageHistory := [];
      InitializeHistory();
    }

    /**
     * `_set_high_level_command`: walk the log and set the command of every
     * row among the newest 70 whose command is still 0.
     */
    method SetHighLevelCommand(command: HighLevelCommand)
      requires Valid()
      modifies this`drivingHistory
      ensures Valid()
      ensures drivingHistory == old(drivingHistory).(rows := WriteBack(old(drivingHistory.rows), HlcColumn, command.Value()))
    {
      ghost var target := WriteBack(drivingHistory.rows, HlcColumn, command.Value());
      var n := |drivingHistory.rows|;
      var i := 0;
      while i < n
        invariant 0 <= i <= n
        invariant drivingHistory.columns == old(drivingHistory.columns) && |drivingHistory.rows| == n
        invariant forall k :: 0 <= k < i ==> drivingHistory.rows[k] == target[k]
        invariant forall k :: i <= k < n ==> drivingHistory.rows[k] == old(drivingHistory.rows)[k]
      {
        var row := drivingHistory.rows[i];
        if IsUnset(row, HlcColumn) {
          if i >= n - LookBack {
            drivingHistory := drivingHistory.(rows := drivingHistory.rows[i := row[HlcColumn := Int(command.Value())]]);
          }
        }
        i := i + 1;
      }
      assert drivingHistory.rows == target;
      WriteBackKeepsAligned(frames, old(drivingHistory), Columns, command.Value());
    }

    /**
     * `_save_to_history`: append the five named images of the frame in
     * camera order, and its log row. Called once per frame, after
     * the tick, so the frame number is new.
     */
    method SaveToHistory(m: Measurements, bundle: Bundle, control: Control)
      requires Valid()
      requires |frames| > 0 ==> frames[|frames| - 1] < timer.episodeFrame
      modifies this`imageHistory, this`drivingHistory, this`bundles, this`frames
      ensures Valid()
      ensures imageHistory == old(imageHistory) + FramePairs(timer.episodeFrame, bundle)
      ensures drivingHistory == Table(Columns, old(drivingHistory.rows) + [LogRow(timer.episodeFrame, m, control)])
      ensures frames == old(frames) + [timer.episodeFrame] && bundles == old(bundles) + [bundle]
    {
      var frame := timer.episodeFrame;
      FramePairsListed(frame, bundle);
      imageHistory := imageHistory + [
        (ImageFileName(frame, RgbCenter), bundle.rgbCenter),
        (ImageFileName(frame, RgbLeft), bundle.rgbLeft),
        (ImageFileName(frame, RgbRight), bundle.rgbRight),
        (ImageFileName(frame, Depth), bundle.depth),
        (ImageFileName(frame, SemSeg), bundle.semSeg)];
      WriterImagesAppend(bundles, frames, bundle, frame);
      AlignedAppend(frames, drivingHistory, Columns, frame, LogRow(frame, m, control));
      drivingHistory := drivingHistory.(rows := drivingHistory.rows + [LogRow(frame, m, control)]);
      bundles, frames := bundles + [bundle], frames + [frame];
    }

    /**
     * `_write_history_to_disk`: hand the recording to a new writer under
     * `<output path>/<episode timestamp>`, with `_write_complete` as callback.
     */
    method WriteHistoryToDisk()
      requires Valid()
      modifies this`writer
      ensures Valid()
      ensures fresh(writer) && writer.progress == 0.0
      ensures writer.images == imageHistory == WriterImages(bundles, frames)
      ensures writer.drivingLog == drivingHistory && writer.hasOnComplete
      ensures writer.episodePath == PathText(outputPath) + "/" + timer.episodeTimestampStr
    {
      writer := new DiskWriter(PathText(outputPath) + "/" + timer.episodeTimestampStr,
                               imageHistory, drivingHistory, true);
    }

    /** `_write_complete`, the writer's callback: back to not recording, with empty buffers. */
    method WriteComplete()
      requires Valid()
      modifies this`gameState, this`imageHistory, this`drivingHistory, this`bundles, this`frames
      ensures Valid()
      ensures gameState == NOT_RECORDING
      ensures imageHistory == [] && drivingHistory == Table(Columns, [])
    {
      gameState := NOT_RECORDING;
      InitializeHistory();
    }

    /** The recording state and the switches keys act on; this client has no drive model. */
    function Switches(): Flags
      reads this
    {
      Flags(gameState, newEpisodeFlag, autopilotEnabled, vehicleInReverse, false)
    }

    /**
     * `_handle_keydown_event`: the state and switches move as `KeyFlags`
     * says for a client without a drive model; while recording, keypad 8, 4,
     * 6 write a command back. The writer is started exactly when recording
     * ends.
     */
    method HandleKeydown(key: Key)
      requires Valid()
      modifies this`gameState, this`newEpisodeFlag, this`autopilotEnabled, this`vehicleInReverse,
               this`writer, this`drivingHistory
      ensures Valid()
      ensures Switches() == KeyFlags(old(Switches()), key, outputPath.Some?, false)
      ensures old(gameState) == RECORDING && gameState == WRITING ==>
                fresh(writer) && writer.images == WriterImages(bundles, frames)
                && writer.drivingLog == old(drivingHistory) && writer.hasOnComplete
      ensures !(old(gameState) == RECORDING && gameState == WRITING) ==> writer == old(writer)
      ensures drivingHistory.rows == (
        if gameState == RECORDING && CommandKey(key).Some?
        then WriteBack(old(drivingHistory.rows), HlcColumn, CommandKey(key).value.Value())
        else old(drivingHistory.rows))
    {
      if gameState != WRITING {
        KeyOutsideWriting(key);
      }
      if gameState == RECORDING {
        if key == KeyKP8 {
          SetHighLevelCommand(STRAIGHT_AHEAD);
        } else if key == KeyKP4 {
          SetHighLevelCommand(TURN_LEFT);
        } else if key == KeyKP6 {
          SetHighLevelCommand(TURN_RIGHT);
        }
      }
    }

    /** The first branch of `_handle_keydown_event`, taken outside `WRITING`. */
    method KeyOutsideWriting(key: Key)
      requires Valid() && gameState != WRITING
      modifies this`gameState, this`newEpisodeFlag, this`autopilotEnabled, this`vehicleInReverse, this`writer
      ensures Valid()
      ensures Switches() == KeyFlags(old(Switches()), key, outputPath.Some?, false)
      ensures old(gameState) == RECORDING && gameState == WRITING ==>
                fresh(writer) && writer.images == WriterImages(bundles, frames)
                && writer.drivingLog == drivingHistory && writer.hasOnComplete
      ensures !(old(gameState) == RECORDING && gameState == WRITING) ==> writer == old(writer)
    {
      if key == KeyP {
        autopilotEnabled := !autopilotEnabled;
      } else if key == KeyQ {
        vehicleInReverse := !vehicleInReverse;
      } else if key == KeyE {
        if gameState == RECORDING {
          gameState := WRITING;
          WriteHistoryToDisk();
        }
        newEpisodeFlag := true;
      } else if key == KeyR {
        if gameState == NOT_RECORDING && outputPath.Some? {
          gameState := RECORDING;
        } else if gameState == RECORDING {
          gameState := WRITING;
          WriteHistoryToDisk();
        }
      }
    }

    /**
     * The index part of `_on_loop`: on the first pass that reads a
     * measurement, index the traffic lights and the speed-limit signs of its
     * agents; later passes keep both indexes.
     */
    method BuildIndexesOnce(m: Measurements)
      requires Valid()
      modifies this`kdTreeInitialized, this`trafficLightsTree, this`speedLimitSignsTree
      ensures Valid() && kdTreeInitialized
      ensures old(kdTreeInitialized) ==> trafficLightsTree == old(trafficLightsTree)
      ensures !old(kdTreeInitialized) ==> trafficLightsTree == GetKDTree(m.agents, "traffic_light")
    {
      if !kdTreeInitialized {
        trafficLightsTree := GetKDTree(m.agents, "traffic_light");
        OnlyLightsAndSpeedLimitsIndexed(m.agents, "speed_limit_sign");
        speedLimitSignsTree := GetKDTree(m.agents, "speed_limit_sign");
        kdTreeInitialized := true;
      }
    }

    /**
     * `_on_loop`, one pass of the main loop. Unless writing: tick, keep the
     * measurement, build the indexes once, start a pending new episode, and,
     * when recording, save the frame. While writing nothing changes.
     */
    method OnLoop(m: Measurements, bundle: Bundle, control: Control, now: string)
      requires Valid()
      modifies this, timer
      ensures Valid()
      ensures gameState == old(gameState) && writer == (if old(newEpisodeFlag) && old(gameState) != WRITING then null else old(writer))
      ensures old(gameState) == WRITING ==>
                && timer.frame == old(timer.frame) && timer.episodeFrame == old(timer.episodeFrame)
                && measurements == old(measurements) && trafficLightsTree == old(trafficLightsTree)
                && imageHistory == old(imageHistory) && drivingHistory == old(drivingHistory)
                && newEpisodeFlag == old(newEpisodeFlag)
      ensures old(gameState) != WRITING ==>
                && timer.frame == old(timer.frame) + 1
                && timer.episodeFrame == (if old(newEpisodeFlag) then 0 else old(timer.episodeFrame) + 1)
                && measurements == Some(m) && kdTreeInitialized && !newEpisodeFlag
                && trafficLightsTree == (if old(kdTreeInitialized) then old(trafficLightsTree)
                                         else GetKDTree(m.agents, "traffic_light"))
                && imageHistory ==
                     (if old(newEpisodeFlag) then [] else old(imageHistory))
                     + (if gameState == RECORDING then FramePairs(timer.episodeFrame, bundle) else [])
                && drivingHistory.rows ==
                     (if old(newEpisodeFlag) then [] else old(drivingHistory.rows))
                     + (if gameState == RECORDING then [LogRow(timer.episodeFrame, m, control)] else [])
    {
      if gameState != WRITING {
        ReadFrame(m, now);
        if gameState == RECORDING {
          SaveToHistory(m, bundle, control);
        }
      }
    }

    /**
     * The first part of `_on_loop` outside `WRITING`: tick, keep the
     * measurement, build the indexes once, and start a pending new episode.
     */
    method ReadFrame(m: Measurements, now: string)
      requires Valid()
      modifies this`measurements, this`kdTreeInitialized, this`trafficLightsTree, this`speedLimitSignsTree,
               this`newEpisodeFlag, this`writer, this`imageHistory, this`drivingHistory,
               this`bundles, this`frames, timer
      ensures Valid()
      ensures timer.frame == old(timer.frame) + 1
      ensures timer.episodeFrame == (if old(newEpisodeFlag) then 0 else old(timer.episodeFrame) + 1)
      ensures measurements == Some(m) && kdTreeInitialized && !newEpisodeFlag
      ensures trafficLightsTree == (if old(kdTreeInitialized) then old(trafficLightsTree)
                                    else GetKDTree(m.agents, "traffic_light"))
      ensures writer == (if old(newEpisodeFlag) then null else old(writer))
      ensures old(newEpisodeFlag) ==> imageHistory == [] && drivingHistory.rows == [] && frames == []
      ensures !old(newEpisodeFlag) ==>
                imageHistory == old(imageHistory) && drivingHistory == old(drivingHistory) && frames == old(frames)
      ensures |frames| > 0 ==> frames[|frames| - 1] < timer.episodeFrame
    {
      timer.Tick();
      measurements := Some(m);
      BuildIndexesOnce(m);
      if newEpisodeFlag {
        OnNewEpisode(now);
      }
    }

    /**
     * The traffic light the head-up display shows, as `_render_HUD` finds
     * it: `None` before any measurement (where the display would fail), `NONE`
     * without a light index, and otherwise either `GREEN` or the state of a
     * light of the last measurement indexed within 12 of the car and facing
     * it.
     */
    function DisplayedTrafficLight(): (shown: Option<TrafficLight>)
      reads this, timer
      requires Valid()
      ensures shown.None? <==> measurements.None?
      ensures shown.Some? && trafficLightsTree.NoTree? ==> shown.value == NONE
      ensures shown.Some? && trafficLightsTree.Tree? && shown.value != GREEN ==>
                var car := measurements.value.player;
                exists a :: a in measurements.value.agents && a.body.TrafficLightAgent? && a.body.state == shown.value
                            && a.id in InRadiusIds(trafficLightsTree, car.location, 12.0)
                            && IsValidYaw(car.yaw, a.body.transform.yaw)
    {
      match measurements
      case None => None
      case Some(m) => Some(FindCurrentTrafficLight(trafficLightsTree, m.agents, m.player))
    }
  }

  /** With a light index, the display shows `NONE` only when some light itself reports it. */
  lemma IndexedLightsNeverShowNone(tree: KDResult, agents: seq<Agent>, car: Transform)
    requires tree.Tree? && |tree.points| == |tree.ids|
    requires forall a :: a in agents && a.body.TrafficLightAgent? ==> a.body.state != NONE
    ensures FindCurrentTrafficLight(tree, agents, car) != NONE
  {
  }
}
