# CARLA driving client — a Dafny model

This project models the decision logic of a data-collection client for the
CARLA driving simulator. The client drives a car by keyboard, by autopilot or
by a learned model. It records camera images and a driving log while a
recording is on, and hands each recording to a writer that stores the images
and the log on disk. Every frame it also works out which traffic light and
which speed limit govern the car.

Two generations of the controller are modelled:

- `Controller` is the current controller. It has frame and episode limits,
  autostart, a drive model, and per-tick tracking of the nearest facing traffic
  light and speed-limit sign.
- `LegacyController` is the earlier client. It has a ten-column log, five
  `(file name, image)` pairs per frame, and a traffic-light index built from
  the first frame, which its head-up display uses.

The modules follow the source files:

| module | file | models |
|---|---|---|
| `Geometry` | geometry.dfy | points, squared distances, and Python's float `%` by 360 |
| `Spatial` | spatial.dfy | the two SciPy KD-tree queries used: nearest point, and points within a radius |
| `Helpers` | helpers.dfy | `helpers.py`: agent lookup and filtering, index construction, the yaw gate, the current-traffic-light search |
| `NonPlayer` | non_player_objects.dfy | `non_player_objects.py`: one kind of agent with its index and the facing-nearest query |
| `Timing` | timer.dfy | `timer.py`: frame and episode counters |
| `History` | history.dfy | the driving-log table, the command write-back over the last 70 rows, and image file names |
| `DiskWriting` | disk_writer.dfy | `disk_writer.py`: the writer's run over a file store |
| `Enums` | enums.dfy | the recording state and the high-level command |
| `Recording` | recording.dfy | what both controllers share: camera bundles, log rows, the key-driven state machine, and what a recording leaves on disk |
| `Controller` | controller.dfy | `controller.py` |
| `LegacyController` | carla_controller.dfy | `carla_controller.py` |
| `DriveModels` | drive_models.dfy | `drive_models.py`: the inputs both learned drivers build, and the recurrent model's history window |

Modelling choices:

- Distances are carried as squares, with no square root taken. The test
  `d < r` becomes `r > 0 && d² < r²`, and `d <= r` becomes `r >= 0 && d² <= r²`.
  The tracked light's sentinel distance 15 is stored as 225.
- The KD tree is modelled by what its queries return. `query` gives an index
  of a nearest point, and `query_ball_point` gives every index within the
  radius, boundary included. SciPy fixes neither the tie-break nor the order;
  both depend on the tree's layout. The model picks the first nearest index
  and lists indices in increasing order (see "## Left out").
- An agent message carries one body: a vehicle, a pedestrian, a traffic light
  or a speed-limit sign. `HasField(name)` holds exactly when the body is the
  field of that name.
- Python exceptions the code can raise become explicit outcomes. These are an
  `IndexError` when an index outlives the list it was built from, and an
  `IndexError` when a command has no one-hot row.
- The clock, the simulator, pygame, OpenCV and Keras stay outside the model.
  Timestamps are passed in as formatted strings. Measurements, camera images
  and the driver's controls are parameters. A loaded network is a function
  parameter.

## Model

| member | source | states |
|---|---|---|
| Geometry.SqDist | non_player_objects.py:47 | the squared distance the index compares is never negative and is 0 from a point to itself |
| Geometry.SquaredComparisons | non_player_objects.py:49 | comparing squares decides `distance < radius` and `distance <= radius` exactly as comparing the distances would |
| Geometry.Mod360 | helpers.py:28 | Python's `x % 360` on floats lies in [0, 360) and differs from `x` by a whole multiple of 360 |
| Geometry.Mod360Periodic | helpers.py:28 | adding any whole number of turns to the operand does not change `% 360` |
| Spatial.Nearest | non_player_objects.py:47 | `KDTree.query` returns an index whose point is no farther than any other; among equally near points the model fixes the first, strictly nearer than every earlier one |
| Spatial.QueryBall | helpers.py:113 | `query_ball_point` returns exactly the indices of points within the radius, boundary included, each once; the model fixes their order as increasing |
| Spatial.NearestDecidesBall | helpers.py:113 | no point lies within the radius if and only if the nearest point does not |
| Helpers.TrafficLight.Value | helpers.py:5-10 | the five light states have the values 0 to 4 |
| Helpers.GetAgent | helpers.py:13-22 | returns `None` exactly when no agent has the id, and otherwise the first agent with that id |
| Helpers.HasField | helpers.py:38 | `agent.HasField(name)`: true exactly when the agent's body is held in the field `name`, so a name no field has is never matched |
| Helpers.GetAgents | helpers.py:34-41 | keeps, in order, exactly the agents that have the field, each as often as it occurs |
| Helpers.GetAgentsOnlyMatching | helpers.py:34-41 | an agent is in the result if and only if it is in the input and has the field |
| Helpers.GetLightsOnlyLights | helpers.py:38 | filtering by `"traffic_light"` keeps exactly the traffic-light agents |
| Helpers.GetAgentsKeepsAll | helpers.py:129-131 | re-filtering agents that all have the field returns them unchanged, so the second index is built over the found lights |
| Helpers.CollectLocations | helpers.py:64-81 | for `"traffic_light"` and `"speed_limit"`, one location and one id per filtered agent in the same order; for any other kind, nothing |
| Helpers.GetKDTree | helpers.py:44-85 | there is no index exactly when no agent matches or the kind is neither lights nor speed limits; otherwise one point per matching agent, paired with its id |
| Helpers.OnlyLightsAndSpeedLimitsIndexed | helpers.py:64-85 | a kind other than `"traffic_light"` or `"speed_limit"`, such as `"speed_limit_sign"`, never gets an index |
| Helpers.SpeedLimitKindNeverIndexed | helpers.py:74-81 | no agent has a `speed_limit` field, so the speed-limit branch never yields an index either |
| Helpers.IsValidYaw | helpers.py:25-31 | `is_valid_yaw`: both yaws shifted by 180, the difference plus 180 wrapped by `% 360`, minus 90, must lie strictly between -0.5 and 5.0 |
| Helpers.ValidYawWindow | helpers.py:25-31 | the yaw gate passes if and only if `(car - agent) mod 360` lies strictly between 269.5 and 275 |
| Helpers.ValidYawPeriodic | helpers.py:25-31 | turning either yaw by a full turn does not change the gate |
| Helpers.InRadiusIds | helpers.py:113-117 | an id is listed if and only if it is paired with an indexed point within the radius |
| Helpers.ResolveIds | helpers.py:119-123 | every light found is a current light whose id was listed |
| Helpers.ResolveIdsComplete | helpers.py:119-123 | every current light whose id was listed is found, by id |
| Helpers.CandidateFound | helpers.py:119-123 | with unique light ids, a listed current light is itself among those found |
| Helpers.FindCurrentTrafficLight | helpers.py:88-145 | `NONE` without an index; a state other than `GREEN` only from a current light indexed within the radius that faces the car |
| Helpers.ClosestLight | helpers.py:128-138 | the light returned is looked up again by id from a found light that is no farther from the car than any other found light and strictly nearer than every found light before it |
| Helpers.NearestPointIsFirstNearestLight | helpers.py:129-134 | the nearest point of the second index belongs to a nearest found light, and every found light before it is strictly farther |
| Helpers.NoCandidateGivesGreen | helpers.py:124-126 | when no current light is indexed within the radius, the result is `GREEN` |
| Helpers.NearestCandidateDecides | helpers.py:128-145 | when one listed light is strictly nearest, its state is the result if it faces the car, and otherwise `GREEN`, whatever farther lights show |
| Helpers.StrictlyNearestIsClosest | helpers.py:128-138 | a strictly nearest found light with a unique id is the one the second index picks |
| Helpers.GetAgentFindsUnique | helpers.py:13-22 | looking up the id of the only agent with that id returns that agent |
| NonPlayer.IsValidRot | non_player_objects.py:16-18 | `_is_valid_rot`: the yaw difference plus 180, wrapped by `% 360`, minus 180, plus `rot_dif`, must lie within `[-thresh, thresh]`, both ends included |
| NonPlayer.RotWindow | non_player_objects.py:16-18 | with offset -90 and a threshold below 90, the gate passes if and only if `(rot1 - rot2) mod 360` lies within `[90 - thresh, 90 + thresh]` |
| NonPlayer.ValidRotPeriodic | non_player_objects.py:16-18 | turning either rotation by a full turn does not change the gate |
| NonPlayer.SubObjects | non_player_objects.py:20-24 | one sub-object per agent that has the field, in order, each of that kind |
| NonPlayer.SubObjectsAsWritten | non_player_objects.py:20-24 | as written, with `hasattr` true for every declared field: every agent is kept, each as its own body when it has the field and as that field's default at the origin otherwise; an undeclared name keeps nothing |
| NonPlayer.FieldOf | non_player_objects.py:24 | `getattr` of a declared field gives a body of that kind: the agent's own when it is held there, else one at the default transform |
| NonPlayer.HasattrKeepsVehicleAsSign | non_player_objects.py:20-24 | a frame whose only agent is a vehicle: the filtered sign list is empty, but as written it holds a sign with limit 0 at the origin, and a car at the origin heading -90 degrees finds that sign at distance 0 |
| NonPlayer.Locations | non_player_objects.py:27-30 | one location per sub-object, in order |
| NonPlayer.NonPlayerObjects.constructor | non_player_objects.py:9-14 | starts with no agents, no index and `valid` false, for the given kind |
| NonPlayer.NonPlayerObjects.UpdateAgents | non_player_objects.py:20-24 | the agents become the sub-objects of that kind; the index is untouched |
| NonPlayer.NonPlayerObjects.InitializeKDTree | non_player_objects.py:26-34 | with agents present, the index is built over their locations and `valid` is set; with none, nothing changes |
| NonPlayer.NonPlayerObjects.GetClosestWithRotation | non_player_objects.py:36-56 | `(None, None)` when not valid; otherwise the nearest agent and its distance exactly when it is within the radius and passes the gate; `IndexError` exactly when that nearest index is past the current agent list |
| Timing.Timer.constructor | timer.py:5-14 | all counters start at 0, stamped with the start time |
| Timing.Timer.Tick | timer.py:16-18 | the run frame and the episode frame each advance by one |
| Timing.Timer.NewEpisode | timer.py:20-24 | the episode frame restarts at 0, the episode count rises by one, and the episode gets a new stamp |
| History.WriteBack | controller.py:295-300 | only the command cell changes, only in the last 70 rows, and only where it was still 0 |
| History.WriteBackIdempotent | controller.py:295-300 | writing the same command back twice changes nothing more than once |
| History.WriteBackKeepsEarlierCommand | controller.py:298 | a row already given a non-zero command keeps it when a later command is written back |
| History.CameraNamesDistinct | controller.py:437-441 | the five cameras have five different file-name suffixes |
| History.NatToString | controller.py:437 | a frame number is written as a non-empty run of decimal digits |
| History.NatToStringRoundTrip | controller.py:437 | reading the digits back gives the frame number |
| History.NatToStringInjective | controller.py:437 | different frames get different numerals |
| History.ImageFileName | carla_controller.py:328 | a file name starts with the frame's numeral followed by `_` |
| History.ImageReference | controller.py:437-441 | a log reference is `imgs/` followed by the image's file name |
| History.ImageFileNamesDistinct | carla_controller.py:326-355 | different (frame, camera) pairs never share a file name |
| Enums.HighLevelCommand.Value | carla_controller.py:40-46 | commands have the values 0 to 3, and only `FOLLOW_ROAD` has the value 0 that the write-back treats as unset |
| DiskWriting.CsvWithHeader | disk_writer.py:31-32 | a new log file holds the header, then one record per row with its index |
| DiskWriting.CsvRecords | disk_writer.py:33-34 | appended records carry no header, one per row in order |
| DiskWriting.ImagePath | disk_writer.py:21-26 | an image is stored at `<episode path>/imgs/<file name>` |
| DiskWriting.CsvPath | disk_writer.py:30 | the log is stored at `<episode path>/driving_log.csv`, which no image path equals |
| DiskWriting.ImagePathInjective | disk_writer.py:26 | different file names in one episode map to different paths |
| DiskWriting.ImagePaths | disk_writer.py:24-28 | the loop writes one path per image, in list order |
| DiskWriting.WithImages | disk_writer.py:24-28 | the store after the loop keeps every earlier file and holds a file for every image |
| DiskWriting.WithImagesTouchesOnlyImagePaths | disk_writer.py:24-28 | the image loop creates only image paths and leaves every other file as it was |
| DiskWriting.DistinctNamesAllPersisted | disk_writer.py:24-28 | with distinct file names, every image is found afterwards under its own path |
| DiskWriting.WithCsv | disk_writer.py:30-34 | the log file exists afterwards and no other file changes |
| DiskWriting.Progress | disk_writer.py:28 | progress after image `i` lies in (0, 1] and reaches 1 exactly at the last image |
| DiskWriting.ProgressIncreases | disk_writer.py:28 | progress strictly increases from image to image |
| DiskWriting.TwoSavesOneHeader | disk_writer.py:30-34 | two recordings saved to one episode directory give one header followed by both sets of records |
| DiskWriting.FileStore.WriteImage | disk_writer.py:27 | `cv2.imwrite` replaces the file at the path with the encoded image |
| DiskWriting.FileStore.IsFile | disk_writer.py:31 | a path is a file exactly when the store holds it |
| DiskWriting.FileStore.WriteCsv | disk_writer.py:32-34 | `to_csv` writes the header and the records, or appends the records alone |
| DiskWriting.DiskWriter.constructor | disk_writer.py:12-18 | the writer keeps its arguments, with progress 0 |
| DiskWriting.DiskWriter.Run | disk_writer.py:20-37 | the images are written in order, then the log; the store afterwards is those writes over the old one; progress is reported once per image; the callback fires exactly when one was given |
| DiskWriting.DiskWriter.WriteImages | disk_writer.py:24-28 | the loop writes exactly the image paths in order, the store becomes `WithImages` of the old one, and the progress values are those of `Progress` |
| Recording.FramePairs | carla_controller.py:324-355 | five pairs per frame, in camera order, each named by frame and camera |
| Recording.WriterImages | controller.py:469-475 | five pairs per recorded frame, in frame order |
| Recording.WriterNamesDistinct | carla_controller.py:326-355 | with increasing frame numbers, no two images handed to the writer share a name |
| Recording.RecordingPersisted | controller.py:434-441 | after the writer runs, every image a log row references is stored at the episode path followed by that reference |
| Recording.WriteBackKeepsAligned | controller.py:295-300 | the command write-back keeps each log row referencing the images of its own frame |
| Recording.AlignedAppend | controller.py:427-465 | appending a frame's row and a newer frame number keeps log rows and recorded frames aligned |
| Recording.WriterImagesAppend | carla_controller.py:326-355 | recording one more frame adds exactly its five pairs at the end |
| Recording.KeyFlags | controller.py:303-325 | the state and switches after a key outside writing: `p` flips the autopilot, `m` flips the model when one is loaded, `q` flips reverse, `e` turns recording into writing and asks for a new episode, `r` starts a recording when an output path is set or ends one into writing; any other key, and any key while writing, changes nothing (the same dispatch as carla_controller.py:230-248, without `m`) |
| Recording.KeysIgnoredWhileWriting | controller.py:303 | while writing, no key changes the state or any switch |
| Recording.RecordingStartsOnlyWithPath | controller.py:317-322 | recording starts if and only if `r` is pressed while not recording and an output path is set |
| Recording.RecordingEndsOnROrE | controller.py:312-325 | a recording ends, into writing, exactly on `r` or `e`, and `e` always asks for a new episode |
| Recording.WritingEnteredOnlyFromRecording | controller.py:302-325 | writing is entered only from recording, and no key leaves it |
| Recording.CommandKey | controller.py:326-332 | keypad 8, 4 and 6, and only they, write back a command, and never `FOLLOW_ROAD` |
| Controller.LogRow | controller.py:434-465 | a row has one cell per column, starts with the frame's five image references, and has an unset command |
| Controller.WriterCallAsWrittenRaises | controller.py:469-475 | the writer call as written cannot bind its arguments (see Findings) |
| Controller.WriterCallCorrectedBinds | disk_writer.py:12 | the call with three positional arguments and `on_complete` binds |
| Controller.StateOf | controller.py:488 | `agent.state` of a light, the message default `GREEN` for any other body |
| Controller.SpeedLimitOf | controller.py:502 | `agent.speed_limit` of a sign, the message default 0 for any other body |
| Controller.TruncToInt | controller.py:502 | `int()` truncates toward zero |
| Controller.HasattrSetsLimitZero | controller.py:497-502 | with the sign list built as written, that lone vehicle sets the tracked speed limit to 0, whatever it was |
| Controller.Hysteresis | controller.py:482-495 | with no light in sight the tracker resets to `(NONE, 15)`; otherwise the distance is updated, and the state only when the light is no farther than before |
| Controller.FirstSightingAdopted | controller.py:229 | since the sentinel 15 lies beyond the radius 12, the first light seen after a reset sets the state (an instance of `Controller.Hysteresis`' contract) |
| Controller.RecedingKeepsState | controller.py:490-493 | moving away from a light keeps the state seen when it was nearest (an instance of `Controller.Hysteresis`' contract) |
| Controller.AutostartState | controller.py:506-511 | recording starts by itself only from not recording, with autostart on, at episode frame 40 |
| Controller.DriveKey | controller.py:333-341 | keypad 8, 4, 6 and 5, and only they, choose the drive model's command |
| Controller.LightAfter | controller.py:482-495 | the tracked light after a light query: the hysteresis of its answer, unchanged when the query raised `IndexError` |
| Controller.LimitAfter | controller.py:497-502 | the speed limit after a sign query: the found sign's limit times 3.6, truncated, and unchanged when no sign was found or the query raised `IndexError` |
| Controller.CarlaController.constructor | controller.py:31-61 | initial state after the startup episode: not recording, all switches off, empty buffers, limit 30 and light `(NONE, 15)`, episode 1 |
| Controller.CarlaController.InitializeDriveModel | controller.py:187-191 | a model is loaded exactly when a non-empty model path was given |
| Controller.CarlaController.InitializeHistory | controller.py:193-213 | empty buffers and an empty log with the fourteen columns |
| Controller.CarlaController.OnNewEpisode | controller.py:215-233 | the episode count rises; past the episode limit only the exit flag is set; otherwise the flag, the writer and the buffers are cleared, the trackers reset, and `FOLLOW_ROAD` is set when a model is loaded |
| Controller.CarlaController.ResetEpisode | controller.py:225-233 | clears the new-episode flag, the writer and the buffers, resets limit and light, and sets `FOLLOW_ROAD` with a model |
| Controller.CarlaController.WritebackHlcToHistory | controller.py:295-300 | the log becomes its write-back with the command's value |
| Controller.CarlaController.WriteHistoryToDisk | controller.py:467-476 | a new writer gets the recorded images named by frame, the log, and the callback, under `<output path>/<episode stamp>` |
| Controller.CarlaController.WriteComplete | controller.py:478-480 | back to not recording, with empty buffers |
| Controller.CarlaController.UpdateCurrentTrafficLight | controller.py:482-495 | the tracked light becomes the hysteresis of the facing-nearest query with radius 12 and threshold 15, or stays when the query raises |
| Controller.CarlaController.UpdateCurrentSpeedLimit | controller.py:497-502 | the limit becomes the truncated km/h of the facing-nearest sign within 12 (threshold 20), and stays otherwise |
| Controller.CarlaController.SaveToHistory | controller.py:422-465 | appends the bundle, the episode frame and the frame's row, with limit, light, autopilot and weather |
| Controller.CarlaController.OnLoop | controller.py:504-564 | quits exactly when a pending new episode passes the episode limit. While writing, the timer, buffers, writer, trackers and resolvers are left as they were, and only the frame-limit check can set the new-episode flag. Otherwise the pass ends in `IndexError` exactly when it does not quit and a query raises, that is, the light query when the light index existed before the pass, or the sign query when the sign index did; in every other case there is one tick: the frame is recorded exactly when recording after autostart, and the light and the limit move by their queries from their values (reset when an episode starts), each once its index exists. Past the frame limit, a new episode is pending and recording has stopped |
| Controller.CarlaController.ActivePass | controller.py:513-562 | outside writing: the tick's effects on quitting, on ending in `IndexError` (exactly when it does not quit and a query of an index that existed before the pass raises), on the frame, the buffers and the trackers, then the frame-limit check |
| Controller.CarlaController.Tick | controller.py:513-555 | one tick outside writing: it ends in `IndexError` exactly when it does not quit and a query of an index that existed before the pass raises; otherwise the frame advances; a pending episode resets the buffers, the light and the limit; a recording appends this frame; the light and the limit move by their queries once their indexes exist |
| Controller.CarlaController.Observe | controller.py:528-555 | the trackers move by their queries from their values before the pass, and a recording appends this frame; the pass ends in `IndexError`, saving nothing, exactly when the light query raises with the light index existing before the pass, or the sign query raises with the sign index existing before it |
| Controller.CarlaController.TrackNearbyAgents | controller.py:528-539 | the lights take this frame's agents every tick. Each index is built, over exactly its agents' locations, on the first tick that has agents of its kind. After that, the light moves by hysteresis and the limit by the sign query. `IndexError` is reported exactly when a query raises, and a raising light query leaves the signs and the limit untouched |
| Controller.CarlaController.TrackTrafficLight | controller.py:528-533 | the lights take this frame's agents; their index is built if it is missing, or else the light moves by hysteresis, with `IndexError` exactly when that query raises |
| Controller.CarlaController.TrackSpeedLimit | controller.py:535-539 | without a sign index: this frame's signs are taken and indexed, and the limit is kept. With one: the limit becomes the facing-nearest sign's limit, with `IndexError` exactly when that query raises |
| Controller.CarlaController.CheckFrameLimit | controller.py:557-562 | past the frame limit a new episode is pending and a recording stops into writing with a new writer; otherwise nothing changes |
| Controller.CarlaController.HandleKeydown | controller.py:302-341 | state and switches move as `KeyFlags` says; keypad keys write commands back while recording and choose the model's command while it drives; a writer starts exactly when recording ends |
| Controller.CarlaController.KeyWhileRecording | controller.py:326-332 | while recording, keypad 8, 4 and 6 write their command back, and nothing else changes the log |
| Controller.CarlaController.KeyWhileModelDrives | controller.py:333-341 | while the model drives, keypad 8, 4, 6 and 5 set its command |
| Controller.CarlaController.KeyOutsideWriting | controller.py:303-325 | outside writing, the switches move as `KeyFlags` says and `m` resets the command when a model is loaded |
| Controller.CarlaController.EpisodeKey | controller.py:312-316 | `e` ends a recording into writing with a new writer, and asks for a new episode |
| Controller.CarlaController.RecordKey | controller.py:317-325 | `r` starts a recording when a path is set, or ends one into writing with a new writer |
| Controller.CarlaController.StopRecording | controller.py:323-325 | ending a recording enters writing and hands the buffers to a new writer |
| LegacyController.LogRow | carla_controller.py:357-382 | a row has one cell per column, starts with the frame's five image references, and has an unset command in its tenth cell |
| LegacyController.CarlaController.constructor | carla_controller.py:52-90 | initial state after the startup episode: no measurement and no index, not recording, switches off, empty buffers, episode 1 |
| LegacyController.CarlaController.InitializeHistory | carla_controller.py:170-185 | an empty log with the ten columns, and no images |
| LegacyController.CarlaController.OnNewEpisode | carla_controller.py:187-196 | the episode count rises, and the flag, the writer and the buffers are cleared |
| LegacyController.CarlaController.SetHighLevelCommand | carla_controller.py:222-227 | the loop leaves the log equal to its write-back with the command's value |
| LegacyController.CarlaController.SaveToHistory | carla_controller.py:323-382 | appends the frame's five named pairs in camera order and its row |
| LegacyController.CarlaController.WriteHistoryToDisk | carla_controller.py:384-392 | a new writer gets the image pairs, which are exactly the recorded frames' pairs, the log, and the callback |
| LegacyController.CarlaController.WriteComplete | carla_controller.py:394-396 | back to not recording, with empty buffers |
| LegacyController.CarlaController.HandleKeydown | carla_controller.py:229-255 | state and switches move as `KeyFlags` says for a client without a model; keypad 8, 4 and 6 write back while recording; a writer starts exactly when recording ends |
| LegacyController.CarlaController.KeyOutsideWriting | carla_controller.py:230-248 | outside writing, the switches move as `KeyFlags` says, and a new writer exactly when recording ends |
| LegacyController.CarlaController.BuildIndexesOnce | carla_controller.py:408-417 | the light index is built from the first measurement's agents and kept afterwards |
| LegacyController.CarlaController.OnLoop | carla_controller.py:398-436 | writing changes nothing; otherwise one tick, the measurement kept, the index built once, a pending episode started, and the frame recorded when recording |
| LegacyController.CarlaController.ReadFrame | carla_controller.py:400-425 | tick, keep the measurement, build the index once, start a pending episode and clear its buffers |
| LegacyController.CarlaController.DisplayedTrafficLight | carla_controller.py:279-284 | no display before a measurement; `NONE` without an index; a state other than `GREEN` only from a light within 12 that faces the car |
| LegacyController.IndexedLightsNeverShowNone | helpers.py:88-145 | with an index, `NONE` is shown only when some light itself reports it (an instance of `Helpers.FindCurrentTrafficLight`'s contract) |
| DriveModels.OneHot | drive_models.py:45 | commands -4 to 3 index the table, as Python lists allow, giving four entries with a single 1 at `hlc mod 4`; other values raise `IndexError` |
| DriveModels.OneHotOfCommand | drive_models.py:31 | each command's vector has its 1 at the command's value, and distinct commands get distinct vectors |
| DriveModels.RedLightFlag | drive_models.py:43 | the flag is 0 or 1, and 1 exactly for a red light |
| DriveModels.OnlyRedSetsFlag | drive_models.py:43 | of the light states only `RED` sets the flag |
| DriveModels.InfoInput | drive_models.py:40-44 | three features: speed and limit divided by 100, then the red-light flag |
| DriveModels.CnnKeras.constructor | drive_models.py:29-31 | no network at first |
| DriveModels.CnnKeras.LoadModel | drive_models.py:33-34 | the loaded network replaces any earlier one |
| DriveModels.CnnKeras.GetPrediction | drive_models.py:36-53 | `False` without a network; `IndexError` for a command outside the table; otherwise the network's steering, throttle and brake for the LAB image, the info features and the one-hot command |
| DriveModels.Required | drive_models.py:89 | `req = (seq_length - 1) * (seq_space + 1)`, how far back a full window reaches |
| DriveModels.Stride | drive_models.py:92-93 | Python's `s[start::step]` for a positive step: `s[start]` and then every `step`-th element after it, up to the end |
| DriveModels.Window | drive_models.py:90-93 | the window fed to the network: the history from `len - 1 - req` on, every `seq_space + 1`-th entry |
| DriveModels.StrideElements | drive_models.py:92 | `s[start::step]` holds `s[start + k*step]` for each `k` and stops at the first position past the end |
| DriveModels.WindowShape | drive_models.py:89-93 | with a positive sequence length and enough history, the window has exactly `seq_length` entries, `seq_space + 1` apart, ending at the newest |
| DriveModels.EmptyWindow | drive_models.py:89-93 | with a sequence length of 0 or less, any history counts as long enough and the window is empty |
| DriveModels.WindowsAligned | drive_models.py:92-98 | the image, info and command windows pick the same positions from their equally long histories |
| DriveModels.LstmKeras.constructor | drive_models.py:61-69 | empty histories and no network, with the window settings kept |
| DriveModels.LstmKeras.LoadModel | drive_models.py:71-72 | the loaded network replaces any earlier one |
| DriveModels.LstmKeras.Batch | drive_models.py:89-98 | image and info windows of one length; the newest command alone under `late_hlc`, otherwise a command window of that length |
| DriveModels.LstmKeras.GetPrediction | drive_models.py:74-108 | `False` without a network and `IndexError` for a bad command, both storing nothing; otherwise one entry appended to each history, then `(0, 0, 0)` until the history is longer than `req`, and the network's answer for the window after that |

## Left out

- Threads: `DiskWriter` runs on its own thread. Here `Run` is a sequential method, and `on_complete` is reported as a flag rather than called back into the controller.
- Simulator I/O: loading settings, starting episodes, reading data and sending controls are left out. Measurements and camera images are parameters.
- Random choices: the random start position, random weather and autopilot noise are left out.
- Pygame: display, HUD drawing, the progress bar, joystick and keyboard polling are left out. The driver's control for a frame is a parameter.
- Image conversion: OpenCV and the image converters are left out. A frame's five images are an abstract `Bundle`, and the LAB conversion is the `Lab` constructor.
- Keras: `load_model` and `predict` are left out. A loaded network is a function parameter.
- Floating point: speeds, distances and angles are exact reals, so rounding in `* 3.6`, `/ 100` and `%` is not modelled.
- Protobuf `HasField`: an unknown field name raises `ValueError` in protobuf; the model answers false for any name that is not the body's field.
- `NonPlayer.SubObjects` (used by `NonPlayer.NonPlayerObjects.UpdateAgents`) keeps only the agents whose body is of the resolver's kind, which is what the filter in `update_agents` is for. As written, `hasattr` holds on a protobuf message for every declared field. So every agent is kept, and `getattr` turns each vehicle, pedestrian or light into a default sign at (0, 0, 0) with limit 0. See "## Findings".
- `Spatial.Nearest` and `Spatial.QueryBall` fix a tie-break (the first of the equally near points) and an order (increasing index). SciPy's KD tree breaks ties and orders the ball by how it traverses its tree, which depends on the tree's layout once it has more than one leaf, and the model does not represent that layout. Only equally distant points are affected. For two lights at the same distance, `Helpers.ClosestLight` may pick another light than the source would, and `NonPlayer.NonPlayerObjects.GetClosestWithRotation` may check another agent's rotation. The ball's order matters only through that tie-break: the found lights keep the ball's order, and the second index picks the first of the equally near ones.
- `NonPlayer.NonPlayerObjects.GetClosestWithRotation` returns the squared distance, not the distance. `Controller.Hysteresis` compares these squares, which orders the same way.
- `Controller.CarlaController.constructor` requires `episodeLimit >= 0`. A negative limit would end the client at the first new episode, and the model does not follow that path.
- `DriveModels.LstmKeras.constructor` takes `seq_space` as a natural number. With `seq_space = -1` the slice step is 0 and Python raises `ValueError`; a smaller value walks the history backwards.
- `DriveModels.Info`: the `info` and `images` dictionaries are records. Missing keys (`KeyError`) and a non-integral `hlc` passed through `int()` are not modelled.
- `DriveModelKeras` is not part of this model. `controller.py` imports it, but `drive_models.py` does not define it; the controller records only whether a model is loaded. How its prediction feeds the control is left out.
- `enums.py` is not part of this model. Its `GameState`, `HighLevelCommand` and `TrafficLight` are taken to be the enums defined in `carla_controller.py` and `helpers.py`.
- Paths: `Path()` normalisation and `mkdir` are not modelled. Paths are plain strings joined with `/`.
- The DataFrame is a list of rows under the column names. `iterrows` index labels are row positions, since every append uses `ignore_index=True`.
- `LegacyController.CarlaController.SaveToHistory` appends its five pairs as one list rather than in five steps. No state between the steps is observable.
- `LegacyController.LogRow` stores the reverse flags as 0 or 1, where the legacy log stores booleans.
- `LegacyController.CarlaController.DisplayedTrafficLight` returns `None` where `_render_HUD` would fail with `AttributeError` before the first measurement.
- The legacy speed-limit-sign index is always empty, because `get_KDtree` only builds indexes for `"traffic_light"` and `"speed_limit"`. The HUD shows `TODO` for the limit.
- `is 40` in the autostart test is modelled as `== 40`, which is how CPython's cached small integers behave.
- `Timing.Timer.Tick` and `Timing.Timer.NewEpisode` require `frame >= episodeFrame`, an invariant every reachable timer keeps.

## Findings

| source | as written | input that shows it | evidently intended | confidence | as-written member | corrected member |
|---|---|---|---|---|---|---|
| controller.py:469-475 | `DiskWriter(path, images, driving_log, frame_history, on_complete=...)` passes four positional arguments and `on_complete` by keyword to a constructor taking `(episode_path, images, driving_log, on_complete=None)`; the images are also per-frame dictionaries, not the `(file name, image)` pairs the run loop unpacks | any recording stopped by `r`, by `e` or by the frame limit: Python raises `TypeError` (multiple values for `on_complete`). Nothing catches it on the way out: `_handle_keydown_event` and `_on_loop` have no handler, `execute` has only `finally` (controller.py:576-587), `main` catches only `TCPConnectionError` (controller.py:645-654), and the module guard only `KeyboardInterrupt`. The client stops with a traceback when the first recording ends, and that recording is never written | hand the writer the images named by frame, as the log rows reference them, with `_write_complete` as callback | high (not executed) | Controller.WriterCallAsWrittenRaises | Controller.CarlaController.WriteHistoryToDisk |
| non_player_objects.py:20-24 | `hasattr(agent, self._agent_type)` filters the agents, then `getattr` takes the field; on a protobuf message `hasattr` is true for every declared field, set or not | a frame whose only agent is a vehicle, and a car at the origin heading -90 degrees: the sign resolver holds a default sign at the origin with limit 0, finds it at distance 0 facing the car, and the tracked limit becomes 0 | keep only the agents whose body is of that kind (`HasField`, as `get_agents` in helpers.py:34-41 does) | medium (not executed) | NonPlayer.HasattrKeepsVehicleAsSign | NonPlayer.SubObjects |
