/**
 * What both controllers share about a recording: the camera images of a
 * frame, the controls, the keys, the way the images of a recording are named
 * and handed to the writer, and the recording state machine driven by keys.
 */
module Recording {
  import opened Wrappers
  import opened Geometry
  import opened Helpers
  import opened Enums
  import opened History
  import opened DiskWriting

  /** The five camera images of one frame, as `_get_camera_images` gathers them. */
  datatype Bundle = Bundle(rgbCenter: Image, rgbLeft: Image, rgbRight: Image, depth: Image, semSeg: Image) {
    function Get(c: Camera): Image
    {
      match c
      case RgbCenter => rgbCenter
      case RgbLeft => rgbLeft
      case RgbRight => rgbRight
      case Depth => depth
      case SemSeg => semSeg
    }
  }

  /** Steering, throttle and brake, and whether the car is in reverse. */
  datatype Control = Control(steer: real, throttle: real, brake: real, reverse: bool)

  /** What the simulator reports about the player and the other agents for a frame. */
  datatype Measurements = Measurements(player: Transform, forwardSpeed: real, autopilot: Control, agents: seq<Agent>)

  /** The keys a controller reacts to; every other key is `OtherKey`. */
  datatype Key = KeyP | KeyM | KeyQ | KeyE | KeyR | KeyKP8 | KeyKP4 | KeyKP6 | KeyKP5 | OtherKey

  function BoolToInt(b: bool): int
  {
    if b then 1 else 0
  }

  function ControlCell(c: Control): Cell
  {
    Tuple([c.steer, c.throttle, c.brake, BoolToInt(c.reverse) as real])
  }

  /** The five image references a log row of frame `frame` starts with. */
  predicate RowOfFrame(row: Row, frame: nat)
  {
    |row| >= 5
    && forall k :: 0 <= k < 5 ==> row[k] == Text(ImageReference(frame, Cameras[k]))
  }

  /** The five `(file name, image)` pairs of one frame, in camera order. */
  function FramePairs(frame: nat, b: Bundle): (pairs: seq<(string, Image)>)
    ensures |pairs| == 5
    ensures forall k :: 0 <= k < 5 ==> pairs[k] == (ImageFileName(frame, Cameras[k]), b.Get(Cameras[k]))
  {
    seq(5, k requires 0 <= k < 5 => (ImageFileName(frame, Cameras[k]), b.Get(Cameras[k])))
  }

  /** The five pairs of a frame, written out camera by camera. */
  lemma FramePairsListed(frame: nat, b: Bundle)
    ensures FramePairs(frame, b) == [
      (ImageFileName(frame, RgbCenter), b.rgbCenter), (ImageFileName(frame, RgbLeft), b.rgbLeft),
      (ImageFileName(frame, RgbRight), b.rgbRight), (ImageFileName(frame, Depth), b.depth),
      (ImageFileName(frame, SemSeg), b.semSeg)]
  {
  }

  /**
   * The image list the writer is given: for every recorded frame, its five
   * pairs in camera order, named as the log rows reference them.
   */
  function WriterImages(bundles: seq<Bundle>, frames: seq<nat>): (pairs: seq<(string, Image)>)
    requires |bundles| == |frames|
    ensures |pairs| == 5 * |frames|
  {
    seq(5 * |frames|, a requires 0 <= a < 5 * |frames| =>
      (ImageFileName(frames[a / 5], Cameras[a % 5]), bundles[a / 5].Get(Cameras[a % 5])))
  }

  /** Pair `k` of frame `i` is the image of camera `k` under the name the row of frame `i` uses. */
  lemma WriterImagesAt(bundles: seq<Bundle>, frames: seq<nat>, i: nat, k: nat)
    requires |bundles| == |frames| && i < |frames| && k < 5
    ensures 5 * i + k < |WriterImages(bundles, frames)|
    ensures WriterImages(bundles, frames)[5 * i + k] == (ImageFileName(frames[i], Cameras[k]), bundles[i].Get(Cameras[k]))
  {
    var a := 5 * i + k;
    assert a / 5 == i && a % 5 == k;
  }

  /** Recorded frame numbers only grow, so no two frames share a number. */
  ghost predicate StrictlyIncreasing(frames: seq<nat>)
  {
    forall a, b :: 0 <= a < b < |frames| ==> frames[a] < frames[b]
  }

  /** With distinct frame numbers, no two images handed to the writer share a file name. */
  lemma WriterNamesDistinct(bundles: seq<Bundle>, frames: seq<nat>)
    requires |bundles| == |frames| && StrictlyIncreasing(frames)
    ensures var pairs := WriterImages(bundles, frames);
            forall a, b :: 0 <= a < b < |pairs| ==> pairs[a].0 != pairs[b].0
  {
    var pairs := WriterImages(bundles, frames);
    forall a, b | 0 <= a < b < |pairs|
      ensures pairs[a].0 != pairs[b].0
    {
      var i, j := a / 5, b / 5;
      assert i <= j;
      assert i == j ==> a % 5 != b % 5;
      ImageFileNamesDistinct(frames[i], Cameras[a % 5], frames[j], Cameras[b % 5]);
    }
  }

  /**
   * What a recording leaves on disk: every image a log row references is,
   * after the writer has run, stored at `<episode>/` followed by that
   * reference.
   */
  lemma RecordingPersisted(files: map<string, seq<Chunk>>, episodePath: string,
                           bundles: seq<Bundle>, frames: seq<nat>, i: nat, k: nat)
    requires |bundles| == |frames| && StrictlyIncreasing(frames)
    requires i < |frames| && k < 5
    ensures var stored := WithImages(files, episodePath, WriterImages(bundles, frames));
            var path := episodePath + "/" + ImageReference(frames[i], Cameras[k]);
            path in stored && stored[path] == [Pixels(bundles[i].Get(Cameras[k]))]
  {
    WriterImagesAt(bundles, frames, i, k);
    WriterNamesDistinct(bundles, frames);
    StoredUnderReference(files, episodePath, WriterImages(bundles, frames), 5 * i + k,
                         frames[i], Cameras[k], bundles[i].Get(Cameras[k]));
  }

  /** With distinct names, the image of pair `a` is found under the episode directory at its reference. */
  lemma StoredUnderReference(files: map<string, seq<Chunk>>, episodePath: string, pairs: seq<(string, Image)>,
                             a: nat, frame: nat, camera: Camera, image: Image)
    requires forall x, y :: 0 <= x < y < |pairs| ==> pairs[x].0 != pairs[y].0
    requires a < |pairs| && pairs[a] == (ImageFileName(frame, camera), image)
    ensures var stored := WithImages(files, episodePath, pairs);
            var path := episodePath + "/" + ImageReference(frame, camera);
            path in stored && stored[path] == [Pixels(image)]
  {
    DistinctNamesAllPersisted(files, episodePath, pairs, a);
    ReferencedPath(episodePath, ImageFileName(frame, camera));
  }

  /** A row's reference, put under the episode directory, is where the writer saves the image. */
  lemma ReferencedPath(episodePath: string, name: string)
    ensures episodePath + "/" + ("imgs/" + name) == ImagePath(episodePath, name)
  {
    assert "/" + ("imgs/" + name) == "/imgs/" + name;
  }

  /**
   * A log with the given columns whose row `i` is the row of frame
   * `frames[i]`, the frames strictly increasing.
   */
  ghost predicate Aligned(frames: seq<nat>, log: Table, columns: seq<string>)
  {
    |frames| == |log.rows|
    && log.columns == columns
    && (forall i :: 0 <= i < |frames| ==> |log.rows[i]| == |columns| && RowOfFrame(log.rows[i], frames[i]))
    && StrictlyIncreasing(frames)
  }

  /** Writing a command back keeps every row the row of its frame, and the frames. */
  lemma WriteBackKeepsAligned(frames: seq<nat>, log: Table, columns: seq<string>, command: int)
    requires Aligned(frames, log, columns)
    ensures Aligned(frames, log.(rows := WriteBack(log.rows, HlcColumn, command)), columns)
  {
    var rows := WriteBack(log.rows, HlcColumn, command);
    forall i | 0 <= i < |frames|
      ensures |rows[i]| == |columns| && RowOfFrame(rows[i], frames[i])
    {
      assert RowOfFrame(log.rows[i], frames[i]);
      assert forall c :: 0 <= c < 5 ==> rows[i][c] == log.rows[i][c];
    }
  }

  /** Appending the row of a newer frame keeps a log aligned. */
  lemma AlignedAppend(frames: seq<nat>, log: Table, columns: seq<string>, frame: nat, row: Row)
    requires Aligned(frames, log, columns)
    requires |row| == |columns| && RowOfFrame(row, frame)
    requires |frames| > 0 ==> frames[|frames| - 1] < frame
    ensures Aligned(frames + [frame], log.(rows := log.rows + [row]), columns)
  {
    var fs := frames + [frame];
    forall a, b | 0 <= a < b < |fs|
      ensures fs[a] < fs[b]
    {
      if b == |frames| && a < |frames| - 1 {
        assert frames[a] < frames[|frames| - 1];
      }
    }
  }

  /** Recording one more frame appends that frame's five pairs to the writer's image list. */
  lemma WriterImagesAppend(bundles: seq<Bundle>, frames: seq<nat>, b: Bundle, f: nat)
    requires |bundles| == |frames|
    ensures WriterImages(bundles + [b], frames + [f]) == WriterImages(bundles, frames) + FramePairs(f, b)
  {
    var n := |frames|;
    var longer := WriterImages(bundles + [b], frames + [f]);
    var joined := WriterImages(bundles, frames) + FramePairs(f, b);
    forall a | 0 <= a < 5 * n + 5
      ensures longer[a] == joined[a]
    {
      if a < 5 * n {
        assert a / 5 < n;
      } else {
        assert a / 5 == n && a % 5 == a - 5 * n;
      }
    }
  }

  /** No recorded frame lies beyond the current frame of the episode. */
  ghost predicate FramesUpTo(frames: seq<nat>, episodeFrame: nat)
  {
    forall i :: 0 <= i < |frames| ==> frames[i] <= episodeFrame
  }

  /** The recording state and the switches a key press can flip. */
  datatype Flags = Flags(state: GameState, newEpisode: bool, autopilot: bool, reverse: bool, driveModel: bool)

  /**
   * The state and switches after a key press. Nothing moves while writing.
   * Otherwise `p`, `q` flip autopilot and reverse, `m` flips the model when
   * one is loaded, `e` ends a recording and asks for a new episode, and `r`
   * starts a recording (given an output path) or ends one.
   */
  function KeyFlags(f: Flags, key: Key, hasOutputPath: bool, hasDriveModel: bool): Flags
  {
    if f.state == WRITING then f
    else match key
      case KeyP => f.(autopilot := !f.autopilot)
      case KeyM => if hasDriveModel then f.(driveModel := !f.driveModel) else f
      case KeyQ => f.(reverse := !f.reverse)
      case KeyE => f.(state := if f.state == RECORDING then WRITING else f.state, newEpisode := true)
      case KeyR =>
        if f.state == NOT_RECORDING && hasOutputPath then f.(state := RECORDING)
        else if f.state == RECORDING then f.(state := WRITING)
        else f
      case _ => f
  }

  /** While the writer runs no key changes the state or any switch. */
  lemma KeysIgnoredWhileWriting(f: Flags, key: Key, hasOutputPath: bool, hasDriveModel: bool)
    requires f.state == WRITING
    ensures KeyFlags(f, key, hasOutputPath, hasDriveModel) == f
  {
  }

  /**
   * Recording starts only by `r`, only from not recording, and only with an
   * output path; and `r` from not recording with a path always starts it.
   */
  lemma RecordingStartsOnlyWithPath(f: Flags, key: Key, hasOutputPath: bool, hasDriveModel: bool)
    requires f.state != RECORDING
    ensures KeyFlags(f, key, hasOutputPath, hasDriveModel).state == RECORDING <==>
              f.state == NOT_RECORDING && key == KeyR && hasOutputPath
  {
  }

  /** A recording ends, into writing, exactly on `r` or `e`; `e` always asks for a new episode. */
  lemma RecordingEndsOnROrE(f: Flags, key: Key, hasOutputPath: bool, hasDriveModel: bool)
    requires f.state == RECORDING
    ensures KeyFlags(f, key, hasOutputPath, hasDriveModel).state == WRITING <==> key == KeyR || key == KeyE
    ensures key == KeyE ==> KeyFlags(f, key, hasOutputPath, hasDriveModel).newEpisode
  {
  }

  /** No key leaves the writing state, and no key enters it except from recording. */
  lemma WritingEnteredOnlyFromRecording(f: Flags, key: Key, hasOutputPath: bool, hasDriveModel: bool)
    ensures KeyFlags(f, key, hasOutputPath, hasDriveModel).state == WRITING ==>
              f.state == WRITING || f.state == RECORDING
    ensures f.state == WRITING ==> KeyFlags(f, key, hasOutputPath, hasDriveModel).state == WRITING
  {
  }

  /** The command keypad 8, 4 and 6 write back while recording. */
  function CommandKey(key: Key): (h: Option<HighLevelCommand>)
    ensures h.Some? <==> key == KeyKP8 || key == KeyKP4 || key == KeyKP6
    ensures h.Some? ==> h.value != FOLLOW_ROAD
  {
    match key
    case KeyKP8 => Some(STRAIGHT_AHEAD)
    case KeyKP4 => Some(TURN_LEFT)
    case KeyKP6 => Some(TURN_RIGHT)
    case _ => None
  }

  /** `f"{path}"`: an unset output path is formatted as `None`. */
  function PathText(outputPath: Option<string>): string
  {
    match outputPath
    case Some(p) => p
    case None => "None"
  }
}
