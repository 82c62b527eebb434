/**
 * The learned drivers: a convolutional model that sees one frame, and a
 * recurrent one that sees a strided window of the frames it has been given.
 * Both build the same inputs from a frame and its measurements: the centre
 * image in LAB colour, the speed and the speed limit scaled by 1/100, a flag
 * that is 1 for a red light, and the command as a one-hot vector. The network
 * itself is a parameter; loading it from a file is not modelled.
 */
module DriveModels {
  import opened Wrappers
  import opened Helpers
  import opened Enums
  import opened DiskWriting

  /** The centre camera image after the BGR-to-LAB conversion (the pixel arithmetic is left abstract). */
  datatype LabImage = Lab(source: Image)

  /** The `info` dictionary the controller passes: speed, speed limit, light and command. */
  datatype Info = Info(speed: real, speedLimit: real, trafficLight: int, hlc: int)

  /** What `get_prediction` returns: `False` without a model, else steering, throttle and brake. */
  datatype Prediction = NoModel | Controls(steer: real, throttle: real, brake: real)

  /** The command input of the recurrent model: the newest vector alone, or a window of them. */
  datatype HlcInput = Latest(hlc: seq<int>) | Sequence(hlcs: seq<seq<int>>)

  /** One batch for the convolutional model. */
  datatype CnnInput = CnnInput(image: LabImage, info: seq<real>, hlc: seq<int>)

  /** One batch for the recurrent model: image, info and command windows. */
  datatype LstmInput = LstmInput(images: seq<LabImage>, infos: seq<seq<real>>, hlcs: HlcInput)

  /** A loaded network: its steering, throttle and brake for a batch. */
  type CnnNetwork = CnnInput -> (real, real, real)
  type LstmNetwork = LstmInput -> (real, real, real)

  /** The one-hot table both models index with the command. */
  const OneHotTable: seq<seq<int>> := [[1, 0, 0, 0], [0, 1, 0, 0], [0, 0, 1, 0], [0, 0, 0, 1]]

  /**
   * `self._one_hot_hlc[int(info["hlc"])]`: commands 0 to 3 pick their own
   * row, and, as Python list indexing does, -4 to -1 count from the end; any
   * other value raises `IndexError`.
   */
  function OneHot(hlc: int): (r: Outcome<seq<int>>)
    ensures r.Returned? <==> -4 <= hlc < 4
    ensures r.Returned? ==> |r.value| == 4
    ensures r.Returned? ==> forall j :: 0 <= j < 4 ==> r.value[j] == (if j == hlc % 4 then 1 else 0)
  {
    if 0 <= hlc < 4 then Returned(OneHotTable[hlc])
    else if -4 <= hlc < 0 then Returned(OneHotTable[hlc + 4])
    else RaisedIndexError
  }

  /** Every command has a one-hot vector with its single 1 at the command's value, so distinct commands differ. */
  lemma OneHotOfCommand(h: HighLevelCommand, g: HighLevelCommand)
    ensures OneHot(h.Value()).Returned?
    ensures OneHot(h.Value()).value[h.Value()] == 1
    ensures h != g ==> OneHot(h.Value()).value != OneHot(g.Value()).value
  {
    var vh, vg := OneHot(h.Value()).value, OneHot(g.Value()).value;
    if h != g {
      assert h.Value() != g.Value() by {
        match h
        case FOLLOW_ROAD =>
        case TURN_LEFT =>
        case TURN_RIGHT =>
        case STRAIGHT_AHEAD =>
      }
      assert vh[h.Value()] == 1 && vg[h.Value()] == 0;
    }
  }

  /** The light feature: 1 exactly when the light is red (value 2), 0 otherwise. */
  function RedLightFlag(trafficLight: int): (f: int)
    ensures f == 0 || f == 1
    ensures f == 1 <==> trafficLight == RED.Value()
  {
    if trafficLight == 2 then 1 else 0
  }

  /** Of the states of a traffic light, only red sets the flag. */
  lemma OnlyRedSetsFlag(light: TrafficLight)
    ensures RedLightFlag(light.Value()) == 1 <==> light == RED
  {
    match light
    case GREEN =>
    case YELLOW =>
    case RED =>
    case ERROR =>
    case NONE =>
  }

  /** The info features: speed and speed limit over 100, then the red-light flag. */
  function InfoInput(info: Info): (v: seq<real>)
    ensures |v| == 3
    ensures v[0] * 100.0 == info.speed && v[1] * 100.0 == info.speedLimit
    ensures v[2] == 1.0 <==> info.trafficLight == RED.Value()
    ensures v[2] == 0.0 || v[2] == 1.0
  {
    [info.speed / 100.0, info.speedLimit / 100.0, RedLightFlag(info.trafficLight) as real]
  }

  /** The convolutional driver, `CNNKeras`. */
  class CnnKeras {
    var network: Option<CnnNetwork>

    /** No network is loaded at first. */
    constructor ()
      ensures network == None
    {
      network := None;
    }

    /** `load_model`: the network read from the file replaces any earlier one. */
    method LoadModel(net: CnnNetwork)
      modifies this`network
      ensures network == Some(net)
    {
      network := Some(net);
    }

    /**
     * `get_prediction`: `False` while no network is loaded; otherwise the
     * network's answer for the converted centre image, the info features and
     * the one-hot command, or `IndexError` for a command outside the table.
     */
    method GetPrediction(center: Image, info: Info) returns (r: Outcome<Prediction>)
      ensures network.None? ==> r == Returned(NoModel)
      ensures network.Some? && !(-4 <= info.hlc < 4) ==> r == RaisedIndexError
      ensures network.Some? && -4 <= info.hlc < 4 ==>
        var (steer, throttle, brake) := network.value(CnnInput(Lab(center), InfoInput(info), OneHot(info.hlc).value));
        r == Returned(Controls(steer, throttle, brake))
    {
      if network.None? {
        return Returned(NoModel);
      }
      var image := Lab(center);
      var features := InfoInput(info);
      var hlc := OneHot(info.hlc);
      if hlc.RaisedIndexError? {
        return RaisedIndexError;
      }
      var prediction := network.value(CnnInput(image, features, hlc.value));
      r := Returned(Controls(prediction.0, prediction.1, prediction.2));
    }
  }

  /**
   * The number of older entries a full window reaches back over:
   * `(seq_length - 1) * (seq_space + 1)`.
   */
  function Required(seqLength: int, seqSpace: nat): int
  {
    (seqLength - 1) * (seqSpace + 1)
  }

  /** Python's `s[start::step]` for a positive step and a start at or after 0. */
  function Stride<T>(s: seq<T>, start: nat, step: nat): (w: seq<T>)
    requires step > 0
    decreases |s| - start
  {
    if start >= |s| then [] else [s[start]] + Stride(s, start + step, step)
  }

  /**
   * A stride holds every `step`-th element from `start`, in order, and stops
   * at the first position past the end.
   */
  lemma {:induction false} StrideElements<T>(s: seq<T>, start: nat, step: nat)
    requires step > 0
    ensures start >= |s| ==> Stride(s, start, step) == []
    ensures start < |s| ==> |s| <= start + |Stride(s, start, step)| * step
    ensures forall k :: 0 <= k < |Stride(s, start, step)| ==> start + k * step < |s| && Stride(s, start, step)[k] == s[start + k * step]
    decreases |s| - start
  {
    if start < |s| {
      StrideElements(s, start + step, step);
      var w := Stride(s, start, step);
      var tail := Stride(s, start + step, step);
      assert start + |w| * step == (start + step) + |tail| * step;
      forall k | 0 <= k < |w|
        ensures start + k * step < |s| && w[k] == s[start + k * step]
      {
        if k > 0 {
          assert w[k] == tail[k - 1];
          assert start + k * step == (start + step) + (k - 1) * step;
        }
      }
    }
  }

  /** How many elements a stride takes depends only on the length of the sequence. */
  lemma {:induction false} StrideLength<T, U>(a: seq<T>, b: seq<U>, start: nat, step: nat)
    requires step > 0 && |a| == |b|
    ensures |Stride(a, start, step)| == |Stride(b, start, step)|
    decreases |a| - start
  {
    if start < |a| {
      StrideLength(a, b, start + step, step);
    }
  }

  /** Multiplying by the same positive step keeps a strict order, so it can be cancelled. */
  lemma CancelStep(a: int, b: int, step: nat)
    requires step > 0 && a * step < b * step
    ensures a < b
  {
    assert (b - a) * step == b * step - a * step;
  }

  /**
   * The window the recurrent model is fed, starting `req` entries before the
   * newest: `history[len - 1 - req :: seq_space + 1]`.
   */
  function Window<T>(history: seq<T>, seqLength: int, seqSpace: nat): seq<T>
    requires |history| > Required(seqLength, seqSpace)
  {
    Stride(history, |history| - 1 - Required(seqLength, seqSpace), seqSpace + 1)
  }

  /**
   * Once the history is longer than `req`, a window of a positive length
   * holds exactly `seq_length` entries, `seq_space + 1` apart, the last of
   * them the newest entry.
   */
  lemma WindowShape<T>(history: seq<T>, seqLength: int, seqSpace: nat)
    requires seqLength >= 1 && |history| > Required(seqLength, seqSpace)
    ensures |Window(history, seqLength, seqSpace)| == seqLength
    ensures Window(history, seqLength, seqSpace)[seqLength - 1] == history[|history| - 1]
    ensures forall k :: 0 <= k < seqLength ==>
      var back := (seqLength - 1 - k) * (seqSpace + 1);
      0 <= back < |history| && Window(history, seqLength, seqSpace)[k] == history[|history| - 1 - back]
  {
    var req := Required(seqLength, seqSpace);
    var start := |history| - 1 - req;
    var step := seqSpace + 1;
    var w := Window(history, seqLength, seqSpace);
    StrideElements(history, start, step);
    assert start + (|w| - 1) * step < |history|;
    CancelStep(|w| - 1, seqLength, step);
    CancelStep(seqLength - 1, |w|, step);
    forall k | 0 <= k < seqLength
      ensures var back := (seqLength - 1 - k) * step;
        0 <= back < |history| && w[k] == history[|history| - 1 - back]
    {
      var back := (seqLength - 1 - k) * step;
      StepsBack(seqLength - 1, k, step);
      assert start + k * step == |history| - 1 - back;
    }
  }

  /** Going `k` steps forward from `n` steps back leaves `n - k` steps back, between none and `n`. */
  lemma StepsBack(n: nat, k: nat, step: nat)
    requires k <= n
    ensures 0 <= (n - k) * step <= n * step
    ensures n * step - k * step == (n - k) * step
  {
  }

  /** A window whose length is 0 or less starts past the newest entry and is empty. */
  lemma EmptyWindow<T>(history: seq<T>, seqLength: int, seqSpace: nat)
    requires seqLength <= 0
    ensures |history| > Required(seqLength, seqSpace)
    ensures Window(history, seqLength, seqSpace) == []
  {
    assert Required(seqLength, seqSpace) <= -(seqSpace + 1) by {
      assert (seqLength - 1) * (seqSpace + 1) == -(seqSpace + 1) + seqLength * (seqSpace + 1);
      assert seqLength * (seqSpace + 1) <= 0;
    }
    StrideElements(history, |history| - 1 - Required(seqLength, seqSpace), seqSpace + 1);
  }

  /** Windows taken with the same settings from equally long histories pick the same positions. */
  lemma WindowsAligned<T, U>(a: seq<T>, b: seq<U>, seqLength: int, seqSpace: nat)
    requires |a| == |b| > Required(seqLength, seqSpace)
    ensures |Window(a, seqLength, seqSpace)| == |Window(b, seqLength, seqSpace)|
    ensures forall k :: 0 <= k < |Window(a, seqLength, seqSpace)| ==>
      exists i :: 0 <= i < |a| && Window(a, seqLength, seqSpace)[k] == a[i] && Window(b, seqLength, seqSpace)[k] == b[i]
  {
    var start := |a| - 1 - Required(seqLength, seqSpace);
    var step := seqSpace + 1;
    StrideElements(a, start, step);
    StrideElements(b, start, step);
    StrideLength(a, b, start, step);
    var wa, wb := Window(a, seqLength, seqSpace), Window(b, seqLength, seqSpace);
    forall k | 0 <= k < |wa|
      ensures exists i :: 0 <= i < |a| && wa[k] == a[i] && wb[k] == b[i]
    {
      var i := start + k * step;
      assert wa[k] == a[i] && wb[k] == b[i];
    }
  }

  /** The recurrent driver, `LSTMKeras`, with its three growing histories. */
  class LstmKeras {
    var network: Option<LstmNetwork>
    var imgHistory: seq<LabImage>
    var infoHistory: seq<seq<real>>
    var hlcHistory: seq<seq<int>>
    const lateHlc: bool
    const seqLength: int
    const seqSpace: nat

    /** The three histories have one entry per frame the model has been given. */
    ghost predicate Valid()
      reads this
    {
      |imgHistory| == |infoHistory| == |hlcHistory|
    }

    /** Empty histories and no network; the window settings are kept. */
    constructor (seqLength: int, seqSpace: nat, lateHlc: bool)
      ensures Valid()
      ensures network == None && imgHistory == [] && infoHistory == [] && hlcHistory == []
      ensures this.seqLength == seqLength && this.seqSpace == seqSpace && this.lateHlc == lateHlc
    {
      network := None;
      imgHistory, infoHistory, hlcHistory := [], [], [];
      this.lateHlc := lateHlc;
      this.seqLength := seqLength;
      this.seqSpace := seqSpace;
    }

    /** `load_model`: the network read from the file replaces any earlier one. */
    method LoadModel(net: LstmNetwork)
      modifies this`network
      ensures network == Some(net)
    {
      network := Some(net);
    }

    /** Whether the histories reach back far enough for a window. */
    ghost predicate Ready()
      reads this
    {
      |imgHistory| > Required(seqLength, seqSpace)
    }

    /** The batch a full history yields: image and info windows, and the newest command or a window of them. */
    ghost function Batch(): (b: LstmInput)
      requires Valid() && Ready() && |imgHistory| > 0
      reads this
      ensures |b.images| == |b.infos|
      ensures lateHlc ==> b.hlcs == Latest(hlcHistory[|hlcHistory| - 1])
      ensures !lateHlc ==> b.hlcs.Sequence? && |b.hlcs.hlcs| == |b.images|
    {
      WindowsAligned(imgHistory, infoHistory, seqLength, seqSpace);
      WindowsAligned(imgHistory, hlcHistory, seqLength, seqSpace);
      LstmInput(
        Window(imgHistory, seqLength, seqSpace),
        Window(infoHistory, seqLength, seqSpace),
        if lateHlc then Latest(hlcHistory[|hlcHistory| - 1]) else Sequence(Window(hlcHistory, seqLength, seqSpace)))
    }

    /**
     * `get_prediction`: `False` while no network is loaded, and `IndexError`
     * for a command outside the table, both before anything is stored.
     * Otherwise the frame's image, info and command are appended, one to
     * each history; then `(0, 0, 0)` while the histories are no longer than
     * `req`, and the network's answer for the windows once they are.
     */
    method GetPrediction(center: Image, info: Info) returns (r: Outcome<Prediction>)
      requires Valid()
      modifies this`imgHistory, this`infoHistory, this`hlcHistory
      ensures Valid()
      ensures network.None? || !(-4 <= info.hlc < 4) ==>
        imgHistory == old(imgHistory) && infoHistory == old(infoHistory) && hlcHistory == old(hlcHistory)
      ensures network.None? ==> r == Returned(NoModel)
      ensures network.Some? && !(-4 <= info.hlc < 4) ==> r == RaisedIndexError
      ensures network.Some? && -4 <= info.hlc < 4 ==>
        && imgHistory == old(imgHistory) + [Lab(center)]
        && infoHistory == old(infoHistory) + [InfoInput(info)]
        && hlcHistory == old(hlcHistory) + [OneHot(info.hlc).value]
        && (!Ready() ==> r == Returned(Controls(0.0, 0.0, 0.0)))
        && (Ready() ==> var (steer, throttle, brake) := network.value(Batch());
                        r == Returned(Controls(steer, throttle, brake)))
    {
      if network.None? {
        return Returned(NoModel);
      }
      var image := Lab(center);
      var features := InfoInput(info);
      var hlc := OneHot(info.hlc);
      if hlc.RaisedIndexError? {
        return RaisedIndexError;
      }
      imgHistory := imgHistory + [image];
      infoHistory := infoHistory + [features];
      hlcHistory := hlcHistory + [hlc.value];
      var req := Required(seqLength, seqSpace);
      if |imgHistory| > req {
        var start := |imgHistory| - 1 - req;
        var imgs := Stride(imgHistory, start, seqSpace + 1);
        var infos := Stride(infoHistory, start, seqSpace + 1);
        var hlcs := if lateHlc then Latest(hlcHistory[|hlcHistory| - 1]) else Sequence(Stride(hlcHistory, start, seqSpace + 1));
        var prediction := network.value(LstmInput(imgs, infos, hlcs));
        return Returned(Controls(prediction.0, prediction.1, prediction.2));
      }
      r := Returned(Controls(0.0, 0.0, 0.0));
    }
  }
}
