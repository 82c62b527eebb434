/**
 * The frame and episode counters of the driving client. The wall-clock
 * readings the timer also keeps are reduced to the strings formatted from
 * them, which the caller supplies.
 */
module Timing {

  class Timer {
    /** Frames since the client started. */
    var frame: nat
    /** Frames since the current episode started. */
    var episodeFrame: nat
    /** Episodes started so far. */
    var episodeNum: nat
    /** The start of the client, formatted as `%Y-%m-%d_%H-%M-%S`. */
    var timestampStr: string
    /** The start of the current episode, formatted the same way. */
    var episodeTimestampStr: string

    /** An episode never has more frames than the whole run. */
    ghost predicate Valid()
      reads this
    {
      frame >= episodeFrame
    }

    /** `now` is the clock reading at construction, already formatted. */
    constructor (now: string)
      ensures Valid()
      ensures frame == 0 && episodeFrame == 0 && episodeNum == 0
      ensures timestampStr == now && episodeTimestampStr == now
    {
      frame, episodeFrame, episodeNum := 0, 0, 0;
      timestampStr, episodeTimestampStr := now, now;
    }

    /** `tick`: one more frame, in the run and in the episode. */
    method Tick()
      requires Valid()
      modifies this`frame, this`episodeFrame
      ensures Valid()
      ensures frame == old(frame) + 1 && episodeFrame == old(episodeFrame) + 1
    {
      frame := frame + 1;
      episodeFrame := episodeFrame + 1;
    }

    /** `new_episode`: restart the episode count at frame 0 and stamp it with `now`. */
    method NewEpisode(now: string)
      requires Valid()
      modifies this`episodeFrame, this`episodeNum, this`episodeTimestampStr
      ensures Valid()
      ensures episodeFrame == 0 && episodeNum == old(episodeNum) + 1
      ensures episodeTimestampStr == now
    {
      episodeFrame := 0;
      episodeTimestampStr := now;
      episodeNum := episodeNum + 1;
    }
  }
}
