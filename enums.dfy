/** The recording state and the high-level driving command, with their numeric values. */
module Enums {

  /** Whether frames are being recorded, or a finished recording is being saved. */
  datatype GameState = NOT_RECORDING | RECORDING | WRITING

  /** The manoeuvre the driver announces; stored in the log by its value. */
  datatype HighLevelCommand = FOLLOW_ROAD | TURN_LEFT | TURN_RIGHT | STRAIGHT_AHEAD {
    function Value(): (v: nat)
      ensures v < 4
      ensures v == 0 <==> this == FOLLOW_ROAD
    {
      match this
      case FOLLOW_ROAD => 0
      case TURN_LEFT => 1
      case TURN_RIGHT => 2
      case STRAIGHT_AHEAD => 3
    }
  }
}
