/**
 * The locomotion data that the animation state selector reads from the
 * entity it animates (CharAnimState in the game). Only the fields the
 * selector uses are kept.
 */
module Locomotion {

  /**
   * The predicted locomotion state of a character. The six values the
   * animation classifier names are listed by name; every other value the
   * enumeration may hold is `Other`, carrying its ordinal.
   */
  datatype LocoState =
    | Stand
    | GroundMove
    | Jump
    | DoubleJump
    | InAir
    | Dead
    | Other(ordinal: int)

  /** The snapshot read each tick: the locomotion state and the tick at which it was entered. */
  datatype CharAnimState = CharAnimState(charLocoState: LocoState, charLocoTick: int)
}
