/** The optional value used where the game holds a reference that may be
    absent (the ball resting on the paddle) or a speed that may be switched
    off once the game is won. */
module Wrappers {

  datatype Option<+T> = None | Some(value: T)
}
