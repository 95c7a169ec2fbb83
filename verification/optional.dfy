/**
 * A value that may be missing. The game uses it where JavaScript has `null`
 * or `undefined`: the winner of an undecided board, the position of the
 * start snapshot, the result of an event the game cannot apply.
 */
module Optional {

  datatype Option<+T> = None | Some(value: T)
}
