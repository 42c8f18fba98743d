/** The optional value used wherever the scoreboard has "nothing" as an answer
    (no winner yet, a string that is not a clock display). */
module Wrappers {

  datatype Option<+T> = None | Some(value: T)
}
