/** The optional value used wherever the bot's JavaScript returns `null`/`undefined`. */
module Wrappers {

  datatype Option<+T> = None | Some(value: T)
}
