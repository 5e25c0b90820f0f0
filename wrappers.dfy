/** Option, for operations of the battle-record tool that can fail. */
module Wrappers {

  datatype Option<+T> = None | Some(value: T)

}
