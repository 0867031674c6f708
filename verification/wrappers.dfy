/** An optional value, used where the firmware either performs an effect or does not. */
module Wrappers {

  datatype Option<+T> = None | Some(value: T)

}
