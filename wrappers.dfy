/** The optional value the model uses wherever the script may or may not find something. */
module Wrappers {

  datatype Option<+T> = None | Some(value: T)

}
