/** The optional value shared by the document model and the credits manifest. */
module Wrappers {

  datatype Option<+T> = None | Some(value: T)
}
