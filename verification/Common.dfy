/** Values shared by the models: the optional value that stands for a JavaScript or Java value that may be absent. */
module Common {
  datatype Option<+T> = None | Some(value: T)
}
