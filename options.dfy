/** The optional value used for nullable pointers (`curDir`, a slot of `curDirFiles`). */
module Options {

  datatype Option<+T> = None | Some(value: T)

}
