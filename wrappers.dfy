/** The conventional optional value, used where BitmapFont.Renderer holds a reference that may be null. */
module Wrappers {
  datatype Option<+T> = None | Some(value: T)
}
