/** An optional value: `None` where a Java parse throws, `Some` with the result otherwise. */
module Wrappers {

  datatype Option<+T> = None | Some(value: T)

}
