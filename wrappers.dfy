/** The optional value shared by the models: a JavaScript property that may be absent,
    or a React state cell that may hold `null`. */
module Wrappers {

  datatype Option<+T> = None | Some(value: T)
}
