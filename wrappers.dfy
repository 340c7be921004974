/** The optional-value datatype used for the source's `TryGet…(…, out …)` pairs:
    `Some(v)` stands for "returned true and wrote v", `None` for "returned false". */
module Wrappers {

  datatype Option<+T> = None | Some(value: T)
}
