/** The optional-value datatype shared by every module: `None` stands for
    Python's `None`, or for "no value" where the source returns `None`. */
module Wrappers {

  datatype Option<+T> = None | Some(value: T)
}
