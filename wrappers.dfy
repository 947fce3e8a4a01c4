module Wrappers {

  /** A value that may be absent. In data, `None` stands for JavaScript's
      `undefined`; as an operation's result, for the TypeError it throws. */
  datatype Option<+T> = None | Some(value: T)
}
