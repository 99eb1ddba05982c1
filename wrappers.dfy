/** The optional value that the TypeScript code spells `T | undefined` or `T | null`. */
module Wrappers {
  datatype Option<T> = None | Some(value: T)
}
