/** Optional values, standing for TypeScript's `T | undefined`. */
module Options {

  datatype Option<+T> = None | Some(value: T)

}
