/** Optional values and results, standing in for Java's null and for the exceptions the programs catch. */
module Wrappers {

  /** `None` plays the part of a Java `null` reference. */
  datatype Option<+T> = None | Some(value: T)

  /** `Err` carries the reason a step of a program gave up. */
  datatype Result<+T, +E> = Ok(value: T) | Err(error: E)
}
