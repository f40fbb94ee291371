/** Optional values and the `{id} | {error}` outcome shape shared by every concept action. */
module Wrappers {

  datatype Option<+T> = None | Some(value: T)

  /** An action's outcome: `Ok(v)` stands for `{ id: v, ... }`, `Err(m)` for `{ error: m }`. */
  datatype Result<+T> = Ok(value: T) | Err(error: string)
}
