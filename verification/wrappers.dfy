/** Optional values: the model's counterpart of C# `null` results (`FirstOrDefault`,
    nullable claims, `ClaimsPrincipal?`). */
module Wrappers {

  datatype Option<+T> = None | Some(value: T)
}
