/** Optional values: Python's `None`-or-value, used for every field app.py reads
    with `.get(...)` or `getattr(..., None)`. */
module Wrappers {

  datatype Option<+T> = None | Some(value: T)
}
