/** Results of lookups and of operations that may fail. */
module Wrappers {
  datatype Option<+T> = None | Some(value: T)

  type Positive = n: nat | n > 0 witness 1

  datatype Result<+T, +E> = Ok(value: T) | Err(error: E)

  /** The count of a row, 0 where there is none. */
  function ValueAt(rows: map<nat, nat>, id: nat): nat {
    if id in rows then rows[id] else 0
  }
}
