/** Values that may be absent: nullable columns, missing rows, optional results. */
module Wrappers {
  datatype Option<+T> = None | Some(value: T)

  // Identifiers the services draw at random (UUIDs); only equality matters.
  type Uuid = nat
}
