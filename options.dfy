/** A value that may be absent: stands for the `null` / `undefined` the
    source uses for a point or a radius that has not been set yet. */
module Options {
  datatype Option<+T> = None | Some(value: T)
}
