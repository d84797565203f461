/** An optional value: the engine's `Vector | null`, `number | undefined`
    and `number | null`. */
module Optional {
  datatype Option<T> = None | Some(value: T)
}
