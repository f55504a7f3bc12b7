/** Values shared by every part of the launcher model. */
module Common {

  datatype Option<+T> = None | Some(value: T)

  datatype Result<+T, +E> = Success(value: T) | Failure(error: E)

  /** A filesystem path, as the launcher builds it with os.path.join. */
  type Path = string

  /** File contents. */
  type Bytes = seq<bv8>

  /** A hexadecimal SHA-1 digest, as get_sha1 returns it. */
  type Digest = string

  /** Python truthiness of an optional string: `None` and `""` are both false. */
  predicate Given(s: Option<string>)
  {
    s.Some? && s.value != ""
  }
}
