/** What several parts of the model share. */
module Common {
  /** Pages and frames are 4 KB. */
  const PAGE: int := 0x1000

  datatype Option<T> = None | Some(value: T)
}
