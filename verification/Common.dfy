// Shared by the models.
module Common {
  datatype Option<T> = None | Some(value: T)

  // Log entries that a file system operation may use.
  const MAXOPBLOCKS := 10
}
