/** What the models share. */
module Common {
  datatype Option<+T> = None | Some(value: T)

  /** The most blocks one file system operation writes. */
  const MAXOPBLOCKS: nat := 10

  function Min(a: nat, b: nat): nat { if a < b then a else b }
}
