/** The sizes in kernel/param.h and kernel/fs.h that several parts depend on. */
module Params {
  const MAXOPBLOCKS: nat := 10  // blocks an operation may add to the log
  const LOGBLOCKS: nat := 3 * MAXOPBLOCKS
  const NBUF: nat := 3 * MAXOPBLOCKS
  const BSIZE: nat := 1024
}
