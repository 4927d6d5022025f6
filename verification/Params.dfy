/** The constants of kernel/param.h and kernel/fs.h that the model uses. */
module Params {
  const ROOTDEV: nat := 1
  const MAXOPBLOCKS: nat := 10
  const LOGSIZE: nat := 30
  const NBUF: nat := 30
  const BSIZE: nat := 1024
}
