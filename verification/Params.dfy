/** param.h, and the sizes of C's integers. */
module Params {
  const NPROC: nat := 64             // slots of the process table
  const MAXOPBLOCKS: nat := 10       // most blocks any file-system operation logs
  const LOGSIZE: nat := 30           // MAXOPBLOCKS * 3
  const INT_LIMIT: nat := 0x8000_0000
  const UINT_LIMIT: nat := 0x1_0000_0000
}
