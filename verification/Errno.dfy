/** The error numbers of include/syscall.h, negated as the calls return them. */
module Errno {
  const ENOENT: int := -2
  const EIO: int := -5
  const ENOMEM: int := -12
  const EEXIST: int := -17
  const ENODEV: int := -19
  const EINVAL: int := -22
  const ENFILE: int := -23
  const EMFILE: int := -24
  const ENOSPC: int := -28
  const EPIPE: int := -32
  const ENAMETOOLONG: int := -36
  const ENOTEMPTY: int := -39

  /** What a block transfer returns on failure. */
  const DEVERR: int := -1
}
