/** The errno values the daemon answers with. */
module Errno {
  const EPERM := 1
  const ENOENT := 2
  const EINTR := 4
  const EIO := 5
  const E2BIG := 7
  const EAGAIN := 11
  const ENOMEM := 12
  const EACCES := 13
  const EFAULT := 14
  const EEXIST := 17
  const EINVAL := 22
  const EFBIG := 27
  const ENOSPC := 28
  const EMLINK := 31
  const ERANGE := 34
  const ENAMETOOLONG := 36
  const ENOMSG := 42
  const EIDRM := 43
}
