/** The error numbers the file layer reports; EOK stands for success. */
module Errors {
  datatype Errno =
    | EOK | ENOENT | EEXIST | EINVAL | EISDIR | ENOTDIR | ENOTEMPTY | ENOSPC | EACCES | ENOTSUP | EIO
    | ENAMETOOLONG | EBUSY | EXDEV | ENODEV | EBADF | EFAULT | EOVERFLOW
}
