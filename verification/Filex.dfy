/**
 The status codes of FileX, their translation into error numbers and the places
 from which _rename calls FileX.
 */
module Filex {
  import opened Errors
  import opened Wrappers

  datatype FxStatus =
    | FX_SUCCESS | FX_NOT_FOUND | FX_NOT_OPEN | FX_MEDIA_NOT_OPEN | FX_ALREADY_CREATED | FX_INVALID_NAME
    | FX_INVALID_PATH | FX_INVALID_OPTION | FX_PTR_ERROR | FX_NOT_A_FILE | FX_NOT_DIRECTORY | FX_DIR_NOT_EMPTY
    | FX_NO_MORE_SPACE | FX_NOT_ENOUGH_MEMORY | FX_ACCESS_ERROR | FX_WRITE_PROTECT | FX_END_OF_FILE
    | FX_NO_MORE_ENTRIES | FX_NOT_IMPLEMENTED | FX_OTHER

  function FilexErrno(status: FxStatus): Errno {
    match status
    case FX_SUCCESS => EOK
    case FX_NOT_FOUND => ENOENT
    case FX_NOT_OPEN => ENOENT
    case FX_MEDIA_NOT_OPEN => ENOENT
    case FX_ALREADY_CREATED => EEXIST
    case FX_INVALID_NAME => EINVAL
    case FX_INVALID_PATH => EINVAL
    case FX_INVALID_OPTION => EINVAL
    case FX_PTR_ERROR => EINVAL
    case FX_NOT_A_FILE => EISDIR
    case FX_NOT_DIRECTORY => ENOTDIR
    case FX_DIR_NOT_EMPTY => ENOTEMPTY
    case FX_NO_MORE_SPACE => ENOSPC
    case FX_NOT_ENOUGH_MEMORY => ENOSPC
    case FX_ACCESS_ERROR => EACCES
    case FX_WRITE_PROTECT => EACCES
    case FX_END_OF_FILE => EOK
    case FX_NO_MORE_ENTRIES => EOK
    case FX_NOT_IMPLEMENTED => ENOTSUP
    case FX_OTHER => EIO
  }

  /** What a call that fails can report. */
  type Failure = s: FxStatus | !s.FX_SUCCESS? witness FX_NOT_FOUND

  /** The two codes that the translation turns into success. */
  predicate Silent(fault: Option<Failure>) { fault.Some? && FilexErrno(fault.value) == EOK }

  lemma SilentCodes(fault: Option<Failure>)
    ensures Silent(fault) <==> fault == Some(FX_END_OF_FILE) || fault == Some(FX_NO_MORE_ENTRIES)
  {
  }

  /** require_empty_directory_unlocked takes the directory for empty. */
  predicate ScanIsOver(status: FxStatus) { !status.FX_SUCCESS? && FilexErrno(status) == EOK }

  /** The call sites of _rename and its helpers. */
  datatype Site =
    | SourceInformation | TargetInformation | BackupInformation
    | SetDefault | Scan | ResetDefault | Flush
    | AsideRename | SourceRename | RestoreRename | BackupDelete
}
