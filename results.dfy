/** The exceptions the pipeline raises, and the success/failure wrappers
    that stand for "returns normally" and "raises". */
module Results {
  import opened Paths

  datatype Option<T> = None | Some(value: T)

  /** One constructor per way a stage can raise. */
  datatype Error =
    | FileExists(path: Path)              // FileExistsError: the output would be overwritten
    | FileNotFound(path: Path)            // FileNotFoundError: missing file or working directory
    | NotADirectory(path: Path)           // NotADirectoryError
    | IsADirectory(path: Path)            // IsADirectoryError from open() or unlink()
    | SymlinkLoop(path: Path)             // OSError(ELOOP): too many levels of symbolic links
    | NotInitrdArchive(name: string)      // AssertionError: the archive is not called initrd.gz
    | NotAnImage(path: Path)              // RuntimeError: the source has no .iso/.img suffix
    | InvalidNameChar(c: char)            // RuntimeError: a character the volume name may not hold
    | ProcessFailed(subject: Path)        // RuntimeError raised for a failed xorriso run
    | NotRelative(path: Path, root: Path) // ValueError from Path.relative_to

  /** The Python exception class each error is raised as. */
  function ExceptionClass(e: Error): string
  {
    match e
    case FileExists(_) => "FileExistsError"
    case FileNotFound(_) => "FileNotFoundError"
    case NotADirectory(_) => "NotADirectoryError"
    case IsADirectory(_) => "IsADirectoryError"
    case SymlinkLoop(_) => "OSError"
    case NotInitrdArchive(_) => "AssertionError"
    case NotAnImage(_) => "RuntimeError"
    case InvalidNameChar(_) => "RuntimeError"
    case ProcessFailed(_) => "RuntimeError"
    case NotRelative(_, _) => "ValueError"
  }

  /** A call that returns nothing, or raises. */
  datatype Outcome = Pass | Fail(error: Error)

  /** A call that returns a value, or raises. */
  datatype Result<T> = Ok(value: T) | Err(error: Error)
}
