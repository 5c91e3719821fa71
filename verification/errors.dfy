/** The errors the core produces or passes on, and the directory listing it reads. */
module Errors {

  datatype Error =
    /** An error reported by a collaborator the model does not see into (operating system, loader). */
    | Opaque(message: string)
    /** `failed reading directory <dir>: <cause>` (CollectGoFiles) */
    | ReadDirFailed(dir: string, cause: Error)
    /** `failed getting relative path: <cause>` (CollectGoFiles) */
    | RelPathFailed(cause: Error)
    /** `failed reading import path <path>: <cause>` (workaroundLocalSubDirs) */
    | ImportPathReadFailed(path: string, cause: Error)
    /** `failed getting <importPath>: <cause>` (a sub-package fetch) */
    | FetchFailed(importPath: string, cause: Error)
    /** Several errors gathered into one (a multierror). */
    | Multi(errors: seq<Error>)

  /** One entry of an `os.ReadDir` listing. */
  datatype DirEntry = DirEntry(name: string, isDir: bool)
}
