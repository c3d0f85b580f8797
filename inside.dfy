/** `Inside`: a scoped change of the process-wide current directory. */
module Scoped {
  import opened Wrappers

  /** How `Inside` ends: it returns an error value (nil as None), or the
      lambda's panic propagates to its caller. */
  datatype Exit = Returned(err: Option<Error>) | Panicked

  /** The process's current directory, as `os.Getwd` and `os.Chdir` see it.
      Directory names are taken as already resolved. */
  class WorkingDirectory {
    var cwd: string

    constructor (start: string)
      ensures cwd == start
    {
      cwd := start;
    }

    /** `Inside(dir, lambda)`. The operating system's answers are parameters:
        `getwdErr` for `os.Getwd`, `chdirErr` for changing into `dir`,
        `restoreOk` for changing back; the lambda is an abstract action that
        leaves the current directory at `lambdaLeaves` (it may change it) and
        panics when `lambdaPanics`. `ranIn` is the current directory the lambda
        ran in, None when it did not run. The deferred restore runs whether
        the lambda returns or panics. */
    method Inside(dir: string, getwdErr: Option<Error>, chdirErr: Option<Error>,
                  lambdaLeaves: string, lambdaPanics: bool, restoreOk: bool)
      returns (exit: Exit, ranIn: Option<string>)
      modifies this
      ensures getwdErr.Some? ==> exit == Returned(getwdErr) && ranIn == None && cwd == old(cwd)
      ensures getwdErr.None? && chdirErr.Some? ==>
        exit == Returned(chdirErr) && ranIn == None && cwd == old(cwd)
      ensures getwdErr.None? && chdirErr.None? ==>
        && exit == (if lambdaPanics then Panicked else Returned(None))
        && ranIn == Some(dir)
        && cwd == (if restoreOk then old(cwd) else lambdaLeaves)
    {
      if getwdErr.Some? {
        return Returned(getwdErr), None;
      }
      var olddir := cwd;
      if chdirErr.Some? {
        return Returned(chdirErr), None;
      }
      cwd := dir;
      // the lambda
      ranIn := Some(cwd);
      cwd := lambdaLeaves;
      // the deferred restore, whose error is ignored
      if restoreOk {
        cwd := olddir;
      }
      exit := if lambdaPanics then Panicked else Returned(None);
    }
  }

  /** A lambda that leaves the directory alone sees `dir` and, when restoring
      succeeds, the caller sees its own directory again afterwards, whether the
      lambda returned or panicked. */
  method InsideRestores(start: string, dir: string, panics: bool)
    returns (seen: Option<string>, after: string, exit: Exit)
    ensures exit == (if panics then Panicked else Returned(None))
    ensures seen == Some(dir) && after == start
  {
    var wd := new WorkingDirectory(start);
    exit, seen := wd.Inside(dir, None, None, dir, panics, true);
    after := wd.cwd;
  }
}
