/** Path handling: POSIX `os.path.join` for two components and `localise_code_directory`. */
module Paths {
  import opened Wrappers
  import opened Text

  /** `os.path.join(a, b)` on POSIX: an absolute `b` replaces `a`; otherwise a `/` is
      inserted unless `a` is empty or already ends with one. */
  function PathJoin(a: string, b: string): (r: string)
    ensures EndsWith(r, b)
    ensures StartsWith(b, "/") ==> r == b
    ensures !StartsWith(b, "/") ==> r == a + b || r == a + "/" + b
    ensures !StartsWith(b, "/") && a != [] ==> EndsWith(r[..|r| - |b|], "/")
    ensures !StartsWith(b, "/") && (a == [] || EndsWith(a, "/")) ==> r == a + b
  {
    if StartsWith(b, "/") then b
    else if a == [] || EndsWith(a, "/") then a + b
    else a + "/" + b
  }

  /** Why the code directory cannot be used; each case is a `RuntimeError` in the source. */
  datatype LocaliseError =
    | DirectoryUnset(requestType: string)   // the setting is `None`
    | DirectoryMissing(directory: string)   // the localised directory does not exist

  /** The request type named in the error message when the caller gives none. */
  const DefaultRequestType := "ProbLog box content"

  /** `localise_code_directory`: an absolute directory (leading `/`) is made relative to
      the build's working directory by prefixing `.`; the result must exist. */
  function LocaliseCodeDirectory(directory: Option<string>, requestType: Option<string>,
                                 pathExists: string -> bool): (r: Result<string, LocaliseError>)
    ensures directory.None? ==> r == Failure(DirectoryUnset(requestType.GetOr(DefaultRequestType)))
    ensures r.Success? ==> directory.Some? && pathExists(r.value) && !StartsWith(r.value, "/")
    ensures r.Success? ==> r.value == directory.value || r.value == "." + directory.value
    ensures directory.Some? && !StartsWith(directory.value, "/") ==>
              r == (if pathExists(directory.value) then Success(directory.value)
                    else Failure(DirectoryMissing(directory.value)))
    ensures directory.Some? && StartsWith(directory.value, "/") ==>
              r == (if pathExists("." + directory.value) then Success("." + directory.value)
                    else Failure(DirectoryMissing("." + directory.value)))
  {
    match directory
    case None => Failure(DirectoryUnset(requestType.GetOr(DefaultRequestType)))
    case Some(d) =>
      var localised := if StartsWith(d, "/") then "." + d else d;
      if pathExists(localised) then Success(localised) else Failure(DirectoryMissing(localised))
  }

  /** A localised directory is its own localisation: feeding the result back as the
      setting changes nothing. */
  lemma LocaliseIdempotent(directory: Option<string>, requestType: Option<string>,
                           pathExists: string -> bool)
    requires LocaliseCodeDirectory(directory, requestType, pathExists).Success?
    ensures var d := LocaliseCodeDirectory(directory, requestType, pathExists).value;
            LocaliseCodeDirectory(Some(d), requestType, pathExists) == Success(d)
  {
  }
}
