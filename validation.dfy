/**
 * What a failed schema check reports: the path of the offending field and its message,
 * in the order the checks are declared.
 */
module Validation {

  datatype Issue = Issue(path: string, message: string)

  /** The paths that have at least one issue. */
  function Paths(issues: seq<Issue>): set<string> {
    set i | i in issues :: i.path
  }

  /** A single issue when `failed`, none otherwise. */
  function Check(failed: bool, path: string, message: string): (r: seq<Issue>)
    ensures r == [] <==> !failed
    ensures forall i :: i in r ==> i.path == path
  {
    if failed then [Issue(path, message)] else []
  }
}
