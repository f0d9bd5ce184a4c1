/** The Java exceptions that leave the core. Checked ones raised while the
    script is built are wrapped in a ScriptException; unchecked ones are never
    caught between the point where they arise and the caller of
    ScriptLoader.load. */
module Exceptions {
  datatype Unchecked =
    | ClassCast(site: string)
    | NullPointer(site: string)
    | HostRuntime(site: string)
    | TokenManager(site: string)   // JavaParser's TokenMgrError

  datatype Checked =
    | IOError(site: string)
    | CannotCompile(site: string)
    | Instantiation(site: string)
    | IllegalAccess(site: string)

  /** An exception on its way out of a build step. */
  datatype Raised = CheckedRaised(checked: Checked) | UncheckedRaised(unchecked: Unchecked)

  /** What ScriptLoader.load throws. */
  datatype LoadFailure = ScriptException(cause: Checked) | RuntimeFailure(exception: Unchecked)

  /** Builder.build's catch clause: checked exceptions become a
      ScriptException with the exception as cause, unchecked ones pass. */
  function Wrap(r: Raised): (f: LoadFailure)
    ensures f.ScriptException? <==> r.CheckedRaised?
  {
    match r
    case CheckedRaised(c) => ScriptException(c)
    case UncheckedRaised(u) => RuntimeFailure(u)
  }
}
