/** The technical and flow bits of the `Return` flag set, and the rules that merge two of them.

    HALTED is raised process-wide by the signal handler, so every normalisation adds it once an
    interruption has been noticed. The local yes/no bits never outlive one `ask` and are not kept. */
module Status {

  datatype Return = Return(success: bool, failure: bool, halted: bool, warning: bool)

  const SUCCESS := Return(true, false, false, false)
  const FAILURE := Return(false, true, false, false)
  const WARNING := Return(false, false, false, true)

  /** A critical bit removes SUCCESS; an interruption adds HALTED. */
  function Normalize(s: Return, interrupted: bool): Return {
    Return(s.success && !s.failure && !s.warning, s.failure, s.halted || interrupted, s.warning)
  }

  function Merge(a: Return, b: Return, interrupted: bool): Return {
    Normalize(
      Return(a.success || b.success, a.failure || b.failure, a.halted || b.halted, a.warning || b.warning),
      interrupted)
  }

  /** `run` does not execute its call when one of these bits is present; `call` ignores them. */
  predicate Skips(s: Return) {
    s.failure || s.halted || s.warning
  }
}
