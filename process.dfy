/** What the programs see of their process: standard output, the SIGINT
    handler's `quitting` flag, and how main ends. */
module Process {

  /** Standard output, one entry per line printed (without the newline). */
  class Console {
    var lines: seq<string>

    constructor ()
      ensures lines == []
    {
      lines := [];
    }

    method PrintLine(s: string)
      modifies this
      ensures lines == old(lines) + [s]
    {
      lines := lines + [s];
    }
  }

  /** The `quitting` flag that the ctrl-c handler sets. The moment the
      operator presses ctrl-c is fixed in advance: the flag reads false at the
      first checksBeforeInterrupt checks and true from then on. */
  class Interrupt {
    var checksBeforeInterrupt: nat

    constructor (checks: nat)
      ensures checksBeforeInterrupt == checks
    {
      checksBeforeInterrupt := checks;
    }

    /** One read of `quitting`. */
    method Quitting() returns (quitting: bool)
      modifies this
      ensures quitting == (old(checksBeforeInterrupt) == 0)
      ensures checksBeforeInterrupt == if quitting then 0 else old(checksBeforeInterrupt) - 1
    {
      quitting := checksBeforeInterrupt == 0;
      if !quitting {
        checksBeforeInterrupt := checksBeforeInterrupt - 1;
      }
    }
  }

  /** How main ends: by returning the given status, or by a failed assert()
      on the named condition, which aborts the process on the spot. */
  datatype Exit = Returned(status: int) | AssertionFailed(condition: string)
}
