/** The failure state `@actions/core` keeps for the running action. */
module ActionsCore {

  /**
   * Every message passed to `core.setFailed`, in call order. The action fails
   * as soon as there is one; nothing ever clears it.
   */
  class ActionStatus {
    var failures: seq<string>

    constructor ()
      ensures failures == []
    {
      failures := [];
    }

    predicate Failed()
      reads this
    {
      failures != []
    }

    /** `core.setFailed(message)`. */
    method SetFailed(message: string)
      modifies this
      ensures failures == old(failures) + [message]
      ensures Failed()
    {
      failures := failures + [message];
    }
  }
}
