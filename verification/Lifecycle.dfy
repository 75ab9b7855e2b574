/** The signals sent about a deployment, in the order in which they are sent. */
module Lifecycle {

  datatype Status = INITIATED | STARTED | SUCCESS | FAILED

  datatype Signal<S> = Signal(status: Status, subject: S)

  class Lifecycle<S> {
    var sent: seq<Signal<S>>

    constructor ()
      ensures sent == []
    {
      sent := [];
    }

    method Change(status: Status, subject: S)
      modifies this
      ensures sent == old(sent) + [Signal(status, subject)]
    {
      sent := sent + [Signal(status, subject)];
    }
  }
}
