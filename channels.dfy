/** A Go channel seen sequentially: everything sent on it, in order, and
    whether it has been closed. Buffering and blocking are not modelled. */
module Channels {

  class Channel<T> {
    /** The values sent so far, oldest first. */
    var sent: seq<T>
    /** Set by `close`; Go panics on a send to, or a second close of, a closed channel. */
    var closed: bool

    constructor ()
      ensures sent == [] && !closed
    {
      sent := [];
      closed := false;
    }

    method Send(x: T)
      requires !closed
      modifies this
      ensures sent == old(sent) + [x] && !closed
    {
      sent := sent + [x];
    }

    method Close()
      requires !closed
      modifies this
      ensures closed && sent == old(sent)
    {
      closed := true;
    }
  }
}
