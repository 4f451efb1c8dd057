/** Cooperative cancellation: a shared cell another thread may change at any moment. */
module Cancellation {

  /** What a worker sees of the cell. Each poll may answer anything; `fired` remembers whether one answered yes. */
  class CancelToken {
    ghost var fired: bool

    constructor ()
      ensures !fired
    {
      fired := false;
    }

    method Poll() returns (cancelled: bool)
      modifies this
      ensures fired == (old(fired) || cancelled)
    {
      cancelled := *;
      fired := fired || cancelled;
    }

    /** The builder looks at the cell every 4096 steps only. */
    method PollEvery(step: nat) returns (cancelled: bool)
      modifies this
      ensures fired == (old(fired) || cancelled)
      ensures step % 4096 != 0 ==> !cancelled
    {
      cancelled := false;
      if step % 4096 == 0 {
        cancelled := Poll();
      }
    }
  }
}
