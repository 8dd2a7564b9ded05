/** The generation counter of src/session-list-guard.ts. */
module SessionListGuard {

  class Guard {
    var generation: nat

    constructor ()
      ensures generation == 0
    {
      generation := 0;
    }

    /** A new ticket: larger than every ticket handed out before, and the only active one. */
    method Begin() returns (ticket: nat)
      modifies this
      ensures ticket == generation == old(generation) + 1
    {
      generation := generation + 1;
      return generation;
    }

    /** No ticket handed out so far is active any more. */
    method Invalidate()
      modifies this
      ensures generation == old(generation) + 1
    {
      generation := generation + 1;
    }

    predicate IsActive(ticket: nat)
      reads this
    {
      ticket == generation
    }
  }
}
