/** The static `instanceCount` of week03/box.cpp:41, week04/box.cpp:116 and
    week05/box.cpp:164: a process-wide counter that hands out box ids and is never
    decremented. The program has one; every box of a revision shares it. */
module IdCounters {

  class IdCounter {
    /** The id the next box will get. */
    var next: int

    /** Static initialisation: `instanceCount = 0`. */
    constructor ()
      ensures next == 0
    {
      next := 0;
    }

    /** `instanceCount++`: yields the current value and advances the counter. */
    method Take() returns (id: int)
      modifies this
      ensures id == old(next) && next == old(next) + 1
    {
      id := next;
      next := next + 1;
    }
  }
}
