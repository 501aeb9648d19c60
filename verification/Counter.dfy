/** thread_counter.c: an int under a mutex; each operation is one atomic step. */
module Counters {

  class ThreadCounter {
    var count: int

    constructor ()
      ensures count == 0
    {
      count := 0;
    }

    method Increase()
      modifies this
      ensures count == old(count) + 1
    {
      count := count + 1;
    }

    method Decrease()
      modifies this
      ensures count == old(count) - 1
    {
      count := count - 1;
    }

    method Get() returns (c: int)
      ensures c == count
    {
      c := count;
    }

    method Set(value: int)
      modifies this
      ensures count == value
    {
      count := value;
    }
  }
}
