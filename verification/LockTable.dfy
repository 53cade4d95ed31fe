/** The table of per-name locks. */
module LockTable {

  class RWMutex {
    constructor ()
    {
    }
  }

  class Manager {
    var locks: map<string, RWMutex>

    /** Different names never share a lock. */
    ghost predicate Valid()
      reads this
    {
      forall m, n :: m in locks && n in locks && locks[m] == locks[n] ==> m == n
    }

    constructor ()
      ensures Valid() && locks == map[]
    {
      locks := map[];
    }

    /** A name keeps its lock for ever, so all who ask for it get the same one. */
    method GetOrCreate(name: string) returns (lock: RWMutex)
      requires Valid()
      modifies this
      ensures Valid() && name in locks && lock == locks[name]
      ensures name in old(locks) ==> locks == old(locks)
      ensures name !in old(locks) ==> fresh(lock) && locks == old(locks)[name := lock]
    {
      if name in locks {
        return locks[name];
      }
      lock := new RWMutex();
      locks := locks[name := lock];
    }
  }
}
