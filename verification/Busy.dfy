/** One lock per seat, made on demand and never shared with another seat. */
module Busy {

  /** A non-reentrant lock, taken without blocking. */
  class Lock {
    var held: bool

    constructor ()
      ensures !held
    {
      held := false;
    }

    method TryAcquire() returns (ok: bool)
      modifies this
      ensures ok == !old(held) && held
    {
      ok := !held;
      held := true;
    }

    method Release()
      requires held
      modifies this
      ensures !held
    {
      held := false;
    }
  }

  class SeatLocks<Key(==)> {
    var locks: map<Key, Lock>

    /** Two seats never have one lock between them. */
    ghost predicate Valid()
      reads this
    {
      forall j, k :: j in locks && k in locks && locks[j] == locks[k] ==> j == k
    }

    constructor ()
      ensures Valid() && locks == map[]
    {
      locks := map[];
    }

    /** The lock already made for this seat, or a new one that no seat has; other seats keep theirs. */
    method LockFor(key: Key) returns (got: Lock)
      requires Valid()
      modifies this
      ensures Valid()
      ensures locks == old(locks)[key := got]
      ensures key in old(locks) ==> got == old(locks)[key] && locks == old(locks)
      ensures key !in old(locks) ==> fresh(got) && !got.held
    {
      if key in locks {
        got := locks[key];
      } else {
        got := new Lock();
        locks := locks[key := got];
      }
    }

    /** Forget every lock; a lock a caller already holds stays held but guards nothing here. */
    method Clear() returns (n: nat)
      modifies this
      ensures Valid() && locks == map[] && n == |old(locks)|
    {
      n := |locks|;
      locks := map[];
    }
  }

  /** The second request for a seat gets the lock the first one holds, and is told busy. */
  method SecondCallerIsBusy<Key(==)>(table: SeatLocks<Key>, key: Key, other: Key)
    returns (first: bool, second: bool, elsewhere: bool)
    requires table.Valid() && key !in table.locks && other !in table.locks && key != other
    modifies table
    ensures first && !second && elsewhere
  {
    var a := table.LockFor(key);
    first := a.TryAcquire();
    var b := table.LockFor(key);
    second := b.TryAcquire();
    var c := table.LockFor(other);
    elsewhere := c.TryAcquire();
  }

  /** Why a wipe may not overlap a request: cleared between fetch and acquire, two callers for one
      seat both get a lock. */
  method ClearedBetweenLetsTwoIn<Key(==)>(table: SeatLocks<Key>, key: Key) returns (first: bool, second: bool)
    requires table.Valid() && key !in table.locks
    modifies table
    ensures first && second
  {
    var a := table.LockFor(key);
    var n := table.Clear();
    var b := table.LockFor(key);
    first := b.TryAcquire();
    second := a.TryAcquire();
  }
}
