/** The per-instance `flock`: non-blocking, owned by one open file description. */
module Locking {
  import opened Base

  /** The kernel's view of one lock file. */
  class FlockTable {
    var holder: Option<nat>
    var nextFd: nat

    constructor ()
      ensures holder == None
    {
      holder, nextFd := None, 0;
    }
  }

  datatype OpenResult = Opened | Symlink | Failed

  datatype AcquireResult = Acquired | InstanceLocked | OsError

  class InstanceLock {
    const table: FlockTable
    var fd: Option<nat>

    /** What this object holds, the kernel says it holds. */
    ghost predicate Valid()
      reads this, table
    {
      && (fd.Some? ==> table.holder == fd)
      && (table.holder.Some? ==> table.holder.value < table.nextFd)
    }

    constructor (t: FlockTable)
      requires t.holder.Some? ==> t.holder.value < t.nextFd
      ensures Valid() && table == t && fd == None
    {
      table, fd := t, None;
    }

    /** Succeeds exactly when the file opens and nobody holds the lock, this
        object included; otherwise nothing changes. */
    method Acquire(open: OpenResult) returns (r: AcquireResult)
      requires Valid()
      modifies this, table
      ensures Valid()
      ensures r == Acquired <==> open == Opened && old(table.holder) == None
      ensures r == OsError <==> open == Failed
      ensures r == Acquired ==> fd.Some? && table.holder == fd && fd.value == old(table.nextFd)
      ensures r != Acquired ==> fd == old(fd) && table.holder == old(table.holder)
    {
      if open != Opened {
        return if open == Symlink then InstanceLocked else OsError;
      }
      var mine := table.nextFd;
      table.nextFd := mine + 1;
      if table.holder.Some? {
        return InstanceLocked;
      }
      table.holder := Some(mine);
      fd := Some(mine);
      return Acquired;
    }

    method Release()
      requires Valid()
      modifies this, table
      ensures Valid() && fd == None
      ensures table.holder == if old(fd).Some? then None else old(table.holder)
      ensures table.nextFd == old(table.nextFd)
    {
      if fd.Some? {
        table.holder := None;
        fd := None;
      }
    }

    /** Probing changes neither who holds the lock nor what this object holds. */
    method Available(open: OpenResult) returns (free: bool, raised: bool)
      requires Valid()
      modifies this, table
      ensures Valid() && fd == old(fd) && table.holder == old(table.holder)
      ensures raised <==> open == Failed
      ensures free <==> open == Opened && old(table.holder) == None
    {
      var r := Acquire(open);
      if r != Acquired {
        return false, r == OsError;
      }
      Release();
      return true, false;
    }
  }
}
