/** Replacing `release.lock` on a disk that can fail, or lose power, between
    any two operations: a reader finds the whole old text or the whole new one. */
module AtomicReplace {
  import opened Base
  import Lockfile

  datatype Inode = Inode(content: string, synced: bool)

  /** The directory as running processes see it (`entry`, `temp`), and what a
      power loss may leave: the lock's name can come back as anything it has
      named since the directory was last synced (`survivors`). */
  datatype Disk = Disk(inodes: map<nat, Inode>, entry: Option<nat>, survivors: set<Option<nat>>, temp: Option<nat>) {

    ghost predicate Valid() {
      && entry in survivors
      && forall e :: e in survivors && e.Some? ==> e.value in inodes && inodes[e.value].synced
    }

    /** What the lock's path reads as now. */
    function Reads(): Option<string> {
      if entry.Some? && entry.value in inodes then Some(inodes[entry.value].content) else None
    }

    /** What it may read as after a power loss now: data not yet synced comes back as anything. */
    ghost predicate MayRead(text: Option<string>) {
      exists e :: e in survivors && ReadsAs(e, text)
    }

    ghost predicate ReadsAs(e: Option<nat>, text: Option<string>) {
      if e.None? || e.value !in inodes then text == None
      else text.Some? && (inodes[e.value].synced ==> text.value == inodes[e.value].content)
    }

    /** The disk after power comes back, with `e` the entry that survived. */
    ghost predicate PowerLoss(after: Disk) {
      && after.entry in survivors && after.survivors == {after.entry}
      && forall i :: i in inodes && inodes[i].synced ==> i in after.inodes && after.inodes[i] == inodes[i]
    }
  }

  /** Seen from `before`, everything is still as it was; or the path in `d` holds
      `text` complete, and after losing power now that or a text it already
      might have held. */
  ghost predicate OldOrNew(before: Disk, text: string, d: Disk) {
    && d.Valid()
    && ((d.Reads() == before.Reads() && forall t :: d.MayRead(t) ==> before.MayRead(t))
        || (d.Reads() == Some(text) && forall t :: d.MayRead(t) ==> before.MayRead(t) || t == Some(text)))
  }

  datatype WriteResult = Rejected | Raised(renamed: bool) | Replaced

  class Directory {
    var disk: Disk
    ghost var seen: seq<Disk>  // the disk after every single operation so far

    constructor (d: Disk)
      ensures disk == d && seen == []
    {
      disk, seen := d, [];
    }

    method Become(d: Disk)
      modifies this
      ensures disk == d && seen == old(seen) + [d]
    {
      disk, seen := d, seen + [d];
    }

    /** `write_lock`. Every operation may raise, and writing may stop anywhere;
        an interruption may also arrive just after the rename. */
    method WriteLock(state: Lockfile.LockState, header: string) returns (r: WriteResult)
      requires disk.Valid()
      modifies this
      ensures disk.Valid()
      ensures r == Rejected <==> Lockfile.Render(state, header).Err?
      ensures r == Rejected ==> disk == old(disk) && seen == old(seen)
      ensures old(seen) <= seen
      ensures r != Rejected ==> var text := Lockfile.Render(state, header).value;
                forall i :: |old(seen)| <= i < |seen| ==> OldOrNew(old(disk), text, seen[i])
      ensures r != Rejected ==> OldOrNew(old(disk), Lockfile.Render(state, header).value, disk)
      ensures r == Replaced ==> var text := Some(Lockfile.Render(state, header).value);
                disk.Reads() == text && forall t :: disk.MayRead(t) ==> t == text
      ensures r == Raised(false) ==>
                disk.Reads() == old(disk.Reads()) && forall t :: disk.MayRead(t) <==> old(disk).MayRead(t)
      ensures r == Raised(true) ==> disk.Reads() == Some(Lockfile.Render(state, header).value)
      ensures r == Replaced || r == Raised(true) ==> disk.temp == None
    {
      var content := Lockfile.RenderLock(state, header);
      if content.Err? {
        return Rejected;
      }
      ghost var before := disk;
      var written, ino := WriteTemp(content.value);
      UntouchedReadsTheSame(before, disk);
      var fails: bool := *;
      if !written || fails {  // chmod, or the rename itself
        var unlinked: bool := *;
        if unlinked {
          Become(disk.(temp := None));
        }
        return Raised(false);
      }
      Become(disk.(entry := Some(ino), survivors := disk.survivors + {Some(ino)}, temp := None));
      RenameAddsText(before, disk, ino, content.value);
      fails := *;
      if fails {  // interrupted here, or opening or syncing the directory
        return Raised(true);
      }
      Become(disk.(survivors := {disk.entry}));
      return Replaced;
    }

    /** mkstemp, write, flush and fsync of the temporary file. */
    method WriteTemp(text: string) returns (ok: bool, ino: nat)
      requires disk.Valid()
      modifies this
      ensures Untouched(old(disk), disk) && old(seen) <= seen
      ensures forall i :: |old(seen)| <= i < |seen| ==> OldOrNew(old(disk), text, seen[i])
      ensures ok ==> ino !in old(disk).inodes && ino in disk.inodes && disk.inodes[ino] == Inode(text, true)
      ensures !ok ==> disk.temp == old(disk.temp) || disk.temp == Some(ino)
    {
      ghost var before := disk;
      BoundExists(disk.inodes.Keys);
      ino :| ino !in disk.inodes;
      var fails: bool := *;
      if fails {
        return false, ino;
      }
      var done: nat := 0;
      Become(disk.(inodes := disk.inodes[ino := Inode("", false)], temp := Some(ino)));
      UntouchedReadsTheSame(before, disk);
      while done < |text| && !fails
        invariant done <= |text| && old(seen) <= seen && disk.temp == Some(ino)
        invariant Untouched(before, disk) && ino in disk.inodes && disk.inodes[ino].content == text[..done]
        invariant forall i :: |old(seen)| <= i < |seen| ==> OldOrNew(before, text, seen[i])
        decreases |text| - done, if fails then 0 else 1
      {
        var n: nat :| 1 <= n <= |text| - done;
        done := done + n;
        Become(disk.(inodes := disk.inodes[ino := Inode(text[..done], false)]));
        UntouchedReadsTheSame(before, disk);
        fails := *;
      }
      if fails {
        return false, ino;
      }
      assert text[..|text|] == text;
      Become(disk.(inodes := disk.inodes[ino := Inode(text, true)]));
      UntouchedReadsTheSame(before, disk);
      ok := true;
    }
  }

  /** Nothing the lock's path can be read through has changed. */
  ghost predicate Untouched(before: Disk, d: Disk) {
    && d.entry == before.entry && d.survivors == before.survivors
    && forall i :: i in before.inodes ==> i in d.inodes && d.inodes[i] == before.inodes[i]
  }

  lemma UntouchedReadsTheSame(before: Disk, d: Disk)
    requires before.Valid() && Untouched(before, d)
    ensures d.Valid() && d.Reads() == before.Reads()
    ensures forall t :: d.MayRead(t) <==> before.MayRead(t)
  {
    forall e, t | e in d.survivors ensures d.ReadsAs(e, t) <==> before.ReadsAs(e, t) {
    }
    forall t ensures d.MayRead(t) <==> before.MayRead(t) {
    }
  }

  lemma RenameAddsText(before: Disk, d: Disk, ino: nat, text: string)
    requires before.Valid() && ino !in before.inodes
    requires forall i :: i in before.inodes ==> i in d.inodes && d.inodes[i] == before.inodes[i]
    requires ino in d.inodes && d.inodes[ino] == Inode(text, true)
    requires d.survivors == before.survivors + {Some(ino)}
    ensures forall t :: d.MayRead(t) ==> before.MayRead(t) || t == Some(text)
  {
    forall t | d.MayRead(t) ensures before.MayRead(t) || t == Some(text) {
      var e :| e in d.survivors && d.ReadsAs(e, t);
      if e != Some(ino) {
        assert before.ReadsAs(e, t);
      }
    }
  }

  lemma {:induction false} BoundExists(s: set<nat>)
    ensures exists n: nat :: n !in s && forall x :: x in s ==> x < n
  {
    if s == {} {
      assert 0 !in s;
    } else {
      var x :| x in s;
      BoundExists(s - {x});
      var n: nat :| n !in s - {x} && forall y :: y in s - {x} ==> y < n;
      var m := if n <= x then x + 1 else n;
      forall y | y in s ensures y < m {
        assert y == x || y in s - {x};
      }
      assert m !in s;
    }
  }

  // ---- many writers, many power losses -----------------------------------

  datatype Change = Attempt(text: string) | Outage

  /** What one write attempt, finished or cut short anywhere, or one power loss does. */
  ghost predicate Follows(d: Disk, change: Change, after: Disk) {
    match change
    case Attempt(text) => OldOrNew(d, text, after)
    case Outage => d.PowerLoss(after)
  }

  lemma PowerLossReadsAsFeared(d: Disk, after: Disk)
    requires d.Valid() && d.PowerLoss(after)
    ensures after.Valid() && d.MayRead(after.Reads())
    ensures forall t :: after.MayRead(t) ==> d.MayRead(t)
  {
    assert d.ReadsAs(after.entry, after.Reads());
    forall t | after.MayRead(t) ensures d.MayRead(t) {
      assert after.ReadsAs(after.entry, t);
    }
  }

  lemma ReadingIsPossible(d: Disk)
    requires d.Valid()
    ensures d.MayRead(d.Reads())
  {
    assert d.ReadsAs(d.entry, d.Reads());
  }

  /** Over any history of write attempts, crashes in the middle of them and
      power losses, the path reads as a text it could have held at the start or
      as one of the attempted texts, complete. */
  lemma {:induction false} AlwaysOneWholeText(disks: seq<Disk>, changes: seq<Change>, text: Option<string>)
    requires |disks| == |changes| + 1 && disks[0].Valid()
    requires forall i :: 0 <= i < |changes| ==> Follows(disks[i], changes[i], disks[i + 1])
    requires text == disks[|changes|].Reads() || disks[|changes|].MayRead(text)
    ensures disks[|changes|].Valid()
    ensures || disks[0].MayRead(text)
            || exists i :: 0 <= i < |changes| && changes[i].Attempt? && text == Some(changes[i].text)
    decreases |changes|
  {
    ReadingIsPossible(disks[0]);
    if changes != [] {
      var n := |changes| - 1;
      AlwaysOneWholeText(disks[..n + 1], changes[..n], disks[n].Reads());
      if changes[n].Outage? {
        PowerLossReadsAsFeared(disks[n], disks[n + 1]);
      }
      if disks[n].MayRead(text) {
        AlwaysOneWholeText(disks[..n + 1], changes[..n], text);
      }
    }
  }
}
