/** The disk under the run theorems: `write_lock`, operation by operation, does
    what a run's last two events say, and a power loss brings back nothing they
    do not allow for. */
module Durability {
  import opened AtomicReplace
  import opened Base
  import opened Cluster
  import opened RunMachine
  import Engine
  import Lockfile
  import Versions

  /** The lock's path reads as the state says, and after losing power now only
      as one of its survivors. */
  ghost predicate Holds(d: Disk, s: State) {
    && d.Valid() && d.Reads() == Some(s.world.lock)
    && forall text :: d.MayRead(text) ==> text.Some? && text.value in s.survivors
  }

  /** What a write that ended in `r` was, event by event. */
  function EventsOf(r: WriteResult, text: string): seq<Event> {
    match r
    case Rejected => [Unwritten]
    case Raised(renamed) => if renamed then [Rename(text), SyncDir(false)] else [Unwritten]
    case Replaced => [Rename(text), SyncDir(true)]
  }

  lemma ReachTwo(cfg: Config, s: State, a: Action, b: Action)
    requires Next(cfg, s, a).Some?
    ensures Reach(cfg, s, [a, b]) == Next(cfg, Next(cfg, s, a).value, b)
  {
    ReachOne(cfg, s, a);
    assert [a, b][..1] == [a];
    hide Next;
  }

  /** The state once the new text is in place and nothing is synced yet. */
  function Renamed(cfg: Config, s: State, p: nat, text: string): State
    requires Next(cfg, s, Act(p, Rename(text), false)).Some?
  {
    Next(cfg, s, Act(p, Rename(text), false)).value
  }

  lemma ActMoves(cfg: Config, s: State, p: nat, e: Event, pc: Pc)
    requires p in s.sections && (e.Rename? || e.SyncDir? || e.Unwritten?) && Step(cfg, s.sections[p].pc, e) == Some(pc)
    ensures var next := Next(cfg, s, Act(p, e, false));
      && next.Some? && p in next.value.sections && next.value.sections[p].pc == pc
      && next.value.world == (if e.Rename? then s.world.(lock := e.text) else s.world)
      && next.value.survivors == if e.Rename? then s.survivors + {e.text}
                                 else if e == SyncDir(true) then {s.world.lock} else s.survivors
  {
    hide Step;
  }

  /** The text a commit of `job` writes, if there is one. */
  function TextOf(cfg: Config, job: Job): string {
    if Render(cfg, job).Ok? then Render(cfg, job).value else ""
  }

  lemma UnwrittenReaches(cfg: Config, s: State, p: nat, job: Job) returns (t: State)
    requires p in s.sections && s.sections[p].pc == Committing(job)
    ensures Reach(cfg, s, InARow(p, [Unwritten])) == Some(t) && t.world == s.world && t.survivors == s.survivors
    ensures p in t.sections && t.sections[p].pc.Done? && t.sections[p].pc.outcome != Succeeded
  {
    Engine.CommitStep(cfg, job, false);
    var pc := Step(cfg, Committing(job), Unwritten).value;
    hide Step;
    ActMoves(cfg, s, p, Unwritten, pc);
    hide Next;
    var a := Act(p, Unwritten, false);
    t := Next(cfg, s, a).value;
    ReachOne(cfg, s, a);
    assert InARow(p, [Unwritten]) == [a];
  }

  lemma RenameReaches(cfg: Config, s: State, p: nat, job: Job, synced: bool) returns (t: State)
    requires p in s.sections && s.sections[p].pc == Committing(job) && Render(cfg, job).Ok?
    ensures var text := TextOf(cfg, job);
      && Next(cfg, s, Act(p, Rename(text), false)).Some?
      && Reach(cfg, s, InARow(p, [Rename(text), SyncDir(synced)])) == Some(t)
      && t.world == s.world.(lock := text) && t.survivors == if synced then {text} else s.survivors + {text}
    ensures p in t.sections && t.sections[p].pc.Done? && (t.sections[p].pc.outcome == Succeeded <==> synced)
  {
    Engine.CommitStep(cfg, job, synced);
    var text, pc := TextOf(cfg, job), Step(cfg, Syncing(job), SyncDir(synced)).value;
    hide Step;
    hide Render;
    ActMoves(cfg, s, p, Rename(text), Syncing(job));
    var a, b := Act(p, Rename(text), false), Act(p, SyncDir(synced), false);
    var u := Next(cfg, s, a).value;
    ActMoves(cfg, u, p, SyncDir(synced), pc);
    hide Next;
    hide TextOf;
    t := Next(cfg, u, b).value;
    ReachTwo(cfg, s, a, b);
    hide Reach;
    assert InARow(p, [Rename(text), SyncDir(synced)]) == [a, b];
  }

  /** `write_lock` at the end of a run: when it returns, the disk holds the state
      its events lead to, and after every single operation the state the run was
      killed in there, before its rename or after it. */
  method Commit(cfg: Config, dir: Directory, ghost s: State, ghost p: nat, job: Job)
    returns (r: WriteResult, ghost t: State)
    requires cfg.format == LOCK_TEXT && p in s.sections && s.sections[p].pc == Committing(job) && Holds(dir.disk, s)
    modifies dir
    ensures r == Rejected <==> Render(cfg, job).Err?
    ensures Reach(cfg, s, InARow(p, EventsOf(r, TextOf(cfg, job)))) == Some(t) && Holds(dir.disk, t)
    ensures p in t.sections && t.sections[p].pc.Done? && (t.sections[p].pc.outcome == Succeeded <==> r == Replaced)
    ensures old(dir.seen) <= dir.seen && (r == Rejected ==> dir.seen == old(dir.seen))
    ensures Render(cfg, job).Ok? ==> Next(cfg, s, Act(p, Rename(TextOf(cfg, job)), false)).Some?
    ensures Render(cfg, job).Ok? ==> forall i :: |old(dir.seen)| <= i < |dir.seen| ==>
              Holds(dir.seen[i], s) || Holds(dir.seen[i], Renamed(cfg, s, p, TextOf(cfg, job)))
  {
    ghost var before := dir.disk;
    r := dir.WriteLock(NewState(job), Header(job));
    var text := TextOf(cfg, job);
    assert Render(cfg, job) == Lockfile.Render(NewState(job), Header(job));
    hide Render;
    hide Lockfile.Render;
    if r == Rejected || r == Raised(false) {
      t := UnwrittenReaches(cfg, s, p, job);
      HoldsAsBefore(before, dir.disk, s, t);
    } else {
      t := RenameReaches(cfg, s, p, job, r == Replaced);
      HoldsTheNew(before, dir.disk, s, t, text);
    }
    if Render(cfg, job).Ok? {
      var _ := RenameReaches(cfg, s, p, job, true);
      RenameEffect(cfg, s, p, text);
      forall i | |old(dir.seen)| <= i < |dir.seen|
        ensures Holds(dir.seen[i], s) || Holds(dir.seen[i], Renamed(cfg, s, p, text))
      {
        HoldsOldOrNew(before, dir.seen[i], s, Renamed(cfg, s, p, text), text);
      }
    }
    hide Holds;
    hide OldOrNew;
    hide Next;
    hide Reach;
  }

  lemma HoldsAsBefore(before: Disk, d: Disk, s: State, t: State)
    requires Holds(before, s) && d.Valid() && d.Reads() == before.Reads() && t.world == s.world
             && t.survivors == s.survivors
    requires forall text :: d.MayRead(text) ==> before.MayRead(text)
    ensures Holds(d, t)
  {
  }

  lemma HoldsTheNew(before: Disk, d: Disk, s: State, t: State, text: string)
    requires Holds(before, s) && d.Valid() && d.Reads() == Some(text) && t.world.lock == text
    requires || (t.survivors == {text} && forall x :: d.MayRead(x) ==> x == Some(text))
             || (t.survivors == s.survivors + {text}
                 && forall x :: d.MayRead(x) ==> before.MayRead(x) || x == Some(text))
    ensures Holds(d, t)
  {
  }

  lemma HoldsOldOrNew(before: Disk, d: Disk, s: State, t: State, text: string)
    requires Holds(before, s) && OldOrNew(before, text, d) && t.world.lock == text
             && t.survivors == s.survivors + {text}
    ensures Holds(d, s) || Holds(d, t)
  {
  }

  lemma RenameEffect(cfg: Config, s: State, p: nat, text: string)
    requires Next(cfg, s, Act(p, Rename(text), false)).Some?
    ensures var t := Renamed(cfg, s, p, text); t.world == s.world.(lock := text) && t.survivors == s.survivors + {text}
  {
    hide Step;
  }

  /** Everything but a rename, its sync and a power loss leaves the lock on the
      disk alone, and what is asked of it. */
  lemma OthersLeaveTheDisk(cfg: Config, s: State, a: Action, d: Disk)
    requires Holds(d, s) && Next(cfg, s, a).Some?
    requires !a.PowerLoss? && (a.Act? ==> !a.e.Rename? && !a.e.SyncDir?)
    ensures Holds(d, Next(cfg, s, a).value)
  {
    hide Step;
    if a.Act? {
      LockMoves(s.world, a.e);
    }
    hide Do;
  }

  /** What a power loss leaves on the disk is a power loss of the state. */
  lemma LossIsForeseen(cfg: Config, s: State, d: Disk, after: Disk, running: Running)
    requires Holds(d, s) && d.PowerLoss(after)
    ensures after.Reads().Some? && Next(cfg, s, PowerLoss(running, after.Reads().value)).Some?
    ensures Holds(after, Next(cfg, s, PowerLoss(running, after.Reads().value)).value)
  {
    PowerLossReadsAsFeared(d, after);
    hide Step;
  }

  /** So over any history of console upgrades among semantic versions, nothing
      the disk may ever come back as names a version older than the first. */
  lemma DiskNeverDescends(cfg: Config, s: State, actions: seq<Action>, t: State, d: Disk)
    requires cfg.format == LOCK_TEXT && Initial(s) && Reach(cfg, s, actions) == Some(t) && Holds(d, t)
    requires Versions.IsSemantic(Named(s.world.lock)) && forall i :: 0 <= i < |t.log| ==> ConsoleUpgrade(t.log[i])
    ensures forall text :: d.MayRead(text) ==> text.Some? && AtLeast(Named(s.world.lock), text.value)
  {
    InitialIsFine(cfg, s);
    hide AtLeast;
    hide ConsoleUpgrade;
    hide Reach;
    ConsoleNeverDescends(cfg, s.world.lock, s, actions, t);
  }
}
