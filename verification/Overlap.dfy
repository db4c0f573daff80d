/** What a command given up on at its timeout can do to the run after it. */
module Overlap {
  import Approval
  import opened Base
  import opened Cluster
  import opened RunMachine
  import opened RunProperties
  import opened RunReach

  lemma {:induction false} ReachConcat(cfg: Config, s: State, a: seq<Action>, b: seq<Action>)
    requires Reach(cfg, s, a).Some?
    ensures Reach(cfg, s, a + b) == Reach(cfg, Reach(cfg, s, a).value, b)
    decreases |b|
  {
    hide Next;
    if b == [] {
      assert a + b == a;
    } else {
      var n := |b| - 1;
      ReachConcat(cfg, s, a, b[..n]);
      assert (a + b)[..|a + b| - 1] == a + b[..n] && (a + b)[|a + b| - 1] == b[n];
    }
  }

  lemma Then(cfg: Config, s: State, actions: seq<Action>, t: State, a: Action)
    requires Reach(cfg, s, actions) == Some(t)
    ensures Reach(cfg, s, actions + [a]) == Next(cfg, t, a)
  {
    ReachConcat(cfg, s, actions, [a]);
    ReachOne(cfg, t, a);
  }

  lemma OneMore(cfg: Config, s: State, p: nat, e: Event, pc: Pc)
    requires p in s.sections && Step(cfg, s.sections[p].pc, e) == Some(pc) && (e.ReadLock? ==> e.text == s.world.lock)
    ensures var next := Next(cfg, s, Act(p, e, false)); var section := s.sections[p];
            && next.Some? && next.value.world == Do(s.world, e)
            && next.value.owner == s.owner && next.value.strays == s.strays
            && next.value.sections == s.sections[p := section.(es := section.es + [e], pc := pc)]
  {
    hide Step;
    hide Do;
  }

  /** A run of the machine is a run of a process inside. */
  lemma {:induction false} RunsOn(cfg: Config, s: State, p: nat, es: seq<Event>, pc: Pc) returns (t: State)
    requires p in s.sections && Steps(cfg, s.sections[p].pc, es) == Some(pc) && Faithful(s.world, es)
    ensures Reach(cfg, s, InARow(p, es)) == Some(t)
    ensures t.world == DoAll(s.world, es) && t.owner == s.owner && t.strays == s.strays
    ensures t.sections == s.sections[p := s.sections[p].(es := s.sections[p].es + es, pc := pc)]
    decreases |es|
  {
    hide Step;
    hide Do;
    hide Next;
    var section := s.sections[p];
    if es == [] {
      assert section.es + es == section.es;
      assert s.sections[p := section] == s.sections;
      t := s;
    } else {
      var n := |es| - 1;
      var before := Steps(cfg, section.pc, es[..n]).value;
      assert forall i :: 0 <= i < n ==> es[..n][..i] == es[..i];
      var u := RunsOn(cfg, s, p, es[..n], before);
      OneMore(cfg, u, p, es[n], pc);
      assert InARow(p, es)[..n] == InARow(p, es[..n]);
      assert section.es + es[..n] + [es[n]] == section.es + es;
      t := Next(cfg, u, Act(p, es[n], false)).value;
    }
  }

  /** An upgrade as far as the migration: nothing has been touched yet. */
  lemma UpToMigration(cfg: Config, s: State, call: Call, st: LockState, rel: Release)
    returns (actions: seq<Action>, t: State, job: Job)
    requires Initial(s) && IsRunId(call.runId) && call.request.action == Approval.Upgrade && Fits(rel, call.request.tag)
    requires cfg.format.read(s.world.lock) == Ok(st) && CanUpgrade(cfg, call, st, rel)
    ensures Reach(cfg, s, actions) == Some(t) && forall i :: 0 <= i < |actions| ==> !actions[i].Kill?
    ensures t.owner == Some(0) && t.strays == 0 && t.world == s.world
    ensures t.sections.Keys == {0} && t.sections[0].pc == Pulling(job) && AfterPull(job) == Migrating(job)
  {
    hide Step;
    hide CanUpgrade;
    hide Fits;
    var es;
    job, es := FittingUpgradeToPull(cfg, call, s.world.lock, st, rel);
    ReadOnceIsFaithful(s.world, es);
    PullingIsUntouched(cfg, call, s.world, es, job);
    hide DoAll;
    hide Faithful;
    hide AfterPull;
    var acquire := Acquire(0, call);
    ReachOne(cfg, s, acquire);
    var u := Next(cfg, s, acquire).value;
    t := RunsOn(cfg, u, 0, es, Pulling(job));
    hide Steps;
    hide Reach;
    ReachConcat(cfg, s, [acquire], InARow(0, es));
    actions := [acquire] + InARow(0, es);
  }

  lemma PullingIsUntouched(cfg: Config, call: Call, w0: World, es: seq<Event>, job: Job)
    requires RunOf(cfg, call, w0, es, Pulling(job))
    ensures DoAll(w0, es) == w0
  {
    RunIsAt(cfg, call, w0, es, Pulling(job));
    hide DoAll;
    hide Steps;
  }

  /** The pull, and a migrator given up at its timeout. */
  lemma GivenUp(cfg: Config, s: State, before: seq<Action>, u: State, job: Job, db: string)
    returns (actions: seq<Action>, t: State)
    requires Reach(cfg, s, before) == Some(u) && forall i :: 0 <= i < |before| ==> !before[i].Kill?
    requires u.owner == Some(0) && u.sections.Keys == {0}
    requires u.sections[0].pc == Pulling(job) && AfterPull(job) == Migrating(job)
    ensures Reach(cfg, s, actions) == Some(t) && forall i :: 0 <= i < |actions| ==> !actions[i].Kill?
    ensures t.owner == Some(0) && t.sections.Keys == {0} && t.sections[0].pc.Done?
    ensures t.strays == u.strays + 1 && t.world == u.world.(db := db)
  {
    var migrate := Migrate(job.target, job.call.request.allowDestructive, TIMED_OUT, db);
    GivingUp(cfg, job, migrate);
    hide Step;
    hide Reach;
    hide AfterPull;
    hide MayLinger;
    var pull := Pull(job.target, true);
    OneMore(cfg, u, 0, pull, Migrating(job));
    actions, t := Extended(cfg, s, before, u, Act(0, pull, false));
    actions, t := Extended(cfg, s, actions, t, Act(0, migrate, true));
  }

  /** An upgrade whose migrator is given up at its timeout, up to its end. */
  lemma TimedOutMigration(cfg: Config, s: State, call: Call, st: LockState, rel: Release, db: string)
    returns (actions: seq<Action>, t: State)
    requires Initial(s) && IsRunId(call.runId) && call.request.action == Approval.Upgrade && Fits(rel, call.request.tag)
    requires cfg.format.read(s.world.lock) == Ok(st) && CanUpgrade(cfg, call, st, rel)
    ensures Reach(cfg, s, actions) == Some(t) && forall i :: 0 <= i < |actions| ==> !actions[i].Kill?
    ensures t.owner == None && t.sections == map[] && t.strays == 1 && t.world == s.world.(db := db)
  {
    var job;
    actions, t, job := UpToMigration(cfg, s, call, st, rel);
    actions, t := GivenUp(cfg, s, actions, t, job, db);
    hide Step;
    hide CanUpgrade;
    hide Fits;
    hide Reach;
    actions, t := Extended(cfg, s, actions, t, Action.Release(0));
  }

  const TIMED_OUT := 124

  lemma GivingUp(cfg: Config, job: Job, migrate: Event)
    requires AfterPull(job) == Migrating(job)
    requires migrate.Migrate? && migrate.images == job.target
             && migrate.destructive == job.call.request.allowDestructive
    requires migrate.exit == TIMED_OUT
    ensures Step(cfg, Pulling(job), Pull(job.target, true)) == Some(Migrating(job))
    ensures Step(cfg, Migrating(job), migrate) == Some(Done(MigrationFailed, Some(job)))
    ensures MayLinger(migrate)
  {
  }

  lemma Extended(cfg: Config, s: State, before: seq<Action>, u: State, a: Action)
    returns (actions: seq<Action>, t: State)
    requires Reach(cfg, s, before) == Some(u) && Next(cfg, u, a).Some? && !a.Kill?
    requires forall i :: 0 <= i < |before| ==> !before[i].Kill?
    ensures actions == before + [a] && Reach(cfg, s, actions) == Some(t) && Next(cfg, u, a) == Some(t)
    ensures forall i :: 0 <= i < |actions| ==> !actions[i].Kill?
  {
    hide Next;
    Then(cfg, s, before, u, a);
    actions, t := before + [a], Next(cfg, u, a).value;
  }

  /** A run, with nobody else inside, whose tag does not resolve. */
  lemma RefusedNext(cfg: Config, s: State, before: seq<Action>, u: State, call: Call, st: LockState)
    returns (actions: seq<Action>, t: State)
    requires Reach(cfg, s, before) == Some(u) && forall i :: 0 <= i < |before| ==> !before[i].Kill?
    requires u.owner == None && u.sections == map[] && IsRunId(call.runId)
    requires call.request.action == Approval.Upgrade && cfg.format.read(u.world.lock) == Ok(st)
    ensures Reach(cfg, s, actions) == Some(t) && forall i :: 0 <= i < |actions| ==> !actions[i].Kill?
    ensures t.world == u.world && t.strays == u.strays && t.sections.Keys == {1}
    ensures t.sections[1].call == call && t.sections[1].start == u.world && t.sections[1].pc == Done(Refused, None)
  {
    Unresolved(cfg, call, u.world.lock, st);
    hide Step;
    hide Reach;
    hide MayLinger;
    actions, t := Extended(cfg, s, before, u, Acquire(1, call));
    actions, t := Extended(cfg, s, actions, t, Act(1, ReadLock(u.world.lock), false));
    actions, t := Extended(cfg, s, actions, t, Act(1, Resolve(None), false));
  }

  /** Wherever an upgrade can succeed at all, its migrator can instead be given up
      at its timeout and go on; the next run then says "refused; nothing
      changed" of a schema that changed under it, with nothing ever killed. */
  lemma TimeoutBeliesTheNextRun(cfg: Config, s: State, call: Call, st: LockState, rel: Release, later: Call)
    returns (actions: seq<Action>, t: State)
    requires Initial(s) && IsRunId(call.runId) && call.request.action == Approval.Upgrade && Fits(rel, call.request.tag)
    requires cfg.format.read(s.world.lock) == Ok(st) && CanUpgrade(cfg, call, st, rel)
    requires IsRunId(later.runId) && later.request.action == Approval.Upgrade
    ensures Reach(cfg, s, actions) == Some(t) && forall i :: 0 <= i < |actions| ==> !actions[i].Kill?
    ensures 1 in t.sections && t.sections[1].call == later && t.sections[1].pc == Done(Refused, None)
    ensures t.world.db != t.sections[1].start.db
  {
    actions, t := TimedOutMigration(cfg, s, call, st, rel, s.world.db);
    actions, t := RefusedNext(cfg, s, actions, t, later, st);
    hide Step;
    hide CanUpgrade;
    hide Fits;
    hide Reach;
    actions, t := Extended(cfg, s, actions, t, Stray(t.world.running, t.world.db + "'"));
  }

  lemma Unresolved(cfg: Config, call: Call, text: string, st: LockState)
    requires call.request.action == Approval.Upgrade && cfg.format.read(text) == Ok(st)
    ensures Step(cfg, Reading(call), ReadLock(text)) == Some(Resolving(call, st))
    ensures Step(cfg, Resolving(call, st), Resolve(None)) == Some(Done(Refused, None))
  {
  }
}
