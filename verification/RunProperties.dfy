/** What each outcome word says about the world, and what has to happen, in
    order, before a run may migrate or recreate. Everything here also covers
    runs cut short by a crash: the statements are about every prefix. */
module RunProperties {
  import opened Base
  import opened Approval
  import opened RunMachine
  import Lockfile
  import Versions

  /** The run read the lock that is there. */
  ghost predicate Faithful(w0: World, es: seq<Event>) {
    forall i :: 0 <= i < |es| && es[i].ReadLock? ==> es[i].text == DoAll(w0, es[..i]).lock
  }

  /** `es` is a complete or interrupted run of `call` from `w0`, now at `pc`. */
  ghost predicate RunOf(cfg: Config, call: Call, w0: World, es: seq<Event>, pc: Pc) {
    Steps(cfg, Reading(call), es) == Some(pc) && Faithful(w0, es)
  }

  /** The job of this call against the lock of this world. */
  ghost predicate JobFrom(cfg: Config, call: Call, w0: World, job: Job) {
    && job.call == call && cfg.format.read(w0.lock) == Ok(job.st)
    && match call.request.action
       case Upgrade =>
         && job.release.Some? && job.target == ImagesFor(job.release.value)
         && job.target.backend == job.release.value.backendRef && job.target.frontend == job.release.value.frontendRef
         && job.target.version == call.request.tag && job.target.appVersion == Some(job.version)
         && job.version == job.release.value.version && job.db == job.release.value.dbRevision
         && Admissible(cfg, call, job.st, job.release.value)
       case Rollback => job.release.None? && job.db.None? && job.st.previous == Some(job.target)
       case Restart =>
         && job.release.None? && job.db.None? && job.target == job.st.current
         && job.version == job.target.ExpectedVersion()
  }

  /** The checks between resolving a tag and the first command. */
  ghost predicate Admissible(cfg: Config, call: Call, st: LockState, rel: Release) {
    && Fits(rel, call.request.tag) && (rel.backendRef, rel.frontendRef) != (st.current.backend, st.current.frontend)
    && (!call.request.allowDowngrade ==> !Versions.IsDowngrade(rel.version, st.current.ExpectedVersion()))
    && cfg.format.render(Lockfile.LockState(ImagesFor(rel), Some(st.current), st.extra), "").Ok?
  }

  /** The world at `pc`, compared with the world the run started in. */
  ghost predicate At(cfg: Config, call: Call, w0: World, w: World, pc: Pc) {
    match pc
    case Reading(c) => c == call && w == w0
    case Resolving(c, st) => c == call && call.request.action == Upgrade && w == w0
        && cfg.format.read(w0.lock) == Ok(st)
    case Probing(c, st, rel) =>
      c == call && call.request.action == Upgrade && w == w0 && cfg.format.read(w0.lock) == Ok(st)
          && Admissible(cfg, call, st, rel)
    case Verifying(job, _, _) => call.request.action != Restart && JobFrom(cfg, call, w0, job) && w == w0
    case ProbingBack(job, _) => call.request.action == Rollback && JobFrom(cfg, call, w0, job) && w == w0
    case Confirming(job) => JobFrom(cfg, call, w0, job) && w == w0
    case BackingUp(job) => call.request.action == Upgrade && JobFrom(cfg, call, w0, job) && w == w0
    case Pulling(job) => call.request.action != Restart && JobFrom(cfg, call, w0, job) && w == w0
    case Restarting(job) => JobFrom(cfg, call, w0, job) && w == w0 && call.request.action == Restart
    case Migrating(job) => JobFrom(cfg, call, w0, job) && w == w0 && call.request.action == Upgrade
    case Recreating(job) => call.request.action != Restart && JobFrom(cfg, call, w0, job) && w.running == w0.running
        && w.lock == w0.lock
    case Healing(job) =>
      JobFrom(cfg, call, w0, job) && w.lock == w0.lock
          && (if call.request.action == Restart then OnlyRevived(w0, w) else w.running == AllOn(job.target))
    case Committing(job) =>
      JobFrom(cfg, call, w0, job) && w.lock == w0.lock && w.running == AllOn(job.target)
          && call.request.action != Restart
    case Syncing(job) =>
      JobFrom(cfg, call, w0, job) && Render(cfg, job) == Ok(w.lock) && w.running == AllOn(job.target)
          && call.request.action != Restart
    case Undoing(job) => JobFrom(cfg, call, w0, job) && w.lock == w0.lock && call.request.action != Restart
    case UndoHealing(job) =>
      JobFrom(cfg, call, w0, job) && w.lock == w0.lock && w.running == AllOn(job.st.current)
          && call.request.action != Restart
    case Done(outcome, about) => Means(cfg, call, w0, w, outcome, about)
  }

  /** The meaning of each outcome word. */
  ghost predicate Means(cfg: Config, call: Call, w0: World, w: World, outcome: Outcome, about: Option<Job>) {
    var action := call.request.action;
    && (about.Some? ==> JobFrom(cfg, call, w0, about.value))
    && (outcome.Noop? || outcome.Refused? || outcome.NotConfirmed? || outcome.NeedsApproval? ==> w == w0)
    && (outcome.MigrationFailed? ==> action == Upgrade && w.running == w0.running && w.lock == w0.lock)
    && (outcome.RolledBack? ==>
          action != Restart && about.Some? && w.lock == w0.lock && w.running == AllOn(about.value.st.current))
    && (outcome.RollbackFailed? ==> action != Restart && w.lock == w0.lock)
    && (outcome.Succeeded? ==>
          about.Some? && if action == Restart then OnlyRevived(w0, w) else Moved(cfg, w, about.value, true))
    && (outcome.Error? ==> about.Some? && action != Rollback)
    && (outcome.Error? ==> if action == Restart then Dimmed(w0, w) else Moved(cfg, w, about.value, w.lock != w0.lock))
    && (outcome.LockFileRaised? ==>
          if about.None? then w == w0
          else
            && action == Rollback && Render(cfg, about.value).Err? && w.lock == w0.lock
            && Moved(cfg, w, about.value, false))
    && (outcome.OsRaised? ==> about.Some? && action == Rollback && Moved(cfg, w, about.value, w.lock != w0.lock))
    && (outcome.SleepFailed? ==>
          about.Some? && w.lock == w0.lock
          && if action == Restart then OnlyRevived(w0, w)
             else Moved(cfg, w, about.value, false) || w.running == AllOn(about.value.st.current))
  }

  /** Whatever ran still runs the same image; services that were down may be up.
      Containers that start migrate by themselves, so the schema may have moved. */
  predicate OnlyRevived(w0: World, w: World) {
    && w.lock == w0.lock
    && (w0.running.backend.Some? ==> w.running.backend == w0.running.backend)
    && (w0.running.worker.Some? ==> w.running.worker == w0.running.worker)
    && (w0.running.frontend.Some? ==> w.running.frontend == w0.running.frontend)
  }

  /** The same, except that some services may be down. */
  predicate Dimmed(w0: World, w: World) {
    && w.lock == w0.lock
    && (w0.running.backend.Some? ==> w.running.backend == w0.running.backend || w.running.backend == None)
    && (w0.running.worker.Some? ==> w.running.worker == w0.running.worker || w.running.worker == None)
    && (w0.running.frontend.Some? ==> w.running.frontend == w0.running.frontend || w.running.frontend == None)
  }

  /** The target's images run on every service, and, if `recorded`, the lock says so. */
  ghost predicate Moved(cfg: Config, w: World, job: Job, recorded: bool) {
    w.running == AllOn(job.target) && (recorded ==> Render(cfg, job) == Ok(w.lock))
  }

  /** Where `e` leads from a point, the world is as `At` says there. */
  ghost predicate Keeps(cfg: Config, call: Call, w0: World, w: World, e: Event, to: Option<Pc>) {
    to.Some? ==> At(cfg, call, w0, Do(w, e), to.value)
  }

  lemma JobBelongs(cfg: Config, call: Call, w0: World, job: Job)
    requires JobFrom(cfg, call, w0, job)
    ensures job.call == call && (job.release.Some? <==> call.request.action == Upgrade)
  {
  }

  /** Until a run has acted, it can go on or stop anywhere. */
  lemma WhileUntouched(cfg: Config, call: Call, w0: World, job: Job)
    requires JobFrom(cfg, call, w0, job)
    ensures forall outcome :: outcome in {Refused, NotConfirmed, NeedsApproval} ==>
            At(cfg, call, w0, w0, Done(outcome, Some(job)))
    ensures call.request.action == Upgrade ==>
            At(cfg, call, w0, w0, BackingUp(job)) && At(cfg, call, w0, w0, Migrating(job))
    ensures call.request.action != Restart ==>
            At(cfg, call, w0, w0, Pulling(job)) && At(cfg, call, w0, w0, Recreating(job))
    ensures call.request.action == Restart ==> At(cfg, call, w0, w0, Restarting(job))
  {
    hide JobFrom;
  }

  /** Once its images run, what a run may say depends on the lock. */
  lemma OnceDeployed(cfg: Config, call: Call, w0: World, w: World, job: Job)
    requires JobFrom(cfg, call, w0, job) && call.request.action != Restart && w.running == AllOn(job.target)
    requires w.lock == w0.lock || Render(cfg, job) == Ok(w.lock)
    ensures Render(cfg, job) == Ok(w.lock) ==>
              At(cfg, call, w0, w, Syncing(job)) && At(cfg, call, w0, w, Done(Succeeded, Some(job)))
    ensures At(cfg, call, w0, w, Done(if call.request.action == Upgrade then Error else OsRaised, Some(job)))
    ensures call.request.action == Rollback && Render(cfg, job).Err? ==>
            At(cfg, call, w0, w, Done(LockFileRaised, Some(job)))
  {
    hide JobFrom;
    hide Render;
  }

  lemma FromReading(cfg: Config, call: Call, w0: World, w: World, e: Event)
    requires At(cfg, call, w0, w, Reading(call)) && (e.ReadLock? ==> e.text == w.lock)
    ensures Keeps(cfg, call, w0, w, e, OnReading(cfg, call, e))
  {
    hide ToVerify;
  }

  lemma FromResolving(cfg: Config, call: Call, w0: World, w: World, st: LockState, e: Event)
    requires At(cfg, call, w0, w, Resolving(call, st))
    ensures Keeps(cfg, call, w0, w, e, OnResolving(cfg, call, st, e))
  {
    hide Fits;
    hide Versions.IsDowngrade;
  }

  lemma FromProbing(cfg: Config, call: Call, w0: World, w: World, st: LockState, rel: Release, e: Event)
    requires At(cfg, call, w0, w, Probing(call, st, rel))
    ensures Keeps(cfg, call, w0, w, e, OnProbing(cfg, call, st, rel, e))
  {
    hide Versions.IsDowngrade;
    hide ToVerify;
  }

  lemma FromVerifying(cfg: Config, call: Call, w0: World, w: World, job: Job, todo: seq<(string, string)>,
      passed: bool, e: Event)
    requires At(cfg, call, w0, w, Verifying(job, todo, passed))
    ensures Keeps(cfg, call, w0, w, e, OnVerifying(cfg, job, todo, passed, e))
  {
    hide Admissible;
    hide PreflightPasses;
  }

  lemma FromProbingBack(cfg: Config, call: Call, w0: World, w: World, job: Job, passed: bool, e: Event)
    requires At(cfg, call, w0, w, ProbingBack(job, passed))
    ensures Keeps(cfg, call, w0, w, e, OnProbingBack(job, passed, e))
  {
  }

  lemma FromConfirming(cfg: Config, call: Call, w0: World, w: World, job: Job, e: Event)
    requires At(cfg, call, w0, w, Confirming(job))
    ensures Keeps(cfg, call, w0, w, e, OnConfirming(cfg, job, e))
  {
    if e.Confirm? {
      assert Do(w, e) == w == w0;
      JobBelongs(cfg, call, w0, job);
      WhileUntouched(cfg, call, w0, job);
      hide At;
      hide Do;
    }
  }

  lemma FromBackingUp(cfg: Config, call: Call, w0: World, w: World, job: Job, e: Event)
    requires At(cfg, call, w0, w, BackingUp(job))
    ensures Keeps(cfg, call, w0, w, e, OnBackingUp(cfg, job, e))
  {
    if e.Backup? {
      assert Do(w, e) == w == w0;
      JobBelongs(cfg, call, w0, job);
      WhileUntouched(cfg, call, w0, job);
      hide At;
      hide Do;
    }
  }

  lemma FromPulling(cfg: Config, call: Call, w0: World, w: World, job: Job, e: Event)
    requires At(cfg, call, w0, w, Pulling(job))
    ensures Keeps(cfg, call, w0, w, e, OnPulling(job, e))
  {
    if e.Pull? {
      assert Do(w, e) == w == w0;
      JobBelongs(cfg, call, w0, job);
      WhileUntouched(cfg, call, w0, job);
      hide At;
      hide Do;
    }
  }

  lemma FromMigrating(cfg: Config, call: Call, w0: World, w: World, job: Job, e: Event)
    requires At(cfg, call, w0, w, Migrating(job))
    ensures Keeps(cfg, call, w0, w, e, OnMigrating(job, e))
  {
    if OnMigrating(job, e).Some? {
      var after := Do(w, e);
      assert after.running == w.running && after.lock == w.lock && (e.exit == GATE_BLOCKED ==> after == w);
      WhileUntouched(cfg, call, w0, job);
      OnceMigrated(cfg, call, w0, after, job);
      hide At;
      hide Do;
    }
  }

  /** After a migration that applied something, or may have. */
  lemma OnceMigrated(cfg: Config, call: Call, w0: World, w: World, job: Job)
    requires JobFrom(cfg, call, w0, job) && call.request.action == Upgrade && w.running == w0.running
             && w.lock == w0.lock
    ensures At(cfg, call, w0, w, Done(MigrationFailed, Some(job))) && At(cfg, call, w0, w, Recreating(job))
  {
    hide JobFrom;
    hide Moved;
    hide OnlyRevived;
    hide Dimmed;
  }

  lemma FromRecreating(cfg: Config, call: Call, w0: World, w: World, job: Job, e: Event)
    requires At(cfg, call, w0, w, Recreating(job))
    ensures Keeps(cfg, call, w0, w, e, OnRecreating(job, e))
  {
    JobBelongs(cfg, call, w0, job);
    hide JobFrom;
    hide Serving;
  }

  lemma FromRestarting(cfg: Config, call: Call, w0: World, w: World, job: Job, e: Event)
    requires At(cfg, call, w0, w, Restarting(job))
    ensures Keeps(cfg, call, w0, w, e, OnRestarting(job, e))
  {
    JobBelongs(cfg, call, w0, job);
    hide JobFrom;
    hide Serving;
  }

  lemma FromHealing(cfg: Config, call: Call, w0: World, w: World, job: Job, e: Event)
    requires At(cfg, call, w0, w, Healing(job))
    ensures Keeps(cfg, call, w0, w, e, OnHealing(cfg, job, e))
  {
    if OnHealing(cfg, job, e).Some? {
      assert Do(w, e) == w && job.call == call;
      WhileHealing(cfg, call, w0, w, job);
      hide At;
      hide Do;
      hide Serving;
    }
  }

  lemma WhileHealing(cfg: Config, call: Call, w0: World, w: World, job: Job)
    requires At(cfg, call, w0, w, Healing(job))
    ensures At(cfg, call, w0, w, Done(SleepFailed, Some(job)))
    ensures call.request.action == Restart ==>
              At(cfg, call, w0, w, Done(Succeeded, Some(job))) && At(cfg, call, w0, w, Done(Error, Some(job)))
    ensures call.request.action != Restart ==>
              At(cfg, call, w0, w, Committing(job)) && At(cfg, call, w0, w, Undoing(job))
  {
    hide JobFrom;
  }

  lemma FromCommitting(cfg: Config, call: Call, w0: World, w: World, job: Job, e: Event)
    requires At(cfg, call, w0, w, Committing(job))
    ensures Keeps(cfg, call, w0, w, e, OnCommitting(cfg, job, e))
  {
    if OnCommitting(cfg, job, e).Some? {
      var after := Do(w, e);
      assert after == w.(lock := if e.Rename? then e.text else w.lock);
      JobBelongs(cfg, call, w0, job);
      OnceDeployed(cfg, call, w0, after, job);
      hide At;
      hide Do;
      hide Render;
    }
  }

  lemma FromSyncing(cfg: Config, call: Call, w0: World, w: World, job: Job, e: Event)
    requires At(cfg, call, w0, w, Syncing(job))
    ensures Keeps(cfg, call, w0, w, e, OnSyncing(job, e))
  {
    if OnSyncing(job, e).Some? {
      var after := Do(w, e);
      assert after == w;
      JobBelongs(cfg, call, w0, job);
      OnceDeployed(cfg, call, w0, after, job);
      hide At;
      hide Do;
      hide Render;
    }
  }

  lemma FromUndoing(cfg: Config, call: Call, w0: World, w: World, job: Job, e: Event)
    requires At(cfg, call, w0, w, Undoing(job))
    ensures Keeps(cfg, call, w0, w, e, OnUndoing(job, e))
  {
    JobBelongs(cfg, call, w0, job);
    hide JobFrom;
    hide Serving;
  }

  lemma FromUndoHealing(cfg: Config, call: Call, w0: World, w: World, job: Job, e: Event)
    requires At(cfg, call, w0, w, UndoHealing(job))
    ensures Keeps(cfg, call, w0, w, e, OnUndoHealing(cfg, job, e))
  {
    if OnUndoHealing(cfg, job, e).Some? {
      assert Do(w, e) == w;
      WhileHealingBack(cfg, call, w0, w, job);
      hide At;
      hide Do;
      hide Serving;
    }
  }

  lemma WhileHealingBack(cfg: Config, call: Call, w0: World, w: World, job: Job)
    requires At(cfg, call, w0, w, UndoHealing(job))
    ensures forall outcome :: outcome in {RolledBack, RollbackFailed, SleepFailed} ==>
              At(cfg, call, w0, w, Done(outcome, Some(job)))
  {
    hide JobFrom;
  }

  lemma KeepsTheCall(cfg: Config, call: Call, w0: World, w: World, pc: Pc)
    requires At(cfg, call, w0, w, pc)
    ensures pc.Reading? || pc.Resolving? || pc.Probing? ==> pc.call == call
  {
  }

  lemma NothingFollows(cfg: Config, call: Call, w0: World, w: World, e: Event)
    ensures Keeps(cfg, call, w0, w, e, None)
  {
  }

  lemma AtStep(cfg: Config, call: Call, w0: World, w: World, pc: Pc, e: Event)
    requires At(cfg, call, w0, w, pc) && (e.ReadLock? ==> e.text == w.lock)
    ensures Keeps(cfg, call, w0, w, e, Step(cfg, pc, e))
  {
    KeepsTheCall(cfg, call, w0, w, pc);
    hide Keeps;
    hide At;
    match pc {
      case Reading(_) => FromReading(cfg, call, w0, w, e);
      case Resolving(_, st) => FromResolving(cfg, call, w0, w, st, e);
      case Probing(_, st, rel) => FromProbing(cfg, call, w0, w, st, rel, e);
      case Verifying(job, todo, passed) => FromVerifying(cfg, call, w0, w, job, todo, passed, e);
      case ProbingBack(job, passed) => FromProbingBack(cfg, call, w0, w, job, passed, e);
      case Confirming(job) => FromConfirming(cfg, call, w0, w, job, e);
      case BackingUp(job) => FromBackingUp(cfg, call, w0, w, job, e);
      case Pulling(job) => FromPulling(cfg, call, w0, w, job, e);
      case Migrating(job) => FromMigrating(cfg, call, w0, w, job, e);
      case Recreating(job) => FromRecreating(cfg, call, w0, w, job, e);
      case Restarting(job) => FromRestarting(cfg, call, w0, w, job, e);
      case Healing(job) => FromHealing(cfg, call, w0, w, job, e);
      case Committing(job) => FromCommitting(cfg, call, w0, w, job, e);
      case Syncing(job) => FromSyncing(cfg, call, w0, w, job, e);
      case Undoing(job) => FromUndoing(cfg, call, w0, w, job, e);
      case UndoHealing(job) => FromUndoHealing(cfg, call, w0, w, job, e);
      case Done(_, _) => NothingFollows(cfg, call, w0, w, e);
    }
  }

  /** Wherever a run has got to, or was cut short, the world is as `At` says. */
  lemma {:induction false} RunIsAt(cfg: Config, call: Call, w0: World, es: seq<Event>, pc: Pc)
    requires RunOf(cfg, call, w0, es, pc)
    ensures At(cfg, call, w0, DoAll(w0, es), pc)
    decreases |es|
  {
    hide Step;
    if es == [] {
      assert pc == Reading(call);
    } else {
      var n := |es| - 1;
      var p := Steps(cfg, Reading(call), es[..n]).value;
      assert forall i :: 0 <= i < n ==> es[..n][..i] == es[..i];
      RunIsAt(cfg, call, w0, es[..n], p);
      AtStep(cfg, call, w0, DoAll(w0, es[..n]), p, es[n]);
    }
  }

  // ---- which commands an outcome allows ------------------------------------

  /** The commands that change the instance or its lock. */
  predicate Acts(e: Event) {
    e.Migrate? || e.Up? || e.RestartAll? || e.Rename?
  }

  predicate Quiet(es: seq<Event>) {
    forall i :: 0 <= i < |es| ==> !Acts(es[i])
  }

  predicate NeverRenamed(es: seq<Event>) {
    forall i :: 0 <= i < |es| ==> !es[i].Rename?
  }

  predicate OnlyMigrated(es: seq<Event>) {
    forall i :: 0 <= i < |es| && Acts(es[i]) ==> es[i].Migrate?
  }

  /** The migration was the last command, and the only one that acts. */
  predicate EndedMigrating(es: seq<Event>) {
    es != [] && es[|es| - 1].Migrate? && Quiet(es[..|es| - 1])
  }

  /** The commands behind each outcome: none that acts, the migration alone, or
      anything but a rewrite of the lock. */
  predicate Commands(outcome: Outcome, about: Option<Job>, es: seq<Event>) {
    && (outcome.Noop? || outcome.Refused? || outcome.NotConfirmed? || (outcome.LockFileRaised? && about.None?) ==>
       Quiet(es))
    && (outcome.NeedsApproval? ==> EndedMigrating(es) && es[|es| - 1].exit == GATE_BLOCKED)
    && (outcome.MigrationFailed? ==> EndedMigrating(es) && es[|es| - 1].exit != GATE_BLOCKED && es[|es| - 1].exit != 0)
    && (outcome.RolledBack? || outcome.RollbackFailed? || outcome.LockFileRaised? || outcome.SleepFailed? ==>
       NeverRenamed(es))
  }

  ghost predicate ActedAt(es: seq<Event>, pc: Pc) {
    match pc
    case Recreating(_) => OnlyMigrated(es)
    case Healing(_) => NeverRenamed(es)
    case Committing(_) => NeverRenamed(es)
    case Syncing(_) => true
    case Undoing(_) => NeverRenamed(es)
    case UndoHealing(_) => NeverRenamed(es)
    case Done(outcome, about) => Commands(outcome, about, es)
    case _ => Quiet(es)
  }

  /** Which commands each point can issue, and on what images. */
  lemma ActsFrom(cfg: Config, p: Pc, e: Event)
    requires Step(cfg, p, e).Some?
    ensures e.Migrate? ==> p.Migrating? && e.images == p.job.target
    ensures e.Up? ==> (p.Recreating? && e.images == p.job.target) || (p.Undoing? && e.images == p.job.st.current)
    ensures e.RestartAll? ==> p.Restarting? && e.images == p.job.target
    ensures e.Rename? ==> p.Committing? && Render(cfg, p.job) == Ok(e.text)
  {
  }

  /** How far a point is from its first command that acts. */
  predicate BeforeActing(pc: Pc) {
    && !pc.Recreating? && !pc.Healing? && !pc.Committing? && !pc.Syncing? && !pc.Undoing? && !pc.UndoHealing?
       && !pc.Done?
  }

  /** Where a point that has not acted can lead. */
  lemma EarlyLeadsTo(cfg: Config, pc: Pc, e: Event)
    requires Step(cfg, pc, e).Some? && BeforeActing(pc)
    ensures var after := Step(cfg, pc, e).value;
      || BeforeActing(after) || (after.Recreating? && (pc.Pulling? || (pc.Migrating? && e.Migrate?)))
      || (pc.Restarting? && (after.Healing? || (after.Done? && after.outcome == Error)))
      || (after.Done? && !pc.Migrating? && !pc.Restarting?
         && after.outcome in {Noop, Refused, NotConfirmed, LockFileRaised})
      || (after.Done? && pc.Migrating? && e.Migrate?
          && ((after.outcome == NeedsApproval && e.exit == GATE_BLOCKED)
              || (after.outcome == MigrationFailed && e.exit != GATE_BLOCKED && e.exit != 0)))
  {
  }

  lemma LateLeadsTo(cfg: Config, pc: Pc, e: Event)
    requires Step(cfg, pc, e).Some? && !BeforeActing(pc)
    ensures var after := Step(cfg, pc, e).value;
      || (after.Healing? && !pc.Syncing?) || (after.Committing? && pc.Healing?) || after.Syncing?
      || (after.Undoing? && !pc.Syncing?) || (after.UndoHealing? && !pc.Syncing?)
      || (after.Done? && after.outcome in {Succeeded, Error, OsRaised})
      || (after.Done? && after.outcome in {RolledBack, RollbackFailed, SleepFailed} && !pc.Syncing?)
      || (after.Done? && after.outcome == LockFileRaised && after.about.Some? && pc.Committing? && !e.Rename?)
  {
    hide Serving;
  }

  lemma QuietGrows(es: seq<Event>, e: Event)
    requires Quiet(es)
    ensures !Acts(e) ==> Quiet(es + [e])
    ensures !e.Rename? ==> NeverRenamed(es + [e])
    ensures e.Migrate? ==> EndedMigrating(es + [e]) && OnlyMigrated(es + [e])
    ensures !Acts(e) ==> OnlyMigrated(es + [e])
  {
    assert (es + [e])[..|es|] == es && (es + [e])[|es|] == e;
  }

  lemma EarlyActed(cfg: Config, es: seq<Event>, pc: Pc, e: Event)
    requires Step(cfg, pc, e).Some? && BeforeActing(pc) && ActedAt(es, pc)
    ensures ActedAt(es + [e], Step(cfg, pc, e).value)
  {
    ActsFrom(cfg, pc, e);
    EarlyLeadsTo(cfg, pc, e);
    hide Step;
    QuietGrows(es, e);
    assert (es + [e])[|es|] == e;
    hide Quiet;
    hide NeverRenamed;
    hide EndedMigrating;
    hide OnlyMigrated;
  }

  lemma LateActed(cfg: Config, es: seq<Event>, pc: Pc, e: Event)
    requires Step(cfg, pc, e).Some? && !BeforeActing(pc) && ActedAt(es, pc)
    ensures ActedAt(es + [e], Step(cfg, pc, e).value)
  {
    ActsFrom(cfg, pc, e);
    LateLeadsTo(cfg, pc, e);
    hide Step;
    assert pc.Syncing? || pc.Done? || NeverRenamed(es);
    assert !e.Rename? && NeverRenamed(es) ==> NeverRenamed(es + [e]);
    hide NeverRenamed;
    hide EndedMigrating;
    hide OnlyMigrated;
    hide Quiet;
  }

  lemma ActedStep(cfg: Config, es: seq<Event>, pc: Pc, e: Event)
    requires Step(cfg, pc, e).Some? && ActedAt(es, pc)
    ensures ActedAt(es + [e], Step(cfg, pc, e).value)
  {
    hide Step;
    hide ActedAt;
    if BeforeActing(pc) {
      EarlyActed(cfg, es, pc, e);
    } else {
      LateActed(cfg, es, pc, e);
    }
  }

  lemma {:induction false} RunActed(cfg: Config, call: Call, es: seq<Event>, pc: Pc)
    requires Steps(cfg, Reading(call), es) == Some(pc)
    ensures ActedAt(es, pc)
    decreases |es|
  {
    hide Step;
    if es == [] {
      assert pc == Reading(call);
    } else {
      var n := |es| - 1;
      var p := Steps(cfg, Reading(call), es[..n]).value;
      RunActed(cfg, call, es[..n], p);
      ActedStep(cfg, es[..n], p, es[n]);
      assert es == es[..n] + [es[n]];
    }
  }

  /** The outcome word determines the world and the commands behind it; a
      migration that stopped with exit 2 or 3 changed nothing at all. */
  lemma OutcomeDeterminesWorld(cfg: Config, call: Call, w0: World, es: seq<Event>, outcome: Outcome, about: Option<Job>)
    requires RunOf(cfg, call, w0, es, Done(outcome, about))
    ensures Means(cfg, call, w0, DoAll(w0, es), outcome, about)
    ensures Commands(outcome, about, es)
    ensures outcome.MigrationFailed? && es[|es| - 1].exit == GATE_NO_BACKUP ==> DoAll(w0, es) == w0
  {
    RunIsAt(cfg, call, w0, es, Done(outcome, about));
    RunActed(cfg, call, es, Done(outcome, about));
    if outcome.MigrationFailed? && es[|es| - 1].exit == GATE_NO_BACKUP {
      NoDumpChangesNothing(cfg, call, w0, es, outcome, about);
    }
  }

  lemma NoDumpChangesNothing(cfg: Config, call: Call, w0: World, es: seq<Event>, outcome: Outcome, about: Option<Job>)
    requires RunOf(cfg, call, w0, es, Done(outcome, about)) && EndedMigrating(es) && es[|es| - 1].exit == GATE_NO_BACKUP
    ensures DoAll(w0, es) == w0
  {
    var n := |es| - 1;
    var p := Steps(cfg, Reading(call), es[..n]).value;
    ActsFrom(cfg, p, es[n]);
    hide Step;
    assert forall i :: 0 <= i < n ==> es[..n][..i] == es[..i];
    RunIsAt(cfg, call, w0, es[..n], p);
  }
}
