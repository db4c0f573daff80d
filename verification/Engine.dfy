/** The engine as it runs: methods that issue commands to a host whose every
    answer is arbitrary, proved to follow the run machine step by step. */
module Engine {
  import opened Base
  import opened Approval
  import opened RunMachine
  import opened RunProperties
  import opened RunWords
  import opened Locking
  import Lockfile
  import Versions

  /** One named check of a step's report. */
  datatype Check = Check(name: string, ok: bool)

  predicate AllOk(checks: seq<Check>) {
    forall i :: 0 <= i < |checks| ==> checks[i].ok
  }

  /** A check of that name was made. */
  predicate Asked(checks: seq<Check>, name: string) {
    exists i :: 0 <= i < |checks| && checks[i].name == name
  }

  /** `checks.append(_check(name, ok, …))` */
  function Add(checks: seq<Check>, name: string, ok: bool): (r: seq<Check>)
    ensures AllOk(r) <==> AllOk(checks) && ok
    ensures forall other: string :: Asked(r, other) <==> Asked(checks, other) || other == name
  {
    var r := checks + [Check(name, ok)];
    assert forall i :: 0 <= i < |checks| ==> r[i] == checks[i];
    assert r[|checks|].ok == ok && r[|checks|].name == name;
    r
  }

  lemma NothingAsked()
    ensures AllOk([]) && forall name: string :: !Asked([], name)
  {
  }

  lemma OneMore(start: World, es: seq<Event>, e: Event)
    requires Faithful(start, es) && (e.ReadLock? ==> e.text == DoAll(start, es).lock)
    ensures (es + [e])[..|es + [e]| - 1] == es
    ensures DoAll(start, es + [e]) == Do(DoAll(start, es), e) && Faithful(start, es + [e])
  {
    var more := es + [e];
    assert more[..|more| - 1] == es;
    forall i | 0 <= i < |more| && more[i].ReadLock? ensures more[i].text == DoAll(start, more[..i]).lock {
      if i < |es| {
        assert more[..i] == es[..i];
      }
    }
  }

  /** The instance and everything outside the process. */
  class Host {
    const cfg: Config
    var world: World
    var clock: int
    ghost var start: World
    ghost var begin: Pc
    ghost var es: seq<Event>  // every command so far, with its answer

    ghost predicate Valid()
      reads this
    {
      world == DoAll(start, es) && Faithful(start, es)
    }

    ghost function At(): Option<Pc>
      reads this
    {
      Steps(cfg, begin, es)
    }

    constructor (c: Config, w: World, ghost call: Call)
      ensures Valid() && cfg == c && world == w && start == w && begin == Reading(call) && es == []
    {
      cfg, world, clock := c, w, 0;
      start, begin, es := w, Reading(call), [];
    }

    /** Exactly the command `e` was issued. */
    twostate predicate Issued(e: Event)
      reads this
    {
      && Valid() && start == old(start) && begin == old(begin) && es == old(es) + [e]
      && (old(At()).Some? ==> At() == Step(cfg, old(At()).value, e))
    }

    method Issue(e: Event)
      requires Valid() && (e.ReadLock? ==> e.text == world.lock)
      modifies this`world, this`es
      ensures Issued(e)
    {
      OneMore(start, es, e);
      world := Do(world, e);
      es := es + [e];
    }

    method ReadLockFile() returns (text: string)
      requires Valid()
      modifies this`world, this`es
      ensures Issued(ReadLock(text))
    {
      text := world.lock;
      Issue(ReadLock(text));
    }

    /** `_resolve`: an invalid tag is not even asked for, and an answer that
        `ReleaseSource.resolve` refuses counts as none. */
    method ResolveTag(tag: string) returns (release: Option<Release>)
      requires Valid()
      modifies this`world, this`es
      ensures Issued(Resolve(release)) && (release.Some? ==> Fits(release.value, tag))
    {
      release := None;
      if ValidTag(tag) {
        var answer: Option<Release> :| answer.Some? ==> Fits(answer.value, tag);
        release := answer;
      }
      Issue(Resolve(release));
    }

    method ReadHealth() returns (health: Option<Health>)
      requires Valid()
      modifies this`world, this`es
      ensures Issued(Quick(health))
    {
      health := *;
      Issue(Quick(health));
    }

    /** A reference that is not pinned by digest is refused before cosign starts. */
    method Cosign(kind: string, ref: string) returns (ok: bool)
      requires Valid()
      modifies this`world, this`es
      ensures Issued(Verdict(kind, ref, ok)) && (ok ==> Pinned(ref))
    {
      ok := *;
      if !Pinned(ref) {
        ok := false;
      }
      Issue(Verdict(kind, ref, ok));
    }

    method FilesAndDisk() returns (files: bool, disk: bool)
      requires Valid()
      modifies this`world, this`es
      ensures Issued(Preflight(files, disk))
    {
      files, disk := *, *;
      Issue(Preflight(files, disk));
    }

    method StampOf() returns (version: Option<string>)
      requires Valid()
      modifies this`world, this`es
      ensures Issued(Stamp(version))
    {
      version := *;
      Issue(Stamp(version));
    }

    method Ask(prompt: bool) returns (yes: bool)
      requires Valid()
      modifies this`world, this`es
      ensures Issued(Confirm(yes)) && (yes ==> prompt)
    {
      yes := *;
      yes := yes && prompt;
      Issue(Confirm(yes));
    }

    method RunBackup(images: ImageSet) returns (exit: int, reportOk: bool, verified: bool)
      requires Valid()
      modifies this`world, this`es
      ensures Issued(Event.Backup(images, exit, reportOk, verified))
    {
      exit, reportOk, verified := *, *, *;
      Issue(Event.Backup(images, exit, reportOk, verified));
    }

    method ComposePull(images: ImageSet) returns (ok: bool)
      requires Valid()
      modifies this`world, this`es
      ensures Issued(Pull(images, ok))
    {
      ok := *;
      Issue(Pull(images, ok));
    }

    method RunMigrator(images: ImageSet, destructive: bool) returns (exit: int)
      requires Valid()
      modifies this`world, this`es
      ensures exists db :: Issued(Migrate(images, destructive, exit, db))
    {
      exit := *;
      var db: string := *;
      Issue(Migrate(images, destructive, exit, db));
    }

    method ComposeUp(images: ImageSet) returns (ok: bool)
      requires Valid()
      modifies this`world, this`es
      ensures exists after, db :: Issued(Up(images, ok, after, db))
    {
      ok := *;
      var after: Running, db: string := *, *;
      Issue(Up(images, ok, after, db));
    }

    method ComposeRestart(images: ImageSet) returns (ok: bool)
      requires Valid()
      modifies this`world, this`es
      ensures exists after, db :: Issued(RestartAll(images, ok, after, db))
    {
      ok := *;
      var after: Running, db: string := *, *;
      Issue(RestartAll(images, ok, after, db));
    }

    /** Sleeping moves the clock on by at least what was asked, and raises when
        that is negative. */
    method Sleep(interval: int) returns (ok: bool)
      modifies this`clock
      ensures ok <==> interval >= 0
      ensures if ok then clock >= old(clock) + interval else clock == old(clock)
    {
      if interval < 0 {
        return false;
      }
      var late :| 0 <= late;
      clock := clock + interval + late;
      return true;
    }

    /** Requests and commands take at least one tick. */
    method Spend()
      modifies this`clock
      ensures clock > old(clock)
    {
      var passed :| 1 <= passed;
      clock := clock + passed;
    }

    method Monotonic() returns (now: int)
      modifies this`clock
      ensures now == clock && clock >= old(clock)
    {
      var passed :| 0 <= passed;
      clock := clock + passed;
      now := clock;
    }
  }

  datatype Report = Finished(outcome: Outcome) | Locked | NotReady | OpenFailed

  class Engine {
    const host: Host
    const lock: InstanceLock
    const timeout: int  // for the health rounds, in ticks of the clock

    constructor (h: Host, l: InstanceLock, limit: int)
      ensures host == h && lock == l && timeout == limit
    {
      host, lock, timeout := h, l, limit;
    }

    // ---- preflight -------------------------------------------------------

    method VerifyAll(images: ImageSet, ghost job: Job) returns (checks: seq<Check>)
      requires host.Valid() && job.target == images
      requires host.At() == Some(Verifying(job, ToVerify(host.cfg, images), true))
      modifies host`world, host`es
      ensures host.Valid() && host.start == old(host.start) && host.begin == old(host.begin)
      ensures host.At() == Some(Verifying(job, [], AllOk(checks)))
    {
      var todo := ToVerify(host.cfg, images);
      checks := [];
      for i := 0 to |todo|
        invariant host.Valid() && host.start == old(host.start) && host.begin == old(host.begin)
        invariant host.At() == Some(Verifying(job, todo[i..], AllOk(checks)))
      {
        var ok := host.Cosign(todo[i].0, todo[i].1);
        checks := Add(checks, todo[i].0, ok);
        assert todo[i..][0] == todo[i] && todo[i..][1..] == todo[i + 1..];
      }
      assert todo[|todo|..] == [];
    }

    /** `steps.preflight`: every check runs, and one failure fails the step. */
    method PreflightStep(release: Release, health: Option<Health>, ghost job: Job) returns (passed: bool)
      requires host.Valid() && job.release == Some(release) && job.health == health && job.target == ImagesFor(release)
      requires host.At() == Some(Verifying(job, ToVerify(host.cfg, job.target), true))
      modifies host`world, host`es
      ensures host.Valid() && host.start == old(host.start) && host.begin == old(host.begin)
      ensures host.At() == Some(if passed then Confirming(job) else Done(Refused, Some(job)))
    {
      var images := ImagesFor(release);
      var checks := VerifyAll(images, job);
      ghost var signed := AllOk(checks);
      hide Step;
      if !host.cfg.insecure {
        checks := Add(checks, "digests", Pinned(images.backend) && Pinned(images.frontend));
      }
      var files, disk := host.FilesAndDisk();
      checks := Add(checks, "files", files);
      checks := Add(checks, "stamp", !VersionMismatch(release));
      checks := Add(checks, "schema", Compatible(release, health));
      checks := Add(checks, "disk", disk);
      passed := AllOk(checks);
      PreflightVerdict(host.cfg, job, files, disk, signed);
      assert passed == PreflightPasses(host.cfg, job, files, disk, signed);
    }

    // ---- health ----------------------------------------------------------

    /** `_health_round`: the worker is pinged exactly when everything before it
        passed, and both self-checks run exactly when the ping did too. A round
        takes time. */
    method HealthRound(version: string, db: Option<string>) returns (checks: seq<Check>, round: Round)
      modifies host`clock
      ensures host.clock > old(host.clock)
      ensures AllOk(checks) <==> Passes(host.cfg, version, db, round)
      ensures Asked(checks, "worker") <==> host.cfg.workerPing && FrontServing(version, db, round)
      ensures Asked(checks, "selfcheck backend") <==>
              host.cfg.selfcheck && FrontServing(version, db, round) && (host.cfg.workerPing ==> round.ping)
      ensures Asked(checks, "selfcheck worker") <==> Asked(checks, "selfcheck backend")
    {
      host.Spend();
      checks, round := FrontChecks(version, db);
      checks, round := WorkerChecks(checks, round);
    }

    /** The checks from outside; an unreachable instance fails at the first. */
    method FrontChecks(version: string, db: Option<string>) returns (checks: seq<Check>, round: Round)
      ensures AllOk(checks) <==> FrontServing(version, db, round)
      ensures !Asked(checks, "worker") && !Asked(checks, "selfcheck backend") && !Asked(checks, "selfcheck worker")
    {
      checks := [];
      NothingAsked();
      hide AllOk;
      hide Asked;
      hide Versions.Norm;
      var quick: Option<Health> :| true;
      round := Round(quick, 0, 0, false, false, false);
      if quick.None? {
        checks := Add(checks, "health/quick", false);
        return;
      }
      if version != "" {
        var got := quick.value.version;
        var same := got.Some? && Versions.Norm(got.value) == Versions.Norm(version);
        checks := Add(checks, "version", same);
      }
      if Truthy(db) {
        checks := Add(checks, "db_revision", quick.value.dbRevision == db);
      }
      var root: int, services: int := *, *;
      round := Round(quick, root, services, false, false, false);
      checks := Add(checks, "GET /", root == 200);
      checks := Add(checks, "GET /api/services/", services == 200);
    }

    /** The checks inside the containers. */
    method WorkerChecks(front: seq<Check>, r: Round) returns (checks: seq<Check>, round: Round)
      requires !Asked(front, "worker") && !Asked(front, "selfcheck backend") && !Asked(front, "selfcheck worker")
      ensures round == r.(ping := round.ping, backendCheck := round.backendCheck, workerCheck := round.workerCheck)
      ensures AllOk(checks) <==> AllOk(front) && (host.cfg.workerPing ==> round.ping)
                                 && (host.cfg.selfcheck ==> round.backendCheck && round.workerCheck)
      ensures Asked(checks, "worker") <==> host.cfg.workerPing && AllOk(front)
      ensures Asked(checks, "selfcheck backend") <==>
              host.cfg.selfcheck && AllOk(front) && (host.cfg.workerPing ==> round.ping)
      ensures Asked(checks, "selfcheck worker") <==> Asked(checks, "selfcheck backend")
    {
      checks, round := front, r.(ping := false, backendCheck := false, workerCheck := false);
      if AllOk(checks) && host.cfg.workerPing {
        var ping: bool := *;
        round := round.(ping := ping);
        checks := Add(checks, "worker", ping);
      }
      if AllOk(checks) && host.cfg.selfcheck {
        var backend: bool, worker: bool := *, *;
        round := round.(backendCheck := backend, workerCheck := worker);
        checks := Add(Add(checks, "selfcheck backend", backend), "selfcheck worker", worker);
      }
    }

    /** `steps.health`: rounds until one passes every check, or one fails once the
        deadline is past. None when the sleep between two rounds raised. */
    method HealthStep(version: string, db: Option<string>, ghost pc: Pc) returns (ok: Option<bool>, ghost last: Round)
      requires host.Valid() && host.At() == Some(pc)
      requires Awaits(pc, version, db)
      modifies host
      ensures host.Valid() && host.start == old(host.start) && host.begin == old(host.begin)
      ensures ok == Some(true) <==> Passes(host.cfg, version, db, last)
      ensures ok == Some(false) ==> host.clock >= old(host.clock) + timeout
      ensures ok == None ==> host.cfg.healthInterval < 0
      ensures host.At() == Step(host.cfg, pc, if ok.Some? then CheckHealth(last, !ok.value) else SleepRaised)
    {
      var now := host.Monotonic();
      var deadline := now + timeout;
      while true
        invariant host.Valid() && host.start == old(host.start) && host.begin == old(host.begin)
            && host.At() == Some(pc)
        decreases deadline - host.clock
      {
        var checks, round := HealthRound(version, db);
        last := round;
        if AllOk(checks) {
          host.Issue(CheckHealth(round, false));
          return Some(true), round;
        }
        now := host.Monotonic();
        SickStays(host.cfg, pc, version, db, round);
        host.Issue(CheckHealth(round, now >= deadline));
        if now >= deadline {
          return Some(false), round;
        }
        var slept := host.Sleep(host.cfg.healthInterval);
        if !slept {
          host.Issue(SleepRaised);
          return None, round;
        }
      }
    }

    // ---- upgrade ---------------------------------------------------------

    /** `_roll_back`: the previous images, and only if they come up, their health. */
    method RollBack(job: Job) returns (outcome: Outcome)
      requires host.Valid() && host.At() == Some(Undoing(job))
      modifies host
      ensures host.Valid() && host.start == old(host.start) && host.begin == old(host.begin)
      ensures host.At() == Some(Done(outcome, Some(job)))
    {
      var previous := job.st.current;
      var up := host.ComposeUp(previous);
      if up {
        var ok, last := HealthStep(previous.ExpectedVersion(), None, UndoHealing(job));
        if ok == None {
          return SleepFailed;
        } else if ok.value {
          return RolledBack;
        }
      }
      return RollbackFailed;
    }

    /** `write_lock` and what each action makes of its failures. */
    method Commit(job: Job) returns (outcome: Outcome)
      requires host.Valid() && host.At() == Some(Committing(job))
      modifies host`world, host`es
      ensures host.Valid() && host.start == old(host.start) && host.begin == old(host.begin)
      ensures host.At() == Some(Done(outcome, Some(job)))
    {
      CommitStep(host.cfg, job, true);
      CommitStep(host.cfg, job, false);
      hide Step;
      var text := Render(host.cfg, job);
      var written: bool := *;
      if text.Err? || !written {
        host.Issue(Unwritten);
        return if job.call.request.action == Upgrade then Error else if text.Err? then LockFileRaised else OsRaised;
      }
      host.Issue(Rename(text.value));
      var synced: bool := *;
      host.Issue(SyncDir(synced));
      return if synced then Succeeded else if job.call.request.action == Upgrade then Error else OsRaised;
    }

    /** Recreate, health, and then commit or roll back. */
    method Deploy(job: Job) returns (outcome: Outcome)
      requires host.Valid() && host.At() == Some(Recreating(job)) && job.call.request.action != Restart
      modifies host
      ensures host.Valid() && host.start == old(host.start) && host.begin == old(host.begin)
      ensures host.At() == Some(Done(outcome, Some(job)))
    {
      var up := host.ComposeUp(job.target);
      if up {
        var healthy, last := HealthStep(job.version, job.db, Healing(job));
        if healthy == None {
          return SleepFailed;
        } else if healthy.value {
          outcome := Commit(job);
          return;
        }
      }
      outcome := RollBack(job);
    }

    method UpgradeLocked(call: Call) returns (outcome: Outcome, ghost about: Option<Job>)
      requires host.Valid() && host.At() == Some(Reading(call)) && call.request.action == Upgrade
      modifies host
      ensures host.Valid() && host.start == old(host.start) && host.begin == old(host.begin)
      ensures host.At() == Some(Done(outcome, about))
    {
      hide ToVerify;
      hide Versions.IsDowngrade;
      about := None;
      var text := host.ReadLockFile();
      var read := host.cfg.format.read(text);
      if read.Err? {
        return LockFileRaised, None;
      }
      var st := read.value;
      var resolved := host.ResolveTag(call.request.tag);
      if resolved.None? {
        return Refused, None;
      }
      var release := resolved.value;
      var images := ImagesFor(release);
      if images.SameImages(st.current) {
        return Noop, None;
      }
      if !call.request.allowDowngrade && Versions.IsDowngrade(release.version, st.current.ExpectedVersion()) {
        return Refused, None;
      }
      if host.cfg.format.render(Lockfile.LockState(images, Some(st.current), st.extra), "").Err? {
        return Refused, None;
      }
      var health := host.ReadHealth();
      var job := Job(call, st, images, release.version, release.dbRevision, Some(release), health);
      about := Some(job);
      var passed := PreflightStep(release, health, job);
      if !passed {
        return Refused, about;
      }
      outcome := UpgradeApproved(job);
    }

    method UpgradeApproved(job: Job) returns (outcome: Outcome)
      requires host.Valid() && host.At() == Some(Confirming(job))
      requires job.call.request.action == Upgrade && job.release.Some?
      modifies host
      ensures host.Valid() && host.start == old(host.start) && host.begin == old(host.begin)
      ensures host.At() == Some(Done(outcome, Some(job)))
    {
      var yes := host.Ask(job.call.prompt);
      if !Approved(job.call.policy, job.call.request.requestedBy, Approvals(job.call, yes)) {
        return NotConfirmed;
      }
      var backedUp := BackupStep(job);
      if !backedUp {
        return Refused;
      }
      var pulled := host.ComposePull(job.target);
      if !pulled {
        return Refused;
      }
      var stopped := MigrateStep(job);
      if stopped.Some? {
        return stopped.value;
      }
      outcome := Deploy(job);
    }

    /** `steps.backup`: from the current image; an unverified one does not count
        when the mode says verify. */
    method BackupStep(job: Job) returns (ok: bool)
      requires host.Valid() && job.call.request.action == Upgrade && host.At() == Some(AfterConfirm(host.cfg, job))
      modifies host`world, host`es
      ensures host.Valid() && host.start == old(host.start) && host.begin == old(host.begin)
      ensures host.At() == Some(if ok then Pulling(job) else Done(Refused, Some(job)))
      ensures host.cfg.backupMode == Off ==> ok && host.es == old(host.es)
      ensures host.cfg.backupMode != Off ==> |host.es| == |old(host.es)| + 1
      ensures host.cfg.backupMode != Off ==>
                var e := host.es[|old(host.es)|];
                && e.Backup? && e.images == job.st.current
                && (ok <==> e.exit == 0 && e.reportOk && (host.cfg.backupMode == Verify ==> e.verified))
    {
      if host.cfg.backupMode == Off {
        return true;
      }
      var exit, reportOk, verified := host.RunBackup(job.st.current);
      if exit != 0 || !reportOk {
        return false;
      }
      if host.cfg.backupMode == Verify && !verified {
        return false;
      }
      return true;
    }

    /** `steps.migrate`; Some when the run stops here. */
    method MigrateStep(job: Job) returns (stopped: Option<Outcome>)
      requires host.Valid() && host.At() == Some(AfterPull(job)) && job.release.Some?
      modifies host`world, host`es
      ensures host.Valid() && host.start == old(host.start) && host.begin == old(host.begin)
      ensures host.At() == Some(if stopped.Some? then Done(stopped.value, Some(job)) else Recreating(job))
      ensures host.es == old(host.es) ==> stopped == None
      ensures host.es != old(host.es) ==> |host.es| == |old(host.es)| + 1 && host.es[|old(host.es)|].Migrate?
      ensures host.es != old(host.es) ==>
                var exit := host.es[|old(host.es)|].exit;
                stopped == if exit == 0 then None else if exit == 2 then Some(NeedsApproval) else Some(MigrationFailed)
    {
      if NeedsMigration(job.release.value, job.health) {
        var exit := host.RunMigrator(job.target, job.call.request.allowDestructive);
        if exit == GATE_BLOCKED {
          return Some(NeedsApproval);
        }
        if exit != 0 {
          return Some(MigrationFailed);
        }
      }
      return None;
    }

    // ---- rollback and restart --------------------------------------------

    method RollbackLocked(call: Call) returns (outcome: Outcome, ghost about: Option<Job>)
      requires host.Valid() && host.At() == Some(Reading(call)) && call.request.action == Rollback
      modifies host
      ensures host.Valid() && host.start == old(host.start) && host.begin == old(host.begin)
      ensures host.At() == Some(Done(outcome, about))
    {
      var text := host.ReadLockFile();
      var read := host.cfg.format.read(text);
      if read.Err? {
        return LockFileRaised, None;
      }
      var st := read.value;
      if st.previous.None? {
        return Refused, None;
      }
      var target := st.previous.value;
      var job := Job(call, st, target, target.ExpectedVersion(), None, None, None);
      var checks := VerifyAll(target, job);
      var health := host.ReadHealth();
      job := job.(health := health);
      var stamp := host.StampOf();
      about := Some(job);
      if !AllOk(checks) {
        return Refused, about;
      }
      if !Truthy(target.appVersion) && Truthy(stamp) {
        job := job.(version := stamp.value);
      }
      about := Some(job);
      outcome := RollbackApproved(job);
    }

    method RollbackApproved(job: Job) returns (outcome: Outcome)
      requires host.Valid() && host.At() == Some(Confirming(job))
      requires job.call.request.action == Rollback && job.release.None?
      modifies host
      ensures host.Valid() && host.start == old(host.start) && host.begin == old(host.begin)
      ensures host.At() == Some(Done(outcome, Some(job)))
    {
      var yes := host.Ask(job.call.prompt);
      if !Approved(job.call.policy, job.call.request.requestedBy, Approvals(job.call, yes)) {
        return NotConfirmed;
      }
      var pulled := host.ComposePull(job.target);
      if !pulled {
        return Refused;
      }
      outcome := Deploy(job);
    }

    method RestartLocked(call: Call) returns (outcome: Outcome, ghost about: Option<Job>)
      requires host.Valid() && host.At() == Some(Reading(call)) && call.request.action == Restart
      modifies host
      ensures host.Valid() && host.start == old(host.start) && host.begin == old(host.begin)
      ensures host.At() == Some(Done(outcome, about))
    {
      var text := host.ReadLockFile();
      var read := host.cfg.format.read(text);
      if read.Err? {
        return LockFileRaised, None;
      }
      var current := read.value.current;
      var job := Job(call, read.value, current, current.ExpectedVersion(), None, None, None);
      about := Some(job);
      outcome := RestartApproved(job);
    }

    method RestartApproved(job: Job) returns (outcome: Outcome)
      requires host.Valid() && host.At() == Some(Confirming(job))
      requires job.call.request.action == Restart && job.version == job.target.ExpectedVersion() && job.db == None
      modifies host
      ensures host.Valid() && host.start == old(host.start) && host.begin == old(host.begin)
      ensures host.At() == Some(Done(outcome, Some(job)))
    {
      RestartSteps(host.cfg, job);
      hide Step;
      var yes := host.Ask(job.call.prompt);
      if !Approved(job.call.policy, job.call.request.requestedBy, Approvals(job.call, yes)) {
        return NotConfirmed;
      }
      var ok := host.ComposeRestart(job.target);
      if !ok {
        return Error;
      }
      hide Approved;
      var healthy, last := HealthStep(job.target.ExpectedVersion(), None, Healing(job));
      ServingIsPassing(host.cfg, job.version, None, last);
      hide Serving;
      hide Passes;
      return if healthy == None then SleepFailed else if healthy.value then Succeeded else Error;
    }

    // ---- the whole run, under the lock -----------------------------------

    /** `upgrade`, `rollback` or `restart`: the lock is taken before anything is
        read and given back on every way out, and the outcome word means what
        the run machine says it means. */
    method Run(call: Call, filesPresent: bool, open: OpenResult) returns (report: Report, ghost about: Option<Job>)
      requires host.Valid() && host.es == [] && host.begin == Reading(call)
      requires lock.Valid() && lock.fd == None
      modifies host, lock, lock.table
      ensures lock.Valid() && lock.fd == None && lock.table.holder == old(lock.table.holder)
      ensures host.Valid() && host.start == old(host.start)
      ensures report.Finished? <==> filesPresent && open == Opened && old(lock.table.holder) == None
      ensures report == NotReady <==> !filesPresent
      ensures report == OpenFailed <==> filesPresent && open == OpenResult.Failed
      ensures report == Locked <==>
                filesPresent && (open == Symlink || (open == Opened && old(lock.table.holder).Some?))
      ensures !report.Finished? ==> host.es == [] && host.world == old(host.world)
      ensures report.Finished? ==>
        && RunOf(host.cfg, call, old(host.world), host.es, Done(report.outcome, about))
        && Means(host.cfg, call, old(host.world), host.world, report.outcome, about)
    {
      about := None;
      if !filesPresent {
        return NotReady, None;
      }
      var acquired := lock.Acquire(open);
      if acquired != Acquired {
        return if acquired == InstanceLocked then Locked else OpenFailed, None;
      }
      var outcome;
      match call.request.action {
        case Upgrade => outcome, about := UpgradeLocked(call);
        case Rollback => outcome, about := RollbackLocked(call);
        case Restart => outcome, about := RestartLocked(call);
      }
      lock.Release();
      OutcomeDeterminesWorld(host.cfg, call, host.start, host.es, outcome, about);
      return Finished(outcome), about;
    }
  }

  lemma PreflightVerdict(cfg: Config, job: Job, files: bool, disk: bool, signed: bool)
    requires job.release.Some?
    ensures Step(cfg, Verifying(job, [], signed), Preflight(files, disk)) ==
            Some(if PreflightPasses(cfg, job, files, disk, signed) then Confirming(job) else Done(Refused, Some(job)))
  {
    hide PreflightPasses;
  }

  function AfterAsk(cfg: Config, job: Job, yes: bool): Pc {
    if Approved(job.call.policy, job.call.request.requestedBy, Approvals(job.call, yes)) then AfterConfirm(cfg, job)
    else Done(NotConfirmed, Some(job))
  }

  function AfterRestartRound(cfg: Config, job: Job, r: Round, late: bool): Pc {
    if Serving(cfg, job.version, job.db, r) then Done(Succeeded, Some(job))
    else if late then Done(Error, Some(job)) else Healing(job)
  }

  /** The machine's course through a restart. */
  lemma RestartSteps(cfg: Config, job: Job)
    requires job.call.request.action == Restart
    ensures forall yes: bool :: (yes ==> job.call.prompt) ==>
            Step(cfg, Confirming(job), Confirm(yes)) == Some(AfterAsk(cfg, job, yes))
    ensures forall after, db ::
            Step(cfg, Restarting(job), RestartAll(job.target, true, after, db)) == Some(Healing(job))
    ensures forall after, db ::
            Step(cfg, Restarting(job), RestartAll(job.target, false, after, db)) == Some(Done(Error, Some(job)))
    ensures forall r, late ::
            Step(cfg, Healing(job), CheckHealth(r, late)) == Some(AfterRestartRound(cfg, job, r, late))
    ensures cfg.healthInterval < 0 ==> Step(cfg, Healing(job), SleepRaised) == Some(Done(SleepFailed, Some(job)))
  {
  }

  /** What the machine makes of each way `write_lock` can end. */
  lemma CommitStep(cfg: Config, job: Job, synced: bool)
    ensures var failed := if job.call.request.action == Upgrade then Error else OsRaised;
      && Step(cfg, Syncing(job), SyncDir(synced)) == Some(Done(if synced then Succeeded else failed, Some(job)))
      && Step(cfg, Committing(job), Unwritten) ==
         (var unrendered := job.call.request.action != Upgrade && Render(cfg, job).Err?;
          Some(Done(if unrendered then LockFileRaised else failed, Some(job))))
    ensures Render(cfg, job).Ok? ==> Step(cfg, Committing(job), Rename(Render(cfg, job).value)) == Some(Syncing(job))
  {
  }

  /** The health the run at `pc` waits for. */
  predicate Awaits(pc: Pc, version: string, db: Option<string>) {
    || (pc.Healing? && version == pc.job.version && db == pc.job.db)
    || (pc.UndoHealing? && version == pc.job.st.current.ExpectedVersion() && db == None)
  }

  lemma SickStays(cfg: Config, pc: Pc, version: string, db: Option<string>, r: Round)
    requires Awaits(pc, version, db) && !Serving(cfg, version, db, r)
    ensures Step(cfg, pc, CheckHealth(r, false)) == Some(pc)
  {
  }
}
